/** The adventure path of the games area: which steps of the path are
    unlocked, which one is current, what a click on a step does and which
    steps carry the "Live AI" badge, all from the player's level. */
module StoryPath {
  import opened Wrappers

  datatype PathStep = PathStep(id: string, kind: string, title: string)

  /** `PATH_STEPS`. */
  function PathSteps(): seq<PathStep> {
    [ PathStep("word-master-1", "word-master", "Basics 1"),
      PathStep("redundancy-1", "redundancy", "Eraser Quest"),
      PathStep("chest-1", "chest", "Bonus XP"),
      PathStep("tone-switcher-1", "tone-switcher", "Mood Swings"),
      PathStep("reconstructor-1", "reconstructor", "Rebuild Room"),
      PathStep("trophy-1", "trophy", "Unit 1 Wrap") ]
  }

  /** `user?.level || 1`: a missing user, a missing level or level 0 read
      as level 1. */
  function CurrentLevel(level: Option<int>): (l: int)
    ensures level.None? ==> l == 1
    ensures level.Some? && level.value != 0 ==> l == level.value
  {
    if level.Some? && level.value != 0 then level.value else 1
  }

  predicate IsUnlocked(idx: int, level: int) {
    idx <= level - 1
  }

  predicate IsCurrent(idx: int, level: int) {
    idx == level - 1
  }

  predicate IsReward(step: PathStep) {
    step.kind == "chest" || step.kind == "trophy"
  }

  /** What one node of the path shows and does. */
  datatype Node = Node(unlocked: bool, current: bool, badge: bool, target: Option<string>)

  function NodeAt(step: PathStep, idx: int, level: int): Node {
    var unlocked := IsUnlocked(idx, level);
    Node(unlocked, IsCurrent(idx, level), unlocked && !IsReward(step),
      if unlocked then Some("/games/play/" + step.kind) else None)
  }

  /** The map over the steps. */
  function Render(steps: seq<PathStep>, level: Option<int>): (nodes: seq<Node>)
    ensures |nodes| == |steps|
    ensures forall i :: 0 <= i < |steps| ==> nodes[i] == NodeAt(steps[i], i, CurrentLevel(level))
  {
    seq(|steps|, i requires 0 <= i < |steps| => NodeAt(steps[i], i, CurrentLevel(level)))
  }

  /** Node i is unlocked iff i <= level - 1, is current iff i == level - 1,
      a click opens the step's game exactly when it is unlocked, and the
      badge shows exactly on unlocked game steps. */
  lemma NodeRules(steps: seq<PathStep>, level: Option<int>, i: nat)
    requires i < |steps|
    ensures var n := Render(steps, level)[i];
      var l := CurrentLevel(level);
      && (n.unlocked <==> i <= l - 1)
      && (n.current <==> i == l - 1)
      && (n.current ==> n.unlocked)
      && (n.target.Some? <==> n.unlocked)
      && (n.unlocked ==> n.target == Some("/games/play/" + steps[i].kind))
      && (n.badge <==> n.unlocked && steps[i].kind != "chest" && steps[i].kind != "trophy")
  {
  }

  /** At most one node is current. */
  lemma OneCurrent(steps: seq<PathStep>, level: Option<int>, i: nat, j: nat)
    requires i < |steps| && j < |steps|
    requires Render(steps, level)[i].current && Render(steps, level)[j].current
    ensures i == j
  {
  }

  /** The unlocked nodes form a prefix of the path. */
  lemma UnlockedPrefix(steps: seq<PathStep>, level: Option<int>, i: nat, j: nat)
    requires i <= j < |steps| && Render(steps, level)[j].unlocked
    ensures Render(steps, level)[i].unlocked
  {
  }

  /** With no level the first node, and only it, is unlocked and current. */
  lemma DefaultLevelOpensFirst(steps: seq<PathStep>, level: Option<int>, i: nat)
    requires level.None? || level == Some(0)
    requires i < |steps|
    ensures Render(steps, level)[i].unlocked <==> i == 0
    ensures Render(steps, level)[i].current <==> i == 0
  {
  }

  /** On the real path with the default level, the chest (step 3) is locked:
      clicking it goes nowhere. */
  lemma ChestLockedAtStart(level: Option<int>)
    requires level.None?
    ensures Render(PathSteps(), level)[2] == Node(false, false, false, None)
  {
  }
}
