/** The home page's typewriter: it types a phrase one character per tick,
    pauses, deletes it one character per tick, pauses, and moves on to the
    next phrase, forever. The timers are modelled by what each tick asks to
    happen next; the ticks themselves are method calls. */
module Typewriter {

  /** `PHRASES`. */
  const Phrases: seq<string> := ["AI co-writer", "AI editor", "AI enhancer"]

  const TypeSpeed := 110
  const DeleteSpeed := 55
  const PauseAfter := 1500
  const PauseBefore := 280

  /** The counters kept in the ref, and the text on screen. */
  datatype Cursor = Cursor(phraseIdx: nat, charIdx: nat, deleting: bool, displayed: string)

  /** What a tick schedules: another tick after `ms`, or the pause after a
      fully typed phrase, which switches to deleting and then ticks after
      DeleteSpeed. */
  datatype Next = TickAfter(ms: nat) | PauseThenDelete

  /** The invariant of the component: the index names a phrase, the
      character index lies within it, and the screen shows that much of it. */
  predicate Valid(phrases: seq<string>, c: Cursor) {
    && c.phraseIdx < |phrases|
    && c.charIdx <= |phrases[c.phraseIdx]|
    && c.displayed == phrases[c.phraseIdx][..c.charIdx]
  }

  function Start(): Cursor {
    Cursor(0, 0, false, "")
  }

  /** `s.slice(0, j)`, which stops at the end of `s`. */
  function SliceTo(s: string, j: nat): (r: string)
    ensures |r| == if j <= |s| then j else |s|
    ensures r == s[..|r|]
  {
    if j <= |s| then s[..j] else s
  }

  /** One run of `tick`. */
  function Tick(phrases: seq<string>, c: Cursor): (Cursor, Next)
    requires c.phraseIdx < |phrases|
  {
    var target := phrases[c.phraseIdx];
    if !c.deleting then
      var j := if c.charIdx + 1 <= |target| then c.charIdx + 1 else |target|;
      var c' := c.(charIdx := j, displayed := target[..j]);
      if j == |target| then (c', PauseThenDelete) else (c', TickAfter(TypeSpeed))
    else
      var j := if c.charIdx >= 1 then c.charIdx - 1 else 0;
      var c' := c.(charIdx := j, displayed := SliceTo(target, j));
      if j == 0 then (c'.(deleting := false, phraseIdx := (c.phraseIdx + 1) % |phrases|), TickAfter(PauseBefore))
      else (c', TickAfter(DeleteSpeed))
  }

  /** The callback of the pause after a fully typed phrase. */
  function StartDeleting(c: Cursor): Cursor {
    c.(deleting := true)
  }

  /** `k` ticks in a row, the schedule aside. */
  function Ticks(phrases: seq<string>, c: Cursor, k: nat): (r: Cursor)
    requires Valid(phrases, c)
    ensures Valid(phrases, r)
    decreases k
  {
    if k == 0 then c
    else
      TickKeepsValid(phrases, c);
      Ticks(phrases, Tick(phrases, c).0, k - 1)
  }

  /** A tick keeps the invariant; the phrase changes only on the tick that
      deletes the last character, and then to the next phrase, wrapping
      around; the character index moves by at most one. */
  lemma TickKeepsValid(phrases: seq<string>, c: Cursor)
    requires Valid(phrases, c)
    ensures var (c', _) := Tick(phrases, c);
      && Valid(phrases, c')
      && (c'.phraseIdx != c.phraseIdx ==> c.deleting && c.charIdx <= 1 && c'.phraseIdx == (c.phraseIdx + 1) % |phrases|)
      && (c'.phraseIdx != c.phraseIdx ==> c'.charIdx == 0 && c'.displayed == [] && !c'.deleting)
      && (c.deleting && c.charIdx > 1 ==> c'.phraseIdx == c.phraseIdx && c'.charIdx == c.charIdx - 1 && c'.deleting)
      && (!c.deleting && c.charIdx < |phrases[c.phraseIdx]| ==> c' == c.(charIdx := c.charIdx + 1, displayed := phrases[c.phraseIdx][..c.charIdx + 1]))
  {
  }

  /** The pause's callback keeps the invariant. */
  lemma StartDeletingKeepsValid(phrases: seq<string>, c: Cursor)
    requires Valid(phrases, c)
    ensures Valid(phrases, StartDeleting(c)) && StartDeleting(c).deleting
  {
  }

  /** Only a tick that completes the phrase schedules the pause; typing
      ticks are TypeSpeed apart, deleting ticks DeleteSpeed apart, and the
      gap before the next phrase is PauseBefore. */
  lemma TickSchedule(phrases: seq<string>, c: Cursor)
    requires Valid(phrases, c)
    ensures var (c', next) := Tick(phrases, c);
      && (next == PauseThenDelete <==> !c.deleting && c'.charIdx == |phrases[c.phraseIdx]|)
      && (!c.deleting && next != PauseThenDelete ==> next == TickAfter(TypeSpeed))
      && (c.deleting && c'.charIdx > 0 ==> next == TickAfter(DeleteSpeed))
      && (c.deleting && c'.charIdx == 0 ==> next == TickAfter(PauseBefore))
  {
  }

  /** Typing `k` characters from position j shows the first j + k. */
  lemma {:induction false} TypingRun(phrases: seq<string>, c: Cursor, k: nat)
    requires Valid(phrases, c) && !c.deleting
    requires c.charIdx + k <= |phrases[c.phraseIdx]|
    ensures Ticks(phrases, c, k) == c.(charIdx := c.charIdx + k, displayed := phrases[c.phraseIdx][..c.charIdx + k])
    decreases k
  {
    if k > 0 {
      var c1 := Tick(phrases, c).0;
      TickKeepsValid(phrases, c);
      TypingRun(phrases, c1, k - 1);
    }
  }

  /** Deleting `k` characters, short of the last one, stays on the phrase. */
  lemma {:induction false} DeletingRun(phrases: seq<string>, c: Cursor, k: nat)
    requires Valid(phrases, c) && c.deleting
    requires k < c.charIdx
    ensures Ticks(phrases, c, k) == c.(charIdx := c.charIdx - k, displayed := phrases[c.phraseIdx][..c.charIdx - k])
    decreases k
  {
    if k > 0 {
      var c1 := Tick(phrases, c).0;
      TickKeepsValid(phrases, c);
      DeletingRun(phrases, c1, k - 1);
    }
  }

  /** One whole cycle: from an empty screen on phrase i, |phrase| typing
      ticks show the whole phrase, and after the pause |phrase| deleting
      ticks clear the screen and select phrase i + 1, wrapping around. */
  lemma Cycle(phrases: seq<string>, i: nat)
    requires i < |phrases| && |phrases[i]| >= 1
    ensures var typed := Ticks(phrases, Cursor(i, 0, false, ""), |phrases[i]|);
      && typed == Cursor(i, |phrases[i]|, false, phrases[i])
      && Ticks(phrases, StartDeleting(typed), |phrases[i]|) == Cursor((i + 1) % |phrases|, 0, false, "")
  {
    var n := |phrases[i]|;
    var c0 := Cursor(i, 0, false, "");
    TypingRun(phrases, c0, n);
    var typed := Ticks(phrases, c0, n);
    assert phrases[i][..n] == phrases[i];
    var d := StartDeleting(typed);
    DeletingRun(phrases, d, n - 1);
    var last := Ticks(phrases, d, n - 1);
    assert last == Cursor(i, 1, true, phrases[i][..1]);
    TicksSplit(phrases, d, n - 1);
  }

  /** `k + 1` ticks are `k` ticks and then one more. */
  lemma {:induction false} TicksSplit(phrases: seq<string>, c: Cursor, k: nat)
    requires Valid(phrases, c)
    ensures var r := Ticks(phrases, c, k);
      Ticks(phrases, c, k + 1) == Tick(phrases, r).0
    decreases k
  {
    if k > 0 {
      TickKeepsValid(phrases, c);
      TicksSplit(phrases, Tick(phrases, c).0, k - 1);
    }
  }

  /** The three phrases all go through full cycles. */
  lemma PhrasesCycle()
    ensures forall i :: 0 <= i < |Phrases| ==> |Phrases[i]| >= 1
    ensures Valid(Phrases, Start())
  {
  }

  /** The component: the ref's counters and the displayed text. */
  class TypewriterCycle {
    const phrases: seq<string>
    var phraseIdx: nat
    var charIdx: nat
    var deleting: bool
    var displayed: string

    function State(): Cursor
      reads this
    {
      Cursor(phraseIdx, charIdx, deleting, displayed)
    }

    constructor(ps: seq<string>)
      ensures phrases == ps && State() == Start()
    {
      phrases := ps;
      phraseIdx, charIdx, deleting, displayed := 0, 0, false, "";
    }

    /** `tick`. */
    method TickOnce() returns (next: Next)
      requires phraseIdx < |phrases|
      modifies this
      ensures (State(), next) == Tick(phrases, old(State()))
    {
      var target := phrases[phraseIdx];
      if !deleting {
        charIdx := if charIdx + 1 <= |target| then charIdx + 1 else |target|;
        displayed := target[..charIdx];
        if charIdx == |target| {
          return PauseThenDelete;
        }
      } else {
        charIdx := if charIdx >= 1 then charIdx - 1 else 0;
        displayed := SliceTo(target, charIdx);
        if charIdx == 0 {
          deleting := false;
          phraseIdx := (phraseIdx + 1) % |phrases|;
          return TickAfter(PauseBefore);
        }
      }
      next := TickAfter(if deleting then DeleteSpeed else TypeSpeed);
    }

    /** The pause's callback. */
    method OnPauseEnd()
      modifies this
      ensures State() == StartDeleting(old(State()))
    {
      deleting := true;
    }
  }
}
