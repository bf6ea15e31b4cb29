/** The game backend's plot-consistency tracker: per user, the last known
    location of every person mentioned. Named-entity recognition is outside
    the model: the PERSON and GPE entity texts of a chunk arrive as
    parameters, in document order. */
module Consistency {
  import opened Wrappers
  import opened Strings

  datatype Issue = Issue(kind: string, original: string, suggested: string, reason: string)

  /** The location bound in a chunk: the first GPE entity, if it is a
      non-empty string (Python truthiness). */
  function Detected(locations: seq<string>): (loc: Option<string>)
    ensures loc.Some? <==> |locations| > 0 && locations[0] != []
    ensures loc.Some? ==> loc.value == locations[0]
  {
    if |locations| > 0 && locations[0] != [] then Some(locations[0]) else None
  }

  /** A transition word in the lowercased chunk excuses every move. */
  predicate HasTransition(text: string) {
    var t := Lower(text);
    Contains(t, "travel") || Contains(t, "went") || Contains(t, "moved")
  }

  function IssueText(person: string, previous: string, loc: string): Issue {
    Issue("consistency",
      person + " in " + loc,
      "Explain how " + person + " moved from " + previous + " to " + loc + ".",
      "Plot contradiction found: " + person + " was previously in " + previous
        + " but is now in " + loc + " without a transition.")
  }

  /** The user's places after every person of the chunk is bound to `loc`. */
  function Bound(places: map<string, string>, persons: seq<string>, loc: string): map<string, string>
  {
    if persons == [] then places
    else Bound(places, persons[..|persons| - 1], loc)[persons[|persons| - 1] := loc]
  }

  /** After binding, the mentioned persons are at `loc`, everyone else keeps
      their stored place, and nobody else is added. */
  lemma {:induction false} BoundProps(places: map<string, string>, persons: seq<string>, loc: string)
    ensures var m := Bound(places, persons, loc);
      && (forall p :: p in m <==> p in places || p in persons)
      && (forall p :: p in persons ==> m[p] == loc)
      && (forall p :: p in places && p !in persons ==> m[p] == places[p])
  {
    if persons != [] {
      var init := persons[..|persons| - 1];
      assert persons == init + [persons[|persons| - 1]];
      BoundProps(places, init, loc);
    }
  }

  /** The contradictions met while binding `persons` in order, as (person,
      previous location) pairs: the person already had a non-empty location
      other than `loc` at the moment the loop reached them. */
  function Clashes(places: map<string, string>, persons: seq<string>, loc: string): seq<(string, string)> {
    if persons == [] then []
    else
      var init := persons[..|persons| - 1];
      var p := persons[|persons| - 1];
      var before := Bound(places, init, loc);
      Clashes(places, init, loc)
        + (if p in before && before[p] != [] && before[p] != loc then [(p, before[p])] else [])
  }

  /** The issues reported for the clashes; none when the chunk has a
      transition word. */
  function Report(clashes: seq<(string, string)>, loc: string, quiet: bool): (r: seq<Issue>)
    ensures |r| == if quiet then 0 else |clashes|
  {
    if quiet || clashes == [] then []
    else
      var last := clashes[|clashes| - 1];
      Report(clashes[..|clashes| - 1], loc, quiet) + [IssueText(last.0, last.1, loc)]
  }

  /** A person clashes iff they are mentioned, were stored before the chunk
      with a non-empty location other than `loc`, and the reported previous
      location is that stored one: a second mention of the same person in
      one chunk never clashes again. */
  lemma {:induction false} ClashesIff(places: map<string, string>, persons: seq<string>, loc: string, p: string, prev: string)
    ensures (p, prev) in Clashes(places, persons, loc)
      <==> p in persons && p in places && places[p] != [] && places[p] != loc && prev == places[p]
  {
    if persons != [] {
      var init := persons[..|persons| - 1];
      var q := persons[|persons| - 1];
      assert persons == init + [q];
      BoundProps(places, init, loc);
      ClashesIff(places, init, loc, p, prev);
    }
  }

  predicate DistinctPersons(c: seq<(string, string)>) {
    forall i, j :: 0 <= i < j < |c| ==> c[i].0 != c[j].0
  }

  /** Each person is reported at most once per chunk. */
  lemma {:induction false} ClashesDistinct(places: map<string, string>, persons: seq<string>, loc: string)
    ensures DistinctPersons(Clashes(places, persons, loc))
  {
    if persons != [] {
      var init := persons[..|persons| - 1];
      var q := persons[|persons| - 1];
      ClashesDistinct(places, init, loc);
      var before := Bound(places, init, loc);
      if q in before && before[q] != [] && before[q] != loc {
        BoundProps(places, init, loc);
        assert q !in init;
        var c0 := Clashes(places, init, loc);
        forall k | 0 <= k < |c0|
          ensures c0[k].0 != q
        {
          assert (c0[k].0, c0[k].1) == c0[k] && c0[k] in c0;
          ClashesIff(places, init, loc, c0[k].0, c0[k].1);
        }
        var c := Clashes(places, persons, loc);
        assert c == c0 + [(q, before[q])];
        forall i, j | 0 <= i < j < |c|
          ensures c[i].0 != c[j].0
        {
          assert c[i] == c0[i];
          if j == |c0| {
            assert c[j].0 == q;
            assert c0[i].0 != q;
          } else {
            assert c[j] == c0[j];
            assert c0[i].0 != c0[j].0;
          }
        }
      }
    }
  }

  lemma ClashesStep(places: map<string, string>, persons: seq<string>, loc: string, i: nat)
    requires i < |persons|
    ensures var before := Bound(places, persons[..i], loc);
      var p := persons[i];
      && Bound(places, persons[..i + 1], loc) == before[p := loc]
      && Clashes(places, persons[..i + 1], loc) == Clashes(places, persons[..i], loc)
        + (if p in before && before[p] != [] && before[p] != loc then [(p, before[p])] else [])
  {
    assert persons[..i + 1][..i] == persons[..i];
  }

  lemma ReportAppend(clashes: seq<(string, string)>, x: (string, string), loc: string, quiet: bool)
    ensures Report(clashes + [x], loc, quiet)
      == Report(clashes, loc, quiet) + (if quiet then [] else [IssueText(x.0, x.1, loc)])
  {
    if !quiet {
      assert (clashes + [x])[..|clashes|] == clashes;
    }
  }

  /** The loop of `track_and_analyze` over the mentioned persons, on one
      user's places, once a location is detected. */
  method BindPersons(places: map<string, string>, persons: seq<string>, loc: string, quiet: bool)
    returns (m: map<string, string>, issues: seq<Issue>)
    requires loc != []
    ensures m == Bound(places, persons, loc)
    ensures issues == Report(Clashes(places, persons, loc), loc, quiet)
  {
    m := places;
    issues := [];
    var i := 0;
    while i < |persons|
      invariant 0 <= i <= |persons|
      invariant m == Bound(places, persons[..i], loc)
      invariant issues == Report(Clashes(places, persons[..i], loc), loc, quiet)
    {
      var person := persons[i];
      ClashesStep(places, persons, loc, i);
      ghost var c := Clashes(places, persons[..i], loc);
      if person in m && m[person] != "" && m[person] != loc {
        assert Clashes(places, persons[..i + 1], loc) == c + [(person, m[person])];
        ReportAppend(c, (person, m[person]), loc, quiet);
        if !quiet {
          issues := issues + [IssueText(person, m[person], loc)];
        }
      } else {
        assert Clashes(places, persons[..i + 1], loc) == c;
      }
      m := m[person := loc];
      i := i + 1;
    }
    assert persons[..i] == persons;
  }

  class NarrativeConsistencyService {
    /** user id -> person -> last known location */
    var worldState: map<string, map<string, string>>

    constructor()
      ensures worldState == map[]
    {
      worldState := map[];
    }

    /** `track_and_analyze`: an unknown user starts with no places; with a
        location detected, every mentioned person is bound to it and each
        contradiction is reported unless the chunk mentions a transition;
        without one nothing is stored and nothing is reported. Other users'
        places never change. */
    method TrackAndAnalyze(userId: string, text: string, persons: seq<string>, locations: seq<string>)
      returns (issues: seq<Issue>)
      modifies this
      ensures var before := if userId in old(worldState) then old(worldState)[userId] else map[];
        match Detected(locations)
        case None => worldState == old(worldState)[userId := before] && issues == []
        case Some(loc) =>
          && worldState == old(worldState)[userId := Bound(before, persons, loc)]
          && issues == Report(Clashes(before, persons, loc), loc, HasTransition(text))
    {
      if userId !in worldState {
        worldState := worldState[userId := map[]];
      }
      var detected := if |locations| > 0 then locations[0] else "";
      var quiet := HasTransition(text);
      issues := [];
      if detected != "" {
        var places;
        places, issues := BindPersons(worldState[userId], persons, detected, quiet);
        worldState := worldState[userId := places];
      }
    }
  }
}
