/** JavaScript value idioms shared by the front end, the web back end and
    the browser extension: `x || fallback` on strings, the first truthy of
    several fields, and `Math.round(x * 100)` on a score. A field that is
    absent is None; the empty string is falsy. */
module JsValues {
  import opened Wrappers

  predicate Truthy(x: Option<string>) {
    x.Some? && x.value != []
  }

  /** `x || fallback`. */
  function OrElse(x: Option<string>, fallback: string): (r: string)
    ensures Truthy(x) ==> r == x.value
    ensures !Truthy(x) ==> r == fallback
  {
    if Truthy(x) then x.value else fallback
  }

  /** `xs[0] || xs[1] || ... || fallback`. */
  function FirstTruthy(xs: seq<Option<string>>, fallback: string): (r: string)
    ensures (exists i :: 0 <= i < |xs| && Truthy(xs[i])) || r == fallback
  {
    if xs == [] then fallback
    else if Truthy(xs[0]) then xs[0].value
    else FirstTruthy(xs[1..], fallback)
  }

  /** The result is the first truthy candidate, and the fallback only when
      there is none. */
  lemma {:induction false} FirstTruthyPicksFirst(xs: seq<Option<string>>, fallback: string, i: nat)
    requires i < |xs| && Truthy(xs[i])
    requires forall j :: 0 <= j < i ==> !Truthy(xs[j])
    ensures FirstTruthy(xs, fallback) == xs[i].value
    decreases i
  {
    if i > 0 {
      FirstTruthyPicksFirst(xs[1..], fallback, i - 1);
    }
  }

  lemma {:induction false} FirstTruthyNone(xs: seq<Option<string>>, fallback: string)
    requires forall j :: 0 <= j < |xs| ==> !Truthy(xs[j])
    ensures FirstTruthy(xs, fallback) == fallback
    decreases |xs|
  {
    if xs != [] {
      FirstTruthyNone(xs[1..], fallback);
    }
  }

  /** `Math.round((score || 0) * 100)`, rounding halves up. */
  function Percent(score: Option<real>): (p: int)
    ensures var x := if score.Some? then score.value else 0.0;
      x * 100.0 - 0.5 < p as real <= x * 100.0 + 0.5
  {
    var x := if score.Some? then score.value else 0.0;
    (x * 100.0 + 0.5).Floor
  }
}
