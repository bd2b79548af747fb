/** Datatypes and sequence helpers shared by the other modules. */
module Prelude {

  datatype Option<+T> = None | Some(value: T)

  /** All but the last element; the part of a log a fold has already seen. */
  function Init<T>(s: seq<T>): (r: seq<T>)
    requires |s| > 0
  {
    s[..|s| - 1]
  }

  function Last<T>(s: seq<T>): T
    requires |s| > 0
  {
    s[|s| - 1]
  }

  ghost predicate Distinct<T>(s: seq<T>) {
    forall i, j :: 0 <= i < j < |s| ==> s[i] != s[j]
  }

  /** `picked` is what `all` holds at the rising indices `at`. */
  ghost predicate Picks<T>(all: seq<T>, picked: seq<T>, at: seq<nat>) {
    && |at| == |picked|
    && (forall i, j :: 0 <= i < j < |at| ==> at[i] < at[j])
    && (forall k :: 0 <= k < |at| ==> at[k] < |all| && picked[k] == all[at[k]])
  }

  lemma PicksOn<T>(all: seq<T>, picked: seq<T>, at: seq<nat>, last: T)
    requires Picks(all, picked, at)
    ensures Picks(all + [last], picked, at) && Picks(all + [last], picked + [last], at + [|all|])
  {
  }

  ghost function Elements<T>(s: seq<T>): set<T> {
    set x | x in s
  }

  /** A duplicate-free sequence is as long as its set of elements is large. */
  lemma {:induction false} DistinctSize<T>(s: seq<T>)
    requires Distinct(s)
    ensures |Elements(s)| == |s|
  {
    if s != [] {
      DistinctSize(s[1..]);
      assert Elements(s) == {s[0]} + Elements(s[1..]);
    }
  }

  function Max(a: int, b: int): int { if a < b then b else a }

  function Abs(r: real): real { if r < 0.0 then -r else r }

  lemma ProductSign(x: real, y: real)
    ensures x >= 0.0 && y >= 0.0 ==> x * y >= 0.0
    ensures x > 0.0 && y > 0.0 ==> x * y > 0.0
    ensures x <= 0.0 && y >= 0.0 ==> x * y <= 0.0
  {
  }

  /** Go's conversion of a float to an integer drops the fraction. */
  function Truncate(r: real): int {
    if r < 0.0 then -((-r).Floor) else r.Floor
  }

  /** The `round` helper of the sim, detect and measure packages. */
  function Round(r: real): int {
    if r < 0.0 then Truncate(r - 0.5) else Truncate(r + 0.5)
  }

  /** Rounding moves a value by at most one half, a half away from zero, and keeps
      its sign. */
  lemma RoundError(r: real)
    ensures Abs(Round(r) as real - r) <= 0.5
    ensures r >= 0.0 ==> r - 0.5 < Round(r) as real <= r + 0.5
    ensures r <= 0.0 ==> r - 0.5 <= Round(r) as real < r + 0.5
    ensures r >= 0.0 ==> Round(r) >= 0
    ensures r <= 0.0 ==> Round(r) <= 0
  {
  }

  lemma RoundMonotone(a: real, b: real)
    requires a <= b
    ensures Round(a) <= Round(b)
  {
    if a < 0.0 && b < 0.0 {
      assert -(b - 0.5) <= -(a - 0.5);
    }
  }
}
