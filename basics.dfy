/** Small helpers shared by every stage: an optional value, the JavaScript
    `Math` operations the service uses, and the left-to-right sum and mean
    that its `reduce` calls and `total / count` guards compute. */
module Basics {

  datatype Option<T> = None | Some(value: T) {
    function GetOr(default: T): T {
      match this
      case Some(v) => v
      case None => default
    }
  }

  function Min(a: int, b: int): int { if a < b then a else b }
  function Max(a: int, b: int): int { if a < b then b else a }

  /** `Math.max(a, b)` on reals. */
  function MaxReal(a: real, b: real): real { if a < b then b else a }

  /** `Math.abs(x)` on reals. */
  function Abs(x: real): real { if x < 0.0 then -x else x }

  /** `s.reduce((a, b) => a + b, 0)`: the sum, added from the left. */
  function Sum(s: seq<real>): real
  {
    if |s| == 0 then 0.0 else Sum(s[..|s| - 1]) + s[|s| - 1]
  }

  /** `total / count` for a positive count. */
  function Average(total: real, count: nat): real
    requires count > 0
  {
    total / count as real
  }

  /** `total / count`, or 0 when nothing was counted: the guard the service
      writes after every accumulation loop. */
  function Mean(s: seq<real>): real
  {
    if |s| == 0 then 0.0 else Average(Sum(s), |s|)
  }

  lemma SumAppend(s: seq<real>, x: real)
    ensures Sum(s + [x]) == Sum(s) + x
  {
    assert (s + [x])[..|s|] == s;
  }

  /** One more term of a running sum. */
  lemma SumStep(s: seq<real>, i: nat)
    requires i < |s|
    ensures Sum(s[..i + 1]) == Sum(s[..i]) + s[i]
  {
    assert s[..i + 1] == s[..i] + [s[i]];
    SumAppend(s[..i], s[i]);
  }

  /** Each term in [lo, hi] puts the sum between |s| * lo and |s| * hi. */
  lemma {:induction false} SumBounds(s: seq<real>, lo: real, hi: real)
    requires forall i :: 0 <= i < |s| ==> lo <= s[i] <= hi
    ensures lo * (|s| as real) <= Sum(s) <= hi * (|s| as real)
  {
    if |s| > 0 {
      SumBounds(s[..|s| - 1], lo, hi);
    }
  }

  /** A mean never leaves the range of its terms. */
  lemma MeanBounds(s: seq<real>, lo: real, hi: real)
    requires |s| > 0
    requires forall i :: 0 <= i < |s| ==> lo <= s[i] <= hi
    ensures lo <= Mean(s) <= hi
  {
    SumBounds(s, lo, hi);
    var n := |s| as real;
    assert Mean(s) * n == Sum(s);
    assert lo * n <= Mean(s) * n <= hi * n;
  }

  /** The mean of non-negative terms is non-negative; of none, 0. */
  lemma MeanNonNegative(s: seq<real>)
    requires forall i :: 0 <= i < |s| ==> 0.0 <= s[i]
    ensures 0.0 <= Mean(s)
  {
    SumNonNegative(s);
  }

  lemma {:induction false} SumNonNegative(s: seq<real>)
    requires forall j :: 0 <= j < |s| ==> 0.0 <= s[j]
    ensures 0.0 <= Sum(s)
  {
    if |s| > 0 {
      SumNonNegative(s[..|s| - 1]);
    }
  }

  /** `s.reduce((a, b) => a + b, 0)` as the loop it is. */
  method ReduceSum(s: seq<real>) returns (total: real)
    ensures total == Sum(s)
  {
    total := 0.0;
    var i := 0;
    while i < |s|
      invariant 0 <= i <= |s|
      invariant total == Sum(s[..i])
    {
      SumStep(s, i);
      total := total + s[i];
      i := i + 1;
    }
    assert s[..|s|] == s;
  }
}
