/**
 * Random numbers in a range. The global generator is replaced by the draws it
 * would produce: uniform draws in [0, 1) for `RandInRange`, one standard
 * normal sample for `RandGaussianInRange`.
 */
module Rand {
  import opened Wrappers

  /** Draws as `Float64` produces them. */
  predicate UnitDraws(draws: seq<real>)
  {
    forall k :: 0 <= k < |draws| ==> 0.0 <= draws[k] < 1.0
  }

  /** The value one draw `u` proposes for the range between `min` and `max`. */
  function Candidate(min: real, max: real, u: real): real
  {
    min + u * (max - min)
  }

  predicate Rejected(min: real, max: real, u: real)
  {
    Candidate(min, max, u) == min || Candidate(min, max, u) == max
  }

  /** An accepted value and how many draws it took. */
  datatype Draw = Draw(value: real, used: nat)

  /** The retry loop of `RandInRange` from draw `from` on: the first candidate that is
      neither bound, or None when the draws run out first (the source would keep drawing). */
  function FirstAccepted(min: real, max: real, draws: seq<real>, from: nat): (r: Option<Draw>)
    requires from <= |draws|
    ensures r.Some? ==> from < r.value.used <= |draws|
    ensures r.Some? ==> r.value.value == Candidate(min, max, draws[r.value.used - 1])
    ensures r.Some? ==> r.value.value != min && r.value.value != max
    ensures r.Some? ==> forall k :: from <= k < r.value.used - 1 ==> Rejected(min, max, draws[k])
    ensures r.None? ==> forall k :: from <= k < |draws| ==> Rejected(min, max, draws[k])
    decreases |draws| - from
  {
    if from == |draws| then None
    else if Rejected(min, max, draws[from]) then FirstAccepted(min, max, draws, from + 1)
    else Some(Draw(Candidate(min, max, draws[from]), from + 1))
  }

  /** `RandInRange`: draw until the candidate is neither `min` nor `max`. */
  method RandInRange(min: real, max: real, draws: seq<real>) returns (r: Option<Draw>)
    ensures r == FirstAccepted(min, max, draws, 0)
  {
    var i := 0;
    while i < |draws|
      invariant 0 <= i <= |draws|
      invariant FirstAccepted(min, max, draws, i) == FirstAccepted(min, max, draws, 0)
    {
      var val := min + draws[i] * (max - min);
      assert val == Candidate(min, max, draws[i]);
      if val != min && val != max {
        assert !Rejected(min, max, draws[i]);
        return Some(Draw(val, i + 1));
      }
      i := i + 1;
    }
    return None;
  }

  /** With distinct bounds, a draw in [0, 1) is rejected exactly when it is 0. */
  lemma RejectedOnlyAtZero(min: real, max: real, u: real)
    requires min != max
    requires 0.0 <= u < 1.0
    ensures Rejected(min, max, u) <==> u == 0.0
  {
    var d := max - min;
    if u != 0.0 {
      NonzeroProduct(u, d);
      NonzeroProduct(u - 1.0, d);
      assert Candidate(min, max, u) - max == (u - 1.0) * d;
    }
  }

  lemma NonzeroProduct(a: real, b: real)
    requires a != 0.0 && b != 0.0
    ensures a * b != 0.0
  {
  }

  lemma PositiveProduct(a: real, b: real)
    requires a > 0.0 && b > 0.0
    ensures a * b > 0.0
  {
  }

  /** A candidate from a draw in (0, 1) lies strictly between the bounds, in either order. */
  lemma CandidateStrictlyBetween(min: real, max: real, u: real)
    requires 0.0 < u < 1.0
    ensures min < max ==> min < Candidate(min, max, u) < max
    ensures max < min ==> max < Candidate(min, max, u) < min
  {
    var d := max - min;
    if d > 0.0 {
      PositiveProduct(u, d);
      PositiveProduct(1.0 - u, d);
      assert (1.0 - u) * d == d - u * d;
      assert Candidate(min, max, u) == min + u * d;
    } else if d < 0.0 {
      PositiveProduct(u, -d);
      PositiveProduct(1.0 - u, -d);
      assert u * -d == -(u * d);
      assert (1.0 - u) * -d == u * d - d;
      assert Candidate(min, max, u) == min + u * d;
    }
  }

  /** A value `RandInRange` returns lies strictly between the bounds, in either order. */
  lemma {:induction false} AcceptedStrictlyBetween(min: real, max: real, draws: seq<real>)
    requires UnitDraws(draws)
    requires FirstAccepted(min, max, draws, 0).Some?
    ensures var v := FirstAccepted(min, max, draws, 0).value.value;
            (min < v < max) || (max < v < min)
  {
    var d := FirstAccepted(min, max, draws, 0).value;
    var u := draws[d.used - 1];
    assert Candidate(min, max, 0.0) == min;
    assert u != 0.0;
    CandidateStrictlyBetween(min, max, u);
  }

  /** Equal bounds reject every draw, so `RandInRange(x, x)` never returns. */
  lemma EqualBoundsNeverAccept(x: real, draws: seq<real>)
    ensures FirstAccepted(x, x, draws, 0).None?
  {
    assert forall u :: Candidate(x, x, u) == x;
  }

  /** With distinct bounds, the first nonzero draw from `from` on is the one accepted. */
  lemma {:induction false} AcceptsFirstNonzeroDraw(min: real, max: real, draws: seq<real>, from: nat, k: nat)
    requires min != max
    requires UnitDraws(draws)
    requires from <= k < |draws| && draws[k] != 0.0
    requires forall j :: from <= j < k ==> draws[j] == 0.0
    ensures FirstAccepted(min, max, draws, from) == Some(Draw(Candidate(min, max, draws[k]), k + 1))
    decreases k - from
  {
    RejectedOnlyAtZero(min, max, draws[from]);
    if from < k {
      AcceptsFirstNonzeroDraw(min, max, draws, from + 1, k);
    }
  }

  /** `RandGaussianInRange`: a normal sample `z` scaled by `stddev` around the
      midpoint, clamped first from below by `min`, then from above by `max`. */
  function RandGaussianInRange(min: real, max: real, stddev: real, z: real): (r: real)
    ensures min <= max ==> min <= r <= max
    ensures min <= (min + max) / 2.0 + z * stddev <= max ==> r == (min + max) / 2.0 + z * stddev
    ensures min > max ==> r == max
    ensures r <= max
  {
    var mean := (min + max) / 2.0;
    var val := mean + z * stddev;
    var atLeastMin := if val > min then val else min;
    if atLeastMin < max then atLeastMin else max
  }

  /** With no spread of the sample, the result is the midpoint of the range. */
  lemma GaussianCentred(min: real, max: real, z: real)
    requires min <= max
    ensures RandGaussianInRange(min, max, 0.0, z) == (min + max) / 2.0
  {
  }
}
