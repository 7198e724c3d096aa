/**
 * Per-frame geometric decay: a value multiplied by a factor p each frame.
 * Shared by the joystick's release loop and the orbs' momentum coast.
 */
module Geometric {

  function Abs(a: real): real {
    if a < 0.0 then -a else a
  }

  function Sign(a: real): int {
    if a > 0.0 then 1 else if a < 0.0 then -1 else 0
  }

  /** The value a after k frames that each multiply it by p. */
  function Decayed(a: real, p: real, k: nat): real
    decreases k
  {
    if k == 0 then a else Decayed(a, p, k - 1) * p
  }

  /** Multiplying both sides by a non-negative factor keeps an inequality. */
  lemma MulLeft(c: real, a: real, b: real)
    requires 0.0 <= c && a <= b
    ensures c * a <= c * b
  {
  }

  /** A positive factor keeps the sign of a value, and scales its magnitude. */
  lemma ScaleByPositive(x: real, p: real)
    requires 0.0 < p
    ensures Sign(x * p) == Sign(x)
    ensures Abs(x * p) == Abs(x) * p
  {
    if x > 0.0 {
      MulLeft(p, 0.0, x);
      assert p * x != 0.0;
    } else if x < 0.0 {
      MulLeft(p, x, 0.0);
      assert p * x != 0.0;
    }
  }

  /** Decaying the first frame's result k times is decaying the start k + 1 times. */
  lemma {:induction false} DecayedShift(a: real, p: real, k: nat)
    ensures Decayed(a * p, p, k) == Decayed(a, p, k + 1)
    decreases k
  {
    if k > 0 {
      DecayedShift(a, p, k - 1);
    }
  }

  /** A positive factor never changes the sign, and the magnitude decays by the same factor. */
  lemma {:induction false} DecayedKeepsSign(a: real, p: real, k: nat)
    requires 0.0 < p
    ensures Sign(Decayed(a, p, k)) == Sign(a)
    ensures Abs(Decayed(a, p, k)) == Decayed(Abs(a), p, k)
    decreases k
  {
    if k > 0 {
      DecayedKeepsSign(a, p, k - 1);
      ScaleByPositive(Decayed(a, p, k - 1), p);
    }
  }

  /** One frame of decay by p in [0, 1): the value shrinks, and by at least (1 - p) * eps while above eps. */
  lemma FrameDrop(x: real, p: real, eps: real)
    requires 0.0 <= p < 1.0 && 0.0 <= x
    ensures 0.0 <= x * p <= x
    ensures x > eps ==> x * p <= x - (1.0 - p) * eps
  {
    MulLeft(x, p, 1.0);
    MulLeft(x, 0.0, p);
    if x > eps {
      MulLeft(1.0 - p, eps, x);
      assert (1.0 - p) * x == x - x * p;
    }
  }

  /** A non-negative value never grows, and until it is within eps it loses at least (1 - p) * eps per frame. */
  lemma {:induction false} DecayedDrops(a: real, p: real, eps: real, k: nat)
    requires 0.0 <= p < 1.0 && 0.0 <= a
    ensures 0.0 <= Decayed(a, p, k) <= a
    ensures Decayed(a, p, k) <= eps || Decayed(a, p, k) <= a - (k as real) * ((1.0 - p) * eps)
    decreases k
  {
    if k > 0 {
      DecayedDrops(a, p, eps, k - 1);
      var x := Decayed(a, p, k - 1);
      FrameDrop(x, p, eps);
      var d := (1.0 - p) * eps;
      assert Decayed(a, p, k) == x * p;
      assert a - (k as real) * d == a - ((k - 1) as real) * d - d;
    }
  }

  /** Enough frames, each losing d, to use up b. */
  lemma CountToCover(b: real, d: real) returns (k: nat)
    requires 0.0 <= b && 0.0 < d
    ensures (k as real) * d >= b
  {
    var ratio := b / d;
    assert ratio * d == b;
    k := ratio.Floor + 1;
    MulLeft(d, ratio, k as real);
  }

  /** After m frames with m * (1 - p) * eps >= Abs(a), the decayed value is within eps. */
  lemma SettledAt(a: real, p: real, eps: real, m: nat)
    requires 0.0 < p < 1.0 && 0.0 < eps
    requires (m as real) * ((1.0 - p) * eps) >= Abs(a)
    ensures Abs(Decayed(a, p, m)) <= eps
  {
    DecayedKeepsSign(a, p, m);
    DecayedDrops(Abs(a), p, eps, m);
  }

  /**
   * Decay by a factor 0 < p < 1 reaches any positive threshold eps and
   * stays there: from some frame on, the decayed value is within eps.
   */
  lemma FramesToSettle(a: real, p: real, eps: real) returns (k: nat)
    requires 0.0 < p < 1.0 && 0.0 < eps
    ensures forall m: nat :: k <= m ==> Abs(Decayed(a, p, m)) <= eps
  {
    var d := (1.0 - p) * eps;
    MulLeft(1.0 - p, 0.0, eps);
    assert 0.0 < d;
    k := CountToCover(Abs(a), d);
    forall m: nat | k <= m
      ensures Abs(Decayed(a, p, m)) <= eps
    {
      MulLeft(d, k as real, m as real);
      SettledAt(a, p, eps, m);
    }
  }
}
