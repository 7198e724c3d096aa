/**
 * The per-frame rotation integrator of the mobile orb ring. Each rendered
 * frame runs in one of three modes: a manual rotation above a small
 * threshold drives the ring directly; otherwise the last speed coasts
 * down geometrically, and once it is tiny the ring turns slowly on its own.
 */
module OrbSpin {
  import opened Geometric

  /** A manual rotation must exceed this in magnitude to drive the ring. */
  const ManualThreshold: real := 0.0001
  /** The manual rotation is multiplied by this to give the per-frame speed. */
  const ManualGain: real := 8.0
  /** Per-frame factor applied to the speed when not driven. */
  const CoastDecay: real := 0.96
  /** Below this speed the ring is idle and auto-rotates. */
  const IdleThreshold: real := 0.001
  /** Idle rotation per second of frame time. */
  const IdleRate: real := 0.1

  /**
   * rotationRef, velocityRef and autoRotationRef, and the y-rotation
   * shown by the group.
   */
  datatype Spin = Spin(rotation: real, velocity: real, auto: real, shown: real)

  /** On mount every ref holds 0. */
  const Start: Spin := Spin(0.0, 0.0, 0.0, 0.0)

  datatype Mode = Manual | Coasting | Idle

  /** The mode a frame runs in, from the state before it and the manual rotation. */
  function ModeOf(s: Spin, manual: real): Mode {
    if Abs(manual) > ManualThreshold then Manual
    else if Abs(s.velocity * CoastDecay) < IdleThreshold then Idle
    else Coasting
  }

  /** The idle hand-off does not jump when the auto-rotation angle has been kept equal to the rotation. */
  predicate Synced(s: Spin) {
    s.auto == s.rotation
  }

  /** One useFrame callback with the current manual rotation and the frame time delta in seconds. */
  function Frame(s: Spin, manual: real, delta: real): (r: Spin)
    ensures r.shown == r.rotation
    ensures ModeOf(s, manual) != Manual ==> r.velocity == s.velocity * CoastDecay && Synced(r)
    ensures ModeOf(s, manual) == Manual ==> r.auto == s.auto && r.velocity == ManualGain * manual
    ensures ModeOf(s, manual) != Idle ==> r.rotation == s.rotation + r.velocity
  {
    if Abs(manual) > ManualThreshold then
      var v := manual * ManualGain;
      var rot := s.rotation + v;
      Spin(rot, v, s.auto, rot)
    else
      var v := s.velocity * CoastDecay;
      if Abs(v) < IdleThreshold then
        var a := s.auto + delta * IdleRate;
        Spin(a, v, a, a)
      else
        var rot := s.rotation + v;
        Spin(rot, v, rot, rot)
  }

  /**
   * What each mode does: a manual frame moves the ring by eight times the
   * manual rotation in its direction; a coasting frame moves it in the
   * direction of the previous speed, by a speed that shrinks but stays at
   * least IdleThreshold; an idle frame puts it at the auto-rotation angle
   * advanced by IdleRate per second.
   */
  lemma FrameModes(s: Spin, manual: real, delta: real)
    ensures var r := Frame(s, manual, delta);
      ModeOf(s, manual) == Manual ==>
        r.rotation - s.rotation == ManualGain * manual && Sign(r.rotation - s.rotation) == Sign(manual)
    ensures var r := Frame(s, manual, delta);
      ModeOf(s, manual) == Coasting ==>
        r.rotation - s.rotation == CoastDecay * s.velocity &&
        Sign(r.rotation - s.rotation) == Sign(s.velocity) && IdleThreshold <= Abs(r.velocity) < Abs(s.velocity)
    ensures var r := Frame(s, manual, delta);
      ModeOf(s, manual) == Idle ==>
        r.rotation == s.auto + IdleRate * delta && Abs(r.velocity) < IdleThreshold
  {
    ScaleByPositive(s.velocity, CoastDecay);
  }

  /** A synced ring never turns backwards in an idle frame with a non-negative frame time. */
  lemma SyncedIdleAdvances(s: Spin, manual: real, delta: real)
    requires Synced(s) && ModeOf(s, manual) == Idle && 0.0 <= delta
    ensures Frame(s, manual, delta).rotation >= s.rotation
    ensures Frame(s, manual, delta).rotation - s.rotation == IdleRate * delta
  {
  }

  /** The speed never exceeds ManualGain times a bound b on the manual rotation once it starts within it. */
  lemma SpeedStaysBounded(s: Spin, manual: real, delta: real, b: real)
    requires Abs(manual) <= b && Abs(s.velocity) <= ManualGain * b
    ensures Abs(Frame(s, manual, delta).velocity) <= ManualGain * b
  {
    ScaleByPositive(s.velocity, CoastDecay);
  }

  /** The state after frames with the given time deltas while the manual rotation stays the same. */
  function Run(s: Spin, manual: real, deltas: seq<real>): Spin
    decreases |deltas|
  {
    if |deltas| == 0 then s else Run(Frame(s, manual, deltas[0]), manual, deltas[1..])
  }

  function Sum(xs: seq<real>): real
    decreases |xs|
  {
    if |xs| == 0 then 0.0 else xs[0] + Sum(xs[1..])
  }

  /** Without manual drive the speed after k frames is the starting speed decayed k times. */
  lemma {:induction false} UndrivenSpeed(s: Spin, manual: real, deltas: seq<real>)
    requires Abs(manual) <= ManualThreshold
    ensures Run(s, manual, deltas).velocity == Decayed(s.velocity, CoastDecay, |deltas|)
    decreases |deltas|
  {
    if |deltas| > 0 {
      var n := Frame(s, manual, deltas[0]);
      UndrivenSpeed(n, manual, deltas[1..]);
      DecayedShift(s.velocity, CoastDecay, |deltas| - 1);
    }
  }

  /**
   * A coast always ends: without manual drive there is a number of frames
   * after which the speed is below IdleThreshold, however the frames are timed.
   */
  lemma CoastEnds(s: Spin, manual: real) returns (n: nat)
    requires Abs(manual) <= ManualThreshold
    ensures forall deltas: seq<real> :: n <= |deltas| ==> Abs(Run(s, manual, deltas).velocity) < IdleThreshold
  {
    n := FramesToSettle(s.velocity, CoastDecay, IdleThreshold / 2.0);
    forall deltas: seq<real> | n <= |deltas|
      ensures Abs(Run(s, manual, deltas).velocity) < IdleThreshold
    {
      UndrivenSpeed(s, manual, deltas);
    }
  }

  /**
   * Once idle, the ring stays idle: every further frame sets the rotation
   * to the auto-rotation angle, which advances by IdleRate per second of
   * total frame time.
   */
  lemma {:induction false} IdleRun(s: Spin, manual: real, deltas: seq<real>)
    requires Abs(manual) <= ManualThreshold && Abs(s.velocity) < IdleThreshold
    ensures Abs(Run(s, manual, deltas).velocity) < IdleThreshold
    ensures Run(s, manual, deltas).auto == s.auto + IdleRate * Sum(deltas)
    ensures 0 < |deltas| ==> Synced(Run(s, manual, deltas))
    decreases |deltas|
  {
    if |deltas| > 0 {
      ScaleByPositive(s.velocity, CoastDecay);
      var n := Frame(s, manual, deltas[0]);
      assert ModeOf(s, manual) == Idle;
      IdleRun(n, manual, deltas[1..]);
      if |deltas| == 1 {
        assert Run(n, manual, deltas[1..]) == n;
      }
    }
  }

  /**
   * A manual rotation above the threshold drives every frame: the
   * auto-rotation angle is never touched and the ring advances by more
   * than ManualGain * ManualThreshold per frame in the manual direction.
   */
  lemma {:induction false} DrivenRun(s: Spin, manual: real, deltas: seq<real>)
    requires Abs(manual) > ManualThreshold
    ensures Run(s, manual, deltas).auto == s.auto
    ensures 0 < |deltas| ==> Run(s, manual, deltas).velocity == ManualGain * manual
    ensures manual > 0.0 ==> Run(s, manual, deltas).rotation - s.rotation >= (|deltas| as real) * (ManualGain * ManualThreshold)
    ensures manual < 0.0 ==> s.rotation - Run(s, manual, deltas).rotation >= (|deltas| as real) * (ManualGain * ManualThreshold)
    decreases |deltas|
  {
    if |deltas| > 0 {
      var n := Frame(s, manual, deltas[0]);
      DrivenRun(n, manual, deltas[1..]);
      if |deltas| == 1 {
        assert Run(n, manual, deltas[1..]) == n;
      }
    }
  }

  /**
   * As written the manual branch leaves the auto-rotation angle behind,
   * so the first idle frame after a slow drive sends the ring back: two
   * frames at manual rotation 0.00013 and then one at 0, each 16 ms long.
   */
  lemma ManualHandOffJumpsBack()
    ensures var s1 := Frame(Start, 0.00013, 0.016);
      var s2 := Frame(s1, 0.00013, 0.016);
      var s3 := Frame(s2, 0.0, 0.016);
      ModeOf(s2, 0.0) == Idle && s3.rotation < s2.rotation
  {
    var s1 := Frame(Start, 0.00013, 0.016);
    assert s1 == Spin(0.00104, 0.00104, 0.0, 0.00104);
    var s2 := Frame(s1, 0.00013, 0.016);
    assert s2 == Spin(0.00208, 0.00104, 0.0, 0.00208);
    assert Abs(s2.velocity * CoastDecay) == 0.0009984;
    assert Frame(s2, 0.0, 0.016).rotation == 0.0016;
  }

  /** The integrator with the manual branch also moving autoRotationRef to the new rotation. */
  function FrameSynced(s: Spin, manual: real, delta: real): (r: Spin)
    ensures Synced(r) && r.shown == r.rotation
    ensures r.rotation == Frame(s, manual, delta).rotation && r.velocity == Frame(s, manual, delta).velocity
    ensures ModeOf(s, manual) != Manual ==> r == Frame(s, manual, delta)
  {
    var f := Frame(s, manual, delta);
    f.(auto := f.rotation)
  }

  /**
   * With the correction every frame leaves the ring synced, so an idle
   * frame with a non-negative frame time never turns it backwards,
   * whatever came before.
   */
  lemma SyncedHandOffAdvances(s: Spin, manual: real, delta: real, manual': real, delta': real)
    requires ModeOf(FrameSynced(s, manual, delta), manual') == Idle && 0.0 <= delta'
    ensures var t := FrameSynced(s, manual, delta);
      FrameSynced(t, manual', delta').rotation - t.rotation == IdleRate * delta'
  {
    SyncedIdleAdvances(FrameSynced(s, manual, delta), manual', delta');
  }

  /** MobileSkillOrbs: the refs its useFrame callback updates and the group's y-rotation. */
  class MobileSkillOrbs {
    var rotation: real
    var velocity: real
    var autoRotation: real
    var groupRotationY: real

    function State(): Spin
      reads this
    {
      Spin(rotation, velocity, autoRotation, groupRotationY)
    }

    constructor ()
      ensures State() == Start
    {
      rotation, velocity, autoRotation, groupRotationY := 0.0, 0.0, 0.0, 0.0;
    }

    /** The useFrame callback with the manualRotation prop and the frame time delta. */
    method Tick(manualRotation: real, delta: real)
      modifies this
      ensures State() == Frame(old(State()), manualRotation, delta)
    {
      if Abs(manualRotation) > ManualThreshold {
        velocity := manualRotation * ManualGain;
        rotation := rotation + velocity;
      } else {
        velocity := velocity * CoastDecay;
        if Abs(velocity) < IdleThreshold {
          autoRotation := autoRotation + delta * IdleRate;
          rotation := autoRotation;
        } else {
          rotation := rotation + velocity;
          autoRotation := rotation;
        }
      }
      groupRotationY := rotation;
    }
  }
}
