/**
 * The mobile Skills view end to end: the joystick hands speeds to
 * onRotate, the throttle turns them into the manual rotation, and the
 * orb ring's frame integrator reads that manual rotation every frame.
 */
module Session {
  import opened Wrappers
  import opened Geometric
  import opened Joystick
  import opened Throttle
  import opened OrbSpin

  /** The values handed to onRotate paired with the clock readings at which they arrive. */
  function Events(values: seq<real>, times: seq<real>): (es: seq<Event>)
    requires |values| == |times|
    ensures |es| == |values|
    ensures forall i :: 0 <= i < |es| ==> es[i].delta == values[i] && es[i].now == times[i]
  {
    seq(|values|, i requires 0 <= i < |values| => Event(values[i], times[i]))
  }

  /**
   * As written, once a release coast has sent anything the manual
   * rotation ends up at one of the values it sent, never at zero: the
   * frame that stops the loop sends nothing, and every value sent has the
   * release speed's sign.
   */
  lemma CoastLeavesLastSent(g: Gate, j: Joy, k: nat, times: seq<real>)
    requires j.pending && j.velocity != 0.0
    requires |times| == |Sent(j, k)| && 0 < |times|
    requires SpacedAfter(g.last, Events(Sent(j, k), times))
    ensures Feed(g, Events(Sent(j, k), times)).manual == Sent(j, k)[|times| - 1]
    ensures Feed(g, Events(Sent(j, k), times)).manual != 0.0
    ensures Sign(Feed(g, Events(Sent(j, k), times)).manual) == Sign(j.velocity)
  {
    SpacedAllAccepted(g, Events(Sent(j, k), times));
    SentNeverZero(j, k, |times| - 1);
  }

  /** The joystick released after a half-pixel drag to the right. */
  const SlowRelease: Joy := Release(Move(Press(Mounted), 0.5, 0.0, 0.0, 0.0, 0.5).next)

  /** The throttle after accepting that drag's speed at time 100 ms. */
  const AfterDrag: Gate := Rotate(Initial, Event(1.0 / 7000.0, 100.0))

  /** One decay frame every 16 ms after the drag. */
  const CoastTimes: seq<real> := [116.0, 132.0, 148.0, 164.0, 180.0, 196.0]

  /**
   * The input that shows it: after the half-pixel drag the speed is
   * 1/7000; the loop runs six frames that send a value and stops on the
   * seventh because the knob is back within KnobRest, and the last value
   * sent, 0.000126548911552, stays the manual rotation for good. It is
   * above ManualThreshold, so the ring is driven from then on.
   */
  lemma SlowDragLeavesRotation()
    ensures !Coast(SlowRelease, 7).pending
    ensures |Sent(SlowRelease, 7)| == |CoastTimes|
    ensures Feed(AfterDrag, Events(Sent(SlowRelease, 7), CoastTimes)).manual == 0.000126548911552
    ensures Abs(Feed(AfterDrag, Events(Sent(SlowRelease, 7), CoastTimes)).manual) > ManualThreshold
  {
    var j0 := Press(Mounted);
    assert Move(j0, 0.5, 0.0, 0.0, 0.0, 0.5).next.knob == Offset(0.5, 0.0);
    assert RotationSpeed(Offset(0.5, 0.0)) == 1.0 / 7000.0;
    var j := SlowRelease;
    assert j == Joy(false, Offset(0.5, 0.0), 1.0 / 7000.0, true);
    var j1 := Joy(false, Offset(0.46, 0.0), 0.00014, true);
    var j2 := Joy(false, Offset(0.4232, 0.0), 0.0001372, true);
    var j3 := Joy(false, Offset(0.389344, 0.0), 0.000134456, true);
    var j4 := Joy(false, Offset(0.35819648, 0.0), 0.00013176688, true);
    var j5 := Joy(false, Offset(0.3295407616, 0.0), 0.0001291315424, true);
    var j6 := Joy(false, Offset(0.303177500672, 0.0), 0.000126548911552, true);
    var j7 := Joy(false, Offset(0.27892330061824, 0.0), 0.0, false);
    assert Decay(j) == Step(j1, Some(j1.velocity));
    assert Decay(j1) == Step(j2, Some(j2.velocity));
    assert Decay(j2) == Step(j3, Some(j3.velocity));
    assert Decay(j3) == Step(j4, Some(j4.velocity));
    assert Decay(j4) == Step(j5, Some(j5.velocity));
    assert Decay(j5) == Step(j6, Some(j6.velocity));
    assert Decay(j6) == Step(j7, None);
    assert Coast(j6, 1) == j7;
    assert Coast(j, 7) == j7;
    assert Sent(j6, 1) == [];
    assert Sent(j5, 2) == [j6.velocity];
    assert Sent(j4, 3) == [j5.velocity, j6.velocity];
    assert Sent(j3, 4) == [j4.velocity, j5.velocity, j6.velocity];
    assert Sent(j2, 5) == [j3.velocity, j4.velocity, j5.velocity, j6.velocity];
    assert Sent(j1, 6) == [j2.velocity, j3.velocity, j4.velocity, j5.velocity, j6.velocity];
    assert Sent(j, 7) == [j1.velocity, j2.velocity, j3.velocity, j4.velocity, j5.velocity, j6.velocity];
    var es := Events(Sent(j, 7), CoastTimes);
    assert AfterDrag.last == 100.0;
    assert SpacedAfter(AfterDrag.last, es);
    SpacedAllAccepted(AfterDrag, es);
  }

  /**
   * Consequently the ring never coasts down after that release: every
   * later frame is driven at eight times the leftover value and the
   * auto-rotation angle never moves, however the frames are timed.
   */
  lemma SlowDragKeepsDriving(s: Spin, deltas: seq<real>)
    ensures var m := Feed(AfterDrag, Events(Sent(SlowRelease, 7), CoastTimes)).manual;
      Run(s, m, deltas).auto == s.auto && (0 < |deltas| ==> Run(s, m, deltas).velocity == ManualGain * 0.000126548911552)
  {
    SlowDragLeavesRotation();
    DrivenRun(s, 0.000126548911552, deltas);
  }

  /** decelerate with the stopping frame also sending 0 to onRotate. */
  function DecayWithStop(j: Joy): (t: Step)
    ensures t.next == Decay(j).next
    ensures t.sent.Some?
    ensures t.next.pending ==> t.sent == Decay(j).sent
    ensures !t.next.pending ==> t.sent == Some(0.0)
  {
    var d := Decay(j);
    if d.next.pending then d else Step(d.next, Some(0.0))
  }

  /** The values that loop hands to onRotate during at most k frames. */
  function SentWithStop(j: Joy, k: nat): seq<real>
    decreases k
  {
    if k == 0 || !j.pending then []
    else
      var t := DecayWithStop(j);
      [t.sent.value] + SentWithStop(t.next, k - 1)
  }

  /** With the stopping frame sending 0, a finished coast sends what it sent before and then exactly one 0. */
  lemma {:induction false} SentWithStopEndsInZero(j: Joy, k: nat)
    requires j.pending && !Coast(j, k).pending
    ensures SentWithStop(j, k) == Sent(j, k) + [0.0]
    decreases k
  {
    var n := Decay(j).next;
    assert k > 0;
    if n.pending {
      assert Coast(j, k) == Coast(n, k - 1);
      SentWithStopEndsInZero(n, k - 1);
      assert SentWithStop(j, k) == [n.velocity] + SentWithStop(n, k - 1);
      assert Sent(j, k) == [n.velocity] + Sent(n, k - 1);
    } else {
      assert SentWithStop(n, k - 1) == [] && Sent(n, k - 1) == [];
    }
  }

  /**
   * With the correction, a finished coast whose values reach the throttle
   * more than MinInterval apart leaves the manual rotation at 0, so the
   * ring stops being driven, its speed falls below IdleThreshold after
   * some number of frames and from then on it auto-rotates.
   */
  lemma CorrectedCoastReturnsToIdle(g: Gate, j: Joy, k: nat, times: seq<real>, s: Spin) returns (n: nat)
    requires j.pending && !Coast(j, k).pending
    requires |times| == |SentWithStop(j, k)|
    requires SpacedAfter(g.last, Events(SentWithStop(j, k), times))
    ensures Feed(g, Events(SentWithStop(j, k), times)).manual == 0.0
    ensures forall deltas: seq<real> :: n <= |deltas| ==> Abs(Run(s, 0.0, deltas).velocity) < IdleThreshold
  {
    SentWithStopEndsInZero(j, k);
    var es := Events(SentWithStop(j, k), times);
    SpacedAllAccepted(g, es);
    assert es[|es| - 1].delta == 0.0;
    n := CoastEnds(s, 0.0);
  }

  /** The same half-pixel drag with the correction: the coast sends seven values, the last of them 0, and the manual rotation returns to 0. */
  lemma SlowDragSettlesWithStop()
    ensures SentWithStop(SlowRelease, 7) == Sent(SlowRelease, 7) + [0.0]
    ensures Feed(AfterDrag, Events(SentWithStop(SlowRelease, 7), CoastTimes + [212.0])).manual == 0.0
  {
    SlowDragLeavesRotation();
    SentWithStopEndsInZero(SlowRelease, 7);
    var es := Events(SentWithStop(SlowRelease, 7), CoastTimes + [212.0]);
    assert SpacedAfter(AfterDrag.last, es);
    SpacedAllAccepted(AfterDrag, es);
  }
}
