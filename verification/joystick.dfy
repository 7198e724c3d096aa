/**
 * The on-screen joystick of the mobile Skills view: a drag offset clamped
 * to a circle becomes a rotation speed, and on release a per-frame decay
 * loop coasts the speed and the knob back towards rest.
 */
module Joystick {
  import opened Wrappers
  import opened Geometric

  /** Radius of the circle the knob is kept inside, in pixels. */
  const JoystickRadius: real := 28.0
  /** Rotation speed at full horizontal deflection. */
  const MaxSpeed: real := 0.008
  /** Per-frame factor applied to the speed while coasting after release. */
  const VelocityDecay: real := 0.98
  /** Per-frame factor pulling the knob back to the centre after release. */
  const KnobDecay: real := 0.92
  /** The knob counts as centred once neither coordinate exceeds this. */
  const KnobRest: real := 0.3
  /** The speed counts as spent once its magnitude does not exceed this. */
  const VelocityRest: real := 0.0005

  /** A knob position: the offset from the joystick's centre. */
  datatype Offset = Offset(x: real, y: real)

  function SqNorm(o: Offset): real {
    o.x * o.x + o.y * o.y
  }

  predicate InCircle(o: Offset) {
    SqNorm(o) <= JoystickRadius * JoystickRadius
  }

  /** a <= b for non-negative a and b exactly when a * a <= b * b. */
  lemma SquareMono(a: real, b: real)
    requires 0.0 <= a && 0.0 <= b
    ensures a <= b <==> a * a <= b * b
  {
    if a <= b {
      MulLeft(a, a, b);
      MulLeft(b, a, b);
    } else {
      assert 0.0 < a - b && 0.0 < a + b;
      assert 0.0 < (a - b) * (a + b);
      assert a * a - b * b == (a - b) * (a + b);
    }
  }

  lemma ScaledSigns(k: real, a: real)
    requires k > 0.0
    ensures Sign(k * a) == Sign(a)
  {
  }

  /**
   * The drag offset (dx, dy) constrained to the joystick circle; distance
   * stands for Math.sqrt(dx * dx + dy * dy). An offset inside the circle is
   * kept; one outside is moved onto the circle along the same ray.
   */
  function Clamp(dx: real, dy: real, distance: real): (c: Offset)
    requires 0.0 <= distance && distance * distance == dx * dx + dy * dy
    ensures InCircle(c)
    ensures distance <= JoystickRadius ==> c == Offset(dx, dy)
    ensures distance > JoystickRadius ==> SqNorm(c) == JoystickRadius * JoystickRadius
    ensures distance > JoystickRadius ==> c.x * dy == c.y * dx
    ensures Sign(c.x) == Sign(dx) && Sign(c.y) == Sign(dy)
  {
    if distance > JoystickRadius then
      var k := JoystickRadius / distance;
      assert k * distance == JoystickRadius;
      assert (dx / distance) * JoystickRadius == k * dx;
      assert (dy / distance) * JoystickRadius == k * dy;
      assert SqNorm(Offset(k * dx, k * dy)) == (k * distance) * (k * distance) by {
        assert (k * dx) * (k * dx) + (k * dy) * (k * dy) == (k * k) * (dx * dx + dy * dy);
        assert (k * k) * (distance * distance) == (k * distance) * (k * distance);
      }
      ScaledSigns(k, dx);
      ScaledSigns(k, dy);
      Offset((dx / distance) * JoystickRadius, (dy / distance) * JoystickRadius)
    else
      SquareMono(distance, JoystickRadius);
      Offset(dx, dy)
  }

  /** The rotation speed for a knob position: its horizontal share of the radius, scaled to MaxSpeed. */
  function RotationSpeed(c: Offset): (s: real)
    ensures Sign(s) == Sign(c.x)
    ensures InCircle(c) ==> Abs(s) <= MaxSpeed
    ensures Abs(c.x) == JoystickRadius ==> Abs(s) == MaxSpeed
  {
    var normalizedX := c.x / JoystickRadius;
    XWithinRadius(c);
    normalizedX * MaxSpeed
  }

  /** A knob in the circle is at most one radius off centre horizontally. */
  lemma XWithinRadius(c: Offset)
    ensures InCircle(c) ==> Abs(c.x) <= JoystickRadius
  {
    if InCircle(c) {
      assert c.x * c.x <= SqNorm(c);
      SquareMono(Abs(c.x), JoystickRadius);
      assert Abs(c.x) * Abs(c.x) == c.x * c.x;
    }
  }

  /** Everything the joystick keeps between events. */
  datatype Joy = Joy(
    dragging: bool,  // isDragging
    knob: Offset,    // knobPosition
    velocity: real,  // velocityRef
    pending: bool)   // a decay frame is scheduled through animationRef

  /** The state of a freshly mounted joystick. */
  const Mounted: Joy := Joy(false, Offset(0.0, 0.0), 0.0, false)

  /** The knob stays in the circle and the speed within MaxSpeed. */
  predicate Bounded(j: Joy) {
    InCircle(j.knob) && Abs(j.velocity) <= MaxSpeed
  }

  /** The mounted state keeps the bounds. */
  lemma MountedIsBounded()
    ensures Bounded(Mounted)
  {
  }

  /** A state together with the value handed to onRotate, if any. */
  datatype Step = Step(next: Joy, sent: Option<real>)

  /** handleStart: dragging starts, the speed is zeroed and any pending decay frame is cancelled. */
  function Press(j: Joy): (r: Joy)
    ensures r.dragging && !r.pending && r.velocity == 0.0
    ensures r.knob == j.knob
  {
    j.(dragging := true, velocity := 0.0, pending := false)
  }

  /** handleMove with the pointer at (clientX, clientY) and the joystick centre at (centerX, centerY). */
  function Move(j: Joy, clientX: real, clientY: real, centerX: real, centerY: real, distance: real): (t: Step)
    requires 0.0 <= distance
    requires distance * distance == (clientX - centerX) * (clientX - centerX) + (clientY - centerY) * (clientY - centerY)
    ensures !j.dragging ==> t == Step(j, None)
    ensures j.dragging ==> t.sent == Some(t.next.velocity) && t.next.dragging && t.next.pending == j.pending
    ensures j.dragging ==> t.next.knob == Clamp(clientX - centerX, clientY - centerY, distance)
    ensures j.dragging ==> t.next.velocity == RotationSpeed(t.next.knob)
  {
    if !j.dragging then Step(j, None)
    else
      var c := Clamp(clientX - centerX, clientY - centerY, distance);
      var speed := RotationSpeed(c);
      Step(j.(knob := c, velocity := speed), Some(speed))
  }

  /** handleEnd: dragging stops and the first decay frame is scheduled. */
  function Release(j: Joy): (r: Joy)
    ensures !r.dragging && r.pending
    ensures r.knob == j.knob && r.velocity == j.velocity
  {
    j.(dragging := false, pending := true)
  }

  /** The decay loop keeps going while the knob is off centre or the speed is not yet spent. */
  predicate StillMoving(knob: Offset, velocity: real) {
    Abs(knob.x) > KnobRest || Abs(knob.y) > KnobRest || Abs(velocity) > VelocityRest
  }

  /**
   * One run of decelerate: the speed and the knob shrink; while they are
   * still moving the shrunk speed goes to onRotate and another frame is
   * scheduled, otherwise the speed is set to exactly zero and nothing is sent.
   */
  function Decay(j: Joy): (t: Step)
    ensures t.next.dragging == j.dragging
    ensures t.next.knob == Offset(KnobDecay * j.knob.x, KnobDecay * j.knob.y)
    ensures t.next.pending <==> StillMoving(t.next.knob, VelocityDecay * j.velocity)
    ensures t.sent.Some? <==> t.next.pending
    ensures t.next.pending ==> t.sent == Some(t.next.velocity) && t.next.velocity == VelocityDecay * j.velocity
    ensures !t.next.pending ==> t.next.velocity == 0.0
    ensures Sign(t.next.velocity) == 0 || Sign(t.next.velocity) == Sign(j.velocity)
    ensures Abs(t.next.velocity) <= Abs(j.velocity)
    ensures j.velocity != 0.0 ==> Abs(t.next.velocity) < Abs(j.velocity)
  {
    var v := j.velocity * VelocityDecay;
    var k := Offset(j.knob.x * KnobDecay, j.knob.y * KnobDecay);
    if StillMoving(k, v) then
      Step(Joy(j.dragging, k, v, true), Some(v))
    else
      Step(Joy(j.dragging, k, 0.0, false), None)
  }

  /** Each transition keeps the knob in the circle and the speed within MaxSpeed. */
  lemma TransitionsKeepBounds(j: Joy, clientX: real, clientY: real, centerX: real, centerY: real, distance: real)
    requires Bounded(j)
    requires 0.0 <= distance
    requires distance * distance == (clientX - centerX) * (clientX - centerX) + (clientY - centerY) * (clientY - centerY)
    ensures Bounded(Press(j)) && Bounded(Release(j)) && Bounded(Decay(j).next)
    ensures Bounded(Move(j, clientX, clientY, centerX, centerY, distance).next)
  {
    var k := Decay(j).next.knob;
    assert SqNorm(k) == (KnobDecay * KnobDecay) * SqNorm(j.knob);
    MulLeft(KnobDecay * KnobDecay, SqNorm(j.knob), JoystickRadius * JoystickRadius);
  }

  /** A drag far to the right pins the knob to the rim and gives the full speed. */
  lemma FullRightDrag()
    ensures Clamp(40.0, 0.0, 40.0) == Offset(28.0, 0.0)
    ensures RotationSpeed(Clamp(40.0, 0.0, 40.0)) == MaxSpeed
  {
  }

  /** A purely vertical drag moves the knob but gives no rotation. */
  lemma VerticalDragHasNoSpeed(j: Joy, dy: real, distance: real)
    requires j.dragging
    requires 0.0 <= distance && distance * distance == dy * dy
    ensures Move(j, 0.0, dy, 0.0, 0.0, distance).sent == Some(0.0)
    ensures distance > JoystickRadius ==> Move(j, 0.0, dy, 0.0, 0.0, distance).next.knob.y == (if dy > 0.0 then JoystickRadius else -JoystickRadius)
  {
    var c := Clamp(0.0, dy, distance);
    if distance > JoystickRadius {
      assert c.x == 0.0;
      assert c.y * c.y == JoystickRadius * JoystickRadius;
      assert Abs(c.y) * Abs(c.y) == c.y * c.y;
      SquareMono(Abs(c.y), JoystickRadius);
      SquareMono(JoystickRadius, Abs(c.y));
      assert Abs(c.y) == JoystickRadius;
      assert Sign(c.y) == Sign(dy);
    }
  }

  /** The sign of the speed sent on a move is the sign of the horizontal drag. */
  lemma MoveSpeedFollowsDrag(j: Joy, clientX: real, clientY: real, centerX: real, centerY: real, distance: real)
    requires j.dragging
    requires 0.0 <= distance
    requires distance * distance == (clientX - centerX) * (clientX - centerX) + (clientY - centerY) * (clientY - centerY)
    ensures Move(j, clientX, clientY, centerX, centerY, distance).sent.Some?
    ensures Sign(Move(j, clientX, clientY, centerX, centerY, distance).sent.value) == Sign(clientX - centerX)
    ensures Abs(Move(j, clientX, clientY, centerX, centerY, distance).sent.value) <= MaxSpeed
  {
  }

  /** The state after at most k decay frames; the loop does nothing once no frame is pending. */
  function Coast(j: Joy, k: nat): Joy
    decreases k
  {
    if k == 0 || !j.pending then j else Coast(Decay(j).next, k - 1)
  }

  /** The values handed to onRotate during those frames. */
  function Sent(j: Joy, k: nat): seq<real>
    decreases k
  {
    if k == 0 || !j.pending then []
    else
      var t := Decay(j);
      (if t.sent.Some? then [t.sent.value] else []) + Sent(t.next, k - 1)
  }

  /**
   * A press cancels the release loop: however many decay frames would
   * have followed, none runs, so the state the press left stays as it is
   * until the next move.
   */
  lemma PressCancelsCoast(j: Joy, k: nat)
    ensures Coast(Press(j), k) == Press(j)
    ensures Sent(Press(j), k) == []
    ensures Coast(Press(j), k).velocity == 0.0
  {
  }

  /** While the loop is still running after k frames, speed and knob have each been decayed by their own factor k times. */
  lemma {:induction false} CoastIsGeometric(j: Joy, k: nat)
    requires j.pending
    ensures Coast(j, k).pending ==> Coast(j, k).velocity == Decayed(j.velocity, VelocityDecay, k)
    ensures Coast(j, k).pending ==> Coast(j, k).knob == Offset(Decayed(j.knob.x, KnobDecay, k), Decayed(j.knob.y, KnobDecay, k))
    ensures 0 < k && Coast(j, k).pending ==> StillMoving(Coast(j, k).knob, Coast(j, k).velocity)
    decreases k
  {
    if k > 0 {
      var n := Decay(j).next;
      assert Coast(j, k) == Coast(n, k - 1);
      if n.pending {
        CoastIsGeometric(n, k - 1);
        DecayedShift(j.velocity, VelocityDecay, k - 1);
        DecayedShift(j.knob.x, KnobDecay, k - 1);
        DecayedShift(j.knob.y, KnobDecay, k - 1);
        if k == 1 {
          assert Coast(n, 0) == n;
        }
      } else {
        assert Coast(n, k - 1) == n;
      }
    }
  }

  /** Once stopped, the loop has zeroed the speed and centred the knob. */
  lemma {:induction false} CoastEndsAtRest(j: Joy, k: nat)
    requires j.pending
    ensures !Coast(j, k).pending ==> Coast(j, k).velocity == 0.0
    ensures !Coast(j, k).pending ==> Abs(Coast(j, k).knob.x) <= KnobRest && Abs(Coast(j, k).knob.y) <= KnobRest
    decreases k
  {
    if k > 0 {
      var n := Decay(j).next;
      if n.pending {
        CoastEndsAtRest(n, k - 1);
      }
    }
  }

  /**
   * The release loop always stops, whatever speed and knob position it
   * starts from: after some number of frames no frame is pending, the
   * speed is exactly zero and the knob is back within KnobRest of the centre.
   */
  lemma DecayLoopStops(j: Joy) returns (n: nat)
    requires j.pending
    ensures !Coast(j, n).pending
    ensures Coast(j, n).velocity == 0.0
    ensures Abs(Coast(j, n).knob.x) <= KnobRest && Abs(Coast(j, n).knob.y) <= KnobRest
  {
    var nv := FramesToSettle(j.velocity, VelocityDecay, VelocityRest);
    var nx := FramesToSettle(j.knob.x, KnobDecay, KnobRest);
    var ny := FramesToSettle(j.knob.y, KnobDecay, KnobRest);
    n := nv + nx + ny + 1;
    assert Abs(Decayed(j.velocity, VelocityDecay, n)) <= VelocityRest;
    assert Abs(Decayed(j.knob.x, KnobDecay, n)) <= KnobRest;
    assert Abs(Decayed(j.knob.y, KnobDecay, n)) <= KnobRest;
    CoastIsGeometric(j, n);
    CoastEndsAtRest(j, n);
  }

  /**
   * The i-th value sent during the coast is the release speed decayed
   * i + 1 times: the values shrink geometrically and keep the release
   * speed's sign. A frame that stops the loop sends nothing, so no zero
   * is ever sent unless the release speed was zero.
   */
  lemma {:induction false} SentIsGeometric(j: Joy, k: nat)
    requires j.pending
    ensures |Sent(j, k)| <= k
    ensures forall i :: 0 <= i < |Sent(j, k)| ==> Sent(j, k)[i] == Decayed(j.velocity, VelocityDecay, i + 1)
    decreases k
  {
    if k > 0 {
      var t := Decay(j);
      var n := t.next;
      if n.pending {
        SentIsGeometric(n, k - 1);
        var rest := Sent(n, k - 1);
        assert Sent(j, k) == [n.velocity] + rest;
        forall i | 0 <= i < |Sent(j, k)|
          ensures Sent(j, k)[i] == Decayed(j.velocity, VelocityDecay, i + 1)
        {
          if i > 0 {
            assert Sent(j, k)[i] == rest[i - 1];
            DecayedShift(j.velocity, VelocityDecay, i);
          }
        }
      } else {
        assert Sent(j, k) == Sent(n, k - 1) == [];
      }
    }
  }

  /** Consequently no value sent during a coast from a non-zero speed is zero, and all share its sign. */
  lemma SentNeverZero(j: Joy, k: nat, i: nat)
    requires j.pending && j.velocity != 0.0
    requires i < |Sent(j, k)|
    ensures Sign(Sent(j, k)[i]) == Sign(j.velocity)
    ensures Sent(j, k)[i] != 0.0
  {
    SentIsGeometric(j, k);
    DecayedKeepsSign(j.velocity, VelocityDecay, i + 1);
  }

  /** The joystick component: its state lives in fields that its handlers update. */
  class JoystickControl {
    var dragging: bool
    var knob: Offset
    var velocity: real
    var pending: bool

    function State(): Joy
      reads this
    {
      Joy(dragging, knob, velocity, pending)
    }

    /** Knob in the circle, speed within MaxSpeed, and no decay frame scheduled during a drag. */
    ghost predicate Valid()
      reads this
    {
      Bounded(State()) && (pending ==> !dragging)
    }

    constructor ()
      ensures Valid() && State() == Mounted
    {
      dragging, knob, velocity, pending := false, Offset(0.0, 0.0), 0.0, false;
      MountedIsBounded();
    }

    method HandleStart()
      requires Valid()
      modifies this
      ensures Valid() && State() == Press(old(State()))
    {
      dragging := true;
      velocity := 0.0;
      pending := false;
    }

    method HandleMove(clientX: real, clientY: real, centerX: real, centerY: real, distance: real) returns (sent: Option<real>)
      requires Valid()
      requires 0.0 <= distance
      requires distance * distance == (clientX - centerX) * (clientX - centerX) + (clientY - centerY) * (clientY - centerY)
      modifies this
      ensures Valid() && Step(State(), sent) == Move(old(State()), clientX, clientY, centerX, centerY, distance)
    {
      TransitionsKeepBounds(State(), clientX, clientY, centerX, centerY, distance);
      if !dragging {
        return None;
      }
      var deltaX := clientX - centerX;
      var deltaY := clientY - centerY;
      if distance > JoystickRadius {
        deltaX := (deltaX / distance) * JoystickRadius;
        deltaY := (deltaY / distance) * JoystickRadius;
      }
      knob := Offset(deltaX, deltaY);
      var normalizedX := deltaX / JoystickRadius;
      var rotationSpeed := normalizedX * MaxSpeed;
      velocity := rotationSpeed;
      sent := Some(rotationSpeed);
    }

    method HandleEnd()
      requires Valid()
      modifies this
      ensures Valid() && State() == Release(old(State()))
    {
      dragging := false;
      pending := true;
    }

    /** The scheduled decay frame runs. */
    method Decelerate() returns (sent: Option<real>)
      requires Valid() && pending
      modifies this
      ensures Valid() && Step(State(), sent) == Decay(old(State()))
    {
      TransitionsKeepBounds(State(), 0.0, 0.0, 0.0, 0.0, 0.0);
      velocity := velocity * VelocityDecay;
      var newX := knob.x * KnobDecay;
      var newY := knob.y * KnobDecay;
      if Abs(newX) > KnobRest || Abs(newY) > KnobRest || Abs(velocity) > VelocityRest {
        sent := Some(velocity);
        pending := true;
      } else {
        velocity := 0.0;
        sent := None;
        pending := false;
      }
      knob := Offset(newX, newY);
    }
  }
}
