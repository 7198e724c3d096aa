/**
 * The rotate-event throttle of the enhanced mobile view: a value handed to
 * onRotate becomes the new manual rotation only when more than
 * MinInterval milliseconds have passed since the last value it accepted.
 */
module Throttle {

  /** Milliseconds that must strictly elapse between two accepted values. */
  const MinInterval: real := 8.0

  /** The throttle's state: the current manual rotation and when it was last set. */
  datatype Gate = Gate(manual: real, last: real)

  /** On mount the manual rotation is 0 and the last update is at time 0. */
  const Initial: Gate := Gate(0.0, 0.0)

  /** One call of onRotate with the value delta at clock reading now. */
  datatype Event = Event(delta: real, now: real)

  predicate Accepts(g: Gate, now: real) {
    now - g.last > MinInterval
  }

  /**
   * handleRotate: an accepted value replaces the manual rotation and
   * restarts the interval; a rejected one leaves the state alone.
   */
  function Rotate(g: Gate, e: Event): (r: Gate)
    ensures r == g || r.last - g.last > MinInterval
    ensures r.manual == e.delta || r.manual == g.manual
    ensures Accepts(g, e.now) <==> r.last == e.now && r.last != g.last
    ensures Accepts(g, e.now) ==> r == Gate(e.delta, e.now)
    ensures !Accepts(g, e.now) ==> r == g
  {
    if Accepts(g, e.now) then Gate(e.delta, e.now) else g
  }

  /** The state after a run of events. */
  function Feed(g: Gate, es: seq<Event>): Gate
    decreases |es|
  {
    if |es| == 0 then g else Feed(Rotate(g, es[0]), es[1..])
  }

  /** The events of that run that got through, in order. */
  function Accepted(g: Gate, es: seq<Event>): seq<Event>
    decreases |es|
  {
    if |es| == 0 then []
    else if Accepts(g, es[0].now) then [es[0]] + Accepted(Rotate(g, es[0]), es[1..])
    else Accepted(g, es[1..])
  }

  /**
   * After a run, the manual rotation is the value of the last accepted
   * event and the last update is its time; if nothing got through the
   * state is as it was.
   */
  lemma {:induction false} FeedFollowsLastAccepted(g: Gate, es: seq<Event>)
    ensures |Accepted(g, es)| == 0 ==> Feed(g, es) == g
    ensures |Accepted(g, es)| > 0 ==>
      Feed(g, es) == Gate(Accepted(g, es)[|Accepted(g, es)| - 1].delta, Accepted(g, es)[|Accepted(g, es)| - 1].now)
    decreases |es|
  {
    if |es| > 0 {
      FeedFollowsLastAccepted(Rotate(g, es[0]), es[1..]);
    }
  }

  /**
   * Accepted events are spaced strictly more than MinInterval apart (and
   * the first one more than MinInterval after the last update before the
   * run), whatever order the clock readings come in; each is one of the events fed.
   */
  lemma {:induction false} AcceptedAreSpaced(g: Gate, es: seq<Event>)
    ensures |Accepted(g, es)| <= |es|
    ensures forall e :: e in Accepted(g, es) ==> e in es
    ensures |Accepted(g, es)| > 0 ==> Accepted(g, es)[0].now - g.last > MinInterval
    ensures forall i :: 0 < i < |Accepted(g, es)| ==> Accepted(g, es)[i].now - Accepted(g, es)[i - 1].now > MinInterval
    decreases |es|
  {
    if |es| > 0 {
      var e := es[0];
      if Accepts(g, e.now) {
        var g' := Rotate(g, e);
        AcceptedAreSpaced(g', es[1..]);
        var rest := Accepted(g', es[1..]);
        assert Accepted(g, es) == [e] + rest;
        forall i | 0 < i < |Accepted(g, es)|
          ensures Accepted(g, es)[i].now - Accepted(g, es)[i - 1].now > MinInterval
        {
          if i == 1 {
            assert Accepted(g, es)[0] == e;
          } else {
            assert Accepted(g, es)[i] == rest[i - 1];
            assert Accepted(g, es)[i - 1] == rest[i - 2];
          }
        }
        forall x | x in Accepted(g, es) ensures x in es {
          if x != e {
            assert x in rest;
            assert x in es[1..];
          }
        }
      } else {
        AcceptedAreSpaced(g, es[1..]);
        forall x | x in Accepted(g, es) ensures x in es {
          assert x in es[1..];
        }
      }
    }
  }

  /** The i-th accepted event is more than i intervals after the first. */
  lemma {:induction false} AcceptedSpread(acc: seq<Event>, i: nat)
    requires forall j :: 0 < j < |acc| ==> acc[j].now - acc[j - 1].now > MinInterval
    requires 0 < i < |acc|
    ensures acc[i].now - acc[0].now > (i as real) * MinInterval
  {
    if i > 1 {
      AcceptedSpread(acc, i - 1);
    }
  }

  /**
   * A rate bound: if every clock reading of a run lies in [lo, hi], then
   * apart from the first accepted event, each one accounts for more than
   * MinInterval of that window.
   */
  lemma AcceptedRate(g: Gate, es: seq<Event>, lo: real, hi: real)
    requires forall e :: e in es ==> lo <= e.now <= hi
    ensures |Accepted(g, es)| > 0 ==> ((|Accepted(g, es)| - 1) as real) * MinInterval <= hi - lo
  {
    var acc := Accepted(g, es);
    AcceptedAreSpaced(g, es);
    if |acc| > 1 {
      AcceptedSpread(acc, |acc| - 1);
      assert acc[0] in es && acc[|acc| - 1] in es;
    }
  }

  /** Clock readings that each come more than MinInterval after the one before, starting from last. */
  predicate SpacedAfter(last: real, es: seq<Event>) {
    (|es| > 0 ==> es[0].now - last > MinInterval) &&
    forall i :: 0 < i < |es| ==> es[i].now - es[i - 1].now > MinInterval
  }

  /**
   * The converse of AcceptedAreSpaced: when every event comes more than
   * MinInterval after the one before, all get through and the last one
   * sets the state.
   */
  lemma {:induction false} SpacedAllAccepted(g: Gate, es: seq<Event>)
    requires SpacedAfter(g.last, es)
    ensures Accepted(g, es) == es
    ensures |es| > 0 ==> Feed(g, es) == Gate(es[|es| - 1].delta, es[|es| - 1].now)
    decreases |es|
  {
    if |es| > 0 {
      var g' := Rotate(g, es[0]);
      assert g'.last == es[0].now;
      assert SpacedAfter(g'.last, es[1..]) by {
        forall i | 0 < i < |es[1..]|
          ensures es[1..][i].now - es[1..][i - 1].now > MinInterval
        {
          assert es[1..][i] == es[i + 1] && es[1..][i - 1] == es[i];
        }
      }
      SpacedAllAccepted(g', es[1..]);
      if |es| == 1 {
        assert Feed(g', es[1..]) == g';
      }
    }
  }

  /** Events that all come within MinInterval of the last update change nothing. */
  lemma {:induction false} BurstIsDropped(g: Gate, es: seq<Event>)
    requires forall e :: e in es ==> e.now - g.last <= MinInterval
    ensures Accepted(g, es) == []
    ensures Feed(g, es) == g
    decreases |es|
  {
    if |es| > 0 {
      assert es[0] in es;
      forall e | e in es[1..] ensures e.now - g.last <= MinInterval {
        assert e in es;
      }
      BurstIsDropped(g, es[1..]);
    }
  }

  /** EnhancedMobile's manualRotation state and lastUpdateRef, updated by handleRotate. */
  class EnhancedMobile {
    var manualRotation: real
    var lastUpdate: real

    function State(): Gate
      reads this
    {
      Gate(manualRotation, lastUpdate)
    }

    constructor ()
      ensures State() == Initial
    {
      manualRotation, lastUpdate := 0.0, 0.0;
    }

    /** handleRotate(delta) with performance.now() read as now; reports whether the value got through. */
    method HandleRotate(delta: real, now: real) returns (accepted: bool)
      modifies this
      ensures accepted <==> now - old(lastUpdate) > MinInterval
      ensures State() == Rotate(old(State()), Event(delta, now))
    {
      accepted := now - lastUpdate > MinInterval;
      if accepted {
        manualRotation := delta;
        lastUpdate := now;
      }
    }
  }
}
