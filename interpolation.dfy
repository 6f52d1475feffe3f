/** Quadratic easing between two values over time
    (src/scripts/lib/Interpolation.js), and the same easing curve the
    carousel's transition step uses. Arithmetic is exact (real), not IEEE.
 */
module Easing {
  import opened Js
  import opened Events

  predicate Between(v: real, a: real, b: real) {
    (a <= v <= b) || (b <= v <= a)
  }

  /** from + (to − from)·delta²: the eased value at progress delta. The
      source's comment names easeInOutQuart; the formula is quadratic. */
  function Quadratic(from: real, to: real, delta: real): (v: real)
    ensures delta == 0.0 ==> v == from
    ensures delta == 1.0 ==> v == to
    ensures 0.0 <= delta <= 1.0 ==> Between(v, from, to)
  {
    if 0.0 <= delta <= 1.0 then
      QuadraticBetween(from, to, delta);
      from + (to - from) * delta * delta
    else
      from + (to - from) * delta * delta
  }

  lemma ScaledBetween(a: real, q: real)
    requires 0.0 <= q <= 1.0
    ensures 0.0 <= a ==> 0.0 <= a * q <= a
    ensures a <= 0.0 ==> a <= a * q <= 0.0
  {
    assert a - a * q == a * (1.0 - q);
  }

  /** For progress between 0 and 1 the eased value stays between the two
      end points. */
  lemma QuadraticBetween(from: real, to: real, delta: real)
    requires 0.0 <= delta <= 1.0
    ensures Between(from + (to - from) * delta * delta, from, to)
  {
    var q := delta * delta;
    assert 0.0 <= q <= 1.0 by {
      assert delta * delta <= delta * 1.0;
    }
    var a := to - from;
    ScaledBetween(a, q);
    assert (to - from) * delta * delta == a * q;
    var v := from + a * q;
    if 0.0 <= a {
      assert from <= v <= to;
    } else {
      assert to <= v <= from;
    }
  }

  /** Quadratic easing moves towards `to` as progress grows. */
  lemma QuadraticMonotone(from: real, to: real, d1: real, d2: real)
    requires 0.0 <= d1 <= d2
    ensures from <= to ==> Quadratic(from, to, d1) <= Quadratic(from, to, d2)
    ensures to <= from ==> Quadratic(from, to, d2) <= Quadratic(from, to, d1)
  {
    var q1, q2 := d1 * d1, d2 * d2;
    var e := d2 - d1;
    NonNegativeProduct(d1, e);
    NonNegativeProduct(d2, e);
    assert d1 * e == d1 * d2 - q1;
    assert d2 * e == q2 - d1 * d2;
    assert q1 <= q2;
    assert (to - from) * d1 * d1 == (to - from) * q1;
    assert (to - from) * d2 * d2 == (to - from) * q2;
    var a := to - from;
    assert a * q2 - a * q1 == a * (q2 - q1);
    if from <= to {
      NonNegativeProduct(a, q2 - q1);
    } else {
      NonNegativeProduct(-a, q2 - q1);
      assert (-a) * (q2 - q1) == -(a * (q2 - q1));
    }
  }

  lemma NonNegativeProduct(x: real, y: real)
    requires 0.0 <= x && 0.0 <= y
    ensures 0.0 <= x * y
  {
  }

  /** The value play(t) returns for an interpolation from `start` to `end`
      beginning at `startTime` and lasting `duration`; None when it is not
      a finite number (a zero duration before the end time divides by 0). */
  function Ease(start: real, end: real, startTime: real, duration: real, t: real): (r: Option<real>)
    ensures t >= duration + startTime ==> r == Some(end)
    ensures r.None? <==> duration == 0.0 && t < startTime
    ensures duration > 0.0 && t == startTime ==> r == Some(start)
    ensures duration > 0.0 && startTime <= t ==> r.Some? && Between(r.value, start, end)
  {
    if t >= duration + startTime then Some(end)
    else if duration == 0.0 then None
    else
      var delta := (t - startTime) / duration;
      assert duration > 0.0 && startTime <= t ==> 0.0 <= delta <= 1.0 by {
        if duration > 0.0 && startTime <= t {
          assert delta * duration == t - startTime;
        }
      }
      Some(Quadratic(start, end, delta))
  }

  /** Over a positive duration the eased value only moves towards `end`,
      including across the moment it reaches `end`. */
  lemma EaseMonotone(start: real, end: real, startTime: real, duration: real, t1: real, t2: real)
    requires duration > 0.0 && startTime <= t1 <= t2
    ensures start <= end ==> Ease(start, end, startTime, duration, t1).value <= Ease(start, end, startTime, duration, t2).value
    ensures end <= start ==> Ease(start, end, startTime, duration, t2).value <= Ease(start, end, startTime, duration, t1).value
  {
    if t2 < duration + startTime {
      var d1 := (t1 - startTime) / duration;
      var d2 := (t2 - startTime) / duration;
      assert d1 * duration == t1 - startTime && d2 * duration == t2 - startTime;
      assert 0.0 <= d1 <= d2;
      QuadraticMonotone(start, end, d1, d2);
    }
  }

  class Interpolation {
    /** The emitter the interpolation extends. */
    const emitter: Emitter
    var start: real
    var end: real
    var startTime: real
    var duration: real
    var willComplete: bool

    constructor(start: real, end: real, duration: real, timestamp: real)
      ensures this.start == start && this.end == end && startTime == timestamp && this.duration == duration
      ensures !willComplete
      ensures fresh(emitter) && emitter.events == Some(map[])
    {
      emitter := new Emitter();
      this.start := start;
      this.end := end;
      startTime := timestamp;
      this.duration := duration;
      willComplete := false;
    }

    /** play(t): 'complete' fires first when an earlier call already
        reached the end time; then the eased value is returned, and
        reaching the end time arms the next call's 'complete'. */
    method Play(t: real) returns (value: Option<real>, completeTriggered: bool, called: seq<Callback>)
      requires emitter.events.Some?
      modifies this`willComplete, emitter
      ensures emitter.events.Some?
      ensures value == Ease(start, end, startTime, duration, t)
      ensures willComplete == (old(willComplete) || t >= duration + startTime)
      ensures completeTriggered == old(willComplete)
      ensures completeTriggered ==> (called, emitter.events.value) == Dispatch(old(emitter.events).value, "complete")
      ensures !completeTriggered ==> called == [] && emitter.events == old(emitter.events)
    {
      completeTriggered := willComplete;
      called := [];
      if willComplete {
        var thrown, arg;
        thrown, called, arg := emitter.Trigger("complete", Undefined);
      }
      if t >= duration + startTime {
        willComplete := true;
        return Some(end), completeTriggered, called;
      }
      if duration == 0.0 {
        return None, completeTriggered, called;
      }
      var delta := (t - startTime) / duration;
      value := Some(start + (end - start) * delta * delta);
      assert Quadratic(start, end, delta) == start + (end - start) * delta * delta;
    }
  }
}
