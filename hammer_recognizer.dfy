/** The Hammer.js recognizer state machine: the state flags a recognizer
    moves through, AttrRecognizer.process (the base of pan, pinch and
    rotate), the tap counting of TapRecognizer.process, the event names
    Recognizer.emit and TapRecognizer.emit send, and the simultaneous /
    require-failure links between recognizers. Swipe, which has an emit of
    its own, is not modelled.
 */
module HammerRecognizer {
  import opened Js
  import opened HammerUtil
  import opened HammerInput

  // ---------------------------------------------------------------------
  // Input as the recognizers see it

  /** The computed input data a recognizer reads: the event type, the number
      of pointers, the squared distance travelled, the time since the first
      input, the timestamp, the center, the event names of the recognizers
      whose own geometric test (threshold, direction, scale, velocity) passes
      on this input, and the additional event name (such as 'panleft'). */
  datatype GestureInput = GestureInput(
    eventType: Flags,
    pointersLen: nat,
    distanceSq: nat,
    deltaTime: int,
    timeStamp: int,
    center: Point,
    attrOk: set<string>,
    additionalEvent: Option<string>)

  /** TapRecognizer options. */
  datatype TapOptions = TapOptions(pointers: nat, taps: nat, interval: int, time: int, threshold: nat, posThreshold: nat)

  /** TapRecognizer defaults: one pointer, one tap, 300 ms between taps,
      250 ms down, 9 px of movement, 10 px between taps. */
  const DefaultTap := TapOptions(1, 1, 300, 250, 9, 10)

  /** What kind of recognizer: one built on AttrRecognizer (with its pointers
      option), or a tap recognizer. */
  datatype Kind = Attr(pointers: nat) | Tap(options: TapOptions)

  /** The tap counting memory: the count and the previous tap's time (0 is
      the source's falsy initial value) and center. */
  datatype TapMemory = TapMemory(count: nat, pTime: int, pCenter: Option<Point>)

  const FreshTap := TapMemory(0, 0, None)

  function DistSq(a: Point, b: Point): nat
  {
    (a.x - b.x) * (a.x - b.x) + (a.y - b.y) * (a.y - b.y)
  }

  // ---------------------------------------------------------------------
  // AttrRecognizer

  /** AttrRecognizer.attrTest: the pointer count matches (0 means any) and the
      subclass's own test passes. */
  predicate AttrTest(pointers: nat, event: string, input: GestureInput)
  {
    (pointers == 0 || input.pointersLen == pointers) && event in input.attrOk
  }

  /** AttrRecognizer.process. */
  function AttrProcess(state: Flags, eventType: Flags, isValid: bool): (r: Flags)
    // a gesture already under way is cancelled by a cancel input or an invalid one
    ensures state & (STATE_BEGAN | STATE_CHANGED) != 0 && (eventType & INPUT_CANCEL != 0 || !isValid) ==>
              r == state | STATE_CANCELLED
    // otherwise a gesture under way, or a valid input, ends, begins or changes it
    ensures !(state & (STATE_BEGAN | STATE_CHANGED) != 0 && (eventType & INPUT_CANCEL != 0 || !isValid)) &&
            (state & (STATE_BEGAN | STATE_CHANGED) != 0 || isValid) ==>
              r == (if eventType & INPUT_END != 0 then state | STATE_ENDED
                    else if state & STATE_BEGAN == 0 then STATE_BEGAN
                    else state | STATE_CHANGED)
    // and anything else fails
    ensures state & (STATE_BEGAN | STATE_CHANGED) == 0 && !isValid ==> r == STATE_FAILED
  {
    var isRecognized := state & (STATE_BEGAN | STATE_CHANGED) != 0;
    if isRecognized && (eventType & INPUT_CANCEL != 0 || !isValid) then state | STATE_CANCELLED
    else if isRecognized || isValid then
      if eventType & INPUT_END != 0 then state | STATE_ENDED
      else if state & STATE_BEGAN == 0 then STATE_BEGAN
      else state | STATE_CHANGED
    else STATE_FAILED
  }

  // ---------------------------------------------------------------------
  // TapRecognizer

  /** A press short and still enough to be a tap, with the right number of
      pointers. */
  predicate TapLike(o: TapOptions, input: GestureInput)
  {
    input.pointersLen == o.pointers && input.distanceSq < o.threshold * o.threshold && input.deltaTime < o.time
  }

  /** Whether a tap continues the series of the previous one: within
      `interval` of its time (when there was one; the initial 0 is falsy)
      and within `posThreshold` of its center (when there was one). */
  predicate Continues(o: TapOptions, pTime: int, pCenter: Option<Point>, input: GestureInput)
  {
    (pTime != 0 ==> input.timeStamp - pTime < o.interval) &&
    (pCenter.None? || DistSq(pCenter.value, input.center) < o.posThreshold * o.posThreshold)
  }

  /** TapRecognizer.process: the new tap memory and state. A start before any
      tap fails; a short, still press with the right pointer count counts a
      tap on its end input (restarting the count at 1 when too late or too far
      from the previous tap); a count that is a multiple of `taps` recognizes,
      or only begins when other recognizers must fail first. */
  function TapProcess(o: TapOptions, m: TapMemory, hasRequireFailures: bool, input: GestureInput): (r: (TapMemory, Flags))
    ensures r.1 in {STATE_FAILED, STATE_BEGAN, STATE_RECOGNIZED}
    ensures r.1 == STATE_BEGAN <==> r.1 != STATE_FAILED && hasRequireFailures
    // anything but a tap-like end input fails and leaves the memory alone
    ensures !(input.eventType == INPUT_END && TapLike(o, input)) ==> r == (m, STATE_FAILED)
    // a tap-like end input counts one more tap in a continued series, or starts a new one
    ensures input.eventType == INPUT_END && TapLike(o, input) ==>
              r.0 == TapMemory(if Continues(o, m.pTime, m.pCenter, input) then m.count + 1 else 1,
                               input.timeStamp, Some(input.center))
    // and it is recognized (or begins) exactly when the count is a multiple of `taps`
    ensures input.eventType == INPUT_END && TapLike(o, input) ==>
              (r.1 != STATE_FAILED <==> o.taps != 0 && r.0.count % o.taps == 0)
  {
    var validPointers := input.pointersLen == o.pointers;
    var validMovement := input.distanceSq < o.threshold * o.threshold;
    var validTouchTime := input.deltaTime < o.time;
    if input.eventType & INPUT_START != 0 && m.count == 0 then (m, STATE_FAILED)
    else if validMovement && validTouchTime && validPointers then
      if input.eventType != INPUT_END then (m, STATE_FAILED)
      else
        var validInterval := if m.pTime != 0 then input.timeStamp - m.pTime < o.interval else true;
        var validMultiTap := m.pCenter.None? || DistSq(m.pCenter.value, input.center) < o.posThreshold * o.posThreshold;
        var count := if !validMultiTap || !validInterval then 1 else m.count + 1;
        var m' := TapMemory(count, input.timeStamp, Some(input.center));
        if o.taps != 0 && count % o.taps == 0 then
          (m', if hasRequireFailures then STATE_BEGAN else STATE_RECOGNIZED)
        else (m', STATE_FAILED)
    else (m, STATE_FAILED)
  }

  /** The tap memory and the last state after a series of inputs, starting
      from memory m, for a recognizer with no require-failure partners. */
  function TapRun(o: TapOptions, m: TapMemory, inputs: seq<GestureInput>): (TapMemory, Flags)
    decreases |inputs|
  {
    if |inputs| == 0 then (m, STATE_POSSIBLE)
    else TapProcess(o, TapRun(o, m, inputs[..|inputs| - 1]).0, false, inputs[|inputs| - 1])
  }

  /** k tap-like end inputs, each continuing the series of the one before,
      fed to a fresh tap recognizer, count k taps, and the last one is
      recognized exactly when k is a multiple of `taps`. */
  lemma {:induction false} TapSeries(o: TapOptions, inputs: seq<GestureInput>)
    requires |inputs| >= 1
    requires forall i :: 0 <= i < |inputs| ==> inputs[i].eventType == INPUT_END && TapLike(o, inputs[i])
    requires forall i :: 0 < i < |inputs| ==> Continues(o, inputs[i - 1].timeStamp, Some(inputs[i - 1].center), inputs[i])
    ensures var last := inputs[|inputs| - 1];
            TapRun(o, FreshTap, inputs) ==
              (TapMemory(|inputs|, last.timeStamp, Some(last.center)),
               if o.taps != 0 && |inputs| % o.taps == 0 then STATE_RECOGNIZED else STATE_FAILED)
    decreases |inputs|
  {
    var n := |inputs|;
    var prefix := inputs[..n - 1];
    if n == 1 {
      assert TapRun(o, FreshTap, prefix) == (FreshTap, STATE_POSSIBLE);
    } else {
      TapSeries(o, prefix);
      assert prefix[n - 2] == inputs[n - 2];
    }
  }

  /** A tap input: an end input at a time and place, with one pointer, no
      movement and a short press. */
  function TapEnd(timeStamp: int, center: Point): GestureInput
  {
    GestureInput(INPUT_END, 1, 0, 0, timeStamp, center, {}, None)
  }

  /** With the default options, a single quick tap is recognized at once. */
  lemma SingleTapRecognized(m: TapMemory, timeStamp: int, center: Point)
    ensures TapProcess(DefaultTap, m, false, TapEnd(timeStamp, center)).1 == STATE_RECOGNIZED
  {
  }

  /** A double-tap recognizer (taps 2) fails on the first tap and recognizes
      the second one when it comes within the interval and near the first. */
  lemma DoubleTapRecognized(t1: int, t2: int, c1: Point, c2: Point)
    requires t1 != 0 && 0 <= t2 - t1 < 300
    requires DistSq(c1, c2) < 100
    ensures var o := DefaultTap.(taps := 2);
            var first := TapProcess(o, FreshTap, false, TapEnd(t1, c1));
            first.1 == STATE_FAILED && first.0.count == 1 &&
            TapProcess(o, first.0, false, TapEnd(t2, c2)) == (TapMemory(2, t2, Some(c2)), STATE_RECOGNIZED)
  {
  }

  /** A tap that comes too late starts the count again at 1, so a double-tap
      recognizer does not recognize it. */
  lemma LateTapRestartsCount(m: TapMemory, t: int, c: Point)
    requires m.pTime != 0 && t - m.pTime >= 300
    ensures var r := TapProcess(DefaultTap.(taps := 2), m, false, TapEnd(t, c));
            r.0.count == 1 && r.1 == STATE_FAILED
  {
  }

  /** `count % 0` is NaN in the source: a tap recognizer with taps 0 never
      recognizes. */
  lemma ZeroTapsNeverRecognize(o: TapOptions, m: TapMemory, hasRequireFailures: bool, input: GestureInput)
    requires o.taps == 0
    ensures TapProcess(o, m, hasRequireFailures, input).1 == STATE_FAILED
  {
  }

  // ---------------------------------------------------------------------
  // The recognize step

  /** The reset at the top of Recognizer.recognize: a recognized, cancelled or
      failed recognizer starts again from POSSIBLE. */
  function ResetFinished(state: Flags): (r: Flags)
    ensures state & (STATE_RECOGNIZED | STATE_CANCELLED | STATE_FAILED) != 0 ==> r == STATE_POSSIBLE
    ensures state & (STATE_RECOGNIZED | STATE_CANCELLED | STATE_FAILED) == 0 ==> r == state
  {
    if state & (STATE_RECOGNIZED | STATE_CANCELLED | STATE_FAILED) != 0 then STATE_POSSIBLE else state
  }

  /** The process method of each kind of recognizer. */
  function Process(kind: Kind, event: string, state: Flags, m: TapMemory, hasRequireFailures: bool, input: GestureInput): (Flags, TapMemory)
  {
    match kind
    case Attr(pointers) => (AttrProcess(state, input.eventType, AttrTest(pointers, event, input)), m)
    case Tap(o) => var r := TapProcess(o, m, hasRequireFailures, input); (r.1, r.0)
  }

  /** Whether a state is one that tries to emit. */
  predicate Emitting(state: Flags)
  {
    state & (STATE_BEGAN | STATE_CHANGED | STATE_ENDED | STATE_CANCELLED) != 0
  }

  /** The event names Recognizer.emit sends (the state-suffixed name before
      the plain one while the gesture is under way, after it and the
      additional event once it has ended or been cancelled), and the single
      name TapRecognizer.emit sends, and only when recognized. */
  function EmitNames(kind: Kind, event: string, state: Flags, additionalEvent: Option<string>): (names: seq<string>)
  {
    if kind.Tap? then (if state == STATE_RECOGNIZED then [event] else [])
    else
      var extra := if additionalEvent.Some? && additionalEvent.value != "" then [additionalEvent.value] else [];
      (if state < STATE_ENDED then [event + StateStr(state)] else []) +
      [event] + extra +
      (if state >= STATE_ENDED then [event + StateStr(state)] else [])
  }

  /** Every emission of an attribute recognizer sends the plain event name
      and exactly one state-suffixed name, first while the gesture is under
      way and last once it has ended or been cancelled. */
  lemma EmitNamesOrder(pointers: nat, event: string, state: Flags, additionalEvent: Option<string>)
    ensures var names := EmitNames(Attr(pointers), event, state, additionalEvent);
            2 <= |names| <= 3 && event in names &&
            (state < STATE_ENDED ==> names[0] == event + StateStr(state) && names[1] == event) &&
            (state >= STATE_ENDED ==> names[0] == event && names[|names| - 1] == event + StateStr(state))
  {
  }

  // ---------------------------------------------------------------------
  // A whole gesture

  /** The states and emitted suffixes of an attribute recognizer fed a series
      of valid inputs of the given event types. */
  function AttrRun(state: Flags, events: seq<Flags>): (r: (Flags, seq<string>))
    ensures |r.1| == |events|
    decreases |events|
  {
    if |events| == 0 then (state, [])
    else
      var s := AttrProcess(ResetFinished(state), events[0], true);
      var rest := AttrRun(s, events[1..]);
      (rest.0, [StateStr(s)] + rest.1)
  }

  function Repeat<T>(x: T, n: nat): (r: seq<T>)
    ensures |r| == n && forall i :: 0 <= i < n ==> r[i] == x
  {
    if n == 0 then [] else [x] + Repeat(x, n - 1)
  }

  /** Moves of a gesture under way keep it changing and each emits a move. */
  lemma {:induction false} AttrRunMoves(state: Flags, n: nat)
    requires state == STATE_BEGAN || state == STATE_BEGAN | STATE_CHANGED
    ensures AttrRun(state, Repeat(INPUT_MOVE, n)) ==
            (if n == 0 then state else STATE_BEGAN | STATE_CHANGED, Repeat("move", n))
    decreases n
  {
    if n > 0 {
      var moves := Repeat(INPUT_MOVE, n);
      assert moves[1..] == Repeat(INPUT_MOVE, n - 1);
      AttrRunMoves(STATE_BEGAN | STATE_CHANGED, n - 1);
      assert Repeat("move", n) == ["move"] + Repeat("move", n - 1);
    }
  }

  lemma {:induction false} AttrRunAppend(state: Flags, a: seq<Flags>, b: seq<Flags>)
    ensures AttrRun(state, a + b) ==
            (AttrRun(AttrRun(state, a).0, b).0, AttrRun(state, a).1 + AttrRun(AttrRun(state, a).0, b).1)
    decreases |a|
  {
    if |a| == 0 {
      assert a + b == b;
      assert AttrRun(state, a) == (state, []);
      assert [] + AttrRun(state, b).1 == AttrRun(state, b).1;
    } else {
      var s := AttrProcess(ResetFinished(state), a[0], true);
      assert (a + b)[0] == a[0];
      assert (a + b)[1..] == a[1..] + b;
      AttrRunAppend(s, a[1..], b);
      var ra := AttrRun(s, a[1..]);
      var rb := AttrRun(ra.0, b);
      assert AttrRun(state, a) == (ra.0, [StateStr(s)] + ra.1);
      assert AttrRun(state, a + b) == (AttrRun(s, a[1..] + b).0, [StateStr(s)] + AttrRun(s, a[1..] + b).1);
      assert [StateStr(s)] + (ra.1 + rb.1) == ([StateStr(s)] + ra.1) + rb.1;
    }
  }

  /** A gesture of valid inputs — a start, any number of moves, an end —
      emits start, one move per move, and end, and leaves the recognizer
      recognized; the next input starts again from POSSIBLE. */
  lemma GestureLifecycle(n: nat)
    ensures var r := AttrRun(STATE_POSSIBLE, [INPUT_START] + Repeat(INPUT_MOVE, n) + [INPUT_END]);
            r.1 == ["start"] + Repeat("move", n) + ["end"] &&
            r.0 & STATE_RECOGNIZED != 0 && ResetFinished(r.0) == STATE_POSSIBLE
  {
    var moves := Repeat(INPUT_MOVE, n);
    AttrRunAppend(STATE_POSSIBLE, [INPUT_START], moves);
    AttrRunAppend(STATE_POSSIBLE, [INPUT_START] + moves, [INPUT_END]);
    AttrRunMoves(STATE_BEGAN, n);
  }

  /** A gesture under way that receives a cancel input is cancelled and emits
      its cancel name last. */
  lemma CancelledGesture(pointers: nat, event: string, state: Flags, additionalEvent: Option<string>)
    requires state in {STATE_BEGAN, STATE_BEGAN | STATE_CHANGED}
    ensures var s := AttrProcess(state, INPUT_CANCEL, true);
            s & STATE_CANCELLED != 0 && StateStr(s) == "cancel" &&
            var names := EmitNames(Attr(pointers), event, s, additionalEvent);
            names[|names| - 1] == event + "cancel"
  {
  }

  // ---------------------------------------------------------------------
  // Recognizer

  class Recognizer {
    /** uniqueId() */
    const id: nat
    /** options.event */
    const event: string
    const kind: Kind
    /** options.enable, reduced to a boolean */
    var enabled: bool
    var state: Flags
    /** the ids of the recognizers this one may run simultaneously with */
    var simultaneous: set<nat>
    var requireFail: seq<Recognizer>
    var tap: TapMemory

    constructor (id: nat, event: string, kind: Kind)
      ensures this.id == id && this.event == event && this.kind == kind
      ensures enabled && state == STATE_POSSIBLE && simultaneous == {} && requireFail == [] && tap == FreshTap
    {
      this.id := id;
      this.event := event;
      this.kind := kind;
      enabled := true;
      state := STATE_POSSIBLE;
      simultaneous := {};
      requireFail := [];
      tap := FreshTap;
    }

    /** recognizeWith: links both ways; when this side already holds the link
        nothing is done, not even on the other side. */
    method RecognizeWith(other: Recognizer)
      requires other != this ==> other.id != id
      modifies this`simultaneous, other`simultaneous
      ensures old(other.id in simultaneous) ==> simultaneous == old(simultaneous) && other.simultaneous == old(other.simultaneous)
      ensures old(other.id !in simultaneous) && other != this ==>
                simultaneous == old(simultaneous) + {other.id} && other.simultaneous == old(other.simultaneous) + {id}
      ensures old(other.id !in simultaneous) && other == this ==> simultaneous == old(simultaneous) + {id}
      decreases (if other.id in simultaneous then 0 else 1) + (if id in other.simultaneous then 0 else 1)
    {
      if other.id !in simultaneous {
        simultaneous := simultaneous + {other.id};
        other.RecognizeWith(this);
      }
    }

    /** dropRecognizeWith: removes only this side's link. */
    method DropRecognizeWith(other: Recognizer)
      modifies this`simultaneous
      ensures simultaneous == old(simultaneous) - {other.id}
    {
      simultaneous := simultaneous - {other.id};
    }

    /** requireFailure: links both ways without duplicates; when this side
        already holds the link nothing is done. */
    method RequireFailure(other: Recognizer)
      modifies this`requireFail, other`requireFail
      ensures old(other in requireFail) ==> requireFail == old(requireFail) && other.requireFail == old(other.requireFail)
      ensures old(other !in requireFail) && other != this ==>
                requireFail == old(requireFail) + [other] &&
                other.requireFail == old(other.requireFail) + (if this in old(other.requireFail) then [] else [this])
      ensures old(other !in requireFail) && other == this ==> requireFail == old(requireFail) + [this]
      decreases (if other in requireFail then 0 else 1) + (if this in other.requireFail then 0 else 1)
    {
      var index := IndexOf(requireFail, other);
      if index == -1 {
        requireFail := requireFail + [other];
        other.RequireFailure(this);
      }
    }

    /** dropRequireFailure: removes the first occurrence on this side only. */
    method DropRequireFailure(other: Recognizer)
      modifies this`requireFail
      ensures other !in old(requireFail) ==> requireFail == old(requireFail)
      ensures other in old(requireFail) ==> requireFail == RemoveAt(old(requireFail), IndexOf(old(requireFail), other))
    {
      var index := IndexOf(requireFail, other);
      if index > -1 {
        requireFail := SpliceOne(requireFail, index);
      }
    }

    predicate HasRequireFailures()
      reads this
    {
      |requireFail| > 0
    }

    predicate CanRecognizeWith(other: Recognizer)
      reads this`simultaneous
    {
      other.id in simultaneous
    }

    /** Whether every recognizer this one requires to fail is failed or
        possible. */
    ghost predicate PartnersAllow()
      reads this, requireFail
    {
      forall i :: 0 <= i < |requireFail| ==> requireFail[i].state & (STATE_FAILED | STATE_POSSIBLE) != 0
    }

    /** canEmit */
    method CanEmit() returns (ok: bool)
      ensures ok <==> PartnersAllow()
    {
      var i := 0;
      while i < |requireFail|
        invariant 0 <= i <= |requireFail|
        invariant forall j :: 0 <= j < i ==> requireFail[j].state & (STATE_FAILED | STATE_POSSIBLE) != 0
      {
        if requireFail[i].state & (STATE_FAILED | STATE_POSSIBLE) == 0 {
          return false;
        }
        i := i + 1;
      }
      return true;
    }

    /** tryEmit: emits when the required partners allow, fails otherwise. */
    method TryEmit(input: GestureInput) returns (emitted: seq<string>)
      modifies this`state
      ensures old(PartnersAllow()) ==> state == old(state) && emitted == EmitNames(kind, event, state, input.additionalEvent)
      ensures !old(PartnersAllow()) ==> state == STATE_FAILED && emitted == []
    {
      var ok := CanEmit();
      if ok {
        emitted := EmitNames(kind, event, state, input.additionalEvent);
      } else {
        state := STATE_FAILED;
        emitted := [];
      }
    }

    /** Whether the partners allow an emission once this recognizer's own
        state is `s` (this recognizer may be among its own partners). */
    ghost predicate PartnersAllowWith(s: Flags)
      reads this, requireFail
    {
      forall i :: 0 <= i < |requireFail| ==>
        (if requireFail[i] == this then s else requireFail[i].state) & (STATE_FAILED | STATE_POSSIBLE) != 0
    }

    /** Recognizer.recognize: a disabled recognizer fails; otherwise a
        finished one restarts from POSSIBLE, process gives the new state, and
        an emitting state is emitted or, when a required partner has not
        failed, turned into FAILED. Returns the event names emitted. */
    method Recognize(input: GestureInput) returns (emitted: seq<string>)
      modifies this`state, this`tap
      ensures !enabled ==> state == STATE_FAILED && tap == old(tap) && emitted == []
      ensures enabled ==>
                var p := Process(kind, event, ResetFinished(old(state)), old(tap), |requireFail| > 0, input);
                && tap == p.1
                && (!Emitting(p.0) ==> state == p.0 && emitted == [])
                && (Emitting(p.0) && PartnersAllowWith(p.0) ==>
                      state == p.0 && emitted == EmitNames(kind, event, p.0, input.additionalEvent))
                && (Emitting(p.0) && !PartnersAllowWith(p.0) ==> state == STATE_FAILED && emitted == [])
    {
      if !enabled {
        state := STATE_FAILED;
        return [];
      }
      if state & (STATE_RECOGNIZED | STATE_CANCELLED | STATE_FAILED) != 0 {
        state := STATE_POSSIBLE;
      }
      var p := Process(kind, event, state, tap, HasRequireFailures(), input);
      state, tap := p.0, p.1;
      emitted := [];
      if state & (STATE_BEGAN | STATE_CHANGED | STATE_ENDED | STATE_CANCELLED) != 0 {
        assert PartnersAllow() <==> PartnersAllowWith(p.0);
        emitted := TryEmit(input);
      }
    }
  }

  /** An enabled recognizer that has run is never left POSSIBLE unless its
      process said so, and a disabled one always fails: the state after a
      step is a single result of process or FAILED. */
  lemma AttrStepNeverPossible(state: Flags, eventType: Flags, isValid: bool)
    ensures AttrProcess(ResetFinished(state), eventType, isValid) != STATE_POSSIBLE
  {
  }
}
