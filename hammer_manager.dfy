/** The Hammer.js Manager: the list of recognizers (one per event name), the
    handler lists per event name, and the session that decides which
    recognizer is the current one while pointers are down.
 */
module HammerManager {
  import opened Js
  import opened HammerUtil
  import opened HammerInput
  import opened HammerRecognizer

  /** session.stopped: unset, STOP (1) or FORCED_STOP (2). */
  datatype StopMode = Running | Stopped | ForcedStopped

  /** A handler function, by identity. */
  type HandlerId = nat

  function EventOf(r: Recognizer): string { r.event }

  /** The event names of a list of recognizers, in order. */
  function Events(rs: seq<Recognizer>): seq<string>
  {
    Keys(rs, EventOf)
  }

  /** No two recognizers of the list answer to the same event name. */
  ghost predicate DistinctEvents(rs: seq<Recognizer>)
  {
    forall i, j :: 0 <= i < j < |rs| ==> rs[i].event != rs[j].event
  }

  /** The list without the recognizer for an event name, if there is one. */
  function WithoutEvent(rs: seq<Recognizer>, event: string): (r: seq<Recognizer>)
    ensures event !in Events(rs) ==> r == rs
    ensures event in Events(rs) ==> r == RemoveAt(rs, IndexOf(Events(rs), event))
  {
    var index := IndexOf(Events(rs), event);
    if index < 0 then rs else RemoveAt(rs, index)
  }

  /** With distinct event names, a recognizer is found by identity at the
      same place as by its event name. */
  lemma IndexByIdentity(rs: seq<Recognizer>, k: nat)
    requires DistinctEvents(rs) && k < |rs|
    ensures IndexOf(rs, rs[k]) == k
    ensures IndexOf(Events(rs), rs[k].event) == k
  {
    var i := IndexOf(rs, rs[k]);
    assert rs[i] == rs[k];
    var j := IndexOf(Events(rs), rs[k].event);
    assert Events(rs)[k] == rs[k].event;
    assert rs[j].event == rs[k].event;
  }

  /** Removing the recognizer for an event name keeps the others, in order,
      and leaves no recognizer for that name. */
  lemma WithoutEventDistinct(rs: seq<Recognizer>, event: string)
    requires DistinctEvents(rs)
    ensures var w := WithoutEvent(rs, event);
            && DistinctEvents(w)
            && (forall y :: y in w ==> y in rs && y.event != event)
            && (forall x :: x in rs && x.event != event ==> x in w)
  {
    var w := WithoutEvent(rs, event);
    if event in Events(rs) {
      var index := IndexOf(Events(rs), event);
      forall x | x in rs && x.event != event ensures x in w {
        var k :| 0 <= k < |rs| && rs[k] == x;
        assert Events(rs)[k] == x.event;
        assert k != index;
        if k < index { assert w[k] == x; } else { assert w[k - 1] == x; }
      }
      forall y | y in w ensures y in rs && y.event != event {
        var k :| 0 <= k < |w| && w[k] == y;
        if k < index {
          assert rs[k] == y;
          assert Events(rs)[k] == y.event;
        } else {
          assert rs[k + 1] == y;
          assert rs[k + 1].event != rs[index].event;
        }
      }
      forall i, j | 0 <= i < j < |w| ensures w[i].event != w[j].event {
        var i' := if i < index then i else i + 1;
        var j' := if j < index then j else j + 1;
        assert w[i] == rs[i'] && w[j] == rs[j'];
      }
    } else {
      forall y | y in w ensures y.event != event {
        var k :| 0 <= k < |w| && w[k] == y;
        assert Events(rs)[k] == y.event;
      }
    }
  }

  /** Removing the recognizer for an event name and pushing a new one keeps
      the event names distinct: the new recognizer answers to its name, and
      every other name keeps its recognizer. */
  lemma {:induction false} AddReplaces(rs: seq<Recognizer>, r: Recognizer)
    requires DistinctEvents(rs)
    ensures var rs' := WithoutEvent(rs, r.event) + [r];
            && DistinctEvents(rs')
            && rs'[|rs'| - 1] == r
            && r.event !in Events(rs'[..|rs'| - 1])
            && (forall x :: x in rs' && x != r ==> x in rs)
            && (forall x :: x in rs && x.event != r.event ==> x in rs')
  {
    var w := WithoutEvent(rs, r.event);
    var rs' := w + [r];
    WithoutEventDistinct(rs, r.event);
    assert rs'[..|rs'| - 1] == w;
    forall i, j | 0 <= i < j < |rs'| ensures rs'[i].event != rs'[j].event {
      if j == |rs'| - 1 {
        assert rs'[i] in w;
      }
    }
    forall e | e in Events(w) ensures e != r.event {
      var k :| 0 <= k < |w| && Events(w)[k] == e;
      assert w[k] in w;
    }
  }

  /** The handlers registered for an event name (none when it has no entry). */
  function HandlersOf(handlers: map<string, seq<HandlerId>>, event: string): seq<HandlerId>
  {
    if event in handlers then handlers[event] else []
  }

  /** The handler lists after off(event, handler): without a handler the
      entry is deleted; with one, splice(inArray(list, handler), 1) runs on an
      existing entry, and inArray's -1 for an unregistered handler makes the
      splice drop the last handler instead. */
  function OffHandlers(handlers: map<string, seq<HandlerId>>, event: string, handler: Option<HandlerId>): (r: map<string, seq<HandlerId>>)
    ensures handler.None? ==> r == handlers - {event}
    ensures handler.Some? && event !in handlers ==> r == handlers
    ensures handler.Some? && event in handlers ==>
              r == handlers[event := SpliceOne(handlers[event], IndexOf(handlers[event], handler.value))]
  {
    if handler.None? then handlers - {event}
    else if event in handlers then
      handlers[event := SpliceOne(handlers[event], IndexOf(handlers[event], handler.value))]
    else handlers
  }

  /** off removes the first registration of a registered handler and keeps
      the others in order. */
  lemma OffRegistered(handlers: map<string, seq<HandlerId>>, event: string, h: HandlerId)
    requires h in HandlersOf(handlers, event)
    ensures var list := HandlersOf(handlers, event);
            var i := IndexOf(list, h);
            HandlersOf(OffHandlers(handlers, event, Some(h)), event) == list[..i] + list[i + 1..]
  {
  }

  /** off with a handler that is not registered for a non-empty list drops
      that list's last handler (splice(-1, 1)). */
  lemma OffUnregisteredDropsLast(handlers: map<string, seq<HandlerId>>, event: string, h: HandlerId)
    requires event in handlers && |handlers[event]| > 0 && h !in handlers[event]
    ensures HandlersOf(OffHandlers(handlers, event, Some(h)), event) == handlers[event][..|handlers[event]| - 1]
  {
  }

  /** on followed by off of the same handler restores the handler list when
      the handler was not registered before. */
  lemma OnThenOff(handlers: map<string, seq<HandlerId>>, event: string, h: HandlerId)
    requires h !in HandlersOf(handlers, event)
    ensures HandlersOf(OffHandlers(handlers[event := HandlersOf(handlers, event) + [h]], event, Some(h)), event) ==
            HandlersOf(handlers, event)
  {
    var list := HandlersOf(handlers, event);
    assert IndexOf(list + [h], h) == |list| by {
      assert (list + [h])[|list|] == h;
      assert (list + [h])[..|list|] == list;
    }
    assert (list + [h])[..|list|] == list;
  }

  /** Whether a state counts as recognizing: began, changed or ended. */
  predicate Active(state: Flags)
  {
    state & (STATE_BEGAN | STATE_CHANGED | STATE_ENDED) != 0
  }

  /** With distinct event names, the recognizers are distinct objects. */
  lemma DistinctObjects(rs: seq<Recognizer>, i: nat)
    requires DistinctEvents(rs) && i < |rs|
    ensures forall j :: 0 <= j < |rs| && j != i ==> rs[j] != rs[i]
  {
  }

  /** The current recognizer when the recognizer at index j takes its turn:
      the one carried over from before, or the one that became current at an
      earlier index. */
  ghost function CurrentAt(rs: seq<Recognizer>, cur0: Option<Recognizer>, curIndex: int, j: int): Option<Recognizer>
  {
    if cur0.Some? then cur0
    else if 0 <= curIndex < j && curIndex < |rs| then Some(rs[curIndex])
    else None
  }

  /** Whether a recognizer may run while c is the current recognizer. */
  predicate Allowed(r: Recognizer, c: Option<Recognizer>)
    reads r`simultaneous
  {
    c.None? || r == c.value || r.CanRecognizeWith(c.value)
  }

  /** How the walk over the recognizers left the current recognizer: one
      carried over stays current; otherwise the first recognizer that is
      active after its turn becomes current, and there is none when no
      recognizer is active. */
  ghost predicate Walked(rs: seq<Recognizer>, cur0: Option<Recognizer>, curIndex: int, cur: Option<Recognizer>)
    reads set r | r in rs
  {
    && (cur0.Some? ==> cur == cur0 && curIndex == -1)
    && (cur0.None? ==> -1 <= curIndex < |rs| && cur == CurrentAt(rs, cur0, curIndex, |rs|))
    && (cur0.None? ==> forall j :: 0 <= j < |rs| && (curIndex == -1 || j < curIndex) ==> !Active(rs[j].state))
    && (cur0.None? && curIndex >= 0 ==> Active(rs[curIndex].state))
  }

  /** The state and tap memory of each recognizer of a list, in order. */
  function Snapshot(rs: seq<Recognizer>): (s: seq<(Flags, TapMemory)>)
    reads set r | r in rs
    ensures |s| == |rs| && forall i :: 0 <= i < |rs| ==> s[i] == (rs[i].state, rs[i].tap)
  {
    if |rs| == 0 then [] else Snapshot(rs[..|rs| - 1]) + [(rs[|rs| - 1].state, rs[|rs| - 1].tap)]
  }

  /** The state of each recognizer of a list, in order. */
  function StatesOf(qs: seq<Recognizer>): (s: seq<Flags>)
    reads set q | q in qs
    ensures |s| == |qs| && forall k :: 0 <= k < |qs| ==> s[k] == qs[k].state
  {
    if |qs| == 0 then [] else StatesOf(qs[..|qs| - 1]) + [qs[|qs| - 1].state]
  }

  /** canEmit over the states `partners` the required-failure partners reqs
      of r have at its turn: each is FAILED or POSSIBLE, r itself (when it is
      its own partner) counting with its new state s. */
  predicate PartnersLet(r: Recognizer, reqs: seq<Recognizer>, s: Flags, partners: seq<Flags>)
  {
    && |partners| == |reqs|
    && forall k :: 0 <= k < |partners| ==>
         (if reqs[k] == r then s else partners[k]) & (STATE_FAILED | STATE_POSSIBLE) != 0
  }

  /** One turn of the recognize loop, given the states `partners` that r's
      required-failure partners have at that turn, for a recognizer that had
      state and tap memory `before`: one that may not run keeps them and
      emits nothing; a disabled one fails; otherwise process gives its tap
      memory and its state, and an emitting state emits its names when the
      partners let it and is turned into FAILED, emitting nothing, when
      they do not. */
  predicate TurnAgainst(r: Recognizer, allowed: bool, input: GestureInput, names: seq<string>,
                        before: (Flags, TapMemory), partners: seq<Flags>)
    reads r
  {
    if !allowed then r.state == before.0 && r.tap == before.1 && names == []
    else if !r.enabled then r.state == STATE_FAILED && r.tap == before.1 && names == []
    else
      var p := Process(r.kind, r.event, ResetFinished(before.0), before.1, |r.requireFail| > 0, input);
      && r.tap == p.1
      && (!Emitting(p.0) ==> r.state == p.0 && names == [])
      && (Emitting(p.0) && PartnersLet(r, r.requireFail, p.0, partners) ==>
            r.state == p.0 && names == EmitNames(r.kind, r.event, p.0, input.additionalEvent))
      && (Emitting(p.0) && !PartnersLet(r, r.requireFail, p.0, partners) ==>
            r.state == STATE_FAILED && names == [])
  }

  /** TurnAgainst without the partners' states: an emitting state emits its
      names, or, only for a recognizer with required-failure partners, is
      turned into FAILED. A recognizer with no such partner emits exactly. */
  predicate TurnTaken(r: Recognizer, allowed: bool, input: GestureInput, names: seq<string>, before: (Flags, TapMemory))
    reads r
  {
    if !allowed then r.state == before.0 && r.tap == before.1 && names == []
    else if !r.enabled then r.state == STATE_FAILED && r.tap == before.1 && names == []
    else
      var p := Process(r.kind, r.event, ResetFinished(before.0), before.1, |r.requireFail| > 0, input);
      && r.tap == p.1
      && (!Emitting(p.0) ==> r.state == p.0 && names == [])
      && (Emitting(p.0) ==>
            (r.state == p.0 && names == EmitNames(r.kind, r.event, p.0, input.additionalEvent)) ||
            (|r.requireFail| > 0 && r.state == STATE_FAILED && names == []))
  }

  /** The current recognizer recognize starts from: the session's, unless
      there is none or it has been recognized. */
  function Carried(session: Option<Recognizer>): Option<Recognizer>
    reads if session.Some? then {session.value} else {}
  {
    if session.None? || session.value.state & STATE_RECOGNIZED != 0 then None else session
  }

  /** The names of every turn, in the order of the turns. */
  function Concat(turns: seq<seq<string>>): seq<string>
  {
    if |turns| == 0 then [] else Concat(turns[..|turns| - 1]) + turns[|turns| - 1]
  }

  /** One more turn appends its names. */
  lemma ConcatSnoc(turns: seq<seq<string>>, names: seq<string>)
    ensures Concat(turns + [names]) == Concat(turns) + names
  {
    assert (turns + [names])[..|turns|] == turns;
  }

  /** The start of inputHandler on values: on the first input of a session
      (every pointer changed and the event type has INPUT_START) the session
      is fresh, running and without a current recognizer; computeDeltaXY then
      moves the delta. The result is the new deltas, the delta, the stopped
      mode and the current recognizer. */
  function Begin(input: GestureInput, changedLen: nat, deltas: DeltaState, stopped: StopMode, cur: Option<Recognizer>)
    : (b: (DeltaState, Option<Point>, StopMode, Option<Recognizer>))
    ensures var isFirst := SessionBoundary(input.eventType, input.pointersLen, changedLen).isFirst;
            && (isFirst ==> b.2 == Running && b.3 == None)
            && (!isFirst ==> b.2 == stopped && b.3 == cur)
            && (b.0, b.1) == ComputeDeltaXY(if isFirst then NewSession else deltas, input.eventType, input.center)
  {
    var isFirst := SessionBoundary(input.eventType, input.pointersLen, changedLen).isFirst;
    var d := ComputeDeltaXY(if isFirst then NewSession else deltas, input.eventType, input.center);
    (d.0, d.1, if isFirst then Running else stopped, if isFirst then None else cur)
  }

  class Manager {
    var recognizers: seq<Recognizer>
    var handlers: map<string, seq<HandlerId>>
    /** session.stopped */
    var stopped: StopMode
    /** session.curRecognizer */
    var curRecognizer: Option<Recognizer>
    /** session.offsetDelta, session.prevDelta, session.prevInput */
    var deltas: DeltaState

    constructor ()
      ensures recognizers == [] && handlers == map[] && stopped == Running && curRecognizer == None && deltas == NewSession
    {
      recognizers := [];
      handlers := map[];
      stopped := Running;
      curRecognizer := None;
      deltas := NewSession;
    }

    ghost predicate Valid()
      reads this`recognizers
    {
      DistinctEvents(recognizers)
    }

    /** stop(force) */
    method Stop(force: bool)
      modifies this`stopped
      ensures stopped == (if force then ForcedStopped else Stopped)
    {
      stopped := if force then ForcedStopped else Stopped;
    }

    /** get(name): the first recognizer with that event name, or null. */
    method Get(event: string) returns (r: Option<Recognizer>)
      ensures r.None? <==> event !in Events(recognizers)
      ensures r.Some? ==> r.value in recognizers && r.value.event == event &&
                          r.value == recognizers[IndexOf(Events(recognizers), event)]
    {
      var i := 0;
      while i < |recognizers|
        invariant 0 <= i <= |recognizers|
        invariant forall j :: 0 <= j < i ==> recognizers[j].event != event
      {
        if recognizers[i].event == event {
          assert Events(recognizers)[i] == event;
          assert Events(recognizers)[..i] == Events(recognizers[..i]);
          return Some(recognizers[i]);
        }
        i := i + 1;
      }
      return None;
    }

    /** remove(recognizer) for a recognizer instance: it is spliced out when
        present, and an absent one leaves the list unchanged. */
    method Remove(r: Recognizer)
      modifies this`recognizers
      ensures r !in old(recognizers) ==> recognizers == old(recognizers)
      ensures r in old(recognizers) ==> recognizers == RemoveAt(old(recognizers), IndexOf(old(recognizers), r))
    {
      var index := IndexOf(recognizers, r);
      if index != -1 {
        recognizers := SpliceOne(recognizers, index);
      }
    }

    /** remove(name): looks the name up with get and removes what it finds. */
    method RemoveByName(event: string)
      requires Valid()
      modifies this`recognizers
      ensures recognizers == WithoutEvent(old(recognizers), event)
      ensures Valid()
    {
      var existing := Get(event);
      if existing.Some? {
        ghost var k := IndexOf(Events(recognizers), event);
        IndexByIdentity(recognizers, k);
        Remove(existing.value);
      }
      WithoutEventDistinct(old(recognizers), event);
    }

    /** add(recognizer): removes the recognizer with the same event name, if
        any, and pushes the new one, so event names stay unique. */
    method Add(r: Recognizer)
      requires Valid()
      modifies this`recognizers
      ensures recognizers == WithoutEvent(old(recognizers), r.event) + [r]
      ensures Valid()
    {
      var existing := Get(r.event);
      if existing.Some? {
        ghost var k := IndexOf(Events(recognizers), r.event);
        IndexByIdentity(recognizers, k);
        Remove(existing.value);
      }
      recognizers := recognizers + [r];
      AddReplaces(old(recognizers), r);
    }

    /** on(event, handler): appends the handler to the event's list. */
    method On(event: string, handler: HandlerId)
      modifies this`handlers
      ensures handlers == old(handlers)[event := HandlersOf(old(handlers), event) + [handler]]
    {
      handlers := handlers[event := HandlersOf(handlers, event) + [handler]];
    }

    /** off(event, handler) */
    method Off(event: string, handler: Option<HandlerId>)
      modifies this`handlers
      ensures handlers == OffHandlers(old(handlers), event, handler)
    {
      if handler.None? {
        handlers := handlers - {event};
      } else if event in handlers {
        var index := IndexOf(handlers[event], handler.value);
        handlers := handlers[event := SpliceOne(handlers[event], index)];
      }
    }

    /** emit(event): calls every handler of a copy of the event's list, in
        order. Returns the handlers called. */
    method Emit(event: string) returns (called: seq<HandlerId>)
      ensures called == HandlersOf(handlers, event)
    {
      called := [];
      if event !in handlers || |handlers[event]| == 0 {
        return;
      }
      var list := handlers[event];
      var i := 0;
      while i < |list|
        invariant 0 <= i <= |list|
        invariant called == list[..i]
      {
        called := called + [list[i]];
        i := i + 1;
      }
      assert list[..i] == list;
    }

    /** What recognize did, given the session's stopped mode, its current
        recognizer `session`, the current recognizer `cur0` it carried over
        and the recognizers' states and memories `before` when it started:
        nothing in a stopped session; otherwise the walk decided the new
        current recognizer, every recognizer took its turn as TurnTaken
        says, and the names emitted are those of the turns in recognizer
        order. */
    ghost predicate Ran(stopped0: StopMode, session: Option<Recognizer>, cur0: Option<Recognizer>,
                        before: seq<(Flags, TapMemory)>, input: GestureInput,
                        emitted: seq<string>, curIndex: int, turns: seq<seq<string>>)
      reads this`recognizers, this`curRecognizer, set r | r in recognizers
    {
      && |before| == |recognizers|
      && (stopped0 != Running ==>
            emitted == [] && turns == [] && curRecognizer == session && Snapshot(recognizers) == before)
      && (stopped0 == Running ==>
            && Walked(recognizers, cur0, curIndex, curRecognizer)
            && |turns| == |recognizers| && emitted == Concat(turns)
            && forall i :: 0 <= i < |recognizers| ==>
                 TurnTaken(recognizers[i], Allowed(recognizers[i], CurrentAt(recognizers, cur0, curIndex, i)),
                           input, turns[i], before[i]))
    }

    /** recognize(input): does nothing in a stopped session; otherwise drops a
        current recognizer that is missing or recognized and walks the
        recognizers. Returns the event names emitted, in order, and (as
        ghosts) the index of the recognizer that became current and the
        names of each turn. The ghost parameters name the session's stopped
        mode, its current recognizer and the one carried over, on entry. */
    method Recognize(input: GestureInput, ghost stopped0: StopMode, ghost session: Option<Recognizer>,
                     ghost cur0: Option<Recognizer>)
      returns (emitted: seq<string>, ghost curIndex: int, ghost turns: seq<seq<string>>)
      requires Valid() && stopped0 == stopped && session == curRecognizer && cur0 == Carried(curRecognizer)
      modifies this`curRecognizer, (set r | r in recognizers)`state, (set r | r in recognizers)`tap
      ensures Ran(stopped0, session, cur0, old(Snapshot(recognizers)), input, emitted, curIndex, turns)
    {
      emitted := [];
      curIndex := -1;
      turns := [];
      if stopped != Running {
        return;
      }
      var cur := curRecognizer;
      if cur.None? || cur.value.state & STATE_RECOGNIZED != 0 {
        cur := None;
        curRecognizer := None;
      }
      emitted, curIndex, turns := Walk(input, cur);
    }

    /** The loop of recognize: a recognizer runs when there is no current
        recognizer, when it is the current one or when it may run
        simultaneously with it; the first one that reaches began, changed or
        ended becomes current. */
    method Walk(input: GestureInput, cur0: Option<Recognizer>)
      returns (emitted: seq<string>, ghost curIndex: int, ghost turns: seq<seq<string>>)
      requires Valid() && curRecognizer == cur0
      modifies this`curRecognizer, (set r | r in recognizers)`state, (set r | r in recognizers)`tap
      ensures Walked(recognizers, cur0, curIndex, curRecognizer)
      ensures |turns| == |recognizers| && emitted == Concat(turns)
      ensures forall i :: 0 <= i < |recognizers| ==>
                TurnTaken(recognizers[i], Allowed(recognizers[i], CurrentAt(recognizers, cur0, curIndex, i)),
                          input, turns[i], old(Snapshot(recognizers))[i])
    {
      emitted := [];
      curIndex := -1;
      turns := [];
      var cur := cur0;
      var rs := recognizers;
      ghost var before := Snapshot(rs);

      var i := 0;
      while i < |rs|
        invariant 0 <= i <= |rs|
        invariant curRecognizer == cur
        invariant cur0.Some? ==> cur == cur0 && curIndex == -1
        invariant cur0.None? ==> -1 <= curIndex < i && cur == CurrentAt(rs, cur0, curIndex, i)
        invariant cur0.None? ==> forall j :: 0 <= j < i && (curIndex == -1 || j < curIndex) ==> !Active(rs[j].state)
        invariant cur0.None? && curIndex >= 0 ==> Active(rs[curIndex].state)
        invariant forall j :: i <= j < |rs| ==> (rs[j].state, rs[j].tap) == before[j]
        invariant |turns| == i && emitted == Concat(turns)
        invariant forall j :: 0 <= j < i ==>
                    TurnTaken(rs[j], Allowed(rs[j], CurrentAt(rs, cur0, curIndex, j)),
                              input, turns[j], before[j])
      {
        DistinctObjects(rs, i);
        assert cur == CurrentAt(rs, cur0, curIndex, i);
        var names, next := Step(rs[i], cur, input);
        ConcatSnoc(turns, names);
        emitted := emitted + names;
        turns := turns + [names];
        curIndex := if cur.None? && next.Some? then i else curIndex;
        cur := next;
        i := i + 1;
      }
    }

    /** One step of the recognize loop: the recognizer takes its turn and, when
        there is no current recognizer and it is now active, becomes current. */
    method Step(recognizer: Recognizer, cur: Option<Recognizer>, input: GestureInput)
      returns (names: seq<string>, next: Option<Recognizer>)
      requires curRecognizer == cur
      modifies this`curRecognizer, recognizer`state, recognizer`tap
      ensures TurnTaken(recognizer, Allowed(recognizer, cur), input, names, old((recognizer.state, recognizer.tap)))
      ensures next == (if cur.None? && Active(recognizer.state) then Some(recognizer) else cur)
      ensures curRecognizer == next
    {
      names := Turn(recognizer, cur, input);
      next := cur;
      if cur.None? && Active(recognizer.state) {
        next := Some(recognizer);
        curRecognizer := next;
      }
    }

    /** One turn of the recognize loop: the recognizer runs when allowed;
        one that may not run is reset, which touches no state here. */
    method Turn(recognizer: Recognizer, cur: Option<Recognizer>, input: GestureInput) returns (names: seq<string>)
      modifies recognizer`state, recognizer`tap
      ensures TurnAgainst(recognizer, Allowed(recognizer, cur), input, names, old((recognizer.state, recognizer.tap)),
                          old(StatesOf(recognizer.requireFail)))
      ensures TurnTaken(recognizer, Allowed(recognizer, cur), input, names, old((recognizer.state, recognizer.tap)))
    {
      ghost var partners := StatesOf(recognizer.requireFail);
      names := [];
      if cur.None? || recognizer == cur.value || recognizer.CanRecognizeWith(cur.value) {
        names := recognizer.Recognize(input);
        assert forall s :: recognizer.PartnersAllowWith(s) <==> PartnersLet(recognizer, recognizer.requireFail, s, partners);
      }
    }

    /** `session = {}`: a fresh session. */
    method ResetSession()
      modifies this`stopped, this`curRecognizer, this`deltas
      ensures stopped == Running && curRecognizer == None && deltas == NewSession
    {
      stopped := Running;
      curRecognizer := None;
      deltas := NewSession;
    }

    /** destroy: forgets every handler and the session. */
    method Destroy()
      modifies this`handlers, this`stopped, this`curRecognizer, this`deltas
      ensures handlers == map[] && stopped == Running && curRecognizer == None && deltas == NewSession
    {
      handlers := map[];
      ResetSession();
    }

    /** inputHandler: starts a fresh session on the first input, computes the
        delta, emits 'hammer.input', runs the recognizers and keeps the input
        as the session's previous input. `before` holds the recognizers'
        states and tap memories on entry. */
    method InputHandler(input: GestureInput, changedLen: nat)
      returns (delta: Option<Point>, inputCalls: seq<HandlerId>, emitted: seq<string>,
               ghost curIndex: int, ghost turns: seq<seq<string>>, ghost before: seq<(Flags, TapMemory)>)
      requires Valid()
      modifies this`curRecognizer, this`stopped, this`deltas,
               (set r | r in recognizers)`state, (set r | r in recognizers)`tap
      ensures var b := Begin(input, changedLen, old(deltas), old(stopped), old(curRecognizer));
              && delta == b.1
              && deltas == b.0.(prevInput := Some(PrevInput(input.eventType, delta)))
              && stopped == b.2
      ensures inputCalls == HandlersOf(handlers, "hammer.input")
      ensures before == old(Snapshot(recognizers))
      ensures var b := Begin(input, changedLen, old(deltas), old(stopped), old(curRecognizer));
              Ran(b.2, b.3, old(Carried(b.3)), before, input, emitted, curIndex, turns)
    {
      ghost var b := Begin(input, changedLen, deltas, stopped, curRecognizer);
      ghost var cur0 := Carried(b.3);
      delta, inputCalls := Announce(input, changedLen);
      emitted, curIndex, turns, before := Respond(input, delta, b.2, b.3, cur0);
    }

    /** The part of inputHandler from recognize on: the recognizers run and
        the input becomes the session's previous input. `before` holds the
        recognizers' states and tap memories on entry. */
    method Respond(input: GestureInput, delta: Option<Point>, ghost stopped0: StopMode,
                   ghost session: Option<Recognizer>, ghost cur0: Option<Recognizer>)
      returns (emitted: seq<string>, ghost curIndex: int, ghost turns: seq<seq<string>>,
               ghost before: seq<(Flags, TapMemory)>)
      requires Valid() && stopped0 == stopped && session == curRecognizer && cur0 == Carried(curRecognizer)
      modifies this`curRecognizer, this`deltas, (set r | r in recognizers)`state, (set r | r in recognizers)`tap
      ensures deltas == old(deltas).(prevInput := Some(PrevInput(input.eventType, delta)))
      ensures before == old(Snapshot(recognizers))
      ensures Ran(stopped0, session, cur0, before, input, emitted, curIndex, turns)
    {
      before := Snapshot(recognizers);
      emitted, curIndex, turns := Recognize(input, stopped0, session, cur0);
      deltas := deltas.(prevInput := Some(PrevInput(input.eventType, delta)));
    }

    /** The part of inputHandler before recognize: the session start, the
        delta and the 'hammer.input' handlers. No recognizer changes. */
    method Announce(input: GestureInput, changedLen: nat) returns (delta: Option<Point>, inputCalls: seq<HandlerId>)
      requires Valid()
      modifies this`curRecognizer, this`stopped, this`deltas
      ensures Valid()
      ensures (deltas, delta, stopped, curRecognizer) == Begin(input, changedLen, old(deltas), old(stopped), old(curRecognizer))
      ensures inputCalls == HandlersOf(handlers, "hammer.input")
      ensures Snapshot(recognizers) == old(Snapshot(recognizers))
    {
      delta := BeginInput(input, changedLen);
      inputCalls := Emit("hammer.input");
    }

    /** The start of inputHandler: the session is replaced by a fresh one on
        the first input of a session, and computeDeltaXY updates it. */
    method BeginInput(input: GestureInput, changedLen: nat) returns (delta: Option<Point>)
      modifies this`curRecognizer, this`stopped, this`deltas
      ensures (deltas, delta, stopped, curRecognizer) == Begin(input, changedLen, old(deltas), old(stopped), old(curRecognizer))
    {
      var isFirst := SessionBoundary(input.eventType, input.pointersLen, changedLen).isFirst;
      ghost var session := if isFirst then NewSession else deltas;
      ghost var b := Begin(input, changedLen, deltas, stopped, curRecognizer);
      if isFirst {
        ResetSession();
      }
      assert deltas == session;
      var d := ComputeDeltaXY(deltas, input.eventType, input.center);
      deltas, delta := d.0, d.1;
    }
  }
}


