/** Input bookkeeping of Hammer.js: the session-boundary flags computed by
    inputHandler, the accumulated deltas of computeDeltaXY, the pointer store
    of PointerEventInput and the target-id set of TouchInput.
 */
module HammerInput {
  import opened Js
  import opened HammerUtil

  datatype Point = Point(x: int, y: int)

  function Plus(a: Point, b: Point): Point { Point(a.x + b.x, a.y + b.y) }
  function Minus(a: Point, b: Point): Point { Point(a.x - b.x, a.y - b.y) }

  // ---------------------------------------------------------------------
  // Session boundaries (inputHandler)

  /** isFirst: a start event in which every pointer is one that just changed,
      so no pointer was already down; isFinal: an end or cancel event in
      which every remaining pointer is one that just went up. */
  datatype Boundary = Boundary(isFirst: bool, isFinal: bool)

  function SessionBoundary(eventType: Flags, pointersLen: nat, changedLen: nat): (b: Boundary)
    ensures b.isFirst <==> eventType & INPUT_START != 0 && pointersLen == changedLen
    ensures b.isFinal <==> eventType & (INPUT_END | INPUT_CANCEL) != 0 && pointersLen == changedLen
  {
    Boundary(eventType & INPUT_START != 0 && pointersLen - changedLen == 0,
             eventType & (INPUT_END | INPUT_CANCEL) != 0 && pointersLen - changedLen == 0)
  }

  /** A single input event is never both the first and the final one of a
      session. */
  lemma BoundaryExclusive(eventType: Flags, pointersLen: nat, changedLen: nat)
    requires eventType in {INPUT_START, INPUT_MOVE, INPUT_END, INPUT_CANCEL}
    ensures !(SessionBoundary(eventType, pointersLen, changedLen).isFirst &&
              SessionBoundary(eventType, pointersLen, changedLen).isFinal)
  {
  }

  // ---------------------------------------------------------------------
  // Accumulated deltas (computeDeltaXY)

  /** What the previous input of the session left behind: its event type and
      its delta (None stands for NaN or undefined). */
  datatype PrevInput = PrevInput(eventType: Flags, delta: Option<Point>)

  /** The session fields computeDeltaXY reads and writes. */
  datatype DeltaState = DeltaState(offsetDelta: Option<Point>, prevDelta: Option<Point>, prevInput: Option<PrevInput>)

  const NewSession := DeltaState(None, None, None)

  /** `x || 0`: a missing or NaN coordinate counts as zero. */
  function DeltaOrZero(p: Option<PrevInput>): Point
  {
    if p.Some? && p.value.delta.Some? then p.value.delta.value else Point(0, 0)
  }

  /** Whether this input starts a new delta segment: a start input, or any
      input after an end input (a cancel does not count). */
  predicate StartsSegment(s: DeltaState, eventType: Flags)
  {
    eventType == INPUT_START || (s.prevInput.Some? && s.prevInput.value.eventType == INPUT_END)
  }

  /** computeDeltaXY: at the start of a segment the previous delta is carried
      over and the current center becomes the offset; the delta is the carried
      delta plus the movement of the center since the offset. */
  function ComputeDeltaXY(s: DeltaState, eventType: Flags, center: Point): (r: (DeltaState, Option<Point>))
    ensures StartsSegment(s, eventType) ==>
              r.0 == s.(offsetDelta := Some(center), prevDelta := Some(DeltaOrZero(s.prevInput)))
    ensures !StartsSegment(s, eventType) ==> r.0 == s
    ensures r.1.Some? <==> r.0.offsetDelta.Some? && r.0.prevDelta.Some?
  {
    var s' := if StartsSegment(s, eventType)
              then s.(offsetDelta := Some(center), prevDelta := Some(DeltaOrZero(s.prevInput)))
              else s;
    var delta := if s'.offsetDelta.Some? && s'.prevDelta.Some?
                 then Some(Plus(s'.prevDelta.value, Minus(center, s'.offsetDelta.value)))
                 else None;
    (s', delta)
  }

  /** A segment starts where the previous one left off: the first delta of a
      segment is the previous input's delta (zero in a new session). */
  lemma SegmentContinuesDelta(s: DeltaState, eventType: Flags, center: Point)
    requires StartsSegment(s, eventType)
    ensures ComputeDeltaXY(s, eventType, center).1 == Some(DeltaOrZero(s.prevInput))
    ensures s == NewSession ==> ComputeDeltaXY(s, eventType, center).1 == Some(Point(0, 0))
  {
  }

  /** Within a segment the delta moves exactly as the center does. */
  lemma DeltaTracksCenter(s: DeltaState, eventType: Flags, c1: Point, c2: Point)
    requires !StartsSegment(s, eventType)
    requires s.offsetDelta.Some? && s.prevDelta.Some?
    ensures ComputeDeltaXY(s, eventType, c1).1.Some? && ComputeDeltaXY(s, eventType, c2).1.Some?
    ensures Minus(ComputeDeltaXY(s, eventType, c2).1.value, ComputeDeltaXY(s, eventType, c1).1.value) == Minus(c2, c1)
  {
  }

  /** A move arriving before any start in a fresh session has no offset to
      measure from: its delta is NaN. */
  lemma MoveWithoutStartIsNaN(center: Point)
    ensures ComputeDeltaXY(NewSession, INPUT_MOVE, center).1 == None
  {
  }

  // ---------------------------------------------------------------------
  // Pointer events (PointerEventInput)

  datatype PointerEventKind = PointerDown | PointerMove | PointerUp | PointerCancel | PointerOut

  /** POINTER_INPUT_MAP: pointerout counts as a cancel. */
  function PointerEventType(kind: PointerEventKind): (t: Flags)
    ensures t in {INPUT_START, INPUT_MOVE, INPUT_END, INPUT_CANCEL}
  {
    match kind
    case PointerDown => INPUT_START
    case PointerMove => INPUT_MOVE
    case PointerUp => INPUT_END
    case PointerCancel => INPUT_CANCEL
    case PointerOut => INPUT_CANCEL
  }

  /** A pointer event: its type, its pointer id, its mouse button and whether
      its pointer type is touch. */
  datatype PointerEvent = PointerEvent(kind: PointerEventKind, pointerId: int, button: int, isTouch: bool, position: Point)

  function PointerIdOf(ev: PointerEvent): int { ev.pointerId }

  /** The ids held by a store, in order. */
  function StoreIds(store: seq<PointerEvent>): seq<int>
  {
    Keys(store, PointerIdOf)
  }

  /** What the handler passes on to the input callback. */
  datatype Delivery = Delivery(eventType: Flags, pointers: seq<PointerEvent>, changedPointers: seq<PointerEvent>)

  /** Whether a pointer event may put its pointer into the store: a start with
      the left mouse button, or any touch start. */
  predicate AddsPointer(ev: PointerEvent)
  {
    PointerEventType(ev.kind) & INPUT_START != 0 && (ev.button == 0 || ev.isTouch)
  }

  /** One step of PointerEventInput.handler on the store: the new store and
      what is delivered to the callback, if anything. */
  function PointerStep(store: seq<PointerEvent>, ev: PointerEvent): (seq<PointerEvent>, Option<Delivery>)
  {
    var eventType := PointerEventType(ev.kind);
    var found := IndexOf(StoreIds(store), ev.pointerId);
    var store1 := if AddsPointer(ev) && found < 0 then store + [ev] else store;
    var index := if AddsPointer(ev) && found < 0 then |store| else found;
    var removePointer := !AddsPointer(ev) && eventType & (INPUT_END | INPUT_CANCEL) != 0;
    if index < 0 then (store, None)
    else
      var store2 := store1[index := ev];
      (if removePointer then RemoveAt(store2, index) else store2,
       Some(Delivery(eventType, store2, [ev])))
  }

  /** No id occurs twice. */
  ghost predicate Distinct(ids: seq<int>)
  {
    forall i, j :: 0 <= i < j < |ids| ==> ids[i] != ids[j]
  }

  /** No pointer id occurs twice in the store. */
  ghost predicate UniqueIds(store: seq<PointerEvent>)
  {
    Distinct(StoreIds(store))
  }

  lemma StoreIdsPush(store: seq<PointerEvent>, ev: PointerEvent)
    ensures StoreIds(store + [ev]) == StoreIds(store) + [ev.pointerId]
  {
  }

  lemma StoreIdsReplace(store: seq<PointerEvent>, i: nat, ev: PointerEvent)
    requires i < |store| && store[i].pointerId == ev.pointerId
    ensures StoreIds(store[i := ev]) == StoreIds(store)
  {
  }

  lemma StoreIdsRemove(store: seq<PointerEvent>, i: nat)
    requires i < |store|
    ensures StoreIds(RemoveAt(store, i)) == RemoveAt(StoreIds(store), i)
  {
  }

  /** Removing one slot of a list of distinct ids removes exactly that id. */
  lemma DistinctRemove(ids: seq<int>, i: nat)
    requires Distinct(ids) && i < |ids|
    ensures Distinct(RemoveAt(ids, i))
    ensures forall y :: y in RemoveAt(ids, i) <==> y in ids && y != ids[i]
  {
    var r := RemoveAt(ids, i);
    forall y ensures y in r <==> y in ids && y != ids[i] {
      if y in r {
        var k :| 0 <= k < |r| && r[k] == y;
        if k < i { assert ids[k] == y; } else { assert ids[k + 1] == y; }
      }
      if y in ids && y != ids[i] {
        var k :| 0 <= k < |ids| && ids[k] == y;
        if k < i { assert r[k] == y; } else { assert r[k - 1] == y; }
      }
    }
  }

  /** The pointer store keeps its ids unique, and what enters or leaves it is
      decided by the event alone. */
  lemma PointerStepKeepsIdsUnique(store: seq<PointerEvent>, ev: PointerEvent)
    requires UniqueIds(store)
    ensures UniqueIds(PointerStep(store, ev).0)
    ensures ev.pointerId in StoreIds(PointerStep(store, ev).0) <==>
              (ev.pointerId in StoreIds(store) || AddsPointer(ev)) &&
              !(PointerEventType(ev.kind) & (INPUT_END | INPUT_CANCEL) != 0)
    ensures forall id :: id != ev.pointerId ==> (id in StoreIds(PointerStep(store, ev).0) <==> id in StoreIds(store))
  {
    var ids := StoreIds(store);
    var found := IndexOf(ids, ev.pointerId);
    if AddsPointer(ev) && found < 0 {
      PointerStepAdds(store, ev);
    } else if found >= 0 {
      PointerStepKnown(store, ev, found);
    }
  }

  /** A new pointer going down joins the store at its end. */
  lemma PointerStepAdds(store: seq<PointerEvent>, ev: PointerEvent)
    requires UniqueIds(store) && AddsPointer(ev) && ev.pointerId !in StoreIds(store)
    ensures PointerStep(store, ev).0 == store + [ev]
    ensures StoreIds(store + [ev]) == StoreIds(store) + [ev.pointerId]
    ensures UniqueIds(store + [ev])
  {
    assert IndexOf(StoreIds(store), ev.pointerId) == -1;
    assert (store + [ev])[|store| := ev] == store + [ev];
    StoreIdsPush(store, ev);
  }

  /** A known pointer's event takes its slot, and an end or cancel then
      removes that slot. */
  lemma PointerStepKnown(store: seq<PointerEvent>, ev: PointerEvent, found: nat)
    requires UniqueIds(store) && found < |store| && StoreIds(store)[found] == ev.pointerId
    requires IndexOf(StoreIds(store), ev.pointerId) == found
    ensures var removing := !AddsPointer(ev) && PointerEventType(ev.kind) & (INPUT_END | INPUT_CANCEL) != 0;
      PointerStep(store, ev).0 == (if removing then RemoveAt(store[found := ev], found) else store[found := ev])
    ensures !(!AddsPointer(ev) && PointerEventType(ev.kind) & (INPUT_END | INPUT_CANCEL) != 0) ==>
      StoreIds(PointerStep(store, ev).0) == StoreIds(store)
    ensures !AddsPointer(ev) && PointerEventType(ev.kind) & (INPUT_END | INPUT_CANCEL) != 0 ==>
      StoreIds(PointerStep(store, ev).0) == RemoveAt(StoreIds(store), found)
    ensures UniqueIds(PointerStep(store, ev).0)
    ensures forall y :: y in RemoveAt(StoreIds(store), found) <==> y in StoreIds(store) && y != ev.pointerId
  {
    var ids := StoreIds(store);
    var store2 := store[found := ev];
    StoreIdsReplace(store, found, ev);
    StoreIdsRemove(store2, found);
    DistinctRemove(ids, found);
  }

  /** Events for pointers that are not in the store (a hover, or a button
      other than the left one) are ignored: nothing is delivered and the
      store is unchanged. */
  lemma UnknownPointerIgnored(store: seq<PointerEvent>, ev: PointerEvent)
    requires ev.pointerId !in StoreIds(store) && !AddsPointer(ev)
    ensures PointerStep(store, ev) == (store, None)
  {
  }

  /** A delivered event carries the store as it is during the callback, with
      the event in its pointer's slot, so a pointer that goes up is still among
      the pointers; a session begins when the first pointer goes down into an
      empty store and ends when the last pointer in the store goes up. */
  lemma PointerSessionBoundaries(store: seq<PointerEvent>, ev: PointerEvent)
    ensures store == [] && AddsPointer(ev) ==>
              var d := PointerStep(store, ev).1;
              d.Some? && SessionBoundary(d.value.eventType, |d.value.pointers|, |d.value.changedPointers|).isFirst
    ensures |store| == 1 && store[0].pointerId == ev.pointerId && ev.kind == PointerUp ==>
              var d := PointerStep(store, ev).1;
              d.Some? && d.value.pointers == [ev] &&
              SessionBoundary(d.value.eventType, |d.value.pointers|, |d.value.changedPointers|).isFinal &&
              PointerStep(store, ev).0 == []
  {
    if |store| == 1 && store[0].pointerId == ev.pointerId {
      assert StoreIds(store)[0] == ev.pointerId;
    }
  }

  /** PointerEventInput: the store of the pointers that are down. */
  class PointerEventInput {
    var store: seq<PointerEvent>

    constructor ()
      ensures store == []
    {
      store := [];
    }

    /** PointerEventInput.handler: looks the pointer up with inArray, pushes a
        new pointer on a qualifying start, ignores unknown pointers, replaces
        the stored event, delivers, and removes the pointer on end or cancel
        after the delivery. */
    method Handler(ev: PointerEvent) returns (delivered: Option<Delivery>)
      modifies this
      ensures (store, delivered) == PointerStep(old(store), ev)
    {
      var eventType := PointerEventType(ev.kind);
      var removePointer := false;
      var storeIndex := InArray(store, PointerIdOf, ev.pointerId);
      assert storeIndex == IndexOf(StoreIds(store), ev.pointerId);

      if eventType & INPUT_START != 0 && (ev.button == 0 || ev.isTouch) {
        if storeIndex < 0 {
          store := store + [ev];
          storeIndex := |store| - 1;
        }
      } else if eventType & (INPUT_END | INPUT_CANCEL) != 0 {
        removePointer := true;
      }

      if storeIndex < 0 {
        return None;
      }

      store := store[storeIndex := ev];
      delivered := Some(Delivery(eventType, store, [ev]));

      if removePointer {
        store := SpliceOne(store, storeIndex);
      }
    }
  }

  // ---------------------------------------------------------------------
  // Touch events (TouchInput)

  /** A touch: its identifier and whether its target lies inside the input
      target element (the hasParent test). */
  datatype Touch = Touch(identifier: int, onTarget: bool)

  function IdentifierOf(t: Touch): int { t.identifier }

  /** The identifiers of a list of touches, as a set. */
  function IdSet(ts: seq<Touch>): set<int>
  {
    set t | t in ts :: t.identifier
  }

  lemma IdSetPush(ts: seq<Touch>, t: Touch)
    ensures IdSet(ts + [t]) == IdSet(ts) + {t.identifier}
  {
    assert forall u :: u in ts + [t] <==> u in ts || u == t;
  }

  /** allTouches.filter(hasParent(touch.target, target)). */
  function TargetTouches(ts: seq<Touch>): (r: seq<Touch>)
    ensures forall t :: t in r <==> t in ts && t.onTarget
  {
    if |ts| == 0 then []
    else (if ts[0].onTarget then [ts[0]] else []) + TargetTouches(ts[1..])
  }

  /** The changed touches whose id is a target id, walking them in order and,
      on end or cancel, forgetting each id once it is seen. */
  function CollectChanged(changed: seq<Touch>, ids: set<int>, removing: bool): (r: seq<Touch>)
    ensures forall t :: t in r ==> t in changed && t.identifier in ids
  {
    if |changed| == 0 then []
    else
      (if changed[0].identifier in ids then [changed[0]] else []) +
      CollectChanged(changed[1..], if removing then ids - {changed[0].identifier} else ids, removing)
  }

  /** With distinct ids, collecting is just keeping the changed touches whose
      id is a target id. */
  lemma {:induction false} CollectChangedDistinct(changed: seq<Touch>, ids: set<int>, removing: bool)
    requires forall i, j :: 0 <= i < j < |changed| ==> changed[i].identifier != changed[j].identifier
    ensures forall t :: t in CollectChanged(changed, ids, removing) <==> t in changed && t.identifier in ids
  {
    if |changed| > 0 {
      var ids' := if removing then ids - {changed[0].identifier} else ids;
      CollectChangedDistinct(changed[1..], ids', removing);
      forall t | t in changed[1..] ensures t.identifier in ids' <==> t.identifier in ids {
        var k :| 0 <= k < |changed[1..]| && changed[1..][k] == t;
        assert changed[k + 1] == t;
      }
    }
  }

  /** The two touch lists delivered to the callback: all touches, changed touches. */
  datatype TouchLists = TouchLists(all: seq<Touch>, changed: seq<Touch>)

  /** TouchInput: the set of identifiers of touches that started on the target. */
  class TouchInput {
    var targetIds: set<int>

    constructor ()
      ensures targetIds == {}
    {
      targetIds := {};
    }

    /** getTouches: a single touch that starts or moves is taken as it is;
        otherwise the ids of target touches are collected on start, changed
        touches are kept when their id is known, ids are forgotten on end or
        cancel, and nothing is delivered when no changed touch is kept. The
        delivered list of all touches is uniqueArray by identifier of the
        target touches followed by the kept changed ones (its sort is not
        modelled). */
    method GetTouches(touches: seq<Touch>, changedTouches: seq<Touch>, eventType: Flags)
      returns (r: Option<TouchLists>)
      modifies this
      ensures eventType & (INPUT_START | INPUT_MOVE) != 0 && |touches| == 1 ==>
                targetIds == old(targetIds) + {touches[0].identifier} && r == Some(TouchLists(touches, touches))
      ensures !(eventType & (INPUT_START | INPUT_MOVE) != 0 && |touches| == 1) ==>
                var collected := old(targetIds) + (if eventType == INPUT_START then IdSet(TargetTouches(touches)) else {});
                var removing := eventType & (INPUT_END | INPUT_CANCEL) != 0;
                var kept := CollectChanged(changedTouches, collected, removing);
                && targetIds == (if removing then collected - IdSet(changedTouches) else collected)
                && (r.None? <==> |kept| == 0)
                && (r.Some? ==> r.value == TouchLists(UniqueByKey(TargetTouches(touches) + kept, IdentifierOf), kept))
    {
      if eventType & (INPUT_START | INPUT_MOVE) != 0 && |touches| == 1 {
        targetIds := targetIds + {touches[0].identifier};
        return Some(TouchLists(touches, touches));
      }

      var targetTouches := TargetTouches(touches);
      var removing := eventType & (INPUT_END | INPUT_CANCEL) != 0;

      if eventType == INPUT_START {
        AddTargetIds(targetTouches);
      }
      ghost var collected := old(targetIds) + (if eventType == INPUT_START then IdSet(targetTouches) else {});
      assert targetIds == collected;
      var changedTargetTouches := KeepChanged(changedTouches, removing);
      assert changedTargetTouches == CollectChanged(changedTouches, collected, removing);

      if |changedTargetTouches| == 0 {
        return None;
      }
      var all := UniqueArray(targetTouches + changedTargetTouches, IdentifierOf);
      r := Some(TouchLists(all, changedTargetTouches));
    }

    /** The start branch of getTouches: every target touch's id becomes a target id. */
    method AddTargetIds(targetTouches: seq<Touch>)
      modifies this
      ensures targetIds == old(targetIds) + IdSet(targetTouches)
    {
      var i := 0;
      while i < |targetTouches|
        invariant 0 <= i <= |targetTouches|
        invariant targetIds == old(targetIds) + IdSet(targetTouches[..i])
      {
        IdSetPush(targetTouches[..i], targetTouches[i]);
        assert targetTouches[..i + 1] == targetTouches[..i] + [targetTouches[i]];
        targetIds := targetIds + {targetTouches[i].identifier};
        i := i + 1;
      }
      assert targetTouches[..i] == targetTouches;
    }

    /** The changed-touches loop of getTouches: keeps the touches whose id is a
        target id and, when removing, forgets each id as it goes. */
    method KeepChanged(changedTouches: seq<Touch>, removing: bool) returns (kept: seq<Touch>)
      modifies this`targetIds
      ensures targetIds == (if removing then old(targetIds) - IdSet(changedTouches) else old(targetIds))
      ensures kept == CollectChanged(changedTouches, old(targetIds), removing)
    {
      kept := [];
      var i := 0;
      while i < |changedTouches|
        invariant 0 <= i <= |changedTouches|
        invariant targetIds == Forgotten(old(targetIds), changedTouches[..i], removing)
        invariant kept + CollectChanged(changedTouches[i..], targetIds, removing) ==
                  CollectChanged(changedTouches, old(targetIds), removing)
      {
        var t := changedTouches[i];
        CollectChangedStep(changedTouches, i, targetIds, removing);
        ForgottenPush(old(targetIds), changedTouches[..i], t, removing);
        assert changedTouches[..i + 1] == changedTouches[..i] + [t];
        kept := Visit(t, removing, kept, CollectChanged(changedTouches[i + 1..], if removing then targetIds - {t.identifier} else targetIds, removing));
        i := i + 1;
      }
      assert changedTouches[..i] == changedTouches;
      assert CollectChanged(changedTouches[i..], targetIds, removing) == [];
      assert kept + [] == kept;
    }

    /** One turn of the changed-touches loop: keeps t when its id is a
        target id and, when removing, forgets that id. */
    method Visit(t: Touch, removing: bool, kept: seq<Touch>, ghost rest: seq<Touch>) returns (kept': seq<Touch>)
      modifies this`targetIds
      ensures targetIds == (if removing then old(targetIds) - {t.identifier} else old(targetIds))
      ensures kept' == kept + (if t.identifier in old(targetIds) then [t] else [])
      ensures kept' + rest == kept + ((if t.identifier in old(targetIds) then [t] else []) + rest)
    {
      kept' := kept;
      if t.identifier in targetIds {
        kept' := kept + [t];
      }
      if removing {
        targetIds := targetIds - {t.identifier};
      }
    }
  }

  /** The target ids left after walking the touches ts. */
  function Forgotten(ids: set<int>, ts: seq<Touch>, removing: bool): set<int> {
    if removing then ids - IdSet(ts) else ids
  }

  lemma ForgottenPush(ids: set<int>, ts: seq<Touch>, t: Touch, removing: bool)
    ensures Forgotten(ids, ts + [t], removing) ==
            (if removing then Forgotten(ids, ts, removing) - {t.identifier} else Forgotten(ids, ts, removing))
  {
    IdSetPush(ts, t);
  }

  /** One step of the walk over the changed touches. */
  lemma CollectChangedStep(changed: seq<Touch>, i: nat, ids: set<int>, removing: bool)
    requires i < |changed|
    ensures CollectChanged(changed[i..], ids, removing) ==
            (if changed[i].identifier in ids then [changed[i]] else []) +
            CollectChanged(changed[i + 1..], if removing then ids - {changed[i].identifier} else ids, removing)
  {
    assert changed[i..][1..] == changed[i + 1..];
  }
}
