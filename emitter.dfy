/** The carousel's event emitter (src/scripts/lib/Emitter.js): a registry
    from event name to the list of callbacks registered for it, updated in
    place by on/off and walked live by trigger.
 */
module Events {
  import opened Js

  /** A payload handed to trigger: nothing, a number (a timestamp or a
      position) or an object literal such as `{ numSlides, currentSlide }`. */
  datatype Data = Undefined | Number(x: real) | Record

  /** JavaScript truthiness of a payload (NaN is not modelled). */
  predicate Truthy(d: Data) {
    match d
    case Undefined => false
    case Number(x) => x != 0.0
    case Record => true
  }

  /** A callback, identified by reference through `id`. A self-removing
      callback calls off(eventName, itself) on the emitter that runs it, as
      the carousel's resize handler does; its other effects are outside the
      model. */
  datatype Callback = Callback(id: nat, removesSelf: bool)

  type Registry = map<string, seq<Callback>>

  /** The list registered for name, or the empty list. */
  function Listeners(registry: Registry, name: string): seq<Callback> {
    if name in registry then registry[name] else []
  }

  /** What trigger hands each callback, as written: the payload only when it
      is truthy, so a position or timestamp of 0 arrives as no argument. */
  function ArgumentAsWritten(d: Data): (a: Option<Data>)
    ensures a.Some? <==> Truthy(d)
    ensures a.Some? ==> a.value == d
  {
    if Truthy(d) then Some(d) else None
  }

  /** A draw at position 0 reaches its listeners without the position. */
  lemma ArgumentAsWrittenDropsZero()
    ensures ArgumentAsWritten(Number(0.0)) == None
    ensures Argument(Number(0.0)) == Some(Number(0.0))
  {
  }

  /** What trigger hands each callback, as intended: the payload whenever one
      was given. */
  function Argument(d: Data): (a: Option<Data>)
    ensures a.Some? <==> d != Undefined
    ensures a.Some? ==> a.value == d
  {
    if d.Undefined? then None else Some(d)
  }

  /** on(name, cb): the list for name, created when missing, gains cb at its
      end; every other entry is untouched. */
  function Register(registry: Registry, name: string, cb: Callback): (r: Registry)
    ensures name in r && r[name] == Listeners(registry, name) + [cb]
    ensures r.Keys == registry.Keys + {name}
    ensures forall n :: n in registry && n != name ==> r[n] == registry[n]
  {
    registry[name := Listeners(registry, name) + [cb]]
  }

  /** The list without the first occurrence of cb. */
  function Unregister(list: seq<Callback>, cb: Callback): (r: seq<Callback>)
    ensures cb !in list ==> r == list
    ensures cb in list ==>
      exists i :: 0 <= i < |list| && list[i] == cb && cb !in list[..i] && r == list[..i] + list[i + 1..]
    ensures cb in list ==> multiset(r) + multiset{cb} == multiset(list)
  {
    var i := IndexOf(list, cb);
    if i > -1 then
      assert list == list[..i] + [list[i]] + list[i + 1..];
      RemoveAt(list, i)
    else list
  }

  /** off(name, cb): nothing for an event never registered, otherwise the
      first occurrence of cb leaves that event's list. */
  function Deregister(registry: Registry, name: string, cb: Callback): (r: Registry)
    ensures name !in registry ==> r == registry
    ensures r.Keys == registry.Keys
    ensures name in registry ==> r[name] == Unregister(registry[name], cb)
    ensures forall n :: n in registry && n != name ==> r[n] == registry[n]
  {
    if name in registry then registry[name := Unregister(registry[name], cb)] else registry
  }

  /** Registering a callback that was not yet there and then removing it
      gives back the list as it was. */
  lemma RegisterThenDeregister(registry: Registry, name: string, cb: Callback)
    requires cb !in Listeners(registry, name)
    ensures Deregister(Register(registry, name, cb), name, cb)[name] == Listeners(registry, name)
  {
    var list := Listeners(registry, name);
    var grown := list + [cb];
    assert IndexOf(grown, cb) == |list| by {
      assert grown[|list|] == cb;
      assert grown[..|list|] == list;
    }
    assert grown[..|list|] + grown[|list| + 1..] == list;
  }

  /** Array.prototype.forEach over the live list `list`: the length `len`
      is fixed when the walk starts, index k is visited only while it is
      still inside the (possibly shortened) list, and a self-removing
      callback takes itself out as it runs. Returns the callbacks called, in
      order, and the list as it is afterwards. */
  function LiveRun(list: seq<Callback>, len: nat, k: nat): (seq<Callback>, seq<Callback>)
    decreases len - k
  {
    if k >= len then ([], list)
    else if k >= |list| then LiveRun(list, len, k + 1)
    else
      var cb := list[k];
      var rest := LiveRun(if cb.removesSelf then Unregister(list, cb) else list, len, k + 1);
      ([cb] + rest.0, rest.1)
  }

  /** One step of the live walk, seen from the callbacks already called. */
  lemma LiveRunCalls(called: seq<Callback>, list: seq<Callback>, len: nat, k: nat)
    requires k < len && k < |list|
    ensures var next := if list[k].removesSelf then Unregister(list, list[k]) else list;
      (called + LiveRun(list, len, k).0, LiveRun(list, len, k).1)
      == ((called + [list[k]]) + LiveRun(next, len, k + 1).0, LiveRun(next, len, k + 1).1)
  {
    var next := if list[k].removesSelf then Unregister(list, list[k]) else list;
    assert called + ([list[k]] + LiveRun(next, len, k + 1).0)
        == (called + [list[k]]) + LiveRun(next, len, k + 1).0;
  }

  /** trigger(name) on a registry: the callbacks called and the registry
      afterwards. */
  function Dispatch(registry: Registry, name: string): (seq<Callback>, Registry) {
    if name in registry then
      var run := LiveRun(registry[name], |registry[name]|, 0);
      (run.0, registry[name := run.1])
    else ([], registry)
  }

  lemma {:induction false} LiveRunPlain(list: seq<Callback>, len: nat, k: nat)
    requires |list| <= len && k <= |list|
    requires forall j :: k <= j < |list| ==> !list[j].removesSelf
    ensures LiveRun(list, len, k) == (list[k..], list)
    decreases len - k
  {
    if k == |list| {
      LiveRunPast(list, len, k);
    } else {
      LiveRunPlain(list, len, k + 1);
      assert list[k..] == [list[k]] + list[k + 1..];
    }
  }

  lemma {:induction false} LiveRunPast(list: seq<Callback>, len: nat, k: nat)
    requires |list| <= k
    ensures LiveRun(list, len, k) == ([], list)
    decreases len - k
  {
    if k < len {
      LiveRunPast(list, len, k + 1);
    }
  }

  /** Triggering an event none of whose callbacks removes itself calls each
      registered callback once, in registration order, and keeps the list;
      an event never registered calls nothing. */
  lemma DispatchInOrder(registry: Registry, name: string)
    requires forall cb :: cb in Listeners(registry, name) ==> !cb.removesSelf
    ensures Dispatch(registry, name).0 == Listeners(registry, name)
    ensures Dispatch(registry, name).1 == registry
  {
    if name in registry {
      var list := registry[name];
      forall j | 0 <= j < |list| ensures !list[j].removesSelf {
        assert list[j] in Listeners(registry, name);
      }
      LiveRunPlain(list, |list|, 0);
      assert list[0..] == list;
    }
  }

  lemma {:induction false} LiveRunSkip(list: seq<Callback>, i: nat, k: nat)
    requires i + 1 < |list| && k <= i
    requires list[i].removesSelf && list[i] !in list[..i]
    requires forall j :: 0 <= j < |list| && j != i ==> !list[j].removesSelf
    ensures LiveRun(list, |list|, k) == (list[k..i + 1] + list[i + 2..], RemoveAt(list, i))
    decreases i - k
  {
    if k == i {
      assert IndexOf(list, list[i]) == i;
      var rest := RemoveAt(list, i);
      forall j | i + 1 <= j < |rest| ensures !rest[j].removesSelf {
        assert rest[j] == list[j + 1];
      }
      LiveRunPlain(rest, |list|, i + 1);
      assert rest[i + 1..] == list[i + 2..];
      assert list[i..i + 1] == [list[i]];
    } else {
      LiveRunSkip(list, i, k + 1);
      assert !list[k].removesSelf;
      assert list[k..i + 1] == [list[k]] + list[k + 1..i + 1];
      assert list[k..i + 1] + list[i + 2..] == [list[k]] + (list[k + 1..i + 1] + list[i + 2..]);
    }
  }

  /** The live walk: when the callback at index i removes itself while the
      event is triggered, the callback right after it is skipped in that
      round, and the list loses the self-removing callback. */
  lemma SelfRemovalSkipsNext(list: seq<Callback>, i: nat)
    requires i + 1 < |list|
    requires list[i].removesSelf && list[i] !in list[..i]
    requires forall j :: 0 <= j < |list| && j != i ==> !list[j].removesSelf
    ensures LiveRun(list, |list|, 0).0 == RemoveAt(list, i + 1)
    ensures LiveRun(list, |list|, 0).1 == RemoveAt(list, i)
  {
    LiveRunSkip(list, i, 0);
    assert list[0..i + 1] == list[..i + 1];
  }

  /** The own properties of an emitter object: `_events`, the registry, and
      `events`, which no emitter ever assigns. */
  datatype OwnProps = OwnProps(registry: Option<Registry>, events: Option<Registry>)

  /** A call that either throws a TypeError or completes with a registry and
      the callbacks it called. */
  datatype Outcome = TypeError | Completed(registry: Registry, called: seq<Callback>)

  /** on(name, cb) as written: it spreads `this.events[eventName]`. */
  function OnAsWritten(props: OwnProps, name: string, cb: Callback): (r: Outcome)
    ensures props.events.None? ==> r == TypeError
  {
    match props.events
    case None => TypeError
    case Some(e) =>
      if name !in e || props.registry.None? then TypeError
      else Completed(props.registry.value[name := e[name] + [cb]], [])
  }

  /** trigger(name) as written: the guard reads `_events`, the walk reads
      `this.events`. */
  function TriggerAsWritten(props: OwnProps, name: string): (r: Outcome)
    requires props.registry.Some?
    ensures name !in props.registry.value ==> r == Completed(props.registry.value, [])
    ensures props.events.None? && name in props.registry.value ==> r == TypeError
  {
    if name !in props.registry.value then Completed(props.registry.value, [])
    else
      match props.events
      case None => TypeError
      case Some(e) => if name in e then Completed(props.registry.value, e[name]) else TypeError
  }

  /** On every emitter the constructor builds, on always throws and trigger
      throws for every event that has a registered list. */
  lemma AsWrittenThrows(registry: Registry, name: string, cb: Callback)
    requires name in registry
    ensures OnAsWritten(OwnProps(Some(registry), None), name, cb) == TypeError
    ensures TriggerAsWritten(OwnProps(Some(registry), None), name) == TypeError
  {
  }

  class Emitter {
    /** `_events`; None once destroy has nulled it. */
    var events: Option<Registry>

    constructor()
      ensures events == Some(map[])
    {
      events := Some(map[]);
    }

    /** _hasEvent: None when the registry is null (the call throws). */
    function HasEvent(name: string): (r: Option<bool>)
      reads this
      ensures r.None? <==> events.None?
      ensures r == Some(true) <==> events.Some? && name in events.value
    {
      if events.None? then None else Some(name in events.value)
    }

    method On(name: string, cb: Callback) returns (thrown: bool)
      modifies this
      ensures thrown <==> old(events).None?
      ensures thrown ==> events == old(events)
      ensures !thrown ==> events == Some(Register(old(events).value, name, cb))
    {
      if events.None? {
        return true;
      }
      var registry := events.value;
      var list := if name in registry then registry[name] else [];
      events := Some(registry[name := list + [cb]]);
      thrown := false;
    }

    method Off(name: string, cb: Callback) returns (thrown: bool)
      modifies this
      ensures thrown <==> old(events).None?
      ensures thrown ==> events == old(events)
      ensures !thrown ==> events == Some(Deregister(old(events).value, name, cb))
    {
      var has := HasEvent(name);
      if has.None? {
        return true;
      }
      thrown := false;
      if !has.value {
        return;
      }
      var list := events.value[name];
      var index := IndexOf(list, cb);
      if index > -1 {
        assert SpliceOne(list, index) == Unregister(list, cb);
        events := Some(events.value[name := SpliceOne(list, index)]);
      } else {
        assert events.value[name := Unregister(list, cb)] == events.value;
      }
    }

    method Trigger(name: string, data: Data) returns (thrown: bool, called: seq<Callback>, arg: Option<Data>)
      modifies this
      ensures thrown <==> old(events).None?
      ensures thrown ==> events == old(events) && called == []
      ensures !thrown ==> events.Some? && (called, events.value) == Dispatch(old(events).value, name)
      ensures arg == Argument(data)
    {
      arg := Argument(data);
      called := [];
      if events.None? {
        return true, called, arg;
      }
      thrown := false;
      if name !in events.value {
        return;
      }
      ghost var start := events.value;
      var len := |events.value[name]|;
      var k := 0;
      assert called + LiveRun(start[name], len, 0).0 == LiveRun(start[name], len, 0).0;
      while k < len
        invariant k <= len
        invariant events.Some? && name in events.value
        invariant events.value == start[name := events.value[name]]
        invariant LiveRun(start[name], len, 0)
               == (called + LiveRun(events.value[name], len, k).0, LiveRun(events.value[name], len, k).1)
        decreases len - k
      {
        var list := events.value[name];
        if k < |list| {
          var cb := list[k];
          ghost var next := if cb.removesSelf then Unregister(list, cb) else list;
          LiveRunCalls(called, list, len, k);
          called := called + [cb];
          if cb.removesSelf {
            var _ := Off(name, cb);
          }
          assert events.value[name] == next;
        }
        k := k + 1;
      }
      assert LiveRun(events.value[name], len, k) == ([], events.value[name]);
      assert called + [] == called;
    }

    method Destroy()
      modifies this
      ensures events.None?
    {
      events := None;
    }
  }
}
