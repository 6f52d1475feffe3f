/** The animation-frame clock (src/scripts/lib/Timer.js): an emitter that,
    while ticking, triggers 'draw' with each frame's timestamp and asks the
    browser for the next frame. requestAnimationFrame is abstracted as a
    request counter whose value after a request is that request's handle.
 */
module Timing {
  import opened Js
  import opened Events

  class Timer {
    /** The emitter the timer extends. */
    const emitter: Emitter
    var ticking: bool
    /** `_lastTime`: the timestamp of the latest frame, None when null. */
    var lastTime: Option<real>
    /** `_animationFrame`: the handle of the latest frame request. */
    var animationFrame: Option<nat>
    /** How many frames have been requested so far. */
    var frameRequests: nat
    /** The handle last passed to cancelAnimationFrame. */
    var cancelled: Option<nat>

    /** A ticking timer holds the handle of its latest request; a stopped
        one holds neither a handle nor a time. */
    ghost predicate Valid()
      reads this
    {
      (ticking <==> animationFrame.Some?) &&
      (animationFrame.Some? ==> animationFrame.value == frameRequests) &&
      (!ticking ==> lastTime.None?)
    }

    constructor()
      ensures Valid() && !ticking && frameRequests == 0 && cancelled.None?
      ensures fresh(emitter) && emitter.events == Some(map[])
    {
      emitter := new Emitter();
      ticking := false;
      lastTime := None;
      animationFrame := None;
      frameRequests := 0;
      cancelled := None;
    }

    /** time(): the timestamp of the latest frame. */
    function Time(): Option<real>
      reads this
    {
      lastTime
    }

    /** window.requestAnimationFrame: a fresh handle. */
    method RequestFrame() returns (handle: nat)
      modifies this`frameRequests
      ensures frameRequests == old(frameRequests) + 1 && handle == frameRequests
    {
      frameRequests := frameRequests + 1;
      handle := frameRequests;
    }

    /** _draw(timeStamp), run by the browser for a requested frame. */
    method Draw(timeStamp: real) returns (called: seq<Callback>)
      requires Valid()
      modifies this, emitter
      ensures Valid()
      ensures !old(ticking) ==> unchanged(this) && emitter.events == old(emitter.events) && called == []
      ensures old(ticking) ==> ticking && Time() == Some(timeStamp) && cancelled == old(cancelled)
      ensures old(ticking) && old(emitter.events).None? ==>
        emitter.events == old(emitter.events) && called == [] && frameRequests == old(frameRequests) && animationFrame == old(animationFrame)
      ensures old(ticking) && old(emitter.events).Some? ==>
        emitter.events.Some? && (called, emitter.events.value) == Dispatch(old(emitter.events).value, "draw") &&
        frameRequests == old(frameRequests) + 1 && animationFrame == Some(frameRequests)
    {
      called := [];
      if !ticking {
        return;
      }
      lastTime := Some(timeStamp);
      var thrown, arg;
      thrown, called, arg := emitter.Trigger("draw", Number(timeStamp));
      if thrown {
        return;
      }
      var handle := RequestFrame();
      animationFrame := Some(handle);
    }

    /** start(): a no-op while ticking; otherwise ticking begins with one
        frame request. */
    method Start()
      requires Valid()
      modifies this
      ensures Valid() && ticking
      ensures old(ticking) ==> unchanged(this)
      ensures !old(ticking) ==>
        frameRequests == old(frameRequests) + 1 && animationFrame == Some(frameRequests) &&
        lastTime == old(lastTime) && cancelled == old(cancelled)
    {
      if ticking {
        return;
      }
      ticking := true;
      var handle := RequestFrame();
      animationFrame := Some(handle);
    }

    /** stop(): cancels the latest request, forgets time and handle, stops
        ticking, empties every listener list and returns false. */
    method Stop() returns (r: bool)
      modifies this, emitter
      ensures Valid() && !r && !ticking
      ensures cancelled == old(animationFrame)
      ensures lastTime.None? && animationFrame.None? && frameRequests == old(frameRequests)
      ensures emitter.events == Some(map[])
    {
      cancelled := animationFrame;
      lastTime := None;
      animationFrame := None;
      ticking := false;
      Clear();
      return false;
    }

    /** _clear(): a fresh, empty registry. */
    method Clear()
      modifies emitter
      ensures emitter.events == Some(map[])
    {
      emitter.events := Some(map[]);
    }
  }
}
