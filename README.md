# Canvas gallery with Hammer.js gestures — a Dafny model

The repository is a canvas image carousel. A `Gallery` lays its images out on
one horizontal strip of slides and shows that strip through a window one
slide wide. Arrow keys, `next`/`previous` and `goTo` move it to another slide.
A horizontal pan (from the vendored Hammer.js 2.0.6) drags it, with a rubber
band past either end. On release, the gallery either moves to the next slide
or snaps back. Each animation frame advances the running transition on a
quadratic curve and draws the slides in view, each with a small parallax
shift. `Emitter` is the event base class of the gallery, its slides, the
animation-frame `Timer` and the `Interpolation` easing helper.

The project models two parts of that system.

- **The Hammer.js gesture engine core.** Modules `HammerUtil`, `HammerInput`,
  `HammerRecognizer` and `HammerManager`. This covers:
  - direction and state naming;
  - touch-action reconciliation;
  - the pointer store and touch-id bookkeeping;
  - session boundaries and deltas;
  - the recognizer state machine with its simultaneous and require-failure
    relations;
  - the tap counter;
  - the manager's recognizer list, handler registry and per-session
    arbitration of the current recognizer.
- **The carousel.** Modules `Events` (Emitter.js), `Timing` (Timer.js),
  `Easing` (Interpolation.js), `Slide` (Item.js) and `Carousel`
  (Gallery.js).

`Js` holds the runtime pieces they share: `Option`, `indexOf`, `splice` and
`Math.round`.

Arithmetic is modelled as follows.
- Arithmetic is exact: `real` where the source divides, `int` for pixels
  and counters, `bv8` for Hammer's bit flags. IEEE rounding, NaN and
  infinities are not modelled.
- `Math.round` is `floor(x + 0.5)`.

A class that inherits from `Emitter` in the source holds an `Emitter` in a
`const emitter` field here. A callback is data:
- an id;
- whether it calls `off` on itself while it runs, as the gallery's resize
  handler does.

With that, the live `forEach` of `trigger` can be reasoned about.

## Model

| member | source | states |
|---|---|---|
| Js.IndexOf | src/scripts/lib/Emitter.js:19 | -1 exactly when the value is absent; otherwise the first index holding it |
| Js.SpliceOne | dist/index.js:2425 | splice(start, 1) by the ECMAScript rules: an index inside removes that element, -1 removes the last, past the end removes nothing |
| Js.Round | src/scripts/lib/Item.js:41 | Math.round lands within half a unit of its argument, halves going up |
| HammerUtil.GetDirection | dist/index.js:712-721 | NONE exactly when x == y (equal non-zero values included); otherwise LEFT/RIGHT by the sign of x when abs(x) >= abs(y), else UP/DOWN by the sign of y; each as an if-and-only-if |
| HammerUtil.GetDirectionReversed | dist/index.js:712-721 | reversing a movement gives the opposite direction, away from the zero-sign tie |
| HammerUtil.DiagonalDirections | dist/index.js:712-721 | (n, n) has no direction however far it goes; (n, -n) is horizontal |
| HammerUtil.DirectionStr | dist/index.js:1601-1612 | a non-empty suffix exactly for the four single directions |
| HammerUtil.DirectionStrInjective | dist/index.js:1601-1612 | distinct directions get distinct suffixes |
| HammerUtil.DirectionStrOfMovement | dist/index.js:712-721 | a movement has an empty direction suffix exactly when x == y |
| HammerUtil.StateStr | dist/index.js:1583-1594 | cancel takes priority over end, end over move, move over start; empty exactly when none of those bits is set |
| HammerUtil.StateStrOfCombined | dist/index.js:1583-1594 | adding the cancelled bit names any state a cancel; possible and failed have no suffix |
| HammerUtil.InStrAt | dist/index.js:262-264 | indexOf(find) > -1 exactly when find occurs at some index |
| HammerUtil.CleanTouchActions | dist/index.js:1270-1298 | the result is one of the five values; each value is chosen exactly under its rule, first match winning: none, both pans, a single pan, manipulation, auto |
| HammerUtil.CleanTouchActionsIdempotent | dist/index.js:1270-1298 | cleaning an already cleaned value changes nothing |
| HammerUtil.InArray | dist/index.js:282-295 | the counting loop finds the first element whose key matches, or -1 exactly when no key matches |
| HammerUtil.UniqueArray | dist/index.js:313-327 | the loop keeps exactly the elements whose key did not occur earlier, in order |
| HammerUtil.UniqueByKeyDistinct | dist/index.js:313-327 | no two kept elements share a key, and every kept element comes from the input |
| HammerUtil.UniqueByKeyCovers | dist/index.js:313-327 | every key of the input survives de-duplication |
| HammerInput.SessionBoundary | dist/index.js:495-502 | isFirst exactly for a start input whose pointers all just changed; isFinal exactly for an end or cancel input whose pointers all just changed |
| HammerInput.BoundaryExclusive | dist/index.js:495-502 | no single input is both first and final |
| HammerInput.ComputeDeltaXY | dist/index.js:579-598 | a start input, or the input after an end, starts a new segment that carries over the previous delta; otherwise the session is unchanged; the delta is defined exactly when both offset and previous delta exist |
| HammerInput.SegmentContinuesDelta | dist/index.js:579-598 | a new segment starts from the previous input's delta, or from 0 in a fresh session |
| HammerInput.DeltaTracksCenter | dist/index.js:579-598 | within a segment the delta moves exactly as the center moves |
| HammerInput.MoveWithoutStartIsNaN | dist/index.js:579-598 | a move in a fresh session has no delta |
| HammerInput.PointerEventType | dist/index.js:836-842 | every pointer event maps to one input type; pointerout counts as cancel |
| HammerInput.PointerStepKeepsIdsUnique | dist/index.js:880-922 | the store keeps its pointer ids unique; the event's id is in the new store exactly when it was added or kept and the event does not end it; other ids are untouched |
| HammerInput.UnknownPointerIgnored | dist/index.js:880-922 | an event for a pointer not in the store that does not add it changes nothing and is not delivered |
| HammerInput.PointerSessionBoundaries | dist/index.js:880-922 | the first added pointer is delivered as the only pointer; the last pointer's up is delivered before it leaves the store, which is then empty |
| HammerInput.PointerEventInput.Handler | dist/index.js:880-922 | the store update and delivery are exactly one PointerStep |
| HammerInput.TargetTouches | dist/index.js:1055-1057 | exactly the touches whose target lies inside the element |
| HammerInput.CollectChanged | dist/index.js:1068-1080 | only changed touches with a target id are kept |
| HammerInput.CollectChangedDistinct | dist/index.js:1068-1080 | with distinct ids, exactly the changed touches with a target id are kept |
| HammerInput.TouchInput.GetTouches | dist/index.js:1038-1091 | a single start/move touch records its id and is delivered as all and changed touches; otherwise start collects the target ids, end/cancel forgets the changed ids, and nothing is delivered when no changed touch is a target |
| HammerInput.TouchInput.AddTargetIds | dist/index.js:1060-1066 | the target ids gain every target touch's id |
| HammerInput.TouchInput.KeepChanged | dist/index.js:1068-1080 | the kept touches are CollectChanged of the ids as they were; on end/cancel every changed id leaves the set |
| HammerRecognizer.AttrProcess | dist/index.js:1667-1686 | a recognized state with cancel or invalid input gets the cancelled bit; otherwise valid or recognized input gives ended on end, began if not begun, changed otherwise; anything else fails |
| HammerRecognizer.TapProcess | dist/index.js:2008-2059 | a start before any tap, a press with the wrong pointer count, too much movement or too long a press, and any input other than an end fail and leave the tap memory alone; a tap-like end input records its time and center and sets the count to one more when it continues the previous tap's series (within `interval` of its time and `posThreshold` of its center) and to 1 otherwise; it is then recognized, or only began when there are require-failure partners, exactly when the count is a positive multiple of `taps` |
| HammerRecognizer.TapSeries | dist/index.js:2026-2046 | from a fresh tap recognizer, k tap-like end inputs that each continue the previous one's series count k taps, and the last is recognized exactly when k is a multiple of `taps` |
| HammerRecognizer.SingleTapRecognized | dist/index.js:2008-2060 | with the defaults a single quick tap is recognized at once |
| HammerRecognizer.DoubleTapRecognized | dist/index.js:2008-2060 | a taps-2 recognizer fails on the first tap and recognizes the second when it is close in time and place |
| HammerRecognizer.LateTapRestartsCount | dist/index.js:2008-2060 | a tap 300 ms or more after the previous one restarts the count at 1 |
| HammerRecognizer.ZeroTapsNeverRecognize | dist/index.js:2044-2045 | with taps 0 the modulo is NaN and the recognizer always fails |
| HammerRecognizer.ResetFinished | dist/index.js:1540-1543 | recognized, cancelled or failed restart from possible; other states are kept |
| HammerRecognizer.EmitNamesOrder | dist/index.js:1470-1493 | each emission sends the plain name and one state-suffixed name: the suffixed name first while the gesture runs, last once it has ended or been cancelled |
| HammerRecognizer.AttrRun | dist/index.js:1667-1686 | a run of inputs produces one suffix per input |
| HammerRecognizer.AttrRunMoves | dist/index.js:1667-1686 | moves of a gesture under way keep it changed and each emits a move |
| HammerRecognizer.AttrRunAppend | dist/index.js:1667-1686 | a run over two input sequences is the second run started where the first ended |
| HammerRecognizer.GestureLifecycle | dist/index.js:1528-1552 | start, n moves and end emit start, n moves and end, and leave the recognizer recognized, so the next input starts from possible |
| HammerRecognizer.CancelledGesture | dist/index.js:1667-1686 | a cancel input to a gesture under way cancels it, and the cancel name comes last |
| HammerRecognizer.AttrStepNeverPossible | dist/index.js:1540-1545 | after reset and process an attribute recognizer is never left possible |
| HammerRecognizer.Recognizer.constructor | dist/index.js:1341-1355 | enabled, possible, with no relations |
| HammerRecognizer.Recognizer.RecognizeWith | dist/index.js:1382-1394 | links both ways; an existing link on this side changes nothing |
| HammerRecognizer.Recognizer.DropRecognizeWith | dist/index.js:1401-1409 | removes only this side's link |
| HammerRecognizer.Recognizer.RequireFailure | dist/index.js:1416-1428 | links both ways without duplicates; an existing link on this side changes nothing |
| HammerRecognizer.Recognizer.DropRequireFailure | dist/index.js:1435-1446 | removes the first occurrence on this side only; an absent partner changes nothing |
| HammerRecognizer.Recognizer.CanEmit | dist/index.js:1513-1522 | true exactly when every require-failure partner is failed or possible |
| HammerRecognizer.Recognizer.TryEmit | dist/index.js:1501-1507 | emits the names when the partners allow; otherwise the state becomes failed and nothing is emitted |
| HammerRecognizer.Recognizer.Recognize | dist/index.js:1528-1552 | a disabled recognizer fails; otherwise finished states reset and process runs; an emitting state is emitted, or becomes failed when a required partner has not failed |
| HammerManager.WithoutEvent | dist/index.js:2377-2396 | the list without the recognizer of that event name, or unchanged when there is none |
| HammerManager.IndexByIdentity | dist/index.js:2334-2346 | with unique names, a recognizer is found at its own index by identity and by name |
| HammerManager.WithoutEventDistinct | dist/index.js:2377-2396 | removal keeps names unique, keeps every other recognizer and drops that name |
| HammerManager.AddReplaces | dist/index.js:2354-2370 | add keeps names unique, puts the new recognizer last and keeps only recognizers already there |
| HammerManager.OffHandlers | dist/index.js:2419-2429 | no handler deletes the event's list; an unregistered event is unchanged; otherwise splice(indexOf(handler), 1) |
| HammerManager.OffRegistered | dist/index.js:2419-2429 | off removes the first registration of a registered handler and keeps the rest in order |
| HammerManager.OffUnregisteredDropsLast | dist/index.js:2425 | off with an unregistered handler drops the list's last handler |
| HammerManager.OnThenOff | dist/index.js:2404-2429 | on then off of a new handler restores the list |
| HammerManager.Manager.constructor | dist/index.js:2219-2238 | no recognizers, no handlers, a fresh session |
| HammerManager.Manager.Stop | dist/index.js:2269-2271 | the session is stopped, or force-stopped |
| HammerManager.Manager.Get | dist/index.js:2334-2346 | null exactly when no recognizer has the name; otherwise the first one that has it |
| HammerManager.Manager.Remove | dist/index.js:2377-2396 | an absent recognizer leaves the list unchanged; a present one is spliced out at its index |
| HammerManager.Manager.RemoveByName | dist/index.js:2377-2396 | remove by name is WithoutEvent and keeps names unique |
| HammerManager.Manager.Add | dist/index.js:2354-2370 | the recognizer with the same name is removed first, then the new one is pushed; names stay unique |
| HammerManager.Manager.On | dist/index.js:2404-2411 | the handler is appended to the event's list |
| HammerManager.Manager.Off | dist/index.js:2419-2429 | the handlers become OffHandlers of the old ones |
| HammerManager.Manager.Emit | dist/index.js:2436-2458 | every handler of the event's list is called once, in order |
| HammerManager.Manager.Recognize | dist/index.js:2279-2327 | a stopped session changes no recognizer and emits nothing; otherwise a missing or recognized current recognizer is dropped; a recognizer that is not allowed (there is a current recognizer, it is not that one and may not run with it) keeps its state and tap memory and emits nothing; an allowed one takes its turn as Recognizer.recognize does (FAILED when disabled; otherwise process's tap memory and state; an emitting state emits its names, and a recognizer with no required-failure partner always does, while one with partners either does or becomes FAILED with no names); the names emitted are the turns' names in recognizer order; the first recognizer to become active is current |
| HammerManager.Manager.Walk | dist/index.js:2302-2326 | the loop gives every recognizer its turn (as in Recognize's row) under the current recognizer of that moment, concatenates the turns' names in order and makes the first active recognizer current |
| HammerManager.Manager.Turn | dist/index.js:2311-2322 | a recognizer that is not allowed keeps its state and tap memory and emits nothing; an allowed one fails when disabled, and otherwise gets process's tap memory; a non-emitting state is kept with no names; an emitting state is kept with its names exactly when every required-failure partner, at its state on entry (the recognizer itself with its new state), is FAILED or POSSIBLE (canEmit, dist/index.js:1513-1522), and becomes FAILED with no names otherwise |
| HammerManager.Manager.ResetSession | dist/index.js:504-506 | a fresh, running session with no current recognizer |
| HammerManager.Manager.Destroy | dist/index.js:2464-2471 | no handlers and a fresh session |
| HammerManager.Manager.InputHandler | dist/index.js:495-525 | a first input starts a fresh session; the delta is computed; 'hammer.input' reaches its handlers; the recognizers run on the new session as Manager.recognize states, and their names are emitted in order; the input becomes the previous one |
| HammerManager.Manager.BeginInput | dist/index.js:495-508 | the session, delta and current recognizer become Begin's: reset exactly on a first input, then the delta is computed |
| HammerManager.Begin | dist/index.js:495-508 | on a first input (INPUT_START with every pointer changed) the session is fresh, running and has no current recognizer, otherwise it keeps its stopped mode and current recognizer; the deltas and the delta are computeDeltaXY's on that session |
| HammerManager.Manager.Announce | dist/index.js:495-516 | the session starts as Begin says, 'hammer.input' reaches its handlers, and every recognizer keeps its state and tap memory |
| HammerManager.Manager.Respond | dist/index.js:518-519 | the recognizers run as Manager.recognize states, from their states on entry, and the input becomes the session's previous input |
| HammerManager.Manager.Step | dist/index.js:2304-2325 | one iteration of the loop: the recognizer takes its turn (as in Recognize's row), and becomes current when there was none and it is now active |
| Events.ArgumentAsWritten | src/scripts/lib/Emitter.js:29-33 | a callback gets the payload exactly when it is truthy |
| Events.ArgumentAsWrittenDropsZero | src/scripts/lib/Emitter.js:29-33 | a position of 0 reaches the callback as no argument at all; the corrected version passes it on |
| Events.Argument | dist/index.js:2619-2624 | a callback gets the payload exactly when one was given |
| Events.Register | src/scripts/lib/Emitter.js:10-12 | the event's list gains the callback at its end; no other list changes |
| Events.Unregister | src/scripts/lib/Emitter.js:19-23 | an absent callback leaves the list unchanged; otherwise exactly its first occurrence leaves, the rest keep their order |
| Events.Deregister | src/scripts/lib/Emitter.js:14-24 | an event never registered is unchanged; otherwise the event's list loses the first occurrence; other lists are unchanged |
| Events.RegisterThenDeregister | src/scripts/lib/Emitter.js:10-24 | on then off of a new callback restores the list |
| Events.DispatchInOrder | src/scripts/lib/Emitter.js:26-36 | without self-removing callbacks, trigger calls each registered callback once, in order, and changes nothing; an unregistered event calls nothing |
| Events.SelfRemovalSkipsNext | src/scripts/lib/Emitter.js:28 | a callback that removes itself during trigger makes the walk skip the callback after it; the list loses the self-remover |
| Events.OnAsWritten | src/scripts/lib/Emitter.js:10-12 | on reads the never-assigned `events` property and throws |
| Events.TriggerAsWritten | src/scripts/lib/Emitter.js:26-36 | an unregistered event does nothing; a registered one throws on the missing `events` property |
| Events.AsWrittenThrows | src/scripts/lib/Emitter.js:10-36 | on any emitter the constructor builds, on always throws and trigger throws for a registered event |
| Events.Emitter.constructor | src/scripts/lib/Emitter.js:2-4 | an empty registry |
| Events.Emitter.HasEvent | src/scripts/lib/Emitter.js:6-8 | true exactly when the event has a list; throws once the registry is null |
| Events.Emitter.On | dist/index.js:2596-2601 | the registry becomes Register of the old one; throws only after destroy |
| Events.Emitter.Off | src/scripts/lib/Emitter.js:14-24 | the registry becomes Deregister of the old one; throws only after destroy |
| Events.Emitter.Trigger | dist/index.js:2616-2627 | the callbacks called and the new registry are those of the live walk, with the length taken at the start; the argument passed is Argument(data) |
| Events.Emitter.Destroy | src/scripts/lib/Emitter.js:38-40 | the registry becomes null |
| Timing.Timer.constructor | src/scripts/lib/Timer.js:4-9 | not ticking, no time, no frame requested, an empty registry |
| Timing.Timer.RequestFrame | src/scripts/lib/Timer.js:17 | one more frame request; its handle is the request count |
| Timing.Timer.Draw | src/scripts/lib/Timer.js:11-18 | not ticking: nothing changes; ticking: time() returns the timestamp, 'draw' is dispatched and exactly one further frame is requested |
| Timing.Timer.Start | src/scripts/lib/Timer.js:24-31 | a no-op while ticking; otherwise ticking with exactly one new frame request |
| Timing.Timer.Stop | src/scripts/lib/Timer.js:37-45 | the latest request is cancelled; time and handle are null; not ticking; every listener is gone; returns false |
| Timing.Timer.Clear | src/scripts/lib/Timer.js:33-35 | a fresh, empty registry |
| Easing.Quadratic | src/scripts/lib/Interpolation.js:28 | progress 0 gives the start, 1 gives the end, and progress in between stays between them |
| Easing.QuadraticBetween | src/scripts/lib/Interpolation.js:28 | for progress in [0, 1] the eased value lies between start and end |
| Easing.QuadraticMonotone | src/scripts/lib/Interpolation.js:28 | more progress moves the value towards the end |
| Easing.Ease | src/scripts/lib/Interpolation.js:18-30 | at or after the end time the result is `end`; play(startTime) returns `start`; in between it stays between the two; it is undefined exactly for a zero duration before the start time |
| Easing.EaseMonotone | src/scripts/lib/Interpolation.js:18-30 | over a positive duration the value only moves towards `end`, across the end time as well |
| Easing.Interpolation.constructor | src/scripts/lib/Interpolation.js:4-11 | the four parameters are stored and no completion is pending |
| Easing.Interpolation.Play | src/scripts/lib/Interpolation.js:13-31 | returns Ease(...); 'complete' is dispatched exactly when an earlier call reached the end time, never by the call that first returns `end` |
| Slide.ScaleIsProduct | src/scripts/lib/Item.js:72 | repeated addition of the slide step equals idx times the step |
| Slide.ScaleGap | src/scripts/lib/Item.js:72 | a slide further along sits at least one step further on |
| Slide.GetProps | src/scripts/lib/Item.js:56-76 | leftOffset = idx·(parentWidth + margin); the bounds are leftOffset ∓ parentWidth; the offsets centre the scaled slide in the box |
| Slide.GetPropsWithDefaults | src/scripts/lib/Item.js:56-76 | idx, parentWidth, parentHeight and margin each take their default (0, 400, 400, 40) exactly when their own argument is undefined, whatever the others are; the offset, bounds and centring are _getProps's for the values taken |
| Slide.DefaultSlide | src/scripts/lib/Item.js:56 | with every default, slide 0 sits at 0 and is in view from -400 to 400 |
| Slide.SlidesEvenlySpaced | src/scripts/lib/Item.js:70-72 | consecutive slides are parentWidth + margin apart, and each offset lies strictly inside its bounds |
| Slide.DrawOffsets | src/scripts/lib/Item.js:21-44 | dx = xOffset + (leftOffset - pos); dy = yOffset; parallax shift = round((pos - leftOffset)/4) |
| Slide.DrawOffsetsAtRestAndMoving | src/scripts/lib/Item.js:26-41 | at rest on its offset a slide is centred and unshifted; moving the strip moves it by the same amount; the shift never decreases as the strip moves right |
| Slide.ViewIsLocal | src/scripts/lib/Item.js:70-72 | at most two adjacent slides are in view anywhere; at rest on a slide's offset only that slide is |
| Carousel.ScaleImageDimensions | src/scripts/lib/Gallery.js:126-137 | the result never leaves the gallery box; an image at least as wide as the box ratio fills the width and gets round(height·maxWidth/width) as its height; any other fills the height and gets round(width·maxHeight/height) as its width |
| Carousel.ScaleByOneFactor | src/scripts/lib/Gallery.js:126-137 | both sides are scaled by one factor, the smaller of maxWidth/width and maxHeight/height, before rounding; the scaled image fits the box and touches it on at least one side |
| Carousel.GetSlideDimensions | src/scripts/lib/Gallery.js:104-116 | every image is scaled; tallest is at least every height and is 0 or one of them |
| Carousel.BuildSlides | src/scripts/lib/Gallery.js:46-50 | slide i is _getProps(i, width, height, margin, scaled size of image i) |
| Carousel.SlidesInView | src/scripts/lib/Gallery.js:323-333 | ascending indices, exactly those whose bounds contain pos |
| Carousel.Terminal | src/scripts/lib/Gallery.js:255-257 | true exactly when the slide the last pan direction heads for does not exist: right on slide 0, left on the last slide |
| Carousel.PanPosition | src/scripts/lib/Gallery.js:184-189 | the strip follows the finger strictly inside (0, fullWidth); elsewhere it moves half as far |
| Carousel.ReleaseAsWritten | src/scripts/lib/Gallery.js:191-196 | a non-final event keeps dragging; a short final drag snaps back; an advance asks for the next slide on a left drag, the previous one otherwise |
| Carousel.ReleaseAsWrittenStrands | src/scripts/lib/Gallery.js:191-196 | on the last of 3 slides, a release with drag -150 and last direction right is not terminal and asks for slide 3, which does not exist |
| Carousel.Release | src/scripts/lib/Gallery.js:191-196 | it never asks for a slide that does not exist; where the as-written target exists it agrees with it, and otherwise it snaps back |
| Carousel.TransitionDelta | src/scripts/lib/Gallery.js:362 | progress is capped at 1: 0 at the start, 1 from the end time on, non-negative after the start |
| Carousel.TransitionFrames | src/scripts/lib/Gallery.js:356-369 | the first frame shows `from`; a frame at or after the end shows `to`; frames in between lie between the two |
| Carousel.FullWidthIsLastOffset | src/scripts/lib/Gallery.js:54 | fullWidth is the last slide's offset and slide 0 sits at 0, so the rubber band applies outside the slides |
| Carousel.Gallery.constructor | src/scripts/lib/Gallery.js:21-64 | width, maxHeight and the keyboard duration are the arguments and the margin is 40; height is at least 0 and at least every scaled image's height, and is one of those heights unless it is 0; slide i is image i scaled by ScaleImageDimensions into width × maxHeight and laid out by _getProps at index i; fullWidth is the last slide's offset; slide 0 is current at its offset; pos and lastPos are 0; ready and not transitioning, with no transition start, a drag of 0 and no pan direction yet; the gallery invariant holds |
| Carousel.Gallery.Transition | src/scripts/lib/Gallery.js:266-271 | transitioning from `from` to `to` over `duration` |
| Carousel.Gallery.SetCurrentPosition | src/scripts/lib/Gallery.js:277-281 | the resting position becomes the current slide's offset and a transition starts there from pos |
| Carousel.Gallery.GoTo | src/scripts/lib/Gallery.js:288-299 | an index outside the slides changes nothing and dispatches nothing; otherwise that slide is current, a transition runs from pos to its offset with the given duration, and 'update' is dispatched |
| Carousel.Gallery.Next | src/scripts/lib/Gallery.js:305-307 | below the last slide: the next slide is current, a 250 ms transition runs from pos to its offset and 'update' is dispatched; on the last slide: no slide, transition or registry change and nothing dispatched |
| Carousel.Gallery.Previous | src/scripts/lib/Gallery.js:313-315 | above slide 0: the previous slide is current, a 250 ms transition runs from pos to its offset and 'update' is dispatched; on slide 0: no slide, transition or registry change and nothing dispatched |
| Carousel.Gallery.KeyDown | src/scripts/lib/Gallery.js:158-172 | while transitioning, with a modifier held, or for another key: no slide, transition or registry change and nothing dispatched; 37 and 39 go to the previous and next slide with the keyboard duration and dispatch 'update', or change nothing at that end of the strip |
| Carousel.Gallery.Pan | src/scripts/lib/Gallery.js:180-197 | a horizontal direction is recorded; drag is round(deltaX); pos is PanPosition; the release follows Release (a move dispatches 'update', otherwise the slide and the registry are kept); every final event leaves a 250 ms transition from pos to the current slide's offset; a non-final event keeps the running transition (its flag, from, to and duration) and the current position |
| Carousel.Gallery.Settle | src/scripts/lib/Gallery.js:191-196 | advance through goTo (dispatching 'update') or snap back, each with duration 250 from pos to the current slide's offset, as Release decides; a non-final event keeps the running transition (its flag, from, to and duration), the slide, the position and the registry |
| Carousel.Gallery.Draw | src/scripts/lib/Gallery.js:347-378 | 'draw' is dispatched; an idle frame changes nothing else; otherwise the transition steps, exactly the slides in view at the new pos are drawn, and lastPos becomes pos |
| Carousel.Gallery.Render | src/scripts/lib/Gallery.js:350-376 | the idle test and the drawing of the slides in view |
| Carousel.Gallery.Step | src/scripts/lib/Gallery.js:356-369 | the first frame records the start; pos = Quadratic(from, to, min((t - start)/duration, 1)); reaching 1 ends the transition and clears the start |

## Left out

- Hammer's browser plumbing is not modelled: feature detection, `prefixed`, `TouchAction.set` writing styles, `toggleCssProps`, `triggerDomEvent`, `hasParent` (an `onTarget` flag on each touch instead), and input construction and destruction.
- Hammer's floating-point geometry is not modelled: angles, rotation, scale, velocity and the rounding in `getCenter`. An attribute recognizer's gesture-specific test (threshold, direction, velocity) is an oracle set of event names on the input. Distances are squared integers.
- The mouse, single-touch and combined touch-mouse inputs are not modelled. The pointer and multi-touch inputs stand for the input layer.
- `setTimeout` in the tap and press recognizers is not modelled: the tap's delayed emit and fail timeouts. Only the synchronous result of `process` is.
- `uniqueArray`'s sort is not modelled. Its comparator returns a boolean, so the order depends on the engine; the de-duplication is modelled.
- `boolOrFn` is reduced to a boolean `enabled` flag. `Recognizer.set`, `Manager.set` and the option merging are not modelled.
- Step, Walk, Recognize, Respond, InputHandler: state an emitting turn's outcome more weakly than the source for a recognizer with required-failure partners: its names are emitted, or it becomes FAILED with none, without saying which. The choice depends on the partners' states at that turn, some of which earlier turns of the same walk have changed; the model states it exactly for one turn (Manager.Turn, Recognizer.Recognize, Recognizer.TryEmit) but does not carry every partner's state through the walk. For a recognizer with no such partner these members state the emitted names exactly.
- The loop's per-turn test `session.stopped !== FORCED_STOP` (dist/index.js:2312) is not modelled: recognize returns at once for a stopped session, and stop(true) could only take effect during the walk if a handler called it, while handlers here are ids that cannot call back into the manager.
- SwipeRecognizer is not modelled, and with it its own `emit` (dist/index.js:1956-1963), which sends the event name with its direction and then the plain name instead of Recognizer.emit's names. The attribute recognizers of the model emit as Recognizer.emit does, with pan's and pinch's extra name passed as the input's additional event.
- Hammer's flexible argument forms are not modelled. `Manager.on` and `Manager.off` split a space-separated string into several event names (`splitStr`); `Manager.On` and `Manager.Off` take one name. `add`, `remove`, `recognizeWith`, `dropRecognizeWith`, `requireFailure` and `dropRequireFailure` also accept arrays (`invokeArrayArg`), and the last four accept event names (`getRecognizerByNameIfManager`); the model takes one `Recognizer`. `emit` also writes `type` and `preventDefault` onto the input data (dist/index.js:2448-2451), which the model does not carry.
- Canvas and DOM work is not modelled: `drawImage`, `clearRect`, canvas creation, `_createCanvasLayers`, and the gallery's own `_clear`. Only the offsets that feed the drawing calls are modelled.
- Image loading (`_getSlides`, its promises and `onload`) is not modelled. The constructor receives the loaded images' sizes, and an element width of 0 or an image of size 0 is excluded by its preconditions.
- Listener wiring is not modelled: `addEventListener`, building the Hammer instance in `_bindTouchEvents`, and `preventDefault`. The key handler and the pan handler are methods that receive the event's fields.
- requestAnimationFrame and cancelAnimationFrame are not modelled. In `Timer` they are a request counter. The gallery's own frame loop is the caller of `Gallery.Draw`, and the `raf` import's code is not part of this model.
- Carousel.Gallery.constructor: does not model the initial `_draw()` call, the first slide's direct `_onDraw`, or the 'ready' trigger. The emitter is fresh at that point, so those triggers have no listeners. Its preconditions also exclude three inputs the source accepts. An element with no slides is excluded: the source throws a TypeError reading `this._slides[0]` at Gallery.js:52 and never becomes ready. A `maxHeight` of 0 is excluded: the source builds 0-pixel slides, while the model's ratio test divides by it. A keyboard duration of 0 or less is excluded: the source accepts any number, while the model's transitions need a positive duration (see GoTo).
- The gallery's resize handler is not modelled, because it calls `slide.refresh`, which Item.js does not define. Only its self-removal during 'draw' is, as a self-removing callback in `Events`.
- `Gallery.destroy` is not modelled, because it calls `slide._destroy`, which Item.js does not define.
- `Interpolation.destroy` is not modelled. It sets every field to null, after which `play` computes with NaN, which exact arithmetic cannot represent.
- Item's own emitter wiring (`on('draw', _onDraw)` in its constructor) is not modelled. `Slide.DrawOffsets` is what the slide's draw callback computes.
- Carousel.Gallery.GoTo: requires a positive duration. A duration of 0 makes the source's progress infinite or NaN, which the model does not represent.
- Carousel.ScaleImageDimensions: requires positive sizes. The source divides by the image's sizes.
- Timing.Timer.Time: has no contract beyond returning `_lastTime`; `Timer.Draw` states what it returns after a frame.
- Callbacks' effects other than removing themselves are not modelled. A callback cannot re-enter the emitter in any other way.
- Events.Emitter.Trigger: models the payload check of the compiled copy, `typeof data !== 'undefined'`. The source checks truthiness, which is kept as `Events.ArgumentAsWritten` (see Findings).
- NaN, infinities and 32-bit limits are not modelled. Numbers are exact.

## Findings

| source | as written | input that shows it | evidently intended | confidence | as-written member | corrected member |
|---|---|---|---|---|---|---|
| src/scripts/lib/Emitter.js:11,28 | `on` spreads `this.events[eventName]` and `trigger` walks `this.events[eventName]`, a property no emitter assigns | any `on('draw', f)` call on a new emitter throws a TypeError, and so does `trigger` of any registered event | read and write `this._events`, as the compiled copy at dist/index.js:2596-2627 does | high; not executed | Events.OnAsWritten, Events.TriggerAsWritten, Events.AsWrittenThrows | Events.Emitter.On, Events.Emitter.Trigger |
| src/scripts/lib/Emitter.js:29 | the payload is passed only when it is truthy | Gallery.js:373 triggers a slide's 'draw' with pos = 0 when the strip is back at slide 0; `_onDraw` then gets no argument and its dx is NaN | pass the payload whenever one is given, as the compiled copy's `typeof` check does | medium; not executed | Events.ArgumentAsWritten, Events.ArgumentAsWrittenDropsZero | Events.Argument (used by Events.Emitter.Trigger) |
| src/scripts/lib/Gallery.js:191-196 | the terminal test uses the direction of the last pan movement, not of the drag, and goTo ignores an index past either end | on the last of 3 slides 300 px wide, a release with deltaX -150 whose last movement was to the right: not terminal, so goTo(3) is called, which does nothing, and the strip stays 75 px past the last slide with no transition back | snap back whenever the slide asked for does not exist | medium; not executed | Carousel.ReleaseAsWritten, Carousel.ReleaseAsWrittenStrands | Carousel.Release (used by Carousel.Gallery.Pan) |
