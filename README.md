# Pointer and size normalisation — a Dafny model

This project models the two pieces of logic in the event layer of a small
browser application that forwards user input to an application core over
named ports:

- **Pointer normalisation** (`pointer.js`). A mouse event becomes a
  *pointer frame* with one pointer whose id is `"mouse"`. A touch event
  becomes a frame with one pointer per *changed* touch, in input order, whose
  id is the touch identifier in decimal. Positions are the event's
  `(clientX, clientY)`, passed through. The frame's `ctrlDown` is the event's
  `ctrlKey`.
- **Size reporting and the resize throttle** (`size.js`). `getSize` reads the
  node's `clientWidth` and `clientHeight`. A window-resize signal arms a
  33-unit timer unless one is already pending. When the timer fires it clears
  the pending handle and then sends the size read at that moment. An explicit
  `getSize` request on the port sends the current size at once, whatever the
  throttle's state.

Files and modules:

- `wrappers.dfy` — `Wrappers`: the `Option` type.
- `decimal.dfy` — `Decimal`: `NatToString`, the decimal rendering that
  `identifier.toString()` performs, and `ParseNat`, its inverse on canonical
  digit strings. They are proved to be a bijection, which gives injectivity.
- `pointer.dfy` — `PointerEvents`: the event and frame datatypes,
  `ParseMouseEvent`, `ParseTouch`, and the method `ParseTouchEvent`, which
  builds the pointer list with a loop as the source does. Each normaliser has
  a partial inverse (`MouseEventOf`, `TouchOf`), and lemmas connect it to that
  inverse in both directions.
- `size.dfy` — `SizeEvents`: `GetSize`; a pure transition function `Step` and
  its iteration `Run` over a trace of events on an abstract clock; the
  invariant `Good` and the throttle theorems; and the class `ResizeThrottler`,
  whose fields are updated in place by `OnResize`, `OnTimerFire`,
  `RequestSize` and `Advance`, each proved to follow `Step`.

The clock and the host's timer queue are explicit. `timers` holds the
deadlines of armed callbacks. It is kept apart from the handle `pending`, so
"at most one timer armed" is an invariant to prove rather than a definition.
The host runs a callback only for an armed timer whose delay has elapsed. It
may run it late, as `setTimeout` only promises a minimum delay. Sizes sent on
the size-changes channel are logged with their cause (request or throttle)
and the clock reading.

The specification of this layer describes positions as page coordinates
minus the reference element's offset. The code uses client coordinates and
subtracts nothing (pointer.js:3, pointer.js:22). The model follows the code.

## Model

| member | source | states |
|---|---|---|
| `PointerEvents.MouseFrameRoundTrip` | pointer.js:1-6 | a mouse frame holds exactly one pointer, with id `"mouse"`, at `(clientX, clientY)` unchanged, and `ctrlDown == ctrlKey`; `MouseEventOf(f) == Some(e)` holds exactly when `ParseMouseEvent(e) == f`, so the frame loses nothing of the event |
| `PointerEvents.MouseEventOf` | pointer.js:1-6 | the inverse reading of a frame succeeds exactly on frames with a single pointer whose id is `"mouse"` |
| `PointerEvents.TouchPointerRoundTrip` | pointer.js:19-24 | a touch pointer's id is the decimal rendering of the identifier and its position is `(clientX, clientY)`; `TouchOf(p) == Some(t)` holds exactly when `ParseTouch(t) == p` |
| `PointerEvents.TouchOf` | pointer.js:19-24 | the inverse reading of a pointer succeeds exactly when its id is a canonical decimal string |
| `PointerEvents.TouchIdIsNotMouse` | pointer.js:19-24 | a touch pointer's id is non-empty and never equals the mouse id `"mouse"` |
| `PointerEvents.ParseTouchInjective` | pointer.js:19-24 | two touches give the same pointer iff they are the same touch, and the same id iff they have the same identifier |
| `PointerEvents.ParseTouchEvent` | pointer.js:8-17 | the frame has exactly one pointer per changed touch (none for an empty list), pointer `i` is `ParseTouch(changedTouches[i])`, so order is kept and nothing is dropped or added, and `ctrlDown == ctrlKey` |
| `PointerEvents.TouchFrameIds` | pointer.js:8-24 | a touch frame's ids are pairwise distinct iff the changed touches' identifiers are; every id is non-empty and differs from `"mouse"` |
| `PointerEvents.TouchFrameDependsOnChangedTouches` | pointer.js:8-17 | two touch frames are equal iff their events agree on the changed touches and the control key; the other active touches play no part |
| `PointerEvents.TouchFrameRecoversTouches` | pointer.js:8-24 | every pointer of a touch frame reads back as the changed touch at the same index |
| `Decimal.NatToString` | pointer.js:21 | `toString` of an identifier is a non-empty string of digits with no leading zero, starting with `'0'` only for zero |
| `Decimal.ParseNat` | pointer.js:21 | parsing succeeds exactly on canonical decimal strings |
| `Decimal.ParseNatIsInverse` | pointer.js:21 | `ParseNat(s) == Some(n)` iff `NatToString(n) == s`: rendering and parsing are mutually inverse |
| `Decimal.NatToStringInjective` | pointer.js:21 | distinct identifiers render as distinct strings, and conversely |
| `SizeEvents.GetSize` | size.js:1-6 | the size has `width == clientWidth` and `height == clientHeight` of the node |
| `SizeEvents.InitialIsGood` | size.js:16 | initially no timer is pending or armed, nothing has been sent, and the invariant holds |
| `SizeEvents.StepKeepsGood` | size.js:9-24 | every event (resize, request, timer firing, time passing) preserves the invariant: at most one armed timer, armed iff pending, no emission in the future, an armed timer due a full delay after every throttled emission, throttled emissions spaced |
| `SizeEvents.RunKeepsGood` | size.js:9-24 | every feasible trace from a good state ends in a good state |
| `SizeEvents.AtMostOneTimerArmed` | size.js:16-24 | from the initial state, at most one timer is ever armed, and one is armed exactly while the handle is pending |
| `SizeEvents.ThrottledEmissionsSpaced` | size.js:17-24 | from the initial state, any two resize-originated emissions are at least 33 units apart, so each window of one delay holds at most one |
| `SizeEvents.EmissionsAccounted` | size.js:9-24 | over any trace, resize-originated emissions plus armed timers never outnumber resize signals, and requested emissions equal the number of requests |
| `SizeEvents.BurstArmsOnce` | size.js:17-24 | a stretch of resizes, requests and waits with no timer firing sends only the requested sizes; it arms a timer iff the throttle was idle and a resize occurred, due 33 units after the first resize; if a timer was pending it stays the same |
| `SizeEvents.BurstEmitsOnce` | size.js:17-24 | a burst holding k >= 1 resizes, started while idle and followed by the timer firing, produces exactly one resize-originated emission: the size read at fire time, at least 33 units after the first resize, leaving the throttle idle with no timer armed |
| `SizeEvents.ResizeAfterFireArmsAgain` | size.js:18-22 | after the timer has fired, the next resize arms a fresh timer due 33 units later and sends nothing |
| `SizeEvents.ResizeThrottler.constructor` | size.js:16 | the handle starts not pending, with no timer armed and an empty log |
| `SizeEvents.ResizeThrottler.OnResize` | size.js:17-24 | when idle: pending, exactly one timer armed with deadline now + 33, nothing sent; when pending: the state is unchanged; the invariant is kept |
| `SizeEvents.ResizeThrottler.OnTimerFire` | size.js:19-22 | the handle is cleared, no timer remains armed, and exactly one size is appended, read from the node at fire time |
| `SizeEvents.ResizeThrottler.RequestSize` | size.js:9-11 | exactly one current size is appended at once; the handle, the armed timer and the clock are untouched |
| `SizeEvents.ResizeThrottler.Advance` | size.js:19-22 | time passes on the abstract clock; the handle, the armed timer and the log are untouched, so an armed timer waits for its callback |

## Left out

- `addPointerEventListeners` (pointer.js:26-72) and the `addEventListener` calls in `addSizeEventListeners`: listener registration is host I/O. Which channel a frame goes to (`mouseDown`, `touchStart`, …) is fixed by that registration and is not modelled.
- `stopPropagation` and `preventDefault`: host side effects with no data contract.
- The ports: `app.ports.sizeChanges.send` is the append to the emission log, and the `getSize` subscription is the `RequestSize` method. The message bus itself is not modelled.
- Real time and `setTimeout`: the clock is an abstract `nat` advanced by `Wait` events or `Advance`. The timer handle is the boolean `pending`, not a browser timer id with truthiness.
- Coordinates are `int` rather than floating point, and are only passed through.
- Touch identifiers are `nat`. Negative identifiers, and the exponent form `toString` uses for numbers of 10^21 and more, cannot occur for a touch identifier in practice and are not modelled.
- `clientWidth` and `clientHeight` are given as the `Node` value at the moment of the read; layout itself is not modelled.
- Element-offset correction of positions is not modelled, because the code does not do it.
