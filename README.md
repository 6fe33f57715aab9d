# react-openseadragon viewer component, modelled in Dafny

This project models the state that the `OpenSeadragon` React component keeps on its own.
The component wraps the OpenSeadragon deep-zoom viewer. Everything else it does is
forwarding to React or to the viewer library. It keeps three pieces of state:

- **Mouse-event handler stacks.** There is one stack per event type: `click`, `move`, `drag`
  and `dragEnd`. Initialisation seeds the click, drag and drag-end stacks with the viewer
  tracker's own handler for that type. The move stack starts empty. Initialisation also
  points the tracker's four hooks at the component's dispatcher. Adding a handler pushes it.
  Removing one splices out the first identical entry, or throws when there is none. Dispatch
  walks the stack from newest to oldest. It stops right after the first handler whose result
  is not exactly `false`.
- **The fully-loaded flag.** On every fully-loaded-change event of a world item, the component
  rescans the world. When every item is fully loaded and the flag was false, or when some item
  is not and the flag was true, it stores the new value and fires the `onFullyLoaded` callback.
- **The overlay element map.** The container element for a child is stored under the id
  `"Overlay" + key`. It is created on the first request and returned on later ones.
  Unmounting clears the map.

Files:

- `mouse_events.dfy` (module `MouseEvents`): the stacks as values. Handlers are ids, and
  identity (`===`) is equality of ids. A handler's answer to one event is a `HandlerResult`:
  `ReturnsFalse` or `ReturnsOther`. `FindIndex` and `RemoveFirst` specify removal. `Invoked`
  gives the indices one dispatch invokes, in order. The lemmas relate these functions.
- `fully_loaded.dfy` (module `FullyLoaded`): the scan (`AllFullyLoaded`) and the callback
  decision (`Fires`). It also holds the firings over a succession of change events, with
  lemmas that they are exactly the edges of the scan result.
- `overlays.dfy` (module `Overlays`): overlay ids from child keys.
- `viewer.dfy` (module `Viewer`): the component as the class `OpenSeadragon`, with fields
  `mouseEventHandlers`, `fullyLoaded` and `elements`. Its methods change those fields in
  place. Each method is proved against the functions above. The viewer's inner tracker is
  the class `Tracker`, and an overlay container is the class `Element`. Three client methods
  show what callers can conclude from the contracts.

Three behaviours of the code are worth stating outright:

- Handlers carry no target element. `_addMouseEventHandler` and `_removeMouseEventHandler`
  take only a type and a handler (main.js:268-283), so nothing filters by target. The model
  has no target either.
- The `onFullyLoaded` callback also fires when the world stops being fully loaded, because
  main.js:111 compares with `!==`. In the sequence A loads, B loads, B resets, B reloads, it
  fires three times. `FullyLoaded.FiringsAreEdges` and `FullyLoaded.TwoItemScenario` state this.
- Nothing protects the tracker handler that seeds a stack from removal (main.js:277-282). A
  caller holding the same function can remove it like any other handler.

A child without a key has key `null`, and the template string renders it as `"null"`. Such a
child therefore shares its element with a child whose key is the string `"null"`, and with
every other keyless child (`Overlays.MissingKeyCollides`). The model keeps this behaviour.

## Model

| member | source | states |
|---|---|---|
| `MouseEvents.FindIndex` | package/src/main.js:277 | The result is -1 exactly when the handler is absent; otherwise the entry there is the handler and no earlier entry is |
| `MouseEvents.RemoveFirst` | package/src/main.js:274-283 | Fails exactly when the handler is absent. Otherwise the stack loses one entry: one occurrence of the handler, as a multiset. Entries before its first occurrence stay in place and entries after it keep their order, moved down by one |
| `MouseEvents.Invoked` | package/src/main.js:255-266 | The reference definition of one dispatch: the indices invoked, in order. It invokes at most every handler once and always tries the newest; `InvokedIsConsumingSuffix` characterises it completely |
| `MouseEvents.InvokedIsConsumingSuffix` | package/src/main.js:255-266 | Dispatch invokes handlers in strictly decreasing index order from the top, so they form a suffix. The newest is always tried, and every handler passed returned exactly `false`. Dispatch stops before the oldest only after a handler that consumed the event. If none consumes, every handler runs once; an empty stack invokes nothing |
| `MouseEvents.NewestHandlerRunsFirst` | package/src/main.js:255-272 | After a push, dispatch invokes the new handler first. It reaches the older handlers, exactly as before the push, only if the new one returns `false` |
| `MouseEvents.RemoveUndoesAdd` | package/src/main.js:268-283 | Pushing a handler not on the stack and then removing it restores the stack |
| `MouseEvents.RemoveIgnoresLaterPushes` | package/src/main.js:268-283 | Removing a handler already on the stack removes the same entry whatever was pushed after it, and leaves the later entries in place |
| `FullyLoaded.Firings` | package/src/main.js:108-116 | Whether each of a succession of `onFullyLoadedChange` calls fires the callback, one answer per call, the stored flag carried from call to call. `FiringsAreEdges` and `FiringCountIsEdgeCount` say what it is, and `Viewer.FullyLoadedClient` shows that successive method calls produce it |
| `FullyLoaded.FiringsAreEdges` | package/src/main.js:96-116 | Over successive change events, the callback fires exactly when the scan result differs from the previous one, the initial flag coming first. Rising and falling edges both fire |
| `FullyLoaded.FiringCountIsEdgeCount` | package/src/main.js:96-116 | The number of firings equals the number of changes of the scan result |
| `FullyLoaded.RepeatedEventIsQuiet` | package/src/main.js:108-116 | A second change event over an unchanged world does not fire the callback |
| `FullyLoaded.TwoItemScenario` | package/src/main.js:96-116 | Two items: A loads (no firing), B loads (fires), B resets (fires), B reloads (fires) |
| `Overlays.OverlayId` | package/src/main.js:331-333 | Every overlay id starts with `Overlay`, and the rendered key is what follows the prefix |
| `Overlays.OverlayIdInjective` | package/src/main.js:331-333 | Different string keys give different overlay ids |
| `Overlays.MissingKeyCollides` | package/src/main.js:304-304 | A keyless child gets the same id as a child whose key is `"null"` |
| `Viewer.OpenSeadragon.constructor` | package/src/main.js:40-44 | A new component has the flag false, no overlay elements and no handler stacks yet |
| `Viewer.OpenSeadragon.InitializeMouseEventHandlers` | package/src/main.js:230-253 | Afterwards the move stack is empty. The click, drag and drag-end stacks each hold exactly the tracker's previous handler for that type. Every tracker hook runs the component's stack for its type |
| `Viewer.OpenSeadragon.RunMouseEventHandlers` | package/src/main.js:255-266 | The handlers invoked are exactly those given by `Invoked` for that type's stack, and `InvokedIsConsumingSuffix` says what that is |
| `Viewer.OpenSeadragon.AddMouseEventHandler` | package/src/main.js:268-272 | The type's stack gains the handler at its end. Earlier entries and the other types' stacks are unchanged |
| `Viewer.OpenSeadragon.RemoveMouseEventHandler` | package/src/main.js:274-283 | An absent handler raises the not-found error and changes nothing. A present handler is removed from the type's stack as `RemoveFirst` says; the other types' stacks are unchanged |
| `Viewer.OpenSeadragon.IsFullyLoaded` | package/src/main.js:96-106 | True exactly when every item reports fully loaded, so an empty world gives true |
| `Viewer.OpenSeadragon.OnFullyLoadedChange` | package/src/main.js:108-116 | Afterwards the flag equals the scan result. The callback fires exactly when that differs from the previous flag |
| `Viewer.OpenSeadragon.GetElement` | package/src/main.js:315-329 | Returns the element stored under `"Overlay" + key` if there is one, changing nothing. Otherwise it returns a new element, fresh, whose id is `"Overlay" + key`, and stores it. Either way, the map gains at most that one entry, and no element is stored under two ids |
| `Viewer.OpenSeadragon.ClearElements` | package/src/main.js:93-93 | Unmounting leaves the element map empty |
| `Viewer.OpenSeadragon.DistinctKeysDistinctElements` | package/src/main.js:315-333 | Children with different string keys get different elements, because no element is stored under two ids (every miss creates a fresh element) |

## Left out

- package/src/loader.js is not part of this model. It injects a script tag and waits on the network.
- package/src/component.js is not part of this model. It is an older component with no state of its own beyond the viewer it constructs.
- package/src/overlay.js is not part of this model. It forwards to the viewer's overlay API.
- `render`, `renderChildren` and `withOpenSeadragon` (main.js:285-349) are React rendering and context plumbing. This includes setting `pointer-events: none` on each element.
- Viewer construction, `keyHandler = null`, the awaited library load, and the random container id (main.js:42-76) are left out. They are foreign calls, an asynchronous suspension and randomness.
- The lifecycle callbacks, `onAddItem`, and the `addHandler`/`removeAllHandlers` subscriptions (main.js:78-91, 118-156) are left out. They forward to props or to the library and keep no state. Unmount is modelled only by its `elements.clear()` (`ClearElements`).
- `addOverlay` and the coordinate conversions (main.js:158-168, 178-192) are foreign calls on floating-point library values.
- `removeOverlay` and `createMouseTracker` (main.js:170-176) are foreign calls that take an element and a params object.
- The world is a parameter: one boolean per item, each item's `getFullyLoaded()`. Firing the callback is the returned `fired` flag.
- `Viewer.OpenSeadragon.OnFullyLoadedChange` does not model a missing callback. The handler is subscribed once, from the props at mount (main.js:84-86), but main.js:109 re-reads the `onFullyLoaded` prop on every event. If a later render drops the prop, main.js:114 calls `undefined` and throws a `TypeError`, after main.js:112 has already stored the new flag. The model always fires instead.
- A handler's result for the event being dispatched is a function of the handler id (`respond`). So two entries of the same handler give the same result in one dispatch. The event object itself is not modelled.
- Handlers that add or remove handlers while a dispatch is running are not modelled. The source's loop reads the live array.
- `Viewer.OpenSeadragon.AddMouseEventHandler`, `RemoveMouseEventHandler` and `RunMouseEventHandlers` require the stacks to be initialised. Called before mount, the source fails with a `TypeError` on `undefined`.
- `Viewer.OpenSeadragon.InitializeMouseEventHandlers` requires the tracker's click, drag and drag-end hooks to hold handlers. The viewer library installs them. The source would push whatever is there, `null` included. The tracker's move hook is ignored, as in the source.
