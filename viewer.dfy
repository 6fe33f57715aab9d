/**
 The viewer component: the state it keeps across calls and the operations
 that change it.

 The component owns three pieces of state of its own: the mouse-event
 handler stacks, the stored fully-loaded flag, and the map from overlay ids
 to overlay container elements. The viewer library's inner mouse tracker is
 a separate object whose four hooks the component takes over.
 */
module Viewer {
  import opened MouseEvents
  import opened FullyLoaded
  import opened Overlays

  /** What one of the tracker's hooks holds: nothing, a handler, or the component's dispatcher. */
  datatype Hook = Unset | Native(handler: HandlerId) | RunStack(eventType: EventType)

  /** The viewer's inner mouse tracker: one hook per mouse event type. */
  class Tracker {
    var clickHandler: Hook
    var moveHandler: Hook
    var dragHandler: Hook
    var dragEndHandler: Hook

    constructor (click: Hook, move: Hook, drag: Hook, dragEnd: Hook)
      ensures clickHandler == click && moveHandler == move
      ensures dragHandler == drag && dragEndHandler == dragEnd
    {
      clickHandler, moveHandler, dragHandler, dragEndHandler := click, move, drag, dragEnd;
    }
  }

  /** An overlay container element, known by identity; its `id` attribute can be set. */
  class Element {
    var id: string

    constructor ()
      ensures id == ""
    {
      id := "";
    }
  }

  class OpenSeadragon {
    /** The handler stacks by event type; empty until the handlers are initialised. */
    var mouseEventHandlers: map<EventType, seq<HandlerId>>
    var fullyLoaded: bool
    var elements: map<string, Element>

    /** Every event type has a stack. */
    ghost predicate HandlersInitialized()
      reads this
    {
      mouseEventHandlers.Keys == AllEventTypes
    }

    /** Different overlay ids are stored with different elements: no element is shared. */
    ghost predicate ElementsValid()
      reads this
    {
      forall a, b :: a in elements && b in elements && a != b ==> elements[a] != elements[b]
    }

    constructor ()
      ensures mouseEventHandlers == map[] && !fullyLoaded && elements == map[]
      ensures ElementsValid()
    {
      mouseEventHandlers := map[];
      fullyLoaded := false;
      elements := map[];
    }

    /**
     Seeds each stack with the tracker's current handler for that type (the
     move stack starts empty) and points every tracker hook at the
     component's dispatcher for that type.
     */
    method InitializeMouseEventHandlers(tracker: Tracker)
      requires tracker.clickHandler.Native? && tracker.dragHandler.Native? && tracker.dragEndHandler.Native?
      modifies this`mouseEventHandlers, tracker
      ensures HandlersInitialized()
      ensures mouseEventHandlers == map[
                Click := [old(tracker.clickHandler).handler],
                Move := [],
                Drag := [old(tracker.dragHandler).handler],
                DragEnd := [old(tracker.dragEndHandler).handler]]
      ensures tracker.clickHandler == RunStack(Click) && tracker.moveHandler == RunStack(Move)
      ensures tracker.dragHandler == RunStack(Drag) && tracker.dragEndHandler == RunStack(DragEnd)
    {
      mouseEventHandlers := map[
        Click := [tracker.clickHandler.handler],
        Move := [],
        Drag := [tracker.dragHandler.handler],
        DragEnd := [tracker.dragEndHandler.handler]];
      tracker.clickHandler := RunStack(Click);
      tracker.moveHandler := RunStack(Move);
      tracker.dragHandler := RunStack(Drag);
      tracker.dragEndHandler := RunStack(DragEnd);
    }

    /**
     Runs the stack for `eventType` on one event, `respond` giving what each
     handler returns for it, and yields the indices of the handlers invoked,
     in invocation order.
     */
    method RunMouseEventHandlers(eventType: EventType, respond: HandlerId -> HandlerResult)
      returns (invoked: seq<nat>)
      requires HandlersInitialized()
      ensures invoked == Invoked(mouseEventHandlers[eventType], respond)
    {
      var handlers := mouseEventHandlers[eventType];
      invoked := [];
      var index := |handlers| - 1;
      assert handlers[..index + 1] == handlers;
      while index >= 0
        invariant -1 <= index < |handlers|
        invariant Invoked(handlers, respond) == invoked + Invoked(handlers[..index + 1], respond)
        decreases index
      {
        var handler := handlers[index];
        assert handlers[..index + 1][..index] == handlers[..index];
        var result := respond(handler);
        invoked := invoked + [index];
        var eventConsumed := result != ReturnsFalse;
        if eventConsumed {
          break;
        }
        index := index - 1;
      }
    }

    /** Pushes `handler` on top of the stack for `eventType`. */
    method AddMouseEventHandler(eventType: EventType, handler: HandlerId)
      requires HandlersInitialized()
      modifies this`mouseEventHandlers
      ensures HandlersInitialized()
      ensures mouseEventHandlers
           == old(mouseEventHandlers)[eventType := old(mouseEventHandlers)[eventType] + [handler]]
    {
      var handlers := mouseEventHandlers[eventType];
      mouseEventHandlers := mouseEventHandlers[eventType := handlers + [handler]];
    }

    /**
     Removes the first entry identical to `handler` from the stack for
     `eventType`; fails, changing nothing, when there is none.
     */
    method RemoveMouseEventHandler(eventType: EventType, handler: HandlerId) returns (outcome: Outcome)
      requires HandlersInitialized()
      modifies this`mouseEventHandlers
      ensures HandlersInitialized()
      ensures outcome.Fail? <==> handler !in old(mouseEventHandlers)[eventType]
      ensures outcome.Fail? ==> outcome.error == HandlerNotFound && mouseEventHandlers == old(mouseEventHandlers)
      ensures outcome.Pass? ==>
        mouseEventHandlers
          == old(mouseEventHandlers)[eventType := RemoveFirst(old(mouseEventHandlers)[eventType], handler).value]
    {
      var handlers := mouseEventHandlers[eventType];
      var index := FindIndex(handlers, handler);
      if index == -1 {
        return Fail(HandlerNotFound);
      }
      mouseEventHandlers := mouseEventHandlers[eventType := handlers[..index] + handlers[index + 1..]];
      outcome := Pass;
    }

    /** Scans the world's items in order and answers whether every one is fully loaded. */
    method IsFullyLoaded(items: seq<bool>) returns (loaded: bool)
      ensures loaded == AllFullyLoaded(items)
    {
      var count := |items|;
      for i := 0 to count
        invariant forall j :: 0 <= j < i ==> items[j]
      {
        if !items[i] {
          return false;
        }
      }
      return true;
    }

    /**
     Handles one fully-loaded-change event: rescans the world, stores the
     result, and reports whether the callback fires (the result differs
     from the stored flag).
     */
    method OnFullyLoadedChange(items: seq<bool>) returns (fired: bool)
      modifies this`fullyLoaded
      ensures fullyLoaded == AllFullyLoaded(items)
      ensures fired == Fires(old(fullyLoaded), items)
    {
      var newFullyLoaded := IsFullyLoaded(items);
      fired := false;
      if newFullyLoaded != fullyLoaded {
        fullyLoaded := newFullyLoaded;
        fired := true;
      }
    }

    /**
     The container element for the child with `key`: the one already stored
     under its overlay id, or else a new element with that id, which is
     stored.
     */
    method GetElement(key: ChildKey) returns (element: Element)
      requires ElementsValid()
      modifies this`elements
      ensures ElementsValid()
      ensures elements == old(elements)[OverlayId(key) := element]
      ensures OverlayId(key) in old(elements) ==> element == old(elements)[OverlayId(key)]
      ensures OverlayId(key) !in old(elements) ==> fresh(element) && element.id == OverlayId(key)
    {
      var id := OverlayId(key);
      if id in elements {
        return elements[id];
      }
      element := new Element();
      element.id := id;
      elements := elements[id := element];
    }

    /** Unmounting forgets every overlay element. */
    method ClearElements()
      modifies this`elements
      ensures elements == map[]
      ensures ElementsValid()
    {
      elements := map[];
    }

    /** Elements stored for children with different string keys are different elements. */
    lemma DistinctKeysDistinctElements(a: string, b: string)
      requires ElementsValid()
      requires OverlayId(Key(a)) in elements && OverlayId(Key(b)) in elements
      requires a != b
      ensures elements[OverlayId(Key(a))] != elements[OverlayId(Key(b))]
    {
      if elements[OverlayId(Key(a))] == elements[OverlayId(Key(b))] {
        OverlayIdInjective(a, b);
      }
    }
  }

  /** A caller's view of the contracts above: what a sequence of calls is known to do. */
  method HandlerClient(native: HandlerId, mine: HandlerId)
    requires native != mine
  {
    var tracker := new Tracker(Native(native), Unset, Native(native), Native(native));
    var viewer := new OpenSeadragon();
    viewer.InitializeMouseEventHandlers(tracker);
    assert viewer.mouseEventHandlers[Move] == [];

    // a consuming handler pushed on the click stack hides the native one
    viewer.AddMouseEventHandler(Click, mine);
    assert viewer.mouseEventHandlers[Click] == [native, mine];
    var respond := (h: HandlerId) => if h == mine then ReturnsOther else ReturnsFalse;
    var invoked := viewer.RunMouseEventHandlers(Click, respond);
    assert invoked == [1];

    // removing it restores the native behaviour; removing it twice fails
    var outcome := viewer.RemoveMouseEventHandler(Click, mine);
    RemoveUndoesAdd([native], mine);
    assert outcome == Pass && viewer.mouseEventHandlers[Click] == [native];
    outcome := viewer.RemoveMouseEventHandler(Click, mine);
    assert outcome == Fail(HandlerNotFound);
  }

  /** One element per key until unmount. */
  method OverlayClient(viewer: OpenSeadragon)
    requires viewer.ElementsValid()
    modifies viewer
  {
    var first := viewer.GetElement(Key("a"));
    var again := viewer.GetElement(Key("a"));
    assert again == first;
    var other := viewer.GetElement(Key("b"));
    viewer.DistinctKeysDistinctElements("a", "b");
    assert other != first;
    viewer.ClearElements();
    assert viewer.elements == map[];
  }

  /** Successive change events on one component fire the callback as `Firings` says. */
  method FullyLoadedClient(first: seq<bool>, second: seq<bool>)
  {
    var viewer := new OpenSeadragon();
    var fired1 := viewer.OnFullyLoadedChange(first);
    var fired2 := viewer.OnFullyLoadedChange(second);
    assert [first, second][1..] == [second];
    assert [second][1..] == [];
    assert [fired1, fired2] == Firings(false, [first, second]);
  }
}
