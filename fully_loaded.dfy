/**
 The fully-loaded detector of the viewer component, as values.

 The world is the viewer's list of tiled images; each item is represented by
 the answer its `getFullyLoaded()` gives at the moment of the scan. The
 component keeps one stored flag and, on every fully-loaded-change event of
 any item, rescans the world and fires its callback when the scan disagrees
 with the flag, in either direction.
 */
module FullyLoaded {

  /** Every item of the world reports fully loaded (vacuously so for an empty world). */
  predicate AllFullyLoaded(items: seq<bool>) {
    forall i :: 0 <= i < |items| ==> items[i]
  }

  /** Whether one change event fires the callback, the stored flag being `flag`. */
  predicate Fires(flag: bool, items: seq<bool>) {
    AllFullyLoaded(items) != flag
  }

  /** The scan result for each of a succession of world states. */
  function Levels(worlds: seq<seq<bool>>): seq<bool> {
    seq(|worlds|, k requires 0 <= k < |worlds| => AllFullyLoaded(worlds[k]))
  }

  /**
   Whether each of a succession of change events fires the callback, the
   stored flag starting at `flag` and being updated after every event.
   */
  function Firings(flag: bool, worlds: seq<seq<bool>>): (r: seq<bool>)
    ensures |r| == |worlds|
    decreases |worlds|
  {
    if worlds == [] then []
    else [Fires(flag, worlds[0])] + Firings(AllFullyLoaded(worlds[0]), worlds[1..])
  }

  /** The number of places where a sequence of flags changes value from one entry to the next. */
  function Edges(levels: seq<bool>): nat {
    if |levels| < 2 then 0
    else (if levels[0] != levels[1] then 1 else 0) + Edges(levels[1..])
  }

  function CountTrue(s: seq<bool>): nat {
    if s == [] then 0 else (if s[0] then 1 else 0) + CountTrue(s[1..])
  }

  /**
   The callback fires on the k-th event exactly when the scan result differs
   from the previous one (the initial flag standing before the first event):
   it is edge-triggered, on rising and on falling edges alike.
   */
  lemma {:induction false} FiringsAreEdges(flag: bool, worlds: seq<seq<bool>>)
    ensures |Firings(flag, worlds)| == |worlds|
    ensures forall k :: 0 <= k < |worlds| ==>
      (Firings(flag, worlds)[k] <==> ([flag] + Levels(worlds))[k] != Levels(worlds)[k])
    decreases |worlds|
  {
    if worlds != [] {
      var next := AllFullyLoaded(worlds[0]);
      FiringsAreEdges(next, worlds[1..]);
      assert Levels(worlds) == [next] + Levels(worlds[1..]);
    }
  }

  /** The callback fires exactly as many times as the scan result changes value. */
  lemma {:induction false} FiringCountIsEdgeCount(flag: bool, worlds: seq<seq<bool>>)
    ensures CountTrue(Firings(flag, worlds)) == Edges([flag] + Levels(worlds))
    decreases |worlds|
  {
    if worlds != [] {
      var next := AllFullyLoaded(worlds[0]);
      FiringCountIsEdgeCount(next, worlds[1..]);
      assert Levels(worlds) == [next] + Levels(worlds[1..]);
      assert ([flag] + Levels(worlds))[1..] == [next] + Levels(worlds[1..]);
    }
  }

  /** A second event with the world unchanged never fires the callback. */
  lemma {:induction false} RepeatedEventIsQuiet(flag: bool, items: seq<bool>)
    ensures Firings(flag, [items, items]) == [Fires(flag, items), false]
  {
    var next := AllFullyLoaded(items);
    assert [items, items][1..] == [items];
    assert [items][1..] == [];
    assert Firings(next, [items]) == [false];
  }

  /**
   Two items: A loads, B loads, B drops back and loads again. The callback
   fires when B first loads, again when B drops back, and again when it
   reloads.
   */
  lemma TwoItemScenario()
    ensures Firings(false, [[true, false], [true, true], [true, false], [true, true]])
         == [false, true, true, true]
  {
    var worlds := [[true, false], [true, true], [true, false], [true, true]];
    assert !worlds[0][1] && !worlds[2][1];
    assert worlds[1..] == [[true, true], [true, false], [true, true]];
    assert worlds[2..] == [[true, false], [true, true]];
    assert worlds[3..] == [[true, true]];
  }
}
