/**
 The mouse-event handler stacks of the viewer component, as values.

 There is one stack per event type. A handler is known only by its identity,
 so it is represented by an id and two handlers are the same handler exactly
 when their ids are equal. What a handler returns for one event is reduced to
 the one distinction dispatch looks at: exactly `false`, or anything else.
 */
module MouseEvents {

  datatype EventType = Click | Move | Drag | DragEnd

  const AllEventTypes: set<EventType> := {Click, Move, Drag, DragEnd}

  type HandlerId = nat

  /** What one handler returned for one event. Anything but `false` consumes the event. */
  datatype HandlerResult = ReturnsFalse | ReturnsOther

  datatype Option<T> = None | Some(value: T)

  /** Result of a removal: the stack is left alone and an error is raised when the handler is absent. */
  datatype Outcome = Pass | Fail(error: string)

  const HandlerNotFound := "Unable to remove the mouse event handler, not found in the stack"

  /** Index of the first entry identical to `h`, or -1 when there is none (`findIndex` with `===`). */
  function FindIndex(stack: seq<HandlerId>, h: HandlerId): (i: int)
    ensures -1 <= i < |stack|
    ensures i == -1 <==> h !in stack
    ensures 0 <= i ==> stack[i] == h && h !in stack[..i]
  {
    if stack == [] then -1
    else if stack[0] == h then 0
    else
      var j := FindIndex(stack[1..], h);
      if j == -1 then -1
      else
        assert stack[..j + 1] == [stack[0]] + stack[1..][..j];
        j + 1
  }

  /**
   The stack after removing the first entry identical to `h` (a one-element
   `splice` at that entry), or None when `h` is not in the stack.
   */
  function RemoveFirst(stack: seq<HandlerId>, h: HandlerId): (r: Option<seq<HandlerId>>)
    ensures r.None? <==> h !in stack
    ensures r.Some? ==> |r.value| == |stack| - 1
    ensures r.Some? ==> multiset(r.value) + multiset{h} == multiset(stack)
    ensures r.Some? ==>
      var i := FindIndex(stack, h);
      // the entries before the first `h` stay in place, those after it move down by one
      && (forall j :: 0 <= j < i ==> r.value[j] == stack[j])
      && (forall j :: i <= j < |r.value| ==> r.value[j] == stack[j + 1])
  {
    var i := FindIndex(stack, h);
    if i == -1 then None
    else
      assert stack == stack[..i] + [stack[i]] + stack[i + 1..];
      Some(stack[..i] + stack[i + 1..])
  }

  /**
   The indices of the handlers one dispatch invokes, in the order it invokes
   them: from the newest entry towards the oldest, stopping right after the
   first handler whose result is not exactly `false`.
   */
  function Invoked(stack: seq<HandlerId>, respond: HandlerId -> HandlerResult): (r: seq<nat>)
    ensures |r| <= |stack|
    ensures stack != [] ==> r != []
  {
    if stack == [] then []
    else
      var top := |stack| - 1;
      match respond(stack[top])
      case ReturnsFalse => [top] + Invoked(stack[..top], respond)
      case ReturnsOther => [top]
  }

  /**
   What one dispatch does: it tries the newest handler first and goes on in
   strictly decreasing index order, so the handlers it invokes form a suffix
   of the stack; every handler it passes returned exactly `false`; it stops
   short of the oldest entry only right after a handler that consumed the
   event; and when no handler consumes the event, every handler runs once.
   */
  lemma {:induction false} InvokedIsConsumingSuffix(stack: seq<HandlerId>, respond: HandlerId -> HandlerResult)
    ensures var r := Invoked(stack, respond);
      && |r| <= |stack|
      && (stack != [] ==> r != [])
      && (forall j :: 0 <= j < |r| ==> r[j] == |stack| - 1 - j)
      && (forall j :: 0 <= j < |r| - 1 ==> respond(stack[r[j]]) == ReturnsFalse)
      && (|r| < |stack| ==> respond(stack[r[|r| - 1]]) == ReturnsOther)
      && ((forall i :: 0 <= i < |stack| ==> respond(stack[i]) == ReturnsFalse) ==> |r| == |stack|)
  {
    if stack != [] {
      var top := |stack| - 1;
      var rest := stack[..top];
      InvokedIsConsumingSuffix(rest, respond);
      assert forall i :: 0 <= i < |rest| ==> rest[i] == stack[i];
    }
  }

  /** A handler pushed onto a stack is tried before every handler already there. */
  lemma NewestHandlerRunsFirst(stack: seq<HandlerId>, h: HandlerId, respond: HandlerId -> HandlerResult)
    ensures Invoked(stack + [h], respond)
         == [|stack|] + (if respond(h) == ReturnsFalse then Invoked(stack, respond) else [])
  {
    assert (stack + [h])[..|stack|] == stack;
  }

  /** Pushing a handler that was not on the stack and then removing it gives back the stack. */
  lemma RemoveUndoesAdd(stack: seq<HandlerId>, h: HandlerId)
    requires h !in stack
    ensures RemoveFirst(stack + [h], h) == Some(stack)
  {
    var s := stack + [h];
    var i := FindIndex(s, h);
    assert i == |stack|;
    assert s[..i] + s[i + 1..] == stack;
  }

  /** Removing a handler already on the stack leaves the entries pushed after it untouched. */
  lemma RemoveIgnoresLaterPushes(stack: seq<HandlerId>, h: HandlerId, g: HandlerId)
    requires h in stack
    ensures RemoveFirst(stack + [g], h) == Some(RemoveFirst(stack, h).value + [g])
  {
    var s := stack + [g];
    var i := FindIndex(stack, h);
    assert s[..i] == stack[..i];
    assert s[i] == h;
    assert FindIndex(s, h) == i;
    assert s[i + 1..] == stack[i + 1..] + [g];
    assert s[..i] + s[i + 1..] == (stack[..i] + stack[i + 1..]) + [g];
  }
}
