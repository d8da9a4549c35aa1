/** The helper's side of the line: Bridge of src-tauri/src/help_link.rs. Each method is one stretch that
    runs without another in between: a lock is held, or a counter is bumped. */
module HelpLink {
  import opened Wrappers
  import opened BridgeSteps

  /** What an answer says went wrong, if that can be read. */
  datatype ErrorField = Readable(error: RpcError) | Garbled

  /** A frame from the other end, as far as it parses. */
  datatype Frame = Frame(
    id: Option<CallId>,
    ok: Option<Value>,
    error: Option<ErrorField>,
    event: Option<string>,
    payload: Option<Value>)

  datatype RemoteEvent = RemoteEvent(name: string, payload: Value)

  const NULL: Value := "null"

  /** The answer a frame carries, none if it is not one. */
  function AnswerIn(frame: Frame): Option<Answer> {
    if frame.id.None? then None
    else if frame.ok.Some? then Some(Ok(frame.ok.value))
    else if frame.error.Some? then
      Some(Err(if frame.error.value.Readable? then frame.error.value.error else Unreadable))
    else None
  }

  /** A value wins over an error, and an error that cannot be read is one as well; no other frame answers. */
  lemma WhatAnswers(frame: Frame, value: Value, error: RpcError)
    ensures AnswerIn(frame).None? <==> frame.id.None? || (frame.ok.None? && frame.error.None?)
    ensures AnswerIn(frame) == Some(Ok(value)) <==> frame.id.Some? && frame.ok == Some(value)
    ensures AnswerIn(frame) == Some(Err(error)) <==>
      && frame.id.Some? && frame.ok.None?
      && (frame.error == Some(Readable(error)) || (frame.error == Some(Garbled) && error == Unreadable))
  {
  }

  class Bridge {
    var nextId: CallId
    var pending: set<CallId>
    /** The calls, each with its end of its channel. */
    var calls: map<CallId, Call>

    ghost function View(): State
      reads this
    {
      State(nextId, pending, calls)
    }

    constructor ()
      ensures View() == FRESH
    {
      nextId, pending, calls := 1, {}, map[];
    }

    method TakeNumber() returns (id: CallId)
      modifies this
      ensures View() == Next(old(View()), BridgeSteps.TakeNumber) && id == old(nextId)
    {
      id := nextId;
      nextId := nextId + 1;
      calls := calls[id := Call(Numbered, Open)];
    }

    method Insert(id: CallId)
      requires Enabled(View(), BridgeSteps.Insert(id))
      modifies this
      ensures View() == Next(old(View()), BridgeSteps.Insert(id))
    {
      pending := pending + {id};
      calls := calls[id := calls[id].(stage := Sending)];
    }

    /** The entry of `id` goes, and with it the sending end of the channel. */
    method Remove(id: CallId)
      modifies this
      ensures View() == Settled(old(View()), id, Closed)
    {
      if id in pending && id in calls {
        pending := pending - {id};
        calls := calls[id := calls[id].(channel := Closed)];
      }
    }

    method FrameSent(id: CallId, sent: bool) returns (result: Option<Answer>)
      requires Enabled(View(), SendFrame(id, sent))
      modifies this
      ensures View() == Next(old(View()), SendFrame(id, sent))
      ensures result == if sent then None else Some(Err(Ended))
    {
      if sent {
        calls := calls[id := calls[id].(stage := Awaiting)];
        return None;
      }
      Remove(id);
      calls := calls[id := calls[id].(stage := Returned(Err(Ended)))];
      return Some(Err(Ended));
    }

    /** The wait is over: the channel is settled, or the time is up. */
    method Waited(id: CallId, timeUp: bool) returns (result: Option<Answer>)
      requires Enabled(View(), if timeUp then TimeOut(id) else Wake(id))
      modifies this
      ensures View() == Next(old(View()), if timeUp then TimeOut(id) else Wake(id))
      ensures result.Some? <==> !timeUp
      ensures result.Some? ==> At(View(), id, Returned(result.value))
    {
      if timeUp {
        calls := calls[id := calls[id].(stage := TimedOut)];
        return None;
      }
      var answer := match calls[id].channel case Answered(a) => a case _ => Err(Ended);
      calls := calls[id := calls[id].(stage := Returned(answer))];
      return Some(answer);
    }

    method ForgetTimedOut(id: CallId) returns (result: Answer)
      requires Enabled(View(), Forget(id))
      modifies this
      ensures View() == Next(old(View()), Forget(id)) && At(View(), id, Returned(result))
    {
      Remove(id);
      calls := calls[id := calls[id].(stage := Returned(Err(NotAnswered)))];
      return Err(NotAnswered);
    }

    /** An answer settles the call it answers, an event is handed on, and anything else is nothing to act
        on. */
    method Receive(frame: Frame) returns (event: Option<RemoteEvent>)
      modifies this
      ensures View() == match AnswerIn(frame)
        case Some(answer) => Next(old(View()), BridgeSteps.Receive(frame.id.value, answer))
        case None => old(View())
      ensures event.Some? <==> frame.id.None? && frame.event.Some?
      ensures event.Some? ==>
        event.value == RemoteEvent(frame.event.value, if frame.payload.Some? then frame.payload.value else NULL)
    {
      match frame.id {
        case Some(id) =>
          var result;
          match (frame.ok, frame.error) {
            case (Some(value), _) => result := Ok(value);
            case (None, Some(Readable(error))) => result := Err(error);
            case (None, Some(Garbled)) => result := Err(Unreadable);
            case (None, None) => return None;
          }
          if id in pending && id in calls {
            pending := pending - {id};
            calls := calls[id := calls[id].(channel := Answered(result))];
          }
          return None;
        case None =>
          match frame.event
          case None => return None;
          case Some(name) =>
            return Some(RemoteEvent(name, if frame.payload.Some? then frame.payload.value else NULL));
      }
    }

    method Close()
      modifies this
      ensures View() == Next(old(View()), BridgeSteps.Close)
    {
      calls := map id | id in calls :: if id in pending then calls[id].(channel := Closed) else calls[id];
      pending := {};
    }
  }
}
