/**
 The worker and its consumer together: whatever way their steps interleave, the
 events that come out of `next_event` are those of the session, in order.
 */
module RemoteSession {
  import opened Options
  import opened RemoteSpec
  import opened RemoteReplies
  import opened RemoteEvents
  import opened RemoteHandshake
  import RemoteWorker

  lemma StepExtendsEvents(w: Worker, token: Token, input: Select)
    ensures w.events <= Step(w, token, input).events
  {
  }

  predicate InOrder(heard: seq<Heard>, inputs: seq<Select>, returned: seq<AppEvent>) {
    var all, cause := Surfaced(Arrivals(heard, inputs)), CauseOfEnd(inputs);
    returned <= all || (cause.Some? && returned == all + [Disconnected(cause.value)])
  }

  class Session {
    const task: RemoteWorker.Task
    const reader: EventReader
    var running: bool
    var taken: nat
    ghost var inputs: seq<Select>

    ghost predicate Valid()
      reads this, task, reader
    {
      && task.State(running) == Run(inputs) && Taken(inputs) && taken == |inputs|
      && reader.Valid() && reader.published == Run(inputs).events && reader.closed == !running
    }

    /** A session that starts with the events of its handshake. */
    constructor (events: seq<AppEvent>)
      ensures Valid() && running && inputs == [] && fresh(task) && fresh(reader)
      ensures reader.handshake == events && reader.returned == []
    {
      task := new RemoteWorker.Task();
      reader := new EventReader(events);
      running, taken, inputs := true, 0, [];
    }

    /** The worker takes one input and sends what events it has for the consumer. */
    method Turn(input: Select)
      requires Valid() && running
      modifies this, task, reader
      ensures Valid() && inputs == old(inputs) + [input] && reader.returned == old(reader.returned)
    {
      ghost var before := Run(inputs);
      StepExtendsEvents(before, |inputs|, input);
      assert (inputs + [input])[..|inputs|] == inputs;
      var sent := |task.events|;
      var stop := Dispatch(input);
      assert task.State(!stop) == Step(before, |inputs|, input);
      Send(sent);
      running, taken := !stop, taken + 1;
      inputs := inputs + [input];
      if stop {
        reader.Close();
      }
    }

    method Dispatch(input: Select) returns (stop: bool)
      modifies task
      ensures task.State(!stop) == Step(old(task.State(true)), taken, input)
    {
      match input {
        case CommandsClosed => stop := true;
        case Asked(command, write, open) => stop := task.OnCommand(taken, command, write, open);
        case Arrived(message, write, open) => stop := task.OnMessage(message, write, open);
      }
    }

    /**
     What `next_event` has returned so far is a prefix of what the session's messages call for,
     those of the handshake first, with at most one disconnection behind them. It returns nothing
     only after the worker has gone and all of that has been returned, and waits only while the
     worker runs and nothing is left to return.
     */
    method NextEvent(ghost heard: seq<Heard>) returns (next: Poll<Option<AppEvent>>)
      requires Valid() && Listened(heard) && HandshakeRun(heard).phase.Connected?
      requires reader.handshake == HandshakeRun(heard).events
      modifies reader
      ensures Valid() && InOrder(heard, inputs, reader.returned)
      ensures next.Ready? && next.value.Some? ==> reader.returned == old(reader.returned) + [next.value.value]
      ensures !(next.Ready? && next.value.Some?) ==>
                && reader.returned == old(reader.returned) == HandshakeRun(heard).events + Run(inputs).events
                && next.Pending? == running == !Ended(inputs)
    {
      hide Run, HandshakeRun, Ended;
      EndsExactly(inputs);
      next := reader.NextEvent();
      EventOrder(heard, inputs, reader.returned);
    }

    /** Publishes the events from a position on. */
    method Send(from: nat)
      requires reader.Valid() && !reader.closed && from <= |task.events| && reader.published == task.events[..from]
      modifies reader`channel, reader`published
      ensures reader.Valid() && reader.published == task.events
    {
      for i := from to |task.events|
        invariant reader.Valid() && reader.published == task.events[..i]
      {
        reader.Publish(task.events[i]);
        assert task.events[..i + 1] == task.events[..i] + [task.events[i]];
      }
      assert task.events[..|task.events|] == task.events;
    }
  }
}
