/**
 Events and writes of the remote worker: server notifications and requests
 surface in arrival order, unknown requests are answered, and a disconnection is
 reported at most once, last, and with the cause that lost requests receive.
 */
module RemoteEvents {
  import opened Options
  import opened RemoteSpec
  import opened RemoteReplies
  import opened Sequences

  // ---------------------------------------------------- what messages call for

  /** The event a message surfaces as: recognised notifications and requests only. */
  function SurfacedBy(m: Incoming): seq<AppEvent> {
    match m
    case Notification(payload, true) => [ServerNotification(payload)]
    case Request(id, name, true) => [ServerRequest(id, name)]
    case _ => []
  }

  /** The answer an unknown server request gets. */
  function RejectedBy(m: Incoming): seq<Wire> {
    if m.Request? && !m.recognised then [WireUnsupported(m.id, m.name)] else []
  }

  function Surfaced(ms: seq<Incoming>): seq<AppEvent> {
    if ms == [] then [] else Surfaced(ms[..|ms| - 1]) + SurfacedBy(ms[|ms| - 1])
  }

  function Rejected(ms: seq<Incoming>): seq<Wire> {
    if ms == [] then [] else Rejected(ms[..|ms| - 1]) + RejectedBy(ms[|ms| - 1])
  }

  lemma MessageSnoc(ms: seq<Incoming>, m: Incoming)
    ensures Surfaced(ms + [m]) == Surfaced(ms) + SurfacedBy(m) && Rejected(ms + [m]) == Rejected(ms) + RejectedBy(m)
  {
    assert (ms + [m])[..|ms|] == ms;
  }

  lemma NothingSurfaced()
    ensures Surfaced([]) == [] && Rejected([]) == []
  {
  }

  lemma {:induction false} SurfacedAppend(a: seq<Incoming>, b: seq<Incoming>)
    ensures Surfaced(a + b) == Surfaced(a) + Surfaced(b)
    ensures Rejected(a + b) == Rejected(a) + Rejected(b)
  {
    hide SurfacedBy, RejectedBy, Surfaced, Rejected;
    if b == [] {
      NothingSurfaced();
      assert a + b == a;
    } else {
      var front, last := b[..|b| - 1], b[|b| - 1];
      assert b == front + [last] && a + b == (a + front) + [last];
      SurfacedAppend(a, front);
      MessageSnoc(front, last);
      MessageSnoc(a + front, last);
    }
  }

  predicate IsRequest(m: Incoming) { m.Request? }
  predicate IsRequestEvent(e: AppEvent) { e.ServerRequest? }
  predicate IsUnsupported(wire: Wire) { wire.WireUnsupported? }

  lemma MessageSplit(m: Incoming)
    ensures Count(IsRequestEvent, SurfacedBy(m)) + |RejectedBy(m)| == if IsRequest(m) then 1 else 0
  {
    if SurfacedBy(m) != [] {
      assert SurfacedBy(m) == [SurfacedBy(m)[0]];
      CountOne(IsRequestEvent, SurfacedBy(m)[0]);
    }
  }

  lemma {:induction false} RequestsSplit(ms: seq<Incoming>)
    ensures Count(IsRequest, ms) == Count(IsRequestEvent, Surfaced(ms)) + |Rejected(ms)|
  {
    hide SurfacedBy, RejectedBy, IsRequest, IsRequestEvent;
    if ms != [] {
      var front, last := ms[..|ms| - 1], ms[|ms| - 1];
      RequestsSplit(front);
      MessageSplit(last);
      CountAppend(IsRequestEvent, Surfaced(front), SurfacedBy(last));
    }
  }

  // ------------------------------------------------------------------ events

  /** The messages among the worker's inputs. */
  function Messages(inputs: seq<Select>): seq<Incoming> {
    if inputs == [] then []
    else
      var last := inputs[|inputs| - 1];
      Messages(inputs[..|inputs| - 1]) + if last.Arrived? then [last.message] else []
  }

  lemma SurfacedSnoc(inputs: seq<Select>, last: Select)
    ensures Surfaced(Messages(inputs + [last]))
         == Surfaced(Messages(inputs)) + if last.Arrived? then SurfacedBy(last.message) else []
    ensures Rejected(Messages(inputs + [last]))
         == Rejected(Messages(inputs)) + if last.Arrived? then RejectedBy(last.message) else []
  {
    hide SurfacedBy, RejectedBy;
    assert (inputs + [last])[..|inputs|] == inputs;
    if last.Arrived? {
      SurfacedAppend(Messages(inputs), [last.message]);
      assert [last.message][..0] == [];
      assert Surfaced([last.message]) == SurfacedBy(last.message);
      assert Rejected([last.message]) == RejectedBy(last.message);
    } else {
      assert Messages(inputs + [last]) == Messages(inputs);
    }
  }

  /** The disconnection that ends the events, if somebody can still receive it. */
  function Farewell(inputs: seq<Select>): seq<AppEvent> {
    var cause := CauseOfEnd(inputs);
    if cause.Some? && inputs[|inputs| - 1].open then [Disconnected(cause.value)] else []
  }

  /** The inputs that were dealt with in full: all but the one that ended the worker. */
  function Handled(inputs: seq<Select>): seq<Select> {
    if Ended(inputs) then inputs[..|inputs| - 1] else inputs
  }

  lemma StepEvents(w: Worker, token: Token, input: Select)
    requires w.running && w.exitError.None?
    ensures var after := Step(w, token, input);
            after.events == w.events
                            + if after.running then (if input.Arrived? then SurfacedBy(input.message) else [])
                              else if after.exitError.Some? && input.open then [Disconnected(after.exitError.value)]
                              else []
  {
  }

  lemma StillRunning(front: seq<Select>, last: Select)
    requires Taken(front + [last])
    ensures Taken(front) && Run(front).running && Run(front).exitError.None?
    ensures Run(front + [last]) == Step(Run(front), |front|, last)
    ensures Handled(front) == front && Farewell(front) == []
  {
    hide Step, EndedBy;
    assert (front + [last])[..|front|] == front;
    EndsExactly(front);
  }

  lemma NextEvents(front: seq<Select>, last: Select)
    requires Taken(front + [last]) && Run(front).events == Surfaced(Messages(front))
    ensures var inputs := front + [last];
            Run(inputs).events == Surfaced(Messages(Handled(inputs))) + Farewell(inputs)
  {
    hide Step, SurfacedBy, Run, Messages, Surfaced, Ended, EndedBy;
    var inputs := front + [last];
    StillRunning(front, last);
    EndsExactly(inputs);
    StepEvents(Run(front), |front|, last);
    SurfacedSnoc(front, last);
    assert inputs[..|front|] == front && inputs[|front|] == last;
  }

  /**
   The worker's events are the recognised notifications and requests in arrival order, up to the
   input that ended it; a disconnection follows exactly when that input calls for one and
   somebody listens.
   */
  lemma {:induction false} EventsRefineTrace(inputs: seq<Select>)
    requires Taken(inputs)
    ensures Run(inputs).events == Surfaced(Messages(Handled(inputs))) + Farewell(inputs)
  {
    if inputs != [] {
      hide Step, Run, Messages, Surfaced, Ended, CauseOfEnd, Handled, Farewell;
      var front, last := inputs[..|inputs| - 1], inputs[|inputs| - 1];
      assert inputs == front + [last];
      StillRunning(front, last);
      EventsRefineTrace(front);
      assert Surfaced(Messages(front)) + [] == Surfaced(Messages(front));
      NextEvents(front, last);
    }
  }

  lemma {:induction false} SurfacedNeverDisconnects(ms: seq<Incoming>)
    ensures forall i :: 0 <= i < |Surfaced(ms)| ==> !Surfaced(ms)[i].Disconnected?
  {
    if ms != [] {
      SurfacedNeverDisconnects(ms[..|ms| - 1]);
    }
  }

  /** At most one disconnection, in last place, naming the error that every drained request receives. */
  lemma OneDisconnection(inputs: seq<Select>)
    requires Taken(inputs)
    ensures var w := Run(inputs);
            forall i :: 0 <= i < |w.events| && w.events[i].Disconnected? ==>
              && i == |w.events| - 1 && !w.running
              && w.exitError == Some(w.events[i].cause)
              && DrainReply(w) == Lost(KindOf(w.events[i].cause), Some(w.events[i].cause))
  {
    hide Run, Surfaced, Messages, EndedBy;
    EventsRefineTrace(inputs);
    EndsExactly(inputs);
    SurfacedNeverDisconnects(Messages(Handled(inputs)));
  }

  // ------------------------------------------------------------------ writes

  /** The message that carries a command. */
  function WireFor(command: Command, token: Token): (wire: Wire)
    requires !command.Shutdown?
    ensures Some(wire) == WireOf(command, token)
  {
    if command.Send? then WireRequest(command.id, token)
    else if command.Notify? then WireNotification(command.payload)
    else if command.Resolve? then WireResult(command.requestId, command.result)
    else WireError(command.requestId, command.error)
  }

  /** What an input puts on the wire, read off the stream. */
  function SentBy(inputs: seq<Select>, input: Select): seq<Wire> {
    match input
    case CommandsClosed => []
    case Asked(command, write, _) =>
      if write.Failed? || command.Shutdown? then []
      else if command.Send? && Outstanding(inputs, command.id).Some? then []
      else [WireFor(command, |inputs|)]
    case Arrived(message, write, _) => if write.Failed? then [] else RejectedBy(message)
  }

  function Sent(inputs: seq<Select>): seq<Wire> {
    if inputs == [] then []
    else Sent(inputs[..|inputs| - 1]) + SentBy(inputs[..|inputs| - 1], inputs[|inputs| - 1])
  }

  lemma CommandWrites(w: Worker, token: Token, command: Command, write: WriteOutcome, open: bool)
    ensures OnCommand(w, token, command, write, open).written
         == w.written
            + if write.Failed? || command.Shutdown? || (command.Send? && command.id in w.pending) then []
              else [WireOf(command, token).value]
  {
    assert w.written + [] == w.written;
  }

  lemma MessageWrites(w: Worker, message: Incoming, write: WriteOutcome, open: bool)
    ensures OnMessage(w, message, write, open).written
         == w.written + if write.Failed? then [] else RejectedBy(message)
  {
    assert w.written + [] == w.written;
  }

  lemma StepWrites(inputs: seq<Select>, input: Select)
    ensures Step(Run(inputs), |inputs|, input).written == Run(inputs).written + SentBy(inputs, input)
  {
    hide Run, Outstanding, OnCommand, OnMessage, WireOf, RejectedBy;
    var w := Run(inputs);
    match input
    case CommandsClosed => assert w.written + [] == w.written;
    case Asked(command, write, open) =>
      CommandWrites(w, |inputs|, command, write, open);
      if command.Send? {
        PendingRefinesTrace(inputs, command.id);
      }
    case Arrived(message, write, open) => MessageWrites(w, message, write, open);
  }

  /** In every run exactly the messages the stream calls for have been written, in order. */
  lemma {:induction false} WritesRefineTrace(inputs: seq<Select>)
    ensures Run(inputs).written == Sent(inputs)
  {
    hide Step, SentBy;
    if inputs != [] {
      var front := inputs[..|inputs| - 1];
      WritesRefineTrace(front);
      StepWrites(front, inputs[|inputs| - 1]);
    }
  }

  lemma SentByUnsupported(inputs: seq<Select>, input: Select)
    ensures Filter(IsUnsupported, SentBy(inputs, input))
         == if input.Arrived? && input.write.Written? then RejectedBy(input.message) else []
  {
    hide Outstanding;
    if SentBy(inputs, input) != [] {
      assert SentBy(inputs, input) == [SentBy(inputs, input)[0]];
      FilterOne(IsUnsupported, SentBy(inputs, input)[0]);
    }
  }

  /** A step that leaves the worker running has written what its message calls for; one that ends it has not. */
  lemma StopsOnFailedReject(w: Worker, token: Token, input: Select)
    requires w.running
    ensures input.Arrived? && RejectedBy(input.message) != [] ==>
              (Step(w, token, input).running <==> input.write.Written?)
    ensures !Step(w, token, input).running && input.Arrived? && input.write.Written? ==> RejectedBy(input.message) == []
  {
  }

  lemma HandledReject(front: seq<Select>, last: Select)
    requires Taken(front + [last])
    ensures Rejected(Messages(Handled(front + [last])))
         == Rejected(Messages(front)) + Filter(IsUnsupported, SentBy(front, last))
  {
    hide Step, SentBy, RejectedBy, IsUnsupported, Messages, Rejected, EndedBy;
    var inputs := front + [last];
    assert inputs[..|front|] == front;
    assert Run(inputs) == Step(Run(front), |front|, last);
    EndsExactly(inputs);
    hide Run;
    StopsOnFailedReject(Run(front), |front|, last);
    SentByUnsupported(front, last);
    SurfacedSnoc(front, last);
    assert Rejected(Messages(front)) + [] == Rejected(Messages(front));
  }

  /** Exactly the unknown requests are answered as unsupported, each once and in order. */
  lemma {:induction false} UnsupportedRefinesTrace(inputs: seq<Select>)
    requires Taken(inputs)
    ensures Filter(IsUnsupported, Run(inputs).written) == Rejected(Messages(Handled(inputs)))
  {
    hide Step, SentBy, IsUnsupported, Messages, Rejected;
    if inputs == [] {
      NoRejects();
    } else {
      var front, last := inputs[..|inputs| - 1], inputs[|inputs| - 1];
      UnsupportedRefinesTrace(front);
      EndsExactly(front);
      StepWrites(front, last);
      FilterAppend(IsUnsupported, Run(front).written, SentBy(front, last));
      HandledReject(front, last);
      assert inputs == front + [last];
    }
  }

  lemma NoRejects()
    ensures Rejected(Messages([])) == []
  {
  }

  lemma FarewellIsNoRequest(inputs: seq<Select>)
    ensures Count(IsRequestEvent, Farewell(inputs)) == 0
  {
    CountNone(IsRequestEvent, Farewell(inputs));
  }

  /**
   In every run each server request that the worker dealt with in full was either surfaced or
   answered as unsupported: the events and the answers together are as many as the requests.
   */
  lemma RequestsAccounted(inputs: seq<Select>)
    requires Taken(inputs)
    ensures Count(IsRequest, Messages(Handled(inputs)))
         == Count(IsRequestEvent, Run(inputs).events) + |Filter(IsUnsupported, Run(inputs).written)|
  {
    hide Run, Messages, Surfaced, Rejected, IsRequestEvent, IsUnsupported, IsRequest, Farewell, Handled;
    EventsRefineTrace(inputs);
    UnsupportedRefinesTrace(inputs);
    RequestsSplit(Messages(Handled(inputs)));
    CountAppend(IsRequestEvent, Surfaced(Messages(Handled(inputs))), Farewell(inputs));
    FarewellIsNoRequest(inputs);
  }
}
