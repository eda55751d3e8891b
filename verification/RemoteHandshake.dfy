/**
 The initialize handshake that precedes the worker, and the event order that a
 consumer of `next_event` sees across the two.
 */
module RemoteHandshake {
  import opened Options
  import opened Protocol
  import opened RemoteSpec
  import opened RemoteReplies
  import opened RemoteEvents

  const INITIALIZE_ID := StringId("initialize")

  datatype Refusal =
    | Unreadable(detail: string)
    | Refused(error: string)
    | NotWritten(detail: string)
    | ClosedEarly(reason: string)
    | TransportLost(detail: string)
    | GoneEarly
    | TimedOut

  /** One turn of the handshake's loop: a message and the outcome of the write it may cause, or the deadline. */
  datatype Heard = Got(message: Incoming, write: WriteOutcome) | Deadline

  datatype Phase = Waiting | Connected | Failing(refusal: Refusal)

  datatype Handshake = Handshake(phase: Phase, events: seq<AppEvent>, written: seq<Wire>)

  function HandshakeStep(h: Handshake, heard: Heard): Handshake {
    match heard
    case Deadline => h.(phase := Failing(TimedOut))
    case Got(message, write) =>
      match message
      case Response(id, _) => if id == INITIALIZE_ID then h.(phase := Connected) else h
      case Error(id, error) => if id == INITIALIZE_ID then h.(phase := Failing(Refused(error))) else h
      case Notification(payload, recognised) =>
        if recognised then h.(events := h.events + [ServerNotification(payload)]) else h
      case Request(id, name, recognised) =>
        if recognised then h.(events := h.events + [ServerRequest(id, name)])
        else if write.Written? then h.(written := h.written + [WireUnsupported(id, name)])
        else h.(phase := Failing(NotWritten(write.detail)))
      case Invalid(detail) => h.(phase := Failing(Unreadable(detail)))
      case Close(reason) => h.(phase := Failing(ClosedEarly(EarlyReason(reason))))
      case Ignored => h
      case TransportError(detail) => h.(phase := Failing(TransportLost(detail)))
      case EndOfStream => h.(phase := Failing(GoneEarly))
  }

  function EarlyReason(reason: Option<string>): string {
    if reason.Some? && reason.value != "" then reason.value else "connection closed during initialize"
  }

  const STARTED := Handshake(Waiting, [], [])

  function HandshakeRun(heard: seq<Heard>): Handshake {
    if heard == [] then STARTED else HandshakeStep(HandshakeRun(heard[..|heard| - 1]), heard[|heard| - 1])
  }

  /** The loop was still waiting before each of these. */
  predicate Listened(heard: seq<Heard>) {
    heard == [] || (Listened(heard[..|heard| - 1]) && HandshakeRun(heard[..|heard| - 1]).phase.Waiting?)
  }

  function HeardMessages(heard: seq<Heard>): seq<Incoming> {
    if heard == [] then []
    else
      var last := heard[|heard| - 1];
      HeardMessages(heard[..|heard| - 1]) + if last.Got? then [last.message] else []
  }

  lemma StepHears(h: Handshake, heard: Heard)
    requires h.phase.Waiting?
    ensures var after := HandshakeStep(h, heard);
            !after.phase.Failing? ==>
              && heard.Got?
              && after.events == h.events + SurfacedBy(heard.message)
              && after.written == h.written + RejectedBy(heard.message)
              && (after.phase.Connected? <==> heard.message.Response? && heard.message.id == INITIALIZE_ID)
  {
  }

  /** What the handshake is decided to be by what it has heard, if it is. */
  function Decision(heard: Heard): Phase {
    if heard.Deadline? then Failing(TimedOut)
    else
      var m := heard.message;
      if (m.Response? || m.Error?) && m.id != INITIALIZE_ID then Waiting
      else if m.Response? then Connected
      else if m.Error? then Failing(Refused(m.error))
      else if m.Request? && !m.recognised && heard.write.Failed? then Failing(NotWritten(heard.write.detail))
      else if m.Invalid? then Failing(Unreadable(m.detail))
      else if m.TransportError? then Failing(TransportLost(m.detail))
      else if m.EndOfStream? then Failing(GoneEarly)
      else if m.Close? then
        Failing(ClosedEarly(
                  if m.reason in {None, Some("")} then "connection closed during initialize" else m.reason.value))
      else Waiting
  }

  /** The handshake goes on until the first message that decides it, and comes to what that one calls for. */
  lemma {:induction false} HandshakeDecided(heard: seq<Heard>)
    ensures Listened(heard) <==> forall i :: 0 <= i < |heard| - 1 ==> Decision(heard[i]).Waiting?
    ensures Listened(heard) ==>
              HandshakeRun(heard).phase == if heard == [] then Waiting else Decision(heard[|heard| - 1])
  {
    if heard != [] {
      var front, last := heard[..|heard| - 1], heard[|heard| - 1];
      HandshakeDecided(front);
      assert forall i :: 0 <= i < |front| ==> front[i] == heard[i];
      if HandshakeRun(front).phase.Waiting? {
        StepDecides(HandshakeRun(front), last);
      }
      hide HandshakeStep, Decision;
    }
  }

  lemma StepDecides(h: Handshake, heard: Heard)
    requires h.phase.Waiting?
    ensures HandshakeStep(h, heard).phase == Decision(heard)
  {
  }

  /** As long as it does not fail, the handshake keeps every event and answers every unknown request. */
  lemma {:induction false} HandshakeKeepsEvents(heard: seq<Heard>)
    requires Listened(heard) && !HandshakeRun(heard).phase.Failing?
    ensures HandshakeRun(heard).events == Surfaced(HeardMessages(heard))
    ensures HandshakeRun(heard).written == Rejected(HeardMessages(heard))
    ensures HandshakeRun(heard).phase.Connected? ==>
              heard != [] && heard[|heard| - 1].Got? && heard[|heard| - 1].message.Response?
              && heard[|heard| - 1].message.id == INITIALIZE_ID
  {
    hide HandshakeStep, SurfacedBy, RejectedBy;
    if heard != [] {
      var front, last := heard[..|heard| - 1], heard[|heard| - 1];
      HandshakeKeepsEvents(front);
      StepHears(HandshakeRun(front), last);
      SurfacedAppend(HeardMessages(front), [last.message]);
      OneMessage(last.message);
    }
  }

  lemma OneMessage(m: Incoming)
    ensures Surfaced([m]) == SurfacedBy(m) && Rejected([m]) == RejectedBy(m)
  {
    hide SurfacedBy, RejectedBy;
    assert [m][..0] == [];
    assert Surfaced([m][..0]) == [] && Rejected([m][..0]) == [];
  }

  /** The handshake as the source runs it. */
  method InitializeRemoteConnection(first: WriteOutcome, heard: seq<Heard>, final: WriteOutcome)
      returns (phase: Phase, events: seq<AppEvent>, written: seq<Wire>, taken: nat)
    ensures taken <= |heard| && Listened(heard[..taken])
    ensures first.Failed? ==> phase == Failing(NotWritten(first.detail))
    ensures first.Written? ==>
              var h := HandshakeRun(heard[..taken]);
              && events == h.events && written == h.written
              && (h.phase.Waiting? ==> taken == |heard|)
              && phase == if h.phase.Connected? && final.Failed? then Failing(NotWritten(final.detail)) else h.phase
  {
    phase, events, written, taken := Waiting, [], [], 0;
    if first.Failed? {
      phase := Failing(NotWritten(first.detail));
      return;
    }
    assert heard[..0] == [];
    while taken < |heard| && phase.Waiting?
      invariant taken <= |heard| && Listened(heard[..taken])
      invariant HandshakeRun(heard[..taken]) == Handshake(phase, events, written)
      decreases |heard| - taken
    {
      assert heard[..taken + 1][..taken] == heard[..taken];
      match heard[taken] {
        case Deadline => phase := Failing(TimedOut);
        case Got(message, write) =>
          match message {
            case Response(id, _) =>
              if id == INITIALIZE_ID {
                phase := Connected;
              }
            case Error(id, error) =>
              if id == INITIALIZE_ID {
                phase := Failing(Refused(error));
              }
            case Notification(payload, recognised) =>
              if recognised {
                events := events + [ServerNotification(payload)];
              }
            case Request(id, name, recognised) =>
              if recognised {
                events := events + [ServerRequest(id, name)];
              } else if write.Written? {
                written := written + [WireUnsupported(id, name)];
              } else {
                phase := Failing(NotWritten(write.detail));
              }
            case Invalid(detail) => phase := Failing(Unreadable(detail));
            case Close(reason) => phase := Failing(ClosedEarly(EarlyReason(reason)));
            case Ignored =>
            case TransportError(detail) => phase := Failing(TransportLost(detail));
            case EndOfStream => phase := Failing(GoneEarly);
          }
      }
      taken := taken + 1;
    }
    if phase.Connected? && final.Failed? {
      phase := Failing(NotWritten(final.detail));
    }
  }

  // ------------------------------------------------------------ event order

  /** What a call that may have to wait has come to. */
  datatype Poll<T> = Ready(value: T) | Pending

  /** The consumer's side: the events of the handshake, then those the worker sends. */
  class EventReader {
    var pendingEvents: seq<AppEvent>
    var channel: seq<AppEvent>
    var closed: bool  // the worker has dropped its end of the channel
    ghost const handshake: seq<AppEvent>
    ghost var published: seq<AppEvent>
    ghost var returned: seq<AppEvent>

    ghost predicate Valid()
      reads this
    {
      returned + pendingEvents + channel == handshake + published
    }

    constructor (events: seq<AppEvent>)
      ensures Valid() && handshake == events && published == [] && returned == [] && !closed
    {
      pendingEvents, channel, closed := events, [], false;
      handshake, published, returned := events, [], [];
    }

    /** The worker's `event_tx.send`. */
    method Publish(e: AppEvent)
      requires Valid() && !closed
      modifies this`channel, this`published
      ensures Valid() && published == old(published) + [e]
    {
      channel := channel + [e];
      published := published + [e];
      assert returned + pendingEvents + channel == old(returned + pendingEvents + channel) + [e];
    }

    /** The worker's end of the channel goes away. */
    method Close()
      requires Valid()
      modifies this`closed
      ensures Valid() && closed
    {
      closed := true;
    }

    /** The next event, waiting while there may be one; none once the worker has gone and everything has been read. */
    method NextEvent() returns (next: Poll<Option<AppEvent>>)
      requires Valid()
      modifies this`pendingEvents, this`channel, this`returned
      ensures Valid()
      ensures next.Ready? && next.value.Some? ==> returned == old(returned) + [next.value.value]
      ensures next.Ready? && next.value.None? ==> closed
      ensures next.Pending? ==> !closed
      ensures !(next.Ready? && next.value.Some?) ==> returned == old(returned) == handshake + published
      ensures returned <= handshake + published
    {
      if pendingEvents != [] {
        next := Ready(Some(pendingEvents[0]));
        returned := returned + [pendingEvents[0]];
        pendingEvents := pendingEvents[1..];
      } else if channel != [] {
        next := Ready(Some(channel[0]));
        returned := returned + [channel[0]];
        channel := channel[1..];
      } else {
        next := if closed then Ready(None) else Pending;
      }
      assert returned + pendingEvents + channel == old(returned + pendingEvents + channel);
    }
  }

  /** All messages of a session in arrival order, up to the last the worker dealt with in full. */
  function Arrivals(heard: seq<Heard>, inputs: seq<Select>): seq<Incoming> {
    HeardMessages(heard) + Messages(Handled(inputs))
  }

  /**
   What successive `next_event` calls return is a prefix of the recognised notifications and
   requests of the whole session in arrival order, those of the handshake first, followed by
   at most one disconnection.
   */
  lemma EventOrder(heard: seq<Heard>, inputs: seq<Select>, returned: seq<AppEvent>)
    requires Listened(heard) && HandshakeRun(heard).phase.Connected? && Taken(inputs)
    requires returned <= HandshakeRun(heard).events + Run(inputs).events
    ensures returned <= Surfaced(Arrivals(heard, inputs))
         || (CauseOfEnd(inputs).Some?
             && returned == Surfaced(Arrivals(heard, inputs)) + [Disconnected(CauseOfEnd(inputs).value)])
  {
    hide Run, HandshakeRun, Surfaced, Messages, HeardMessages, Handled, CauseOfEnd;
    HandshakeKeepsEvents(heard);
    EventsRefineTrace(inputs);
    var all := Surfaced(Arrivals(heard, inputs));
    SurfacedAppend(HeardMessages(heard), Messages(Handled(inputs)));
    assert HandshakeRun(heard).events + Run(inputs).events == all + Farewell(inputs);
    if |returned| <= |all| {
      assert returned <= all;
    } else {
      assert Farewell(inputs) == [Disconnected(CauseOfEnd(inputs).value)] && returned == all + Farewell(inputs);
    }
  }
}
