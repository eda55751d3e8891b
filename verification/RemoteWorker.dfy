/** The worker task of the remote client: the select loop and the drain, updating its maps in place. */
module RemoteWorker {
  import opened Options
  import opened Protocol
  import opened RemoteSpec
  import opened RemoteReplies

  class Task {
    var pendingRequests: map<RequestId, Token>
    var exitError: Option<Cause>

    /** What has gone into the reply channels, the event channel and the socket. */
    var replies: seq<Replied>
    var events: seq<AppEvent>
    var written: seq<Wire>

    function State(running: bool): Worker
      reads this
    {
      Worker(pendingRequests, exitError, running, replies, events, written)
    }

    constructor ()
      ensures State(true) == FRESH
    {
      pendingRequests, exitError := map[], None;
      replies, events, written := [], [], [];
    }

    method Disconnect(cause: Cause, open: bool)
      modifies this`events, this`exitError
      ensures State(false) == RemoteSpec.Disconnect(old(State(true)), cause, open)
    {
      if open {
        events := events + [Disconnected(cause)];
      }
      exitError := Some(cause);
    }

    method OnSend(token: Token, id: RequestId, write: WriteOutcome, open: bool) returns (stop: bool)
      modifies this
      ensures State(!stop) == RemoteSpec.OnSend(old(State(true)), token, id, write, open)
    {
      stop := false;
      if id in pendingRequests {
        replies := replies + [Replied(token, Duplicate)];
        return;
      }
      pendingRequests := pendingRequests[id := token];
      match write {
        case Written => written := written + [WireRequest(id, token)];
        case Failed(detail) =>
          pendingRequests := pendingRequests - {id};
          replies := replies + [Replied(token, WriteFailed(detail))];
          Disconnect(WriteFailure(detail), open);
          stop := true;
      }
    }

    method OnCommand(token: Token, command: Command, write: WriteOutcome, open: bool) returns (stop: bool)
      modifies this
      ensures State(!stop) == RemoteSpec.OnCommand(old(State(true)), token, command, write, open)
    {
      stop := false;
      match command {
        case Send(id) => stop := OnSend(token, id, write, open);
        case Shutdown =>
          replies := replies + [Replied(token, WriteReply(write))];
          stop := true;
        case _ =>
          if write.Written? {
            written := written + [WireOf(command, token).value];
          }
          replies := replies + [Replied(token, WriteReply(write))];
      }
    }

    method Settle(id: RequestId, reply: Reply)
      modifies this`pendingRequests, this`replies
      ensures State(true) == RemoteSpec.Settle(old(State(true)), id, reply)
    {
      if id in pendingRequests {
        var token := pendingRequests[id];
        pendingRequests := pendingRequests - {id};
        replies := replies + [Replied(token, reply)];
      }
    }

    method Deliver(e: AppEvent, open: bool) returns (stop: bool)
      modifies this`events
      ensures State(!stop) == RemoteSpec.Deliver(old(State(true)), e, open)
    {
      stop := !open;
      if open {
        events := events + [e];
      }
    }

    method OnMessage(message: Incoming, write: WriteOutcome, open: bool) returns (stop: bool)
      modifies this
      ensures State(!stop) == RemoteSpec.OnMessage(old(State(true)), message, write, open)
    {
      stop := false;
      match message {
        case Response(id, result) => Settle(id, Result(result));
        case Error(id, error) => Settle(id, ServerError(error));
        case Notification(payload, recognised) =>
          if recognised {
            stop := Deliver(ServerNotification(payload), open);
          }
        case Request(id, name, recognised) =>
          if recognised {
            stop := Deliver(ServerRequest(id, name), open);
          } else if write.Written? {
            written := written + [WireUnsupported(id, name)];
          } else {
            Disconnect(WriteFailure(write.detail), open);
            stop := true;
          }
        case Invalid(detail) =>
          Disconnect(InvalidMessage(detail), open);
          stop := true;
        case Close(reason) =>
          Disconnect(ClosedByServer(CloseReason(reason)), open);
          stop := true;
        case Ignored =>
        case TransportError(detail) =>
          Disconnect(TransportFailure(detail), open);
          stop := true;
        case EndOfStream =>
          Disconnect(ServerGone, open);
          stop := true;
      }
    }

    /** Answer every request still pending, in whatever order the map yields them. */
    method Drain(reply: Reply) returns (ghost drained: seq<Replied>)
      requires Injective(pendingRequests)
      modifies this`replies
      ensures replies == old(replies) + drained && Drains(pendingRequests, reply, drained)
    {
      drained := [];
      var rest := pendingRequests;
      while rest != map[]
        invariant rest.Keys <= pendingRequests.Keys && forall id :: id in rest ==> rest[id] == pendingRequests[id]
        invariant replies == old(replies) + drained
        invariant Drains(map id | id in pendingRequests && id !in rest :: pendingRequests[id], reply, drained)
        decreases rest.Keys
      {
        var id :| id in rest;
        DrainOne(pendingRequests, rest, id, reply, drained);
        replies := replies + [Replied(rest[id], reply)];
        drained := drained + [Replied(rest[id], reply)];
        rest := rest - {id};
      }
      assert (map id | id in pendingRequests && id !in rest :: pendingRequests[id]) == pendingRequests;
    }

    /**
     The task from start to end. It takes inputs until one ends the loop; it has then answered
     every command it took exactly once, and sent and written what the run calls for.
     */
    method Work(inputs: seq<Select>) returns (taken: nat, ended: bool)
      requires State(true) == FRESH
      modifies this
      ensures taken <= |inputs| && Taken(inputs[..taken]) && (!ended ==> taken == |inputs|)
      ensures ended <==> Ended(inputs[..taken])
      ensures events == Run(inputs[..taken]).events && written == Run(inputs[..taken]).written
      ensures ended ==> AllAnsweredOnce(inputs[..taken], replies)
    {
      taken, ended := 0, false;
      assert inputs[..0] == [];
      while taken < |inputs| && !ended
        invariant taken <= |inputs| && Taken(inputs[..taken])
        invariant State(!ended) == Run(inputs[..taken])
        decreases |inputs| - taken
      {
        assert inputs[..taken + 1][..taken] == inputs[..taken];
        match inputs[taken] {
          case CommandsClosed => ended := true;
          case Asked(command, write, open) => ended := OnCommand(taken, command, write, open);
          case Arrived(message, write, open) => ended := OnMessage(message, write, open);
        }
        taken := taken + 1;
      }
      EndsExactly(inputs[..taken]);
      if ended {
        ghost var all := inputs[..taken];
        PendingIsInjective(all);
        var reply := if exitError.Some? then Lost(KindOf(exitError.value), exitError) else Lost(BrokenPipe, None);
        ghost var drained := Drain(reply);
        forall token: Token
          ensures RepliesTo(token, replies) == RepliesDue(all, token)
        {
          EveryCommandIsAnswered(all, drained, token);
        }
      }
    }
  }

  ghost predicate AllAnsweredOnce(inputs: seq<Select>, replies: seq<Replied>) {
    forall token: Token :: RepliesTo(token, replies) == RepliesDue(inputs, token)
  }

  ghost predicate Injective(m: map<RequestId, Token>) {
    forall id, id' :: id in m && id' in m && m[id] == m[id'] ==> id == id'
  }

  /** Two ids never wait for the same command. */
  lemma PendingIsInjective(inputs: seq<Select>)
    ensures Injective(Run(inputs).pending)
  {
    hide Run, Outstanding, Fate;
    var pending := Run(inputs).pending;
    forall id, id' | id in pending && id' in pending && pending[id] == pending[id']
      ensures id == id'
    {
      PendingRefinesTrace(inputs, id);
      PendingRefinesTrace(inputs, id');
      OutstandingWasSent(inputs, id);
      OutstandingWasSent(inputs, id');
    }
  }

  lemma DrainOne(pending: map<RequestId, Token>, rest: map<RequestId, Token>, id: RequestId, reply: Reply,
      drained: seq<Replied>)
    requires Injective(pending) && rest.Keys <= pending.Keys && id in rest && rest[id] == pending[id]
    requires Drains(map i | i in pending && i !in rest :: pending[i], reply, drained)
    ensures Drains(map i | i in pending && i !in rest - {id} :: pending[i], reply, drained + [Replied(rest[id], reply)])
  {
    var before := map i | i in pending && i !in rest :: pending[i];
    var after := map i | i in pending && i !in rest - {id} :: pending[i];
    assert after == before[id := pending[id]];
    assert pending[id] !in before.Values;
    forall token
      ensures RepliesTo(token, drained + [Replied(rest[id], reply)]) == if token in after.Values then [reply] else []
    {
      RepliesSnoc(token, drained, Replied(rest[id], reply));
      assert after[id] == pending[id];
      assert token in before.Values ==> token in after.Values by {
        if token in before.Values {
          var i :| i in before && before[i] == token;
          assert i in after && after[i] == token;
        }
      }
    }
  }
}
