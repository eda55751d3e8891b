/**
 Exactly-once replies: what every command of the remote worker is answered is a
 function of the stream of inputs, and each command is answered once.
 */
module RemoteReplies {
  import opened Options
  import opened Protocol
  import opened RemoteSpec

  /** Whether a message answers a request id, and how. */
  function AnswerTo(id: RequestId, input: Select): Option<Reply> {
    match input
    case Arrived(Response(answered, result), _, _) => if answered == id then Some(Result(result)) else None
    case Arrived(Error(answered, error), _, _) => if answered == id then Some(ServerError(error)) else None
    case _ => None
  }

  /** The command waiting for an answer under a request id, read off the stream. */
  function Outstanding(inputs: seq<Select>, id: RequestId): Option<Token> {
    if inputs == [] then None
    else
      var front, last := inputs[..|inputs| - 1], inputs[|inputs| - 1];
      if last.Asked? && last.command == Send(id) && Outstanding(front, id).None? then
        (if last.write.Written? then Some(|front|) else None)
      else if AnswerTo(id, last).Some? then None
      else Outstanding(front, id)
  }

  /** The reply a command gets on receipt. */
  function AtOnce(inputs: seq<Select>, input: Select): Option<Reply>
    requires input.Asked?
  {
    if !input.command.Send? then Some(if input.write.Written? then Done else WriteFailed(input.write.detail))
    else if Outstanding(inputs, input.command.id).Some? then Some(Duplicate)
    else if input.write.Failed? then Some(WriteFailed(input.write.detail))
    else None
  }

  /** The reply of a command: on receipt, or the first answer to its request id that comes later. */
  function Fate(inputs: seq<Select>, token: Token): Option<Reply>
    requires token < |inputs| && inputs[token].Asked?
  {
    var front, last := inputs[..|inputs| - 1], inputs[|inputs| - 1];
    if token == |front| then AtOnce(front, last)
    else if Fate(front, token).Some? then Fate(front, token)
    else if inputs[token].command.Send? then AnswerTo(inputs[token].command.id, last)
    else None
  }

  /** The replies a command should have had by now. */
  function Expected(inputs: seq<Select>, token: Token): seq<Reply> {
    if token < |inputs| && inputs[token].Asked? && Fate(inputs, token).Some? then [Fate(inputs, token).value] else []
  }

  function PendingAt(w: Worker, id: RequestId): Option<Token> {
    if id in w.pending then Some(w.pending[id]) else None
  }

  // ----------------------------------------------------------------- pending

  lemma StepPending(w: Worker, token: Token, input: Select, id: RequestId)
    ensures PendingAt(Step(w, token, input), id)
         == if input.Asked? && input.command == Send(id) && PendingAt(w, id).None?
            then (if input.write.Written? then Some(token) else None)
            else if AnswerTo(id, input).Some? then None
            else PendingAt(w, id)
  {
  }

  lemma {:induction false} PendingRefinesTrace(inputs: seq<Select>, id: RequestId)
    ensures PendingAt(Run(inputs), id) == Outstanding(inputs, id)
  {
    hide Step, AnswerTo;
    if inputs != [] {
      var front, last := inputs[..|inputs| - 1], inputs[|inputs| - 1];
      PendingRefinesTrace(front, id);
      StepPending(Run(front), |front|, last, id);
    }
  }

  /** An outstanding request was sent under its id, written, and has had no reply. */
  lemma {:induction false} OutstandingWasSent(inputs: seq<Select>, id: RequestId)
    requires Outstanding(inputs, id).Some?
    ensures Outstanding(inputs, id).value < |inputs|
    ensures inputs[Outstanding(inputs, id).value].Asked?
    ensures inputs[Outstanding(inputs, id).value].command == Send(id)
    ensures Fate(inputs, Outstanding(inputs, id).value).None?
  {
    var front, last := inputs[..|inputs| - 1], inputs[|inputs| - 1];
    if !(last.Asked? && last.command == Send(id) && Outstanding(front, id).None?) {
      OutstandingWasSent(front, id);
    }
  }

  /** Conversely, a command without a reply is the outstanding request of its id. */
  lemma {:induction false} UnansweredIsOutstanding(inputs: seq<Select>, token: Token)
    requires token < |inputs| && inputs[token].Asked? && Fate(inputs, token).None?
    ensures inputs[token].command.Send? && Outstanding(inputs, inputs[token].command.id) == Some(token)
  {
    var front := inputs[..|inputs| - 1];
    if token < |front| {
      UnansweredIsOutstanding(front, token);
    }
  }

  // ----------------------------------------------------------------- replies

  /** The replies a step adds. */
  function Added(w: Worker, token: Token, input: Select): seq<Replied> {
    match input
    case CommandsClosed => []
    case Asked(Send(id), write, _) =>
      if id in w.pending then [Replied(token, Duplicate)]
      else if write.Failed? then [Replied(token, WriteFailed(write.detail))]
      else []
    case Asked(_, write, _) => [Replied(token, if write.Failed? then WriteFailed(write.detail) else Done)]
    case Arrived(Response(id, result), _, _) => if id in w.pending then [Replied(w.pending[id], Result(result))] else []
    case Arrived(Error(id, error), _, _) => if id in w.pending then [Replied(w.pending[id], ServerError(error))] else []
    case _ => []
  }

  lemma StepReplies(w: Worker, token: Token, input: Select)
    ensures Step(w, token, input).replies == w.replies + Added(w, token, input)
  {
  }

  lemma ArrivedExpected(front: seq<Select>, input: Select, token: Token, id: RequestId, reply: Reply)
    requires input.Arrived? && AnswerTo(id, input) == Some(reply)
    requires forall other :: AnswerTo(other, input).Some? ==> other == id
    ensures Expected(front + [input], token)
         == Expected(front, token) + if Outstanding(front, id) == Some(token) then [reply] else []
  {
    hide AnswerTo;
    var inputs := front + [input];
    assert inputs[..|front|] == front;
    if Outstanding(front, id) == Some(token) {
      OutstandingWasSent(front, id);
    } else if token < |front| && front[token].Asked? && Fate(front, token).None? {
      UnansweredIsOutstanding(front, token);
    }
  }

  lemma QuietExpected(front: seq<Select>, input: Select, token: Token)
    requires forall id :: AnswerTo(id, input).None?
    requires token == |front| ==> !input.Asked?
    ensures Expected(front + [input], token) == Expected(front, token)
  {
    hide AnswerTo;
    assert (front + [input])[..|front|] == front;
  }

  lemma AskedExpected(front: seq<Select>, input: Select, token: Token)
    requires input.Asked?
    ensures Expected(front + [input], token)
         == Expected(front, token)
            + if token == |front| && AtOnce(front, input).Some? then [AtOnce(front, input).value] else []
  {
    assert (front + [input])[..|front|] == front;
    if token != |front| {
      assert forall id :: AnswerTo(id, input).None?;
      QuietExpected(front, input, token);
    }
  }

  lemma StepExpected(front: seq<Select>, input: Select, token: Token)
    ensures Expected(front + [input], token)
         == Expected(front, token) + RepliesTo(token, Added(Run(front), |front|, input))
  {
    hide Run, Expected, Outstanding;
    match input
    case Asked(command, write, open) =>
      AskedExpected(front, input, token);
      if command.Send? {
        PendingRefinesTrace(front, command.id);
      }
      AddedOne(token, Added(Run(front), |front|, input));
    case Arrived(Response(id, result), _, _) =>
      ArrivedExpected(front, input, token, id, Result(result));
      PendingRefinesTrace(front, id);
      AddedOne(token, Added(Run(front), |front|, input));
    case Arrived(Error(id, error), _, _) =>
      ArrivedExpected(front, input, token, id, ServerError(error));
      PendingRefinesTrace(front, id);
      AddedOne(token, Added(Run(front), |front|, input));
    case _ => QuietExpected(front, input, token);
  }

  lemma AddedOne(token: Token, added: seq<Replied>)
    requires |added| <= 1
    ensures RepliesTo(token, added) == if |added| == 1 && added[0].token == token then [added[0].reply] else []
  {
    if |added| == 1 {
      assert added == [] + [added[0]];
      RepliesSnoc(token, [], added[0]);
    }
  }

  /** In every run each command has had exactly the reply that the stream holds for it, if any. */
  lemma {:induction false} RepliesRefineTrace(inputs: seq<Select>, token: Token)
    ensures RepliesTo(token, Run(inputs).replies) == Expected(inputs, token)
  {
    hide Step, Expected, Added;
    if inputs == [] {
      NothingExpected(token);
    } else {
      var front, last := inputs[..|inputs| - 1], inputs[|inputs| - 1];
      RepliesRefineTrace(front, token);
      StepReplies(Run(front), |front|, last);
      RepliesAppend(token, Run(front).replies, Added(Run(front), |front|, last));
      StepExpected(front, last, token);
      assert inputs == front + [last];
    }
  }

  lemma NothingExpected(token: Token)
    ensures Expected([], token) == []
  {
  }

  // ------------------------------------------------------------ main results

  /** The final reply of a command: its fate, or the loss that the drain reports. */
  function FinalReply(inputs: seq<Select>, token: Token): Reply
    requires token < |inputs| && inputs[token].Asked?
  {
    if Fate(inputs, token).Some? then Fate(inputs, token).value else DrainReply(Run(inputs))
  }

  lemma PendingTokens(inputs: seq<Select>, token: Token)
    ensures token in Run(inputs).pending.Values <==>
            (token < |inputs| && inputs[token].Asked? && Fate(inputs, token).None?)
  {
    hide Run, Fate, Outstanding;
    var pending := Run(inputs).pending;
    if token in pending.Values {
      var id :| id in pending && pending[id] == token;
      PendingRefinesTrace(inputs, id);
      OutstandingWasSent(inputs, id);
    }
    if token < |inputs| && inputs[token].Asked? && Fate(inputs, token).None? {
      UnansweredIsOutstanding(inputs, token);
      var id := inputs[token].command.id;
      PendingRefinesTrace(inputs, id);
      assert id in pending && pending[id] == token;
    }
  }

  /**
   Once the worker has ended and drained, every command it received has had exactly one reply,
   and nothing else has.
   */
  lemma ExactlyOnce(inputs: seq<Select>, drained: seq<Replied>, token: Token)
    requires Drains(Run(inputs).pending, DrainReply(Run(inputs)), drained)
    ensures RepliesTo(token, Run(inputs).replies + drained)
         == if token < |inputs| && inputs[token].Asked? then [FinalReply(inputs, token)] else []
  {
    hide Run, Fate, DrainReply;
    RepliesRefineTrace(inputs, token);
    RepliesAppend(token, Run(inputs).replies, drained);
    PendingTokens(inputs, token);
  }

  // ------------------------------------------------------------------- ending

  /** How an input ends the worker: without an error, or with the cause of a disconnection. */
  datatype End = Quietly | Because(cause: Cause)

  /** Whether an input ends the worker, and how, read off the stream before it. */
  function EndedBy(inputs: seq<Select>, input: Select): Option<End> {
    match input
    case CommandsClosed => Some(Quietly)
    case Asked(command, write, _) =>
      if command.Shutdown? then Some(Quietly)
      else if command.Send? && write.Failed? && Outstanding(inputs, command.id).None? then
        Some(Because(WriteFailure(write.detail)))
      else None
    case Arrived(message, write, open) =>
      if message.Notification? then (if message.recognised && !open then Some(Quietly) else None)
      else if message.Request? && message.recognised then (if open then None else Some(Quietly))
      else if message.Request? then (if write.Failed? then Some(Because(WriteFailure(write.detail))) else None)
      else if message.Close? then
        Some(Because(ClosedByServer(
                       if message.reason in {None, Some("")} then "connection closed" else message.reason.value)))
      else if message.Invalid? then Some(Because(InvalidMessage(message.detail)))
      else if message.TransportError? then Some(Because(TransportFailure(message.detail)))
      else if message.EndOfStream? then Some(Because(ServerGone))
      else None
  }

  /** The last input has ended the worker. */
  predicate Ended(inputs: seq<Select>) {
    inputs != [] && EndedBy(inputs[..|inputs| - 1], inputs[|inputs| - 1]).Some?
  }

  function CauseOfEnd(inputs: seq<Select>): Option<Cause> {
    if Ended(inputs) && EndedBy(inputs[..|inputs| - 1], inputs[|inputs| - 1]).value.Because?
    then Some(EndedBy(inputs[..|inputs| - 1], inputs[|inputs| - 1]).value.cause)
    else None
  }

  /** What requests without an answer receive at the end. */
  function LostAs(inputs: seq<Select>): Reply {
    var cause := CauseOfEnd(inputs);
    Lost(if cause.None? || cause.value.WriteFailure? then BrokenPipe
         else if cause.value.ServerGone? then UnexpectedEof
         else if cause.value.ClosedByServer? then ConnectionAborted
         else InvalidData,
         cause)
  }

  /** The worker as it is left by an input that ends it, or not. */
  predicate LeftBy(after: Worker, end: Option<End>) {
    && (after.running <==> end.None?)
    && after.exitError == if end.Some? && end.value.Because? then Some(end.value.cause) else None
  }

  lemma CommandEnds(w: Worker, inputs: seq<Select>, command: Command, write: WriteOutcome, open: bool)
    requires w.running && w.exitError.None?
    requires command.Send? ==> PendingAt(w, command.id) == Outstanding(inputs, command.id)
    ensures LeftBy(OnCommand(w, |inputs|, command, write, open), EndedBy(inputs, Asked(command, write, open)))
  {
    hide Outstanding;
  }

  lemma MessageEnds(w: Worker, inputs: seq<Select>, message: Incoming, write: WriteOutcome, open: bool)
    requires w.running && w.exitError.None?
    ensures LeftBy(OnMessage(w, message, write, open), EndedBy(inputs, Arrived(message, write, open)))
  {
    hide Outstanding;
    match message
    case Close(reason) =>
      assert reason in {None, Some("")} <==> reason.None? || reason.value == "";
    case _ =>
  }

  lemma StepEnds(w: Worker, inputs: seq<Select>, input: Select)
    requires w.running && w.exitError.None?
    requires input.Asked? && input.command.Send? ==>
               PendingAt(w, input.command.id) == Outstanding(inputs, input.command.id)
    ensures LeftBy(Step(w, |inputs|, input), EndedBy(inputs, input))
  {
    hide Outstanding, OnCommand, OnMessage, LeftBy, PendingAt;
    match input
    case Asked(command, write, open) =>
      hide EndedBy;
      CommandEnds(w, inputs, command, write, open);
    case Arrived(message, write, open) =>
      hide EndedBy;
      MessageEnds(w, inputs, message, write, open);
    case CommandsClosed => ClosedEnds(w, inputs);
  }

  lemma ClosedEnds(w: Worker, inputs: seq<Select>)
    requires w.running && w.exitError.None?
    ensures LeftBy(Step(w, |inputs|, CommandsClosed), EndedBy(inputs, CommandsClosed))
  {
  }

  /**
   The worker has stopped exactly when its last input is one that ends it, and its exit error is
   the one that input calls for, as is what the requests still pending receive.
   */
  lemma {:induction false} EndsExactly(inputs: seq<Select>)
    requires Taken(inputs)
    ensures Run(inputs).running <==> !Ended(inputs)
    ensures Run(inputs).exitError == CauseOfEnd(inputs) && DrainReply(Run(inputs)) == LostAs(inputs)
  {
    hide Step, EndedBy;
    if inputs != [] {
      var front, last := inputs[..|inputs| - 1], inputs[|inputs| - 1];
      EndsExactly(front);
      if last.Asked? && last.command.Send? {
        PendingRefinesTrace(front, last.command.id);
      }
      assert CauseOfEnd(front).None? by {
        assert !Ended(front);
      }
      StepEnds(Run(front), front, last);
    }
  }

  /** A worker takes exactly the inputs up to the first that ends it. */
  lemma {:induction false} TakenExactly(inputs: seq<Select>)
    ensures Taken(inputs) <==> forall n :: 0 <= n < |inputs| ==> !Ended(inputs[..n])
  {
    hide Run, Ended;
    if inputs != [] {
      var front := inputs[..|inputs| - 1];
      TakenExactly(front);
      assert forall n :: 0 <= n < |front| ==> front[..n] == inputs[..n];
      assert inputs[..|front|] == front;
      if Taken(front) {
        EndsExactly(front);
      }
    }
  }

  /** After the drain every command the worker took has one reply: its fate, or why it was lost. */
  lemma EveryCommandIsAnswered(inputs: seq<Select>, drained: seq<Replied>, token: Token)
    requires Taken(inputs) && Drains(Run(inputs).pending, DrainReply(Run(inputs)), drained)
    ensures RepliesTo(token, Run(inputs).replies + drained) == RepliesDue(inputs, token)
  {
    hide Run, Fate, LostAs, DrainReply;
    EndsExactly(inputs);
    ExactlyOnce(inputs, drained, token);
  }

  /** One reply to each command, and no other. */
  function RepliesDue(inputs: seq<Select>, token: Token): seq<Reply> {
    if token >= |inputs| || !inputs[token].Asked? then []
    else [if Fate(inputs, token).Some? then Fate(inputs, token).value else LostAs(inputs)]
  }

  // ----------------------------------------------------------- which answer

  predicate SentAndWritten(input: Select, id: RequestId) {
    input.Asked? && input.command == Send(id) && input.write.Written?
  }

  /** The position of the answer to a request sent at `token`, if it has come. */
  function AnsweredAt(inputs: seq<Select>, token: Token): Option<nat>
    requires token < |inputs| && inputs[token].Asked? && inputs[token].command.Send?
  {
    var front := inputs[..|inputs| - 1];
    if token == |front| then None
    else if AnsweredAt(front, token).Some? then AnsweredAt(front, token)
    else if AnswerTo(inputs[token].command.id, inputs[|front|]).Some? then Some(|front|)
    else None
  }

  /**
   A server's result or error reaches only the request that was waiting under its id: one that was
   sent with that id, was written before, was no duplicate, and had seen no earlier answer.
   */
  lemma {:induction false} AnswersReachTheirRequest(inputs: seq<Select>, token: Token)
    requires token < |inputs| && inputs[token].Asked?
    requires Fate(inputs, token).Some? && (Fate(inputs, token).value.Result? || Fate(inputs, token).value.ServerError?)
    ensures inputs[token].command.Send? && SentAndWritten(inputs[token], inputs[token].command.id)
    ensures Outstanding(inputs[..token], inputs[token].command.id).None?
    ensures var id, at := inputs[token].command.id, AnsweredAt(inputs, token);
            && at.Some? && token < at.value < |inputs|
            && AnswerTo(id, inputs[at.value]) == Fate(inputs, token)
            && forall k :: token < k < at.value ==> AnswerTo(id, inputs[k]).None?
  {
    hide AnswerTo;
    var front := inputs[..|inputs| - 1];
    if token < |front| {
      assert front[token] == inputs[token] && front[..token] == inputs[..token];
      if Fate(front, token).Some? {
        AnswersReachTheirRequest(front, token);
      } else {
        UnansweredWasWritten(front, token);
      }
    }
  }

  lemma {:induction false} UnansweredWasWritten(inputs: seq<Select>, token: Token)
    requires token < |inputs| && inputs[token].Asked? && Fate(inputs, token).None?
    ensures inputs[token].command.Send? && SentAndWritten(inputs[token], inputs[token].command.id)
    ensures Outstanding(inputs[..token], inputs[token].command.id).None?
    ensures AnsweredAt(inputs, token).None?
    ensures forall k :: token < k < |inputs| ==> AnswerTo(inputs[token].command.id, inputs[k]).None?
  {
    hide AnswerTo;
    var front := inputs[..|inputs| - 1];
    if token < |front| {
      assert front[token] == inputs[token] && front[..token] == inputs[..token];
      UnansweredWasWritten(front, token);
    } else {
      assert inputs[..token] == front;
    }
  }
}
