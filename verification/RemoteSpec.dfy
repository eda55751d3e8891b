/**
 The remote app-server client: what arrives from the server, what the client
 asks of its worker, and what the worker does with each.

 The worker's select loop is a step function. What `select!` yields, whether a
 write succeeds and whether the event consumer is still there are inputs of a
 step. A command's one-shot reply channel is named by the position of the
 command in the stream of inputs.
 */
module RemoteSpec {
  import opened Options
  import opened Protocol

  type Token = nat

  // ------------------------------------------------------------- messages

  /** What the stream yields, with the decoder's verdict on server notifications and requests. */
  datatype Incoming =
    | Response(id: RequestId, result: string)
    | Error(id: RequestId, error: string)
    | Notification(payload: string, recognised: bool)
    | Request(id: RequestId, name: string, recognised: bool)
    | Invalid(detail: string)           // text that is no JSON-RPC message
    | Close(reason: Option<string>)
    | Ignored                           // binary, ping, pong and raw frames
    | TransportError(detail: string)
    | EndOfStream

  datatype AppEvent =
    | ServerNotification(payload: string)
    | ServerRequest(id: RequestId, name: string)
    | Disconnected(cause: Cause)

  datatype Cause =
    | WriteFailure(detail: string)
    | InvalidMessage(detail: string)
    | ClosedByServer(reason: string)
    | TransportFailure(detail: string)
    | ServerGone

  datatype ErrorKind = BrokenPipe | InvalidData | ConnectionAborted | UnexpectedEof

  function KindOf(cause: Cause): ErrorKind {
    match cause
    case WriteFailure(_) => BrokenPipe
    case InvalidMessage(_) => InvalidData
    case ClosedByServer(_) => ConnectionAborted
    case TransportFailure(_) => InvalidData
    case ServerGone => UnexpectedEof
  }

  /** What goes out on the wire. */
  datatype Wire =
    | WireRequest(id: RequestId, token: Token)
    | WireNotification(payload: string)
    | WireResult(id: RequestId, result: string)
    | WireError(id: RequestId, error: string)
    | WireUnsupported(id: RequestId, name: string)  // the error answer with code -32601

  // ------------------------------------------------------------- commands

  datatype Command =
    | Send(id: RequestId)
    | Notify(payload: string)
    | Resolve(requestId: RequestId, result: string)
    | Reject(requestId: RequestId, error: string)
    | Shutdown

  /** Completion of a one-shot reply. */
  datatype Reply =
    | Result(result: string)          // the server's result
    | ServerError(error: string)      // the server's error
    | Done                            // written, or closed
    | WriteFailed(detail: string)
    | Duplicate
    | Lost(kind: ErrorKind, cause: Option<Cause>)  // the worker ended first

  /** The outcome of the one write, or close, that a step makes. */
  datatype WriteOutcome = Written | Failed(detail: string)

  datatype Select =
    | CommandsClosed
    | Asked(command: Command, write: WriteOutcome, open: bool)
    | Arrived(message: Incoming, write: WriteOutcome, open: bool)

  datatype Replied = Replied(token: Token, reply: Reply)

  datatype Worker = Worker(
    pending: map<RequestId, Token>, exitError: Option<Cause>, running: bool,
    replies: seq<Replied>, events: seq<AppEvent>, written: seq<Wire>)

  const FRESH := Worker(map[], None, true, [], [], [])

  // ----------------------------------------------------------------- steps

  function Answer(w: Worker, token: Token, reply: Reply): Worker {
    w.(replies := w.replies + [Replied(token, reply)])
  }

  function Write(w: Worker, wire: Wire): Worker {
    w.(written := w.written + [wire])
  }

  function Stop(w: Worker): Worker {
    w.(running := false)
  }

  /** Report the disconnection, if anyone listens, remember its cause and end the loop. */
  function Disconnect(w: Worker, cause: Cause, open: bool): Worker {
    w.(running := false, exitError := Some(cause),
       events := w.events + if open then [Disconnected(cause)] else [])
  }

  /** An event nobody can receive ends the loop without an error. */
  function Deliver(w: Worker, e: AppEvent, open: bool): Worker {
    if open then w.(events := w.events + [e]) else Stop(w)
  }

  function WriteReply(write: WriteOutcome): Reply {
    match write case Written => Done case Failed(detail) => WriteFailed(detail)
  }

  function WireOf(command: Command, token: Token): Option<Wire> {
    match command
    case Send(id) => Some(WireRequest(id, token))
    case Notify(payload) => Some(WireNotification(payload))
    case Resolve(id, result) => Some(WireResult(id, result))
    case Reject(id, error) => Some(WireError(id, error))
    case Shutdown => None
  }

  function OnSend(w: Worker, token: Token, id: RequestId, write: WriteOutcome, open: bool): Worker {
    if id in w.pending then Answer(w, token, Duplicate)
    else
      match write
      case Written => Write(w.(pending := w.pending[id := token]), WireRequest(id, token))
      case Failed(detail) => Disconnect(Answer(w, token, WriteFailed(detail)), WriteFailure(detail), open)
  }

  function OnCommand(w: Worker, token: Token, command: Command, write: WriteOutcome, open: bool): Worker {
    match command
    case Send(id) => OnSend(w, token, id, write, open)
    case Shutdown => Stop(Answer(w, token, WriteReply(write)))
    case _ =>
      var answered := Answer(w, token, WriteReply(write));
      if write.Written? then Write(answered, WireOf(command, token).value) else answered
  }

  function Settle(w: Worker, id: RequestId, reply: Reply): Worker {
    if id in w.pending then Answer(w.(pending := w.pending - {id}), w.pending[id], reply) else w
  }

  function CloseReason(reason: Option<string>): string {
    if reason.Some? && reason.value != "" then reason.value else "connection closed"
  }

  function OnMessage(w: Worker, message: Incoming, write: WriteOutcome, open: bool): Worker {
    match message
    case Response(id, result) => Settle(w, id, Result(result))
    case Error(id, error) => Settle(w, id, ServerError(error))
    case Notification(payload, recognised) => if recognised then Deliver(w, ServerNotification(payload), open) else w
    case Request(id, name, recognised) =>
      if recognised then Deliver(w, ServerRequest(id, name), open)
      else (match write
            case Written => Write(w, WireUnsupported(id, name))
            case Failed(detail) => Disconnect(w, WriteFailure(detail), open))
    case Invalid(detail) => Disconnect(w, InvalidMessage(detail), open)
    case Close(reason) => Disconnect(w, ClosedByServer(CloseReason(reason)), open)
    case Ignored => w
    case TransportError(detail) => Disconnect(w, TransportFailure(detail), open)
    case EndOfStream => Disconnect(w, ServerGone, open)
  }

  function Step(w: Worker, token: Token, input: Select): Worker {
    match input
    case CommandsClosed => Stop(w)
    case Asked(command, write, open) => OnCommand(w, token, command, write, open)
    case Arrived(message, write, open) => OnMessage(w, message, write, open)
  }

  function Run(inputs: seq<Select>): Worker {
    if inputs == [] then FRESH
    else Step(Run(inputs[..|inputs| - 1]), |inputs| - 1, inputs[|inputs| - 1])
  }

  /** The inputs a worker actually takes: it was running before each of them. */
  predicate Taken(inputs: seq<Select>) {
    inputs == [] || (Taken(inputs[..|inputs| - 1]) && Run(inputs[..|inputs| - 1]).running)
  }

  /** What a request still pending at the end receives. */
  function DrainReply(w: Worker): Reply {
    if w.exitError.Some? then Lost(KindOf(w.exitError.value), w.exitError) else Lost(BrokenPipe, None)
  }

  /** The replies to one command, in order. */
  function RepliesTo(token: Token, replies: seq<Replied>): seq<Reply> {
    if replies == [] then []
    else
      var last := replies[|replies| - 1];
      RepliesTo(token, replies[..|replies| - 1]) + if last.token == token then [last.reply] else []
  }

  /** The drain answers each pending request once, in any order, and no one else. */
  ghost predicate Drains(pending: map<RequestId, Token>, reply: Reply, drained: seq<Replied>) {
    forall token :: RepliesTo(token, drained) == if token in pending.Values then [reply] else []
  }

  lemma {:induction false} RepliesAppend(token: Token, a: seq<Replied>, b: seq<Replied>)
    ensures RepliesTo(token, a + b) == RepliesTo(token, a) + RepliesTo(token, b)
  {
    if b == [] {
      assert a + b == a;
    } else {
      assert (a + b)[..|a + b| - 1] == a + b[..|b| - 1];
      RepliesAppend(token, a, b[..|b| - 1]);
    }
  }

  lemma RepliesSnoc(token: Token, replies: seq<Replied>, r: Replied)
    ensures RepliesTo(token, replies + [r])
         == RepliesTo(token, replies) + if r.token == token then [r.reply] else []
  {
    assert (replies + [r])[..|replies|] == replies;
  }
}
