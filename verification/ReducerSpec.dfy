/**
 The analytics reducer as a step function on values.

 `Step` says what one fact does to the reducer's seven maps and which events it
 emits; `Run` folds it over a whole stream of facts. The class `AnalyticsReducer`
 refines `Step`, and the properties of whole runs are proved about `Run`.
 */
module ReducerSpec {
  import opened Options
  import opened AnalyticsFacts
  import UnifiedDiff

  type RequestKey = (ConnectionId, RequestId)

  datatype ConnectionState = ConnectionState(productClientId: string, runtime: string)

  datatype ThreadState = ThreadState(
    connectionId: Option<ConnectionId>, metadata: Option<ThreadMetadata>, originator: Option<string>)

  datatype RequestState =
    | PendingStart(threadId: ThreadId, images: nat)
    | PendingSteer(threadId: ThreadId, expectedTurnId: TurnId, images: nat, createdAt: nat)
    | PendingInterrupt(turnId: TurnId, requestedAtMs: nat)

  datatype TurnState = TurnState(
    connectionId: Option<ConnectionId>, threadId: Option<ThreadId>, images: Option<nat>,
    config: Option<ResolvedConfig>, startedAt: Option<nat>, tokenUsage: Option<int>,
    profile: Option<TurnProfile>, completed: Option<CompletedTurn>, interruptRequestedAtMs: Option<nat>,
    codexError: Option<CodexError>, latestDiff: Option<string>, steerCount: nat, toolCounts: ToolCounts)

  datatype State = State(
    requests: map<RequestKey, RequestState>,
    turns: map<TurnId, TurnState>,
    connections: map<ConnectionId, ConnectionState>,
    threads: map<ThreadId, ThreadState>,
    started: map<ItemKey, nat>,
    reviews: map<RequestId, PendingReview>,
    summaries: map<ItemKey, ReviewSummary>)

  datatype Out = Out(state: State, events: seq<Event>)

  const NO_TOOLS := ToolCounts(0, 0, 0, 0, 0, 0, 0, 0)
  const FRESH_TURN :=
    TurnState(None, None, None, None, None, None, None, None, None, None, None, 0, NO_TOOLS)
  const FRESH_THREAD := ThreadState(None, None, None)
  const NO_REVIEWS := ReviewSummary(0, 0, 0, None, false, false)
  const INITIAL := State(map[], map[], map[], map[], map[], map[], map[])

  // --------------------------------------------------------------- helpers

  /** A timestamp that does not fit in an unsigned integer is dropped. */
  function ToUnsigned(i: int): Option<nat> {
    if i < 0 then None else Some(i)
  }

  function OptionToUnsigned(i: Option<int>): Option<nat> {
    if i.None? then None else ToUnsigned(i.value)
  }

  function Duration(startedAtMs: nat, completedAtMs: nat): Option<nat> {
    if completedAtMs < startedAtMs then None else Some(completedAtMs - startedAtMs)
  }

  /** `entry(id).or_default()` */
  function TurnAt(s: State, t: TurnId): TurnState {
    if t in s.turns then s.turns[t] else FRESH_TURN
  }

  function ThreadAt(s: State, thread: ThreadId): ThreadState {
    if thread in s.threads then s.threads[thread] else FRESH_THREAD
  }

  function SetTurn(s: State, t: TurnId, turn: TurnState): State {
    s.(turns := s.turns[t := turn])
  }

  function ClientIdOf(thread: ThreadState, connection: ConnectionState): string {
    if thread.originator.Some? then thread.originator.value else connection.productClientId
  }

  // --------------------------------------------------------------- contexts

  /** The attribution of a thread, when its connection and metadata are known. */
  function ThreadContext(s: State, thread: ThreadId): Option<Attribution> {
    if thread !in s.threads then None
    else
      var state := s.threads[thread];
      if state.connectionId.None? || state.connectionId.value !in s.connections then None
      else if state.metadata.None? then None
      else
        var connection := s.connections[state.connectionId.value];
        Some(Attribution(ClientIdOf(state, connection), connection.runtime, state.metadata.value))
  }

  /** A turn's own connection takes precedence over its thread's. */
  function TurnConnection(s: State, turn: TurnState): Option<ConnectionId>
    requires turn.threadId.Some?
  {
    if turn.connectionId.Some? then turn.connectionId
    else if turn.threadId.value in s.threads then s.threads[turn.threadId.value].connectionId
    else None
  }

  function TurnContext(s: State, turn: TurnState): Option<Attribution>
    requires turn.threadId.Some?
  {
    var connectionId := TurnConnection(s, turn);
    if connectionId.None? || connectionId.value !in s.connections then None
    else if turn.threadId.value !in s.threads then None
    else
      var thread, connection := s.threads[turn.threadId.value], s.connections[connectionId.value];
      if thread.metadata.None? then None
      else Some(Attribution(ClientIdOf(thread, connection), connection.runtime, thread.metadata.value))
  }

  lemma SameContext(s: State, s': State, thread: ThreadId)
    requires s.connections == s'.connections && s.threads == s'.threads
    ensures ThreadContext(s, thread) == ThreadContext(s', thread)
  {
  }

  lemma SameTurnContext(s: State, s': State, turn: TurnState)
    requires s.connections == s'.connections && s.threads == s'.threads && turn.threadId.Some?
    ensures TurnContext(s, turn) == TurnContext(s', turn)
  {
  }

  // ----------------------------------------------------------- turn emission

  /** The two kinds of events that end a turn. */
  predicate TurnOutput(e: Event) {
    e.TurnEvent? || e.AcceptedLines?
  }

  predicate Ready(turn: TurnState) {
    turn.threadId.Some? && turn.images.Some? && turn.config.Some? && turn.profile.Some? && turn.completed.Some?
  }

  function Report(turn: TurnState): TurnReport
    requires Ready(turn)
  {
    TurnReport(turn.threadId.value, turn.images.value, turn.config.value, turn.startedAt, turn.tokenUsage,
               turn.profile.value, turn.completed.value, turn.interruptRequestedAtMs, turn.codexError,
               turn.steerCount, turn.toolCounts)
  }

  function AcceptedLineEvents(t: TurnId, turn: TurnState, input: Input): seq<Event>
    requires Ready(turn)
  {
    if turn.latestDiff.None? then []
    else
      var scan := UnifiedDiff.ScanDiff(turn.latestDiff.value);
      if |scan.added| == 0 && scan.deleted == 0 then []
      else [AcceptedLines(t, turn.threadId.value, turn.config.value.model, input.now, input.repoHash,
                          |scan.added|, scan.deleted)]
  }

  function MaybeEmitTurn(s: State, t: TurnId, input: Input): (o: Out)
    ensures o.state == s.(turns := o.state.turns)
    ensures forall i :: 0 <= i < |o.events| ==> TurnOutput(o.events[i]) && o.events[i].turnId == t
  {
    if t !in s.turns || !Ready(s.turns[t]) then Out(s, [])
    else
      var turn := s.turns[t];
      var context := TurnContext(s, turn);
      if context.None? then Out(s, [])
      else Out(s.(turns := s.turns - {t}),
               [TurnEvent(t, context.value, Report(turn))] + AcceptedLineEvents(t, turn, input))
  }

  // ---------------------------------------------------- requests and responses

  function IngestInitialize(s: State, c: ConnectionId, productClientId: string, runtime: string): State {
    s.(connections := s.connections[c := ConnectionState(productClientId, runtime)])
  }

  function IngestRequest(s: State, key: RequestKey, request: ClientRequest, now: nat): (s': State)
    ensures s' == s.(requests := s'.requests)
  {
    match request
    case TurnStartRequest(thread, images) => s.(requests := s.requests[key := PendingStart(thread, images)])
    case TurnSteerRequest(thread, expected, images) =>
      s.(requests := s.requests[key := PendingSteer(thread, expected, images, now)])
    case OtherClientRequest => s
  }

  function EmitThreadInitialized(s: State, c: ConnectionId, thread: ThreadId, metadata: ThreadMetadata,
      originator: Option<string>): (o: Out)
    ensures o.state == s.(threads := o.state.threads)
  {
    if c !in s.connections then Out(s, [])
    else
      var before := ThreadAt(s, thread);
      var after := ThreadState(Some(c), Some(metadata), if originator.Some? then originator else before.originator);
      Out(s.(threads := s.threads[thread := after]),
          [ThreadInitialized(thread, ClientIdOf(after, s.connections[c]), metadata)])
  }

  function EmitSteer(s: State, c: ConnectionId, pending: RequestState, acceptedTurnId: Option<TurnId>,
      result: SteerResult, rejection: Option<SteerRejection>): seq<Event>
    requires pending.PendingSteer?
  {
    if c !in s.connections || pending.threadId !in s.threads || s.threads[pending.threadId].metadata.None? then []
    else
      var thread, connection := s.threads[pending.threadId], s.connections[c];
      [SteerEvent(pending.threadId,
                  Attribution(ClientIdOf(thread, connection), connection.runtime, thread.metadata.value),
                  pending.expectedTurnId, acceptedTurnId, pending.images, result, rejection, pending.createdAt)]
  }

  /** The response to a pending turn start binds the turn to its connection and thread. */
  function StartedTurn(turn: TurnState, c: ConnectionId, pending: RequestState): TurnState
    requires pending.PendingStart?
  {
    turn.(connectionId := Some(c), threadId := Some(pending.threadId), images := Some(pending.images))
  }

  function InterruptedTurn(turn: TurnState, requestedAtMs: nat): TurnState {
    turn.(interruptRequestedAtMs :=
      match turn.interruptRequestedAtMs
      case None => Some(requestedAtMs)
      case Some(earliest) => Some(if requestedAtMs < earliest then requestedAtMs else earliest))
  }

  /** Consume the pending request of a key. */
  function Consume(s: State, key: RequestKey): State {
    s.(requests := s.requests - {key})
  }

  function IngestStartResponse(s: State, key: RequestKey, t: TurnId, input: Input): (o: Out)
    ensures o.state == s.(requests := o.state.requests, turns := o.state.turns)
    ensures forall i :: 0 <= i < |o.events| ==> TurnOutput(o.events[i])
  {
    if key !in s.requests then Out(s, [])
    else
      var pending, consumed := s.requests[key], Consume(s, key);
      if !pending.PendingStart? then Out(consumed, [])
      else MaybeEmitTurn(SetTurn(consumed, t, StartedTurn(TurnAt(s, t), key.0, pending)), t, input)
  }

  function CountSteer(s: State, t: TurnId): State {
    if t in s.turns then SetTurn(s, t, Steered(s.turns[t])) else s
  }

  function Steered(turn: TurnState): TurnState {
    turn.(steerCount := turn.steerCount + 1)
  }

  function IngestSteerResponse(s: State, key: RequestKey, t: TurnId): (o: Out)
    ensures o.state == s.(requests := o.state.requests, turns := o.state.turns)
  {
    if key !in s.requests then Out(s, [])
    else
      var pending, consumed := s.requests[key], Consume(s, key);
      if !pending.PendingSteer? then Out(consumed, [])
      else Out(CountSteer(consumed, t), EmitSteer(s, key.0, pending, Some(t), Accepted, None))
  }

  function IngestInterruptResponse(s: State, key: RequestKey, input: Input): (o: Out)
    ensures o.state == s.(requests := o.state.requests, turns := o.state.turns)
    ensures forall i :: 0 <= i < |o.events| ==> TurnOutput(o.events[i])
  {
    if key !in s.requests then Out(s, [])
    else
      var pending, consumed := s.requests[key], Consume(s, key);
      if !pending.PendingInterrupt? then Out(consumed, [])
      else
        var t := pending.turnId;
        MaybeEmitTurn(SetTurn(consumed, t, InterruptedTurn(TurnAt(s, t), pending.requestedAtMs)), t, input)
  }

  function IngestResponse(s: State, key: RequestKey, response: ClientResponse, originator: Option<string>,
      input: Input): (o: Out)
    ensures o.state == s.(requests := o.state.requests, turns := o.state.turns, threads := o.state.threads)
    ensures forall i :: 0 <= i < |o.events| ==> !o.events[i].ReviewEvent? && !o.events[i].ToolEvent?
  {
    match response
    case ThreadResponse(thread, metadata) => EmitThreadInitialized(s, key.0, thread, metadata, originator)
    case TurnStartResponse(t) => IngestStartResponse(s, key, t, input)
    case TurnSteerResponse(t) => IngestSteerResponse(s, key, t)
    case TurnInterruptResponse => IngestInterruptResponse(s, key, input)
    case OtherClientResponse => Out(s, [])
  }

  function IngestErrorResponse(s: State, key: RequestKey, rejection: Option<SteerRejection>): (o: Out)
    ensures o.state == s.(requests := o.state.requests)
  {
    if key !in s.requests then Out(s, [])
    else
      var pending := s.requests[key];
      Out(Consume(s, key),
          if pending.PendingSteer? then EmitSteer(s, key.0, pending, None, Rejected, rejection) else [])
  }

  // --------------------------------------------------------------- reviews

  /** Which tool item a review is summed up under: none for permission and network reviews. */
  function SummaryKey(review: PendingReview): Option<ItemKey> {
    match review.subject
    case CommandSubject | FileChangeSubject | McpSubject =>
      if review.itemId.None? then None
      else Some(ItemKey(review.threadId, review.turnId, review.itemId.value))
    case PermissionsSubject | NetworkSubject => None
  }

  function FinalOutcome(reviewer: Reviewer, status: ReviewStatus, resolution: Resolution): ApprovalOutcome {
    match (reviewer, status)
    case (Guardian, Approved) => GuardianApproved
    case (Guardian, Denied) => GuardianDenied
    case (Guardian, _) => GuardianAborted
    case (User, Approved) => if resolution.SessionApproval? then UserApprovedForSession else UserApproved
    case (User, Denied) => UserDenied
    case (User, _) => UserAborted
  }

  function RecordReview(summary: ReviewSummary, reviewer: Reviewer, status: ReviewStatus, resolution: Resolution,
      review: PendingReview): ReviewSummary
  {
    ReviewSummary(
      summary.reviews + 1,
      summary.guardianReviews + (if reviewer.Guardian? then 1 else 0),
      summary.userReviews + (if reviewer.User? then 1 else 0),
      Some(FinalOutcome(reviewer, status, resolution)),
      summary.permissions || review.permissions,
      summary.network || review.network)
  }

  function SummaryAt(s: State, key: ItemKey): ReviewSummary {
    if key in s.summaries then s.summaries[key] else NO_REVIEWS
  }

  function SumUp(s: State, review: PendingReview, reviewer: Reviewer, status: ReviewStatus,
      resolution: Resolution): (s': State)
    ensures s' == s.(summaries := s'.summaries)
  {
    var key := SummaryKey(review);
    if key.None? then s
    else s.(summaries :=
              s.summaries[key.value := RecordReview(SummaryAt(s, key.value), reviewer, status, resolution, review)])
  }

  function EmitReview(s: State, review: PendingReview, reviewer: Reviewer, status: ReviewStatus,
      resolution: Resolution, completedAtMs: nat): (o: Out)
    ensures o.state == s.(summaries := o.state.summaries)
    ensures |o.events| <= 1 && forall i :: 0 <= i < |o.events| ==> o.events[i].ReviewEvent?
  {
    var context := ThreadContext(s, review.threadId);
    Out(SumUp(s, review, reviewer, status, resolution),
        if context.None? then []
        else [ReviewEvent(review, context.value, reviewer, status, resolution, completedAtMs,
                          Duration(review.startedAtMs, completedAtMs))])
  }

  predicate NetworkEnabled(ask: PermissionAsk) {
    ask.network == Some(true)
  }

  /** The review a server request opens, unless its start time is negative or it asks for no approval. */
  function OpenedReview(id: RequestId, request: ServerRequest): Option<PendingReview> {
    match request
    case CommandApproval(thread, turn, item, startedAtMs, approvalId, networkContext, amendments, additional) =>
      var network := networkContext || amendments > 0 || (additional.Some? && NetworkEnabled(additional.value));
      var trigger :=
        if approvalId.Some? then ExecveIntercept
        else if network then NetworkPolicyDenial
        else if additional.Some? then SandboxDenial
        else Initial;
      if startedAtMs < 0 then None
      else Some(PendingReview(thread, turn, Some(item), ForRequest(id),
                              if networkContext then NetworkSubject else CommandSubject,
                              if networkContext then "network_access" else "command_execution",
                              trigger, startedAtMs, additional.Some?, network))
    case FileChangeApproval(thread, turn, item, startedAtMs, grantRoot) =>
      if startedAtMs < 0 then None
      else Some(PendingReview(thread, turn, Some(item), ForRequest(id), FileChangeSubject, "apply_patch",
                              if grantRoot then SandboxDenial else Initial, startedAtMs, grantRoot, false))
    case PermissionsApproval(thread, turn, item, startedAtMs, ask) =>
      var network := NetworkEnabled(ask);
      var trigger :=
        if network then NetworkPolicyDenial else if ask.fileSystem then SandboxDenial else Initial;
      if startedAtMs < 0 then None
      else Some(PendingReview(thread, turn, Some(item), ForRequest(id), PermissionsSubject, "permissions",
                              trigger, startedAtMs, network || ask.fileSystem, network))
    case OtherServerRequest => None
  }

  function IngestServerRequest(s: State, id: RequestId, request: ServerRequest): (s': State)
    ensures s' == s.(reviews := s'.reviews)
  {
    var review := OpenedReview(id, request);
    if review.None? then s else s.(reviews := s.reviews[id := review.value])
  }

  function CommandResult(decision: CommandDecision): (ReviewStatus, Resolution) {
    match decision
    case Accept => (Approved, NoResolution)
    case AcceptForSession => (Approved, SessionApproval)
    case AcceptWithExecPolicy => (Approved, ExecPolicyAmendment)
    case AllowNetwork => (Approved, NetworkPolicyAmendment)
    case DenyNetwork => (Denied, NetworkPolicyAmendment)
    case Decline => (Denied, NoResolution)
    case Cancel => (Aborted, NoResolution)
  }

  function FileChangeResult(decision: FileDecision): (ReviewStatus, Resolution) {
    match decision
    case AcceptFile => (Approved, NoResolution)
    case AcceptFileForSession => (Approved, SessionApproval)
    case DeclineFile => (Denied, NoResolution)
    case CancelFile => (Aborted, NoResolution)
  }

  function PermissionsResult(empty: bool, scope: GrantScope): (ReviewStatus, Resolution) {
    if empty then (Denied, NoResolution)
    else match scope
      case TurnScope => (Approved, NoResolution)
      case SessionScope => (Approved, SessionApproval)
  }

  /** An answer to, or the abort of, a server request settles its pending review. */
  function SettleReview(s: State, id: RequestId, result: (ReviewStatus, Resolution), completedAtMs: nat): (o: Out)
    ensures o.state == s.(reviews := o.state.reviews, summaries := o.state.summaries)
    ensures |o.events| <= 1 && forall i :: 0 <= i < |o.events| ==> o.events[i].ReviewEvent?
  {
    if id !in s.reviews then Out(s, [])
    else EmitReview(s.(reviews := s.reviews - {id}), s.reviews[id], User, result.0, result.1, completedAtMs)
  }

  function IngestServerResponse(s: State, answer: ServerResponse, completedAtMs: nat): (o: Out)
    ensures o.state == s.(reviews := o.state.reviews, summaries := o.state.summaries)
    ensures |o.events| <= 1 && forall i :: 0 <= i < |o.events| ==> o.events[i].ReviewEvent?
  {
    match answer
    case CommandAnswer(id, decision) => SettleReview(s, id, CommandResult(decision), completedAtMs)
    case FileChangeAnswer(id, decision) => SettleReview(s, id, FileChangeResult(decision), completedAtMs)
    case OtherAnswer => Out(s, [])
  }

  function GuardianResult(status: GuardianStatus): Option<ReviewStatus> {
    match status
    case GuardianInProgress => None
    case GuardianStatusApproved => Some(Approved)
    case GuardianStatusDenied => Some(Denied)
    case GuardianTimedOut => Some(TimedOut)
    case GuardianStatusAborted => Some(Aborted)
  }

  function GuardianSubject(action: GuardianAction): (SubjectKind, string, Trigger) {
    match action
    case GuardCommand => (CommandSubject, "command_execution", Initial)
    case GuardExecve => (CommandSubject, "command_execution", ExecveIntercept)
    case GuardApplyPatch => (FileChangeSubject, "apply_patch", SandboxDenial)
    case GuardNetwork => (NetworkSubject, "network_access", NetworkPolicyDenial)
    case GuardPermissions(ask) =>
      (PermissionsSubject, "permissions",
       if NetworkEnabled(ask) then NetworkPolicyDenial else if ask.fileSystem then SandboxDenial else Initial)
    case GuardMcp(toolName) => (McpSubject, toolName, Initial)
  }

  predicate GuardianAsksPermissions(action: GuardianAction) {
    match action
    case GuardApplyPatch | GuardNetwork => true
    case GuardPermissions(ask) => NetworkEnabled(ask) || ask.fileSystem
    case GuardCommand | GuardExecve | GuardMcp(_) => false
  }

  predicate GuardianAsksNetwork(action: GuardianAction) {
    match action
    case GuardNetwork => true
    case GuardPermissions(ask) => NetworkEnabled(ask)
    case GuardApplyPatch | GuardCommand | GuardExecve | GuardMcp(_) => false
  }

  /** The terminal review a guardian notification reports, if both of its times are valid. */
  function GuardianReviewOf(n: Notification): Option<PendingReview>
    requires n.GuardianCompleted?
  {
    if GuardianResult(n.status).None? || n.startedAtMs < 0 || n.completedAtMs < 0 then None
    else
      var (subject, name, trigger) := GuardianSubject(n.action);
      Some(PendingReview(n.threadId, n.turnId, n.target, Named(n.name), subject, name, trigger, n.startedAtMs,
                         GuardianAsksPermissions(n.action), GuardianAsksNetwork(n.action)))
  }

  function IngestGuardianCompleted(s: State, n: Notification): (o: Out)
    requires n.GuardianCompleted?
    ensures o.state == s.(summaries := o.state.summaries)
  {
    var review := GuardianReviewOf(n);
    if review.None? then Out(s, [])
    else EmitReview(s, review.value, Guardian, GuardianResult(n.status).value, NoResolution, n.completedAtMs)
  }

  // ----------------------------------------------------------------- items

  function CountTool(counts: ToolCounts, item: ThreadItem): ToolCounts {
    if item.OtherItem? then counts
    else
      var counted := counts.(total := counts.total + 1);
      match item
      case CommandExecution(_, _) => counted.(shellCommand := counts.shellCommand + 1)
      case FileChange(_, _) => counted.(fileChange := counts.fileChange + 1)
      case McpToolCall(_, _, _) => counted.(mcpToolCall := counts.mcpToolCall + 1)
      case DynamicToolCall(_, _) => counted.(dynamicToolCall := counts.dynamicToolCall + 1)
      case CollabAgentToolCall(_, _) | SubAgentActivity(_) =>
        counted.(subagentToolCall := counts.subagentToolCall + 1)
      case WebSearch(_) => counted.(webSearch := counts.webSearch + 1)
      case ImageGeneration(_, _) => counted.(imageGeneration := counts.imageGeneration + 1)
  }

  /** The items whose start and completion make a tool event. */
  predicate Tracked(item: ThreadItem) {
    !item.SubAgentActivity? && !item.OtherItem?
  }

  function ApprovableOutcome(status: ApprovableStatus): Option<ToolOutcome> {
    match status
    case InProgress => None
    case Completed => Some(ToolCompleted)
    case Failed => Some(ToolFailed)
    case Declined => Some(ToolRejected)
  }

  function CallOutcome(status: CallStatus): Option<ToolOutcome> {
    match status
    case CallInProgress => None
    case CallCompleted => Some(ToolCompleted)
    case CallFailed => Some(ToolFailed)
  }

  function OutcomeOf(item: ThreadItem): Option<ToolOutcome> {
    match item
    case CommandExecution(_, status) => ApprovableOutcome(status)
    case FileChange(_, status) => ApprovableOutcome(status)
    case McpToolCall(_, status, _) => CallOutcome(status)
    case DynamicToolCall(_, status) => CallOutcome(status)
    case CollabAgentToolCall(_, status) => CallOutcome(status)
    case WebSearch(_) => Some(ToolCompleted)
    case ImageGeneration(_, status) =>
      Some(if status == "failed" || status == "error" then ToolFailed else ToolCompleted)
    case SubAgentActivity(_) | OtherItem(_) => None
  }

  function ToolEvents(s: State, key: ItemKey, source: Attribution, item: ThreadItem, startedAtMs: nat,
      completedAtMs: nat): seq<Event>
  {
    var outcome := OutcomeOf(item);
    if outcome.None? then []
    else [ToolEvent(key, source, item, outcome.value, startedAtMs, completedAtMs,
                    Duration(startedAtMs, completedAtMs), SummaryAt(s, key))]
  }

  function CountCompletion(s: State, t: TurnId, item: ThreadItem): State
    requires t in s.turns
  {
    SetTurn(s, t, s.turns[t].(toolCounts := CountTool(s.turns[t].toolCounts, item)))
  }

  /** The end of a tracked item: it needs its turn, its start, a valid time and a thread context, in that order. */
  function IngestItemCompleted(s: State, thread: ThreadId, t: TurnId, item: ThreadItem, completedAtMs: int): (o: Out)
    ensures o.state == s.(turns := o.state.turns, started := o.state.started, summaries := o.state.summaries)
    ensures |o.events| <= 1 && forall i :: 0 <= i < |o.events| ==> o.events[i].ToolEvent?
  {
    if item.OtherItem? || t !in s.turns then Out(s, [])
    else
      var counted := CountCompletion(s, t, item);
      var key := ItemKey(thread, t, item.id);
      if !Tracked(item) || key !in s.started then Out(counted, [])
      else
        var ended := counted.(started := s.started - {key});
        var context := ThreadContext(s, thread);
        if completedAtMs < 0 || context.None? then Out(ended, [])
        else Out(ended.(summaries := s.summaries - {key}),
                 ToolEvents(s, key, context.value, item, s.started[key], completedAtMs))
  }

  function IngestItemStarted(s: State, thread: ThreadId, t: TurnId, item: ThreadItem, startedAtMs: int): (s': State)
    ensures s' == s.(started := s'.started)
  {
    if !Tracked(item) || startedAtMs < 0 then s
    else s.(started := s.started[ItemKey(thread, t, item.id) := startedAtMs])
  }

  function AnalyticsStatus(status: ProtocolTurnStatus): Option<TurnStatus> {
    match status
    case ProtocolCompleted => Some(TurnCompleted)
    case ProtocolFailed => Some(TurnFailed)
    case ProtocolInterrupted => Some(TurnInterrupted)
    case ProtocolInProgress => None
  }

  function CompletionOf(n: Notification): CompletedTurn
    requires n.TurnEnded?
  {
    var completedAt := OptionToUnsigned(n.completedAt);
    CompletedTurn(AnalyticsStatus(n.turnStatus), n.error,
                  if completedAt.Some? then completedAt.value else 0, OptionToUnsigned(n.durationMs))
  }

  function IngestNotification(s: State, n: Notification, input: Input): (o: Out)
    ensures o.state == s.(turns := o.state.turns, started := o.state.started, summaries := o.state.summaries)
    ensures forall i :: 0 <= i < |o.events| ==>
              TurnOutput(o.events[i]) || o.events[i].ToolEvent?
              || (o.events[i].ReviewEvent? && o.events[i].reviewer.Guardian?)
  {
    match n
    case ItemStarted(thread, t, item, startedAtMs) => Out(IngestItemStarted(s, thread, t, item, startedAtMs), [])
    case ItemCompleted(thread, t, item, completedAtMs) => IngestItemCompleted(s, thread, t, item, completedAtMs)
    case GuardianCompleted(_, _, _, _, _, _, _, _) => IngestGuardianCompleted(s, n)
    case TurnStarted(t, startedAt) =>
      Out(SetTurn(s, t, TurnAt(s, t).(startedAt := OptionToUnsigned(startedAt))), [])
    case TurnDiffUpdated(t, thread, diff) =>
      Out(SetTurn(s, t, TurnAt(s, t).(threadId := Some(thread), latestDiff := Some(diff))), [])
    case TurnEnded(t, _, _, _, _) =>
      MaybeEmitTurn(SetTurn(s, t, TurnAt(s, t).(completed := Some(CompletionOf(n)))), t, input)
    case OtherNotification => Out(s, [])
  }

  // ---------------------------------------------------------- custom facts

  /** A subagent keeps what is already known of its thread and otherwise inherits its parent's connection. */
  function SubAgentThread(s: State, fact: CustomFact): ThreadState
    requires fact.SubAgentThreadStarted?
  {
    var before := ThreadAt(s, fact.threadId);
    var inherited := if fact.parent.Some? then ThreadAt(s, fact.parent.value).connectionId else None;
    ThreadState(
      if before.connectionId.Some? then before.connectionId else inherited,
      if before.metadata.Some? then before.metadata else Some(SubAgentMetadata(fact)),
      if before.originator.Some? then before.originator else Some(fact.productClientId))
  }

  function SubAgentMetadata(fact: CustomFact): ThreadMetadata
    requires fact.SubAgentThreadStarted?
  {
    ThreadMetadata(fact.sessionId, Some("subagent"), New, Some(fact.subagentSource), fact.parent)
  }

  function SkillEvents(pluginIds: seq<Option<string>>): seq<Event> {
    seq(|pluginIds|, i requires 0 <= i < |pluginIds| => SkillEvent(pluginIds[i]))
  }

  function MentionEvents(connectorIds: seq<Option<string>>): seq<Event> {
    seq(|connectorIds|, i requires 0 <= i < |connectorIds| => AppMentionedEvent(connectorIds[i]))
  }

  function IngestCustom(s: State, fact: CustomFact, input: Input): (o: Out)
    ensures o.state == s.(turns := o.state.turns, threads := o.state.threads)
    ensures forall i :: 0 <= i < |o.events| ==>
              !o.events[i].SteerEvent? && !o.events[i].ReviewEvent? && !o.events[i].ToolEvent?
  {
    match fact
    case SubAgentThreadStarted(thread, _, _, productClientId, _) =>
      Out(s.(threads := s.threads[thread := SubAgentThread(s, fact)]),
          [ThreadInitialized(thread, productClientId, SubAgentMetadata(fact))])
    case ContextFact(kind, thread, turn) =>
      var context := ThreadContext(s, thread);
      Out(s, if context.None? then [] else [ContextEvent(kind, thread, turn, context.value)])
    case ConfigFact(config) =>
      var t := config.turnId;
      var turn := TurnAt(s, t).(threadId := Some(config.threadId), images := Some(config.images),
                                config := Some(config));
      MaybeEmitTurn(SetTurn(s, t, turn), t, input)
    case TokenUsageFact(t, thread, tokens) =>
      MaybeEmitTurn(SetTurn(s, t, TurnAt(s, t).(threadId := Some(thread), tokenUsage := Some(tokens))), t, input)
    case ProfileFact(t, profile) =>
      MaybeEmitTurn(SetTurn(s, t, TurnAt(s, t).(profile := Some(profile))), t, input)
    case CodexErrorFact(t, thread, error) =>
      var turn := TurnAt(s, t);
      Out(SetTurn(s, t, turn.(threadId := if turn.threadId.Some? then turn.threadId else Some(thread),
                              codexError := Some(error))), [])
    case SkillInvoked(pluginIds) => Out(s, SkillEvents(pluginIds))
    case AppsMentioned(connectorIds) => Out(s, MentionEvents(connectorIds))
    case PluginUsed(pluginId) => Out(s, [PluginUsedEvent(pluginId)])
    case StatelessFact(name) => Out(s, [StatelessEvent(name)])
  }

  // ------------------------------------------------------------------ steps

  /** Facts of the connection between a client and the server, as opposed to those the server reports. */
  predicate ClientSide(fact: Fact) {
    fact.Initialize? || fact.ClientRequestFact? || fact.InterruptRequest? || fact.ClientResponseFact?
    || fact.ErrorResponse?
  }

  /** What one fact does. Each map is written by a few kinds of facts only. */
  function Step(s: State, input: Input): (o: Out)
    ensures !input.fact.Initialize? ==> o.state.connections == s.connections
    ensures !input.fact.ClientResponseFact? && !input.fact.Custom? ==> o.state.threads == s.threads
    ensures !ClientSide(input.fact) ==> o.state.requests == s.requests
    ensures !input.fact.Notified? ==> o.state.started == s.started
    ensures ClientSide(input.fact) || input.fact.Notified? || input.fact.Custom? ==> o.state.reviews == s.reviews
    ensures ClientSide(input.fact) || input.fact.ServerRequestFact? || input.fact.Custom? ==>
              o.state.summaries == s.summaries
  {
    match input.fact
    case Initialize(c, productClientId, runtime) => Out(IngestInitialize(s, c, productClientId, runtime), [])
    case ClientRequestFact(c, id, request) => Out(IngestRequest(s, (c, id), request, input.now), [])
    case InterruptRequest(c, id, t, requestedAtMs) =>
      Out(s.(requests := s.requests[(c, id) := PendingInterrupt(t, requestedAtMs)]), [])
    case ClientResponseFact(c, id, response, originator) => IngestResponse(s, (c, id), response, originator, input)
    case ErrorResponse(c, id, rejection) => IngestErrorResponse(s, (c, id), rejection)
    case ServerRequestFact(id, request) => Out(IngestServerRequest(s, id, request), [])
    case ServerResponseFact(completedAtMs, answer) => IngestServerResponse(s, answer, completedAtMs)
    case PermissionsAnswer(completedAtMs, id, empty, scope) =>
      SettleReview(s, id, PermissionsResult(empty, scope), completedAtMs)
    case RequestAborted(completedAtMs, id) => SettleReview(s, id, (Aborted, NoResolution), completedAtMs)
    case Notified(n) => IngestNotification(s, n, input)
    case Custom(fact) => IngestCustom(s, fact, input)
  }

  /** The state and all events of a stream of facts, in order. */
  function RunFrom(s: State, inputs: seq<Input>): Out {
    if inputs == [] then Out(s, [])
    else
      var before := RunFrom(s, inputs[..|inputs| - 1]);
      var last := Step(before.state, inputs[|inputs| - 1]);
      Out(last.state, before.events + last.events)
  }

  function Run(inputs: seq<Input>): Out {
    RunFrom(INITIAL, inputs)
  }

  lemma {:induction false} RunAppend(s: State, a: seq<Input>, b: seq<Input>)
    ensures RunFrom(s, a + b).state == RunFrom(RunFrom(s, a).state, b).state
    ensures RunFrom(s, a + b).events == RunFrom(s, a).events + RunFrom(RunFrom(s, a).state, b).events
  {
    hide Step;
    if b == [] {
      assert a + b == a;
    } else {
      assert (a + b)[..|a + b| - 1] == a + b[..|b| - 1];
      RunAppend(s, a, b[..|b| - 1]);
    }
  }

  lemma RunSnoc(s: State, front: seq<Input>, last: Input)
    ensures RunFrom(s, front + [last]).state == Step(RunFrom(s, front).state, last).state
    ensures RunFrom(s, front + [last]).events
         == RunFrom(s, front).events + Step(RunFrom(s, front).state, last).events
  {
    hide Step;
    assert (front + [last])[..|front|] == front;
  }
}
