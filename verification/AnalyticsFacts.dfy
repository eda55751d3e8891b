/**
 What the analytics reducer reads and writes: the facts it ingests and the
 events it emits.

 Wide payload records are cut down to the ids, counts and statuses that the
 reducer's own logic reads or aggregates.
 */
module AnalyticsFacts {
  import opened Options
  import Protocol

  type ConnectionId = nat
  type ThreadId = string
  type TurnId = string
  type ItemId = string

  type RequestId = Protocol.RequestId

  // --------------------------------------------------------------- threads

  datatype InitializationMode = New | Forked | Resumed

  datatype ThreadMetadata = ThreadMetadata(
    sessionId: string, threadSource: Option<string>, mode: InitializationMode,
    subagentSource: Option<string>, parent: Option<ThreadId>)

  /** Who an event is attributed to: the client, its runtime and the thread. */
  datatype Attribution = Attribution(productClientId: string, runtime: string, metadata: ThreadMetadata)

  // ----------------------------------------------------------------- turns

  datatype ResolvedConfig = ResolvedConfig(turnId: TurnId, threadId: ThreadId, images: nat, model: string, cwd: string)
  datatype TurnProfile = TurnProfile(samplingMs: nat, samplingRequests: nat)
  datatype CodexError = CodexError(kind: string, httpStatus: Option<nat>)
  datatype TurnStatus = TurnCompleted | TurnFailed | TurnInterrupted
  datatype CompletedTurn = CompletedTurn(
    status: Option<TurnStatus>, error: Option<string>, completedAt: nat, durationMs: Option<nat>)

  datatype ToolCounts = ToolCounts(
    total: nat, shellCommand: nat, fileChange: nat, mcpToolCall: nat,
    dynamicToolCall: nat, subagentToolCall: nat, webSearch: nat, imageGeneration: nat)

  datatype SteerResult = Accepted | Rejected
  datatype SteerRejection =
    | NoActiveTurn | ExpectedTurnMismatch | NonSteerableReview | NonSteerableCompact | EmptyInput | InputTooLarge

  // ----------------------------------------------------------------- items

  datatype ApprovableStatus = InProgress | Completed | Failed | Declined
  datatype CallStatus = CallInProgress | CallCompleted | CallFailed

  datatype ThreadItem =
    | CommandExecution(id: ItemId, runStatus: ApprovableStatus)
    | FileChange(id: ItemId, runStatus: ApprovableStatus)
    | McpToolCall(id: ItemId, callStatus: CallStatus, pluginId: Option<string>)
    | DynamicToolCall(id: ItemId, callStatus: CallStatus)
    | CollabAgentToolCall(id: ItemId, callStatus: CallStatus)
    | SubAgentActivity(id: ItemId)
    | WebSearch(id: ItemId)
    | ImageGeneration(id: ItemId, imageStatus: string)
    | OtherItem(id: ItemId)  // messages, plans, reasoning, image views, review markers, ...

  datatype ItemKey = ItemKey(threadId: ThreadId, turnId: TurnId, itemId: ItemId)

  datatype ToolOutcome = ToolCompleted | ToolFailed | ToolRejected

  // --------------------------------------------------------------- reviews

  datatype SubjectKind = CommandSubject | FileChangeSubject | McpSubject | PermissionsSubject | NetworkSubject
  datatype Trigger = Initial | SandboxDenial | NetworkPolicyDenial | ExecveIntercept
  datatype Reviewer = Guardian | User
  datatype ReviewStatus = Approved | Denied | Aborted | TimedOut
  datatype Resolution = NoResolution | SessionApproval | ExecPolicyAmendment | NetworkPolicyAmendment

  datatype ApprovalOutcome =
    | GuardianApproved | GuardianDenied | GuardianAborted
    | UserApproved | UserApprovedForSession | UserDenied | UserAborted

  /** A user review is named after its request; a guardian names its own. */
  datatype ReviewId = ForRequest(request: RequestId) | Named(name: string)

  datatype PendingReview = PendingReview(
    threadId: ThreadId, turnId: TurnId, itemId: Option<ItemId>, reviewId: ReviewId,
    subject: SubjectKind, subjectName: string, trigger: Trigger, startedAtMs: nat,
    permissions: bool, network: bool)

  datatype ReviewSummary = ReviewSummary(
    reviews: nat, guardianReviews: nat, userReviews: nat, outcome: Option<ApprovalOutcome>,
    permissions: bool, network: bool)

  // ----------------------------------------------------------------- facts

  datatype PermissionAsk = PermissionAsk(network: Option<bool>, fileSystem: bool)

  datatype ClientRequest =
    | TurnStartRequest(threadId: ThreadId, images: nat)
    | TurnSteerRequest(threadId: ThreadId, expectedTurnId: TurnId, images: nat)
    | OtherClientRequest

  datatype ClientResponse =
    | ThreadResponse(threadId: ThreadId, metadata: ThreadMetadata)  // start, resume and fork
    | TurnStartResponse(turnId: TurnId)
    | TurnSteerResponse(turnId: TurnId)
    | TurnInterruptResponse
    | OtherClientResponse

  datatype ServerRequest =
    | CommandApproval(threadId: ThreadId, turnId: TurnId, itemId: ItemId, startedAtMs: int,
        approvalId: Option<string>, networkContext: bool, networkAmendments: nat,
        additional: Option<PermissionAsk>)
    | FileChangeApproval(threadId: ThreadId, turnId: TurnId, itemId: ItemId, startedAtMs: int, grantRoot: bool)
    | PermissionsApproval(threadId: ThreadId, turnId: TurnId, itemId: ItemId, startedAtMs: int, ask: PermissionAsk)
    | OtherServerRequest

  datatype CommandDecision =
    | Accept | AcceptForSession | AcceptWithExecPolicy | AllowNetwork | DenyNetwork | Decline | Cancel
  datatype FileDecision = AcceptFile | AcceptFileForSession | DeclineFile | CancelFile

  datatype ServerResponse =
    | CommandAnswer(requestId: RequestId, command: CommandDecision)
    | FileChangeAnswer(requestId: RequestId, file: FileDecision)
    | OtherAnswer

  datatype GrantScope = TurnScope | SessionScope

  datatype GuardianStatus =
    | GuardianInProgress | GuardianStatusApproved | GuardianStatusDenied | GuardianTimedOut | GuardianStatusAborted

  datatype GuardianAction =
    | GuardCommand | GuardExecve | GuardApplyPatch | GuardNetwork
    | GuardPermissions(ask: PermissionAsk)
    | GuardMcp(toolName: string)

  datatype ProtocolTurnStatus = ProtocolCompleted | ProtocolFailed | ProtocolInterrupted | ProtocolInProgress

  datatype Notification =
    | ItemStarted(threadId: ThreadId, turnId: TurnId, item: ThreadItem, startedAtMs: int)
    | ItemCompleted(threadId: ThreadId, turnId: TurnId, item: ThreadItem, completedAtMs: int)
    | GuardianCompleted(threadId: ThreadId, turnId: TurnId, target: Option<ItemId>, name: string,
        status: GuardianStatus, action: GuardianAction, startedAtMs: int, completedAtMs: int)
    | TurnStarted(turnId: TurnId, startedAt: Option<int>)
    | TurnDiffUpdated(turnId: TurnId, threadId: ThreadId, diff: string)
    | TurnEnded(turnId: TurnId, turnStatus: ProtocolTurnStatus, error: Option<string>,
        completedAt: Option<int>, durationMs: Option<int>)
    | OtherNotification

  datatype ContextKind = Compaction | Goal | GuardianReview

  datatype CustomFact =
    | SubAgentThreadStarted(threadId: ThreadId, sessionId: string, parent: Option<ThreadId>,
        productClientId: string, subagentSource: string)
    | ContextFact(kind: ContextKind, threadId: ThreadId, turn: Option<TurnId>)
    | ConfigFact(config: ResolvedConfig)
    | TokenUsageFact(turnId: TurnId, threadId: ThreadId, totalTokens: int)
    | ProfileFact(turnId: TurnId, profile: TurnProfile)
    | CodexErrorFact(turnId: TurnId, threadId: ThreadId, error: CodexError)
    | SkillInvoked(pluginIds: seq<Option<string>>)  // one invocation per element
    | AppsMentioned(connectorIds: seq<Option<string>>)  // one mention per element
    | PluginUsed(pluginId: Option<string>)
    | StatelessFact(name: string)  // hook, app use, plugin state and import facts

  datatype Fact =
    | Initialize(connectionId: ConnectionId, productClientId: string, runtime: string)
    | ClientRequestFact(connectionId: ConnectionId, requestId: RequestId, request: ClientRequest)
    | InterruptRequest(connectionId: ConnectionId, requestId: RequestId, turnId: TurnId, requestedAtMs: nat)
    | ClientResponseFact(connectionId: ConnectionId, requestId: RequestId, response: ClientResponse,
        originator: Option<string>)
    | ErrorResponse(connectionId: ConnectionId, requestId: RequestId, rejection: Option<SteerRejection>)
    | ServerRequestFact(requestId: RequestId, serverRequest: ServerRequest)
    | ServerResponseFact(completedAtMs: nat, answer: ServerResponse)
    | PermissionsAnswer(completedAtMs: nat, requestId: RequestId, empty: bool, scope: GrantScope)
    | RequestAborted(completedAtMs: nat, requestId: RequestId)
    | Notified(notification: Notification)
    | Custom(custom: CustomFact)

  /** A fact with what its ingestion sees of the world: the clock and the git remote of the turn's directory. */
  datatype Input = Input(fact: Fact, now: nat, repoHash: Option<string>)

  // ---------------------------------------------------------------- events

  datatype TurnReport = TurnReport(
    threadId: ThreadId, images: nat, config: ResolvedConfig, startedAt: Option<nat>, tokenUsage: Option<int>,
    profile: TurnProfile, completed: CompletedTurn, interruptRequestedAtMs: Option<nat>,
    codexError: Option<CodexError>, steerCount: nat, toolCounts: ToolCounts)

  datatype Event =
    | ThreadInitialized(threadId: ThreadId, clientId: string, metadata: ThreadMetadata)
    | ContextEvent(kind: ContextKind, threadId: ThreadId, turn: Option<TurnId>, source: Attribution)
    | TurnEvent(turnId: TurnId, source: Attribution, report: TurnReport)
    | AcceptedLines(turnId: TurnId, threadId: ThreadId, model: string, completedAt: nat,
        repoHash: Option<string>, added: nat, deleted: nat)
    | SteerEvent(threadId: ThreadId, source: Attribution, expectedTurnId: TurnId, acceptedTurnId: Option<TurnId>,
        images: nat, result: SteerResult, rejection: Option<SteerRejection>, createdAt: nat)
    | ToolEvent(key: ItemKey, source: Attribution, item: ThreadItem, outcome: ToolOutcome,
        startedAtMs: nat, completedAtMs: nat, durationMs: Option<nat>, summary: ReviewSummary)
    | ReviewEvent(review: PendingReview, source: Attribution, reviewer: Reviewer, status: ReviewStatus,
        resolution: Resolution, completedAtMs: nat, durationMs: Option<nat>)
    | SkillEvent(pluginId: Option<string>)
    | AppMentionedEvent(connectorId: Option<string>)
    | PluginUsedEvent(pluginId: Option<string>)
    | StatelessEvent(name: string)
}
