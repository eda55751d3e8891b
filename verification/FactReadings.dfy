/**
 What single facts say, read off their fields: times, verdicts, subjects of
 reviews and outcomes of tools. Each reading is given by what it means, not by
 the table the reducer looks it up in, and is shown to agree with that table.
 What the stream calls for is stated with these readings.
 */
module FactReadings {
  import opened Options
  import opened AnalyticsFacts
  import opened ReducerSpec

  // ------------------------------------------------------------------- times

  /** A time that is there and not negative. */
  function Moment(i: Option<int>): (m: Option<nat>)
    ensures m == OptionToUnsigned(i)
    ensures i.Some? ==> m == ToUnsigned(i.value)
  {
    if i.Some? && i.value >= 0 then Some(i.value) else None
  }

  /** The time between two moments, unless the second comes first. */
  function Elapsed(from: nat, to: nat): (d: Option<nat>)
    ensures d == Duration(from, to)
  {
    if from <= to then Some(to - from) else None
  }

  // ----------------------------------------------------------------- threads

  /** The client of a thread: the one that originated it, or else the one connected. */
  function ClientFor(originator: Option<string>, connected: string): string {
    if originator.None? then connected else originator.value
  }

  /** What is known of a subagent's thread from its start alone. */
  function SubAgentFacts(fact: CustomFact): (m: ThreadMetadata)
    requires fact.SubAgentThreadStarted?
    ensures m == SubAgentMetadata(fact)
  {
    ThreadMetadata(sessionId := fact.sessionId, threadSource := Some("subagent"), mode := New,
                   subagentSource := Some(fact.subagentSource), parent := fact.parent)
  }

  // ------------------------------------------------------------------- turns

  /** How a turn ended; a turn still in progress has no status. */
  function Ending(n: Notification): (c: CompletedTurn)
    requires n.TurnEnded?
    ensures c == CompletionOf(n)
  {
    var at := Moment(n.completedAt);
    CompletedTurn(
      status := if n.turnStatus == ProtocolInterrupted then Some(TurnInterrupted)
                else if n.turnStatus == ProtocolFailed then Some(TurnFailed)
                else if n.turnStatus == ProtocolCompleted then Some(TurnCompleted)
                else None,
      error := n.error,
      completedAt := if at.None? then 0 else at.value,
      durationMs := Moment(n.durationMs))
  }

  // ------------------------------------------------------------------- items

  /** The items that stand for a tool call of their own. */
  predicate IsToolItem(item: ThreadItem): (r: bool)
    ensures r <==> Tracked(item)
  {
    || item.CommandExecution? || item.FileChange? || item.McpToolCall? || item.DynamicToolCall?
    || item.CollabAgentToolCall? || item.WebSearch? || item.ImageGeneration?
  }

  predicate Finished(item: ThreadItem) {
    || ((item.CommandExecution? || item.FileChange?) && item.runStatus != InProgress)
    || ((item.McpToolCall? || item.DynamicToolCall? || item.CollabAgentToolCall?) && item.callStatus != CallInProgress)
    || item.WebSearch? || item.ImageGeneration?
  }

  predicate DeclinedByUser(item: ThreadItem) {
    (item.CommandExecution? || item.FileChange?) && item.runStatus == Declined
  }

  predicate Broke(item: ThreadItem) {
    || ((item.CommandExecution? || item.FileChange?) && item.runStatus == Failed)
    || ((item.McpToolCall? || item.DynamicToolCall? || item.CollabAgentToolCall?) && item.callStatus == CallFailed)
    || (item.ImageGeneration? && item.imageStatus in {"failed", "error"})
  }

  /** A finished tool call was rejected, failed or completed. */
  function ToolEnding(item: ThreadItem): (outcome: Option<ToolOutcome>)
    ensures outcome == OutcomeOf(item)
  {
    if !Finished(item) then None
    else if DeclinedByUser(item) then Some(ToolRejected)
    else if Broke(item) then Some(ToolFailed)
    else Some(ToolCompleted)
  }

  // ----------------------------------------------------------------- reviews

  /** Why a review was needed: the first of these that applies. */
  function TriggerFor(intercepted: bool, network: bool, permissions: bool): Trigger {
    if intercepted then ExecveIntercept
    else if network then NetworkPolicyDenial
    else if permissions then SandboxDenial
    else Initial
  }

  function NameFor(subject: SubjectKind, tool: string): string {
    match subject
    case CommandSubject => "command_execution"
    case FileChangeSubject => "apply_patch"
    case PermissionsSubject => "permissions"
    case NetworkSubject => "network_access"
    case McpSubject => tool
  }

  predicate WantsNetwork(ask: PermissionAsk) {
    ask.network.Some? && ask.network.value
  }

  predicate RequestsNetwork(request: ServerRequest) {
    match request
    case CommandApproval(_, _, _, _, _, context, amendments, additional) =>
      context || amendments != 0 || (additional.Some? && WantsNetwork(additional.value))
    case PermissionsApproval(_, _, _, _, ask) => WantsNetwork(ask)
    case _ => false
  }

  predicate RequestsPermissions(request: ServerRequest) {
    match request
    case CommandApproval(_, _, _, _, _, _, _, additional) => additional.Some?
    case FileChangeApproval(_, _, _, _, grantRoot) => grantRoot
    case PermissionsApproval(_, _, _, _, ask) => ask.fileSystem || WantsNetwork(ask)
    case OtherServerRequest => false
  }

  function SubjectOf(request: ServerRequest): SubjectKind {
    if request.FileChangeApproval? then FileChangeSubject
    else if request.PermissionsApproval? then PermissionsSubject
    else if request.CommandApproval? && request.networkContext then NetworkSubject
    else CommandSubject
  }

  /** The review that an approval request with a valid time asks for. */
  function ReviewAsked(id: RequestId, request: ServerRequest): (review: Option<PendingReview>)
    ensures review == OpenedReview(id, request)
  {
    if request.OtherServerRequest? || Moment(Some(request.startedAtMs)).None? then None
    else
      var network, permissions := RequestsNetwork(request), RequestsPermissions(request);
      Some(PendingReview(
             threadId := request.threadId, turnId := request.turnId, itemId := Some(request.itemId),
             reviewId := ForRequest(id), subject := SubjectOf(request), subjectName := NameFor(SubjectOf(request), ""),
             trigger := TriggerFor(request.CommandApproval? && request.approvalId.Some?, network, permissions),
             startedAtMs := request.startedAtMs, permissions := permissions, network := network))
  }

  predicate GuardsNetwork(action: GuardianAction) {
    action.GuardNetwork? || (action.GuardPermissions? && WantsNetwork(action.ask))
  }

  predicate GuardsPermissions(action: GuardianAction) {
    || action.GuardApplyPatch? || action.GuardNetwork?
    || (action.GuardPermissions? && (action.ask.fileSystem || WantsNetwork(action.ask)))
  }

  function SubjectGuarded(action: GuardianAction): SubjectKind {
    if action.GuardMcp? then McpSubject
    else if action.GuardNetwork? then NetworkSubject
    else if action.GuardPermissions? then PermissionsSubject
    else if action.GuardApplyPatch? then FileChangeSubject
    else CommandSubject
  }

  /** The verdict of a guardian that has come to one. */
  function GuardianVerdict(status: GuardianStatus): (verdict: Option<ReviewStatus>)
    ensures verdict == GuardianResult(status)
  {
    if status == GuardianInProgress then None
    else if status == GuardianTimedOut then Some(TimedOut)
    else if status == GuardianStatusAborted then Some(Aborted)
    else Some(if status == GuardianStatusApproved then Approved else Denied)
  }

  /** The review that a guardian has finished, with valid times. */
  function ReviewGuarded(n: Notification): (review: Option<PendingReview>)
    requires n.GuardianCompleted?
    ensures review == GuardianReviewOf(n)
  {
    if n.status == GuardianInProgress then None
    else if Moment(Some(n.startedAtMs)).None? || Moment(Some(n.completedAtMs)).None? then None
    else
      var network, permissions := GuardsNetwork(n.action), GuardsPermissions(n.action);
      var subject := SubjectGuarded(n.action);
      Some(PendingReview(
             threadId := n.threadId, turnId := n.turnId, itemId := n.target, reviewId := Named(n.name),
             subject := subject, subjectName := NameFor(subject, if n.action.GuardMcp? then n.action.toolName else ""),
             trigger := TriggerFor(n.action.GuardExecve?, network, permissions),
             startedAtMs := n.startedAtMs, permissions := permissions, network := network))
  }

  /** The user's verdict on a command: anything accepted or allowed is approved, only cancelling aborts. */
  function CommandVerdict(decision: CommandDecision): (verdict: (ReviewStatus, Resolution))
    ensures verdict == CommandResult(decision)
  {
    (if decision in {Accept, AcceptForSession, AcceptWithExecPolicy, AllowNetwork} then Approved
     else if decision == Cancel then Aborted
     else Denied,
     if decision == AcceptForSession then SessionApproval
     else if decision == AcceptWithExecPolicy then ExecPolicyAmendment
     else if decision in {AllowNetwork, DenyNetwork} then NetworkPolicyAmendment
     else NoResolution)
  }

  function FileVerdict(decision: FileDecision): (verdict: (ReviewStatus, Resolution))
    ensures verdict == FileChangeResult(decision)
  {
    (if decision == DeclineFile then Denied else if decision == CancelFile then Aborted else Approved,
     if decision == AcceptFileForSession then SessionApproval else NoResolution)
  }

  /** Granting no permission denies; only a grant can last for the session. */
  function GrantVerdict(empty: bool, scope: GrantScope): (verdict: (ReviewStatus, Resolution))
    ensures verdict == PermissionsResult(empty, scope)
  {
    (if empty then Denied else Approved, if !empty && scope == SessionScope then SessionApproval else NoResolution)
  }

  /** How a verdict shows in a tool event. */
  function OutcomeShown(reviewer: Reviewer, status: ReviewStatus, resolution: Resolution): (outcome: ApprovalOutcome)
    ensures outcome == FinalOutcome(reviewer, status, resolution)
  {
    if status == Approved then
      (if reviewer == Guardian then GuardianApproved
       else if resolution == SessionApproval then UserApprovedForSession
       else UserApproved)
    else if status == Denied then (if reviewer == Guardian then GuardianDenied else UserDenied)
    else (if reviewer == Guardian then GuardianAborted else UserAborted)
  }

  /**
   A review counts for a tool item when it is about a command, a file change or an MCP call and
   names the item's thread, turn and id.
   */
  predicate Concerns(review: PendingReview, key: ItemKey): (r: bool)
    ensures r <==> SummaryKey(review) == Some(key)
  {
    && review.subject in {CommandSubject, FileChangeSubject, McpSubject}
    && review.threadId == key.threadId && review.turnId == key.turnId && review.itemId == Some(key.itemId)
  }
}
