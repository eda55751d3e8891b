/**
 What the reducer reports about a turn, against the stream of facts.

 A turn's live acts are the facts about it since its state was last created,
 read off the stream. The state and the emitted report are shown to be the
 aggregates of those acts, field by field.
 */
module ReducerTurns {
  import opened Options
  import opened AnalyticsFacts
  import opened ReducerSpec
  import opened FactReadings
  import opened ReducerSettlement
  import opened Sequences

  /** What a fact says about one turn. */
  datatype Act =
    | Bound(connectionId: ConnectionId, threadId: ThreadId, images: nat)  // response to its start request
    | Interrupted(requestedAtMs: nat)                                     // response to an interrupt request
    | Steered                                                             // response to a steer request
    | Tool(item: ThreadItem)
    | Configured(config: ResolvedConfig)
    | Tokens(threadId: ThreadId, tokens: int)
    | Profiled(profile: TurnProfile)
    | Errored(threadId: ThreadId, error: CodexError)
    | Began(startedAt: Option<nat>)
    | Diffed(threadId: ThreadId, diff: string)
    | Ended(completion: CompletedTurn)

  /** The key of a client response. */
  function ResponseKey(fact: Fact): Option<RequestKey> {
    if fact.ClientResponseFact? then Some((fact.connectionId, fact.requestId)) else None
  }

  /** What a response says about a turn, given the request that was pending under its key. */
  function ResponseAct(pending: Option<RequestState>, c: ConnectionId, response: ClientResponse,
      t: TurnId): Option<Act> {
    match (response, pending)
    case (TurnStartResponse(u), Some(PendingStart(thread, images))) =>
      if u == t then Some(Bound(c, thread, images)) else None
    case (TurnSteerResponse(u), Some(PendingSteer(_, _, _, _))) => if u == t then Some(Steered) else None
    case (TurnInterruptResponse, Some(PendingInterrupt(u, at))) => if u == t then Some(Interrupted(at)) else None
    case _ => None
  }

  function NotificationAct(n: Notification, t: TurnId): Option<Act> {
    match n
    case ItemCompleted(_, u, item, _) => if u == t && !item.OtherItem? then Some(Tool(item)) else None
    case TurnStarted(u, startedAt) => if u == t then Some(Began(Moment(startedAt))) else None
    case TurnDiffUpdated(u, thread, diff) => if u == t then Some(Diffed(thread, diff)) else None
    case TurnEnded(u, _, _, _, _) => if u == t then Some(Ended(Ending(n))) else None
    case _ => None
  }

  function CustomAct(fact: CustomFact, t: TurnId): Option<Act> {
    match fact
    case ConfigFact(config) => if config.turnId == t then Some(Configured(config)) else None
    case TokenUsageFact(u, thread, tokens) => if u == t then Some(Tokens(thread, tokens)) else None
    case ProfileFact(u, profile) => if u == t then Some(Profiled(profile)) else None
    case CodexErrorFact(u, thread, error) => if u == t then Some(Errored(thread, error)) else None
    case _ => None
  }

  function FactAct(pending: Option<RequestState>, fact: Fact, t: TurnId): Option<Act> {
    match fact
    case ClientResponseFact(c, _, response, _) => ResponseAct(pending, c, response, t)
    case Notified(n) => NotificationAct(n, t)
    case Custom(custom) => CustomAct(custom, t)
    case _ => None
  }

  /** An accepted steer or a completed tool alone does not create a turn's state. */
  predicate Creates(a: Act) {
    !a.Steered? && !a.Tool?
  }

  /** The acts after which the reducer tries to report the turn. */
  predicate Triggers(a: Act) {
    a.Bound? || a.Interrupted? || a.Configured? || a.Tokens? || a.Profiled? || a.Ended?
  }

  // ----------------------------------------------------------- one step

  function Applied(turn: TurnState, a: Act): TurnState {
    match a
    case Bound(c, thread, images) => turn.(connectionId := Some(c), threadId := Some(thread), images := Some(images))
    case Interrupted(at) => InterruptedTurn(turn, at)
    case Steered => turn.(steerCount := turn.steerCount + 1)
    case Tool(item) => turn.(toolCounts := CountTool(turn.toolCounts, item))
    case Configured(config) =>
      turn.(threadId := Some(config.threadId), images := Some(config.images), config := Some(config))
    case Tokens(thread, tokens) => turn.(threadId := Some(thread), tokenUsage := Some(tokens))
    case Profiled(profile) => turn.(profile := Some(profile))
    case Errored(thread, error) =>
      turn.(threadId := if turn.threadId.Some? then turn.threadId else Some(thread), codexError := Some(error))
    case Began(startedAt) => turn.(startedAt := startedAt)
    case Diffed(thread, diff) => turn.(threadId := Some(thread), latestDiff := Some(diff))
    case Ended(completion) => turn.(completed := Some(completion))
  }

  function TurnOption(s: State, t: TurnId): Option<TurnState> {
    if t in s.turns then Some(s.turns[t]) else None
  }

  function ActOf(s: State, fact: Fact, t: TurnId): Option<Act> {
    FactAct(if ResponseKey(fact).Some? then RequestAt(s, ResponseKey(fact).value) else None, fact, t)
  }

  /** The turn's state with an act added, before any attempt to report it. */
  function Touched(turn: Option<TurnState>, a: Option<Act>): Option<TurnState> {
    if a.None? then turn
    else if turn.Some? then Some(Applied(turn.value, a.value))
    else if Creates(a.value) then Some(Applied(FRESH_TURN, a.value))
    else None
  }

  function IsOutputOf(t: TurnId): Event -> bool {
    (e: Event) => TurnOutput(e) && e.turnId == t
  }

  /** The turn event and the accepted lines that end a turn. */
  function OutputsOf(t: TurnId, events: seq<Event>): seq<Event> {
    Filter(IsOutputOf(t), events)
  }

  /** A turn is reported when an act triggers it, it is complete and its context resolves. */
  predicate Reports(s: State, turn: Option<TurnState>, trigger: bool) {
    trigger && turn.Some? && Ready(turn.value) && TurnContext(s, turn.value).Some?
  }

  predicate Reported(t: TurnId, s: State, turn: Option<TurnState>, trigger: bool, input: Input, o: Out) {
    if Reports(s, turn, trigger) then
      && TurnOption(o.state, t) == None
      && OutputsOf(t, o.events) == ReportEvents(t, TurnContext(s, turn.value).value, turn.value, input)
    else TurnOption(o.state, t) == turn && OutputsOf(t, o.events) == []
  }

  /** What the report of a turn consists of. */
  function ReportEvents(t: TurnId, source: Attribution, turn: TurnState, input: Input): seq<Event>
    requires Ready(turn)
  {
    [TurnEvent(t, source, Report(turn))] + AcceptedLineEvents(t, turn, input)
  }

  lemma NoOutputs(t: TurnId, events: seq<Event>)
    requires forall i :: 0 <= i < |events| ==> !(TurnOutput(events[i]) && events[i].turnId == t)
    ensures OutputsOf(t, events) == []
  {
    FilterNone(IsOutputOf(t), events);
  }

  /** A step that neither touches the turn nor emits a turn event of it. */
  lemma Untouched(t: TurnId, s: State, input: Input, o: Out)
    requires TurnOption(o.state, t) == TurnOption(s, t)
    requires forall i :: 0 <= i < |o.events| ==> !(TurnOutput(o.events[i]) && o.events[i].turnId == t)
    ensures Reported(t, s, TurnOption(s, t), false, input, o)
  {
    NoOutputs(t, o.events);
  }

  lemma {:induction false} OnlyOutputs(t: TurnId, events: seq<Event>)
    requires forall i :: 0 <= i < |events| ==> TurnOutput(events[i]) && events[i].turnId == t
    ensures OutputsOf(t, events) == events
  {
    if events != [] {
      OnlyOutputs(t, events[..|events| - 1]);
    }
  }

  lemma MaybeEmitReports(t: TurnId, s: State, base: State, input: Input)
    requires t in s.turns && s.connections == base.connections && s.threads == base.threads
    ensures Reported(t, base, TurnOption(s, t), true, input, MaybeEmitTurn(s, t, input))
  {
    hide TurnContext, OutputsOf, Report;
    var turn, o := s.turns[t], MaybeEmitTurn(s, t, input);
    if Ready(turn) {
      SameTurnContext(s, base, turn);
      if TurnContext(s, turn).Some? {
        OnlyOutputs(t, o.events);
      } else {
        NoOutputs(t, o.events);
      }
    } else {
      NoOutputs(t, o.events);
    }
  }

  lemma MaybeEmitElse(t: TurnId, s: State, u: TurnId, input: Input)
    requires u != t
    ensures TurnOption(MaybeEmitTurn(s, u, input).state, t) == TurnOption(s, t)
  {
    hide TurnContext, Report, AcceptedLineEvents;
  }

  /** Setting a turn and trying to report it, as seen by turn `t`. */
  lemma TriggerReports(t: TurnId, base: State, s: State, u: TurnId, turn: TurnState, input: Input)
    requires s.connections == base.connections && s.threads == base.threads && s.turns == base.turns
    ensures Reported(t, base, if u == t then Some(turn) else TurnOption(base, t), u == t, input,
                     MaybeEmitTurn(SetTurn(s, u, turn), u, input))
  {
    hide Reported, MaybeEmitTurn;
    if u == t {
      MaybeEmitReports(t, SetTurn(s, t, turn), base, input);
    } else {
      MaybeEmitElse(t, SetTurn(s, u, turn), u, input);
      Untouched(t, base, input, MaybeEmitTurn(SetTurn(s, u, turn), u, input));
    }
  }

  predicate StepReported(t: TurnId, s: State, input: Input, o: Out) {
    var a := ActOf(s, input.fact, t);
    Reported(t, s, Touched(TurnOption(s, t), a), a.Some? && Triggers(a.value), input, o)
  }

  lemma StartedIsApplied(turn: TurnState, c: ConnectionId, pending: RequestState)
    requires pending.PendingStart?
    ensures StartedTurn(turn, c, pending) == Applied(turn, Bound(c, pending.threadId, pending.images))
  {
  }

  lemma StartReported(t: TurnId, s: State, key: RequestKey, u: TurnId, input: Input)
    ensures var a := ResponseAct(RequestAt(s, key), key.0, TurnStartResponse(u), t);
            Reported(t, s, Touched(TurnOption(s, t), a), a.Some? && Triggers(a.value), input,
                     IngestStartResponse(s, key, u, input))
  {
    hide Reported, MaybeEmitTurn, Applied, StartedTurn;
    if key in s.requests && s.requests[key].PendingStart? {
      StartedIsApplied(TurnAt(s, u), key.0, s.requests[key]);
      TriggerReports(t, s, Consume(s, key), u, StartedTurn(TurnAt(s, u), key.0, s.requests[key]), input);
    } else {
      Untouched(t, s, input, IngestStartResponse(s, key, u, input));
    }
  }

  lemma InterruptReported(t: TurnId, s: State, key: RequestKey, input: Input)
    ensures var a := ResponseAct(RequestAt(s, key), key.0, TurnInterruptResponse, t);
            Reported(t, s, Touched(TurnOption(s, t), a), a.Some? && Triggers(a.value), input,
                     IngestInterruptResponse(s, key, input))
  {
    hide Reported, MaybeEmitTurn, InterruptedTurn;
    if key in s.requests && s.requests[key].PendingInterrupt? {
      var pending := s.requests[key];
      TriggerReports(t, s, Consume(s, key), pending.turnId,
                     InterruptedTurn(TurnAt(s, pending.turnId), pending.requestedAtMs), input);
    } else {
      Untouched(t, s, input, IngestInterruptResponse(s, key, input));
    }
  }

  lemma ResponseReported(t: TurnId, s: State, key: RequestKey, response: ClientResponse, originator: Option<string>,
      input: Input)
    ensures var a := ResponseAct(RequestAt(s, key), key.0, response, t);
            Reported(t, s, Touched(TurnOption(s, t), a), a.Some? && Triggers(a.value), input,
                     IngestResponse(s, key, response, originator, input))
  {
    hide Reported, IngestStartResponse, IngestInterruptResponse, IngestSteerResponse, Applied;
    match response
    case TurnStartResponse(u) => StartReported(t, s, key, u, input);
    case TurnInterruptResponse => InterruptReported(t, s, key, input);
    case TurnSteerResponse(u) => SteerReported(t, s, key, u, input);
    case _ => Untouched(t, s, input, IngestResponse(s, key, response, originator, input));
  }

  lemma SteerReported(t: TurnId, s: State, key: RequestKey, u: TurnId, input: Input)
    ensures var a := ResponseAct(RequestAt(s, key), key.0, TurnSteerResponse(u), t);
            Reported(t, s, Touched(TurnOption(s, t), a), false, input, IngestSteerResponse(s, key, u))
  {
    NoOutputs(t, IngestSteerResponse(s, key, u).events);
  }

  lemma NotificationReported(t: TurnId, s: State, n: Notification, input: Input)
    ensures var a := NotificationAct(n, t);
            Reported(t, s, Touched(TurnOption(s, t), a), a.Some? && Triggers(a.value), input,
                     IngestNotification(s, n, input))
  {
    hide Reported, MaybeEmitTurn, IngestItemStarted, IngestItemCompleted, EmitReview;
    match n
    case ItemCompleted(thread, u, item, completedAtMs) =>
      ItemReported(t, s, thread, u, item, completedAtMs, input);
    case TurnStarted(u, startedAt) =>
      SetReported(t, s, u, TurnAt(s, u).(startedAt := OptionToUnsigned(startedAt)), input);
    case TurnDiffUpdated(u, thread, diff) =>
      SetReported(t, s, u, TurnAt(s, u).(threadId := Some(thread), latestDiff := Some(diff)), input);
    case TurnEnded(u, _, _, _, _) =>
      TriggerReports(t, s, s, u, TurnAt(s, u).(completed := Some(CompletionOf(n))), input);
    case _ => Untouched(t, s, input, IngestNotification(s, n, input));
  }

  lemma SetReported(t: TurnId, s: State, u: TurnId, turn: TurnState, input: Input)
    ensures Reported(t, s, if u == t then Some(turn) else TurnOption(s, t), false, input, Out(SetTurn(s, u, turn), []))
  {
    NoOutputs(t, []);
  }

  lemma ItemTurn(t: TurnId, s: State, thread: ThreadId, u: TurnId, item: ThreadItem, completedAtMs: int)
    ensures TurnOption(IngestItemCompleted(s, thread, u, item, completedAtMs).state, t)
         == Touched(TurnOption(s, t), if u == t && !item.OtherItem? then Some(Tool(item)) else None)
  {
    hide ThreadContext, CountTool, ToolEvents;
  }

  lemma ItemReported(t: TurnId, s: State, thread: ThreadId, u: TurnId, item: ThreadItem, completedAtMs: int,
      input: Input)
    ensures Reported(t, s, Touched(TurnOption(s, t), if u == t && !item.OtherItem? then Some(Tool(item)) else None),
                     false, input, IngestItemCompleted(s, thread, u, item, completedAtMs))
  {
    hide CountTool, IngestItemCompleted, OutputsOf;
    ItemTurn(t, s, thread, u, item, completedAtMs);
    NoOutputs(t, IngestItemCompleted(s, thread, u, item, completedAtMs).events);
  }

  lemma CustomReported(t: TurnId, s: State, fact: CustomFact, input: Input)
    ensures var a := CustomAct(fact, t);
            Reported(t, s, Touched(TurnOption(s, t), a), a.Some? && Triggers(a.value), input,
                     IngestCustom(s, fact, input))
  {
    hide Reported, MaybeEmitTurn, ThreadContext, SubAgentThread;
    match fact
    case ConfigFact(config) =>
      var turn := TurnAt(s, config.turnId).(threadId := Some(config.threadId), images := Some(config.images),
                                            config := Some(config));
      TriggerReports(t, s, s, config.turnId, turn, input);
    case TokenUsageFact(u, thread, tokens) =>
      TriggerReports(t, s, s, u, TurnAt(s, u).(threadId := Some(thread), tokenUsage := Some(tokens)), input);
    case ProfileFact(u, profile) => TriggerReports(t, s, s, u, TurnAt(s, u).(profile := Some(profile)), input);
    case CodexErrorFact(u, thread, error) =>
      var turn := TurnAt(s, u);
      SetReported(t, s, u, turn.(threadId := if turn.threadId.Some? then turn.threadId else Some(thread),
                                 codexError := Some(error)), input);
    case _ => Untouched(t, s, input, IngestCustom(s, fact, input));
  }

  /** What one fact does to one turn, and which turn event it emits. */
  lemma StepOnTurn(t: TurnId, s: State, input: Input)
    ensures StepReported(t, s, input, Step(s, input))
  {
    hide IngestResponse, IngestCustom, IngestNotification, SettleReview, IngestServerResponse,
      IngestServerRequest, IngestErrorResponse, IngestRequest, IngestInitialize, Reported, RequestAt;
    match input.fact
    case ClientResponseFact(c, id, response, originator) =>
      ResponseReported(t, s, (c, id), response, originator, input);
    case Notified(n) => NotificationReported(t, s, n, input);
    case Custom(fact) => CustomReported(t, s, fact, input);
    case _ => OtherOnTurn(t, s, input);
  }

  lemma OtherOnTurn(t: TurnId, s: State, input: Input)
    requires !input.fact.ClientResponseFact? && !input.fact.Notified? && !input.fact.Custom?
    ensures Reported(t, s, TurnOption(s, t), false, input, Step(s, input))
  {
    hide IngestResponse, IngestCustom, IngestNotification, SettleReview, IngestServerResponse,
      IngestServerRequest, IngestRequest, EmitSteer, Reported;
    if input.fact.ErrorResponse? {
      ErrorNoReviews(s, (input.fact.connectionId, input.fact.requestId), input.fact.rejection);
    }
    Untouched(t, s, input, Step(s, input));
  }
}
