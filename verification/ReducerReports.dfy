/**
 The reports of turns over whole runs: every report is the aggregate of the
 turn's live acts, no fact is reported twice, and no complete turn is left
 unreported when its thread and connection were known.
 */
module ReducerReports {
  import opened Options
  import Protocol
  import opened AnalyticsFacts
  import opened ReducerSpec
  import opened ReducerSettlement
  import opened ReducerThreads
  import opened ReducerTurns
  import opened Sequences
  import UnifiedDiff

  // --------------------------------------------------------------- live acts

  /** What a fact says about a turn at the end of a stream, read off the stream alone. */
  function TraceAct(inputs: seq<Input>, fact: Fact, t: TurnId): Option<Act> {
    FactAct(if ResponseKey(fact).Some? then PendingRequest(inputs, ResponseKey(fact).value) else None, fact, t)
  }

  function WithAct(acts: seq<Act>, a: Option<Act>): seq<Act> {
    if a.None? || (acts == [] && !Creates(a.value)) then acts else acts + [a.value]
  }

  /** The acts on a turn since it was last reported, from the one that created its state on. */
  function Live(inputs: seq<Input>, t: TurnId): seq<Act> {
    if inputs == [] then []
    else
      var front, fact := inputs[..|inputs| - 1], inputs[|inputs| - 1].fact;
      var acts := WithAct(Live(front, t), TraceAct(front, fact, t));
      if TraceReports(front, acts, TriggersAt(front, fact, t)) then [] else acts
  }

  predicate TriggersAt(inputs: seq<Input>, fact: Fact, t: TurnId) {
    TraceAct(inputs, fact, t).Some? && Triggers(TraceAct(inputs, fact, t).value)
  }

  /** After a stream, a trigger reports these acts: they complete the turn and its context resolves. */
  predicate TraceReports(inputs: seq<Input>, acts: seq<Act>, trigger: bool) {
    trigger && acts != [] && Complete(acts) && TraceTurnContext(inputs, Assembled(acts)).Some?
  }

  // -------------------------------------------------------------- aggregates

  /** The value of the last act that has one. */
  function Latest<T>(f: Act -> Option<T>, acts: seq<Act>): Option<T> {
    if acts == [] then None
    else if f(acts[|acts| - 1]).Some? then f(acts[|acts| - 1])
    else Latest(f, acts[..|acts| - 1])
  }

  /** The value of the first act that has one. */
  function First<T>(f: Act -> Option<T>, acts: seq<Act>): Option<T> {
    if acts == [] then None
    else if First(f, acts[..|acts| - 1]).Some? then First(f, acts[..|acts| - 1])
    else f(acts[|acts| - 1])
  }

  function ConnectionOf(a: Act): Option<ConnectionId> { if a.Bound? then Some(a.connectionId) else None }
  function ImagesOf(a: Act): Option<nat> {
    match a case Bound(_, _, images) => Some(images) case Configured(config) => Some(config.images) case _ => None
  }
  function ConfigOf(a: Act): Option<ResolvedConfig> { if a.Configured? then Some(a.config) else None }
  function StartOf(a: Act): Option<Option<nat>> { if a.Began? then Some(a.startedAt) else None }
  function TokensOf(a: Act): Option<int> { if a.Tokens? then Some(a.tokens) else None }
  function ProfileOf(a: Act): Option<TurnProfile> { if a.Profiled? then Some(a.profile) else None }
  function EndOf(a: Act): Option<CompletedTurn> { if a.Ended? then Some(a.completion) else None }
  function ErrorOf(a: Act): Option<CodexError> { if a.Errored? then Some(a.error) else None }
  function DiffOf(a: Act): Option<string> { if a.Diffed? then Some(a.diff) else None }
  function ErrorThreadOf(a: Act): Option<ThreadId> { if a.Errored? then Some(a.threadId) else None }
  function ThreadOf(a: Act): Option<ThreadId> {
    match a
    case Bound(_, thread, _) => Some(thread)
    case Configured(config) => Some(config.threadId)
    case Tokens(thread, _) => Some(thread)
    case Diffed(thread, _) => Some(thread)
    case _ => None
  }

  /** The last thread named, or the one the first error names when nothing else names any. */
  function ThreadOfAll(acts: seq<Act>): Option<ThreadId> {
    if Latest(ThreadOf, acts).Some? then Latest(ThreadOf, acts) else First(ErrorThreadOf, acts)
  }

  /** The earliest request time of the accepted interrupts. */
  function Earliest(acts: seq<Act>): Option<nat> {
    if acts == [] then None
    else
      var before, last := Earliest(acts[..|acts| - 1]), acts[|acts| - 1];
      if !last.Interrupted? then before
      else if before.Some? && before.value <= last.requestedAtMs then before
      else Some(last.requestedAtMs)
  }

  datatype ToolKind = ShellCommand | Patch | Mcp | Dynamic | Subagent | Web | Image

  function KindOf(item: ThreadItem): Option<ToolKind> {
    match item
    case CommandExecution(_, _) => Some(ShellCommand)
    case FileChange(_, _) => Some(Patch)
    case McpToolCall(_, _, _) => Some(Mcp)
    case DynamicToolCall(_, _) => Some(Dynamic)
    case CollabAgentToolCall(_, _) | SubAgentActivity(_) => Some(Subagent)
    case WebSearch(_) => Some(Web)
    case ImageGeneration(_, _) => Some(Image)
    case OtherItem(_) => None
  }

  function OfKind(kind: ToolKind): Act -> bool {
    (a: Act) => a.Tool? && KindOf(a.item) == Some(kind)
  }

  predicate IsTool(a: Act) { a.Tool? && KindOf(a.item).Some? }
  predicate IsSteered(a: Act) { a.Steered? }

  function ToolsIn(acts: seq<Act>): ToolCounts {
    ToolCounts(Count(IsTool, acts), Count(OfKind(ShellCommand), acts), Count(OfKind(Patch), acts),
               Count(OfKind(Mcp), acts), Count(OfKind(Dynamic), acts), Count(OfKind(Subagent), acts),
               Count(OfKind(Web), acts), Count(OfKind(Image), acts))
  }

  /** The state of a turn with these acts, field by field. */
  function Assembled(acts: seq<Act>): TurnState {
    var began := Latest(StartOf, acts);
    TurnState(Latest(ConnectionOf, acts), ThreadOfAll(acts), Latest(ImagesOf, acts), Latest(ConfigOf, acts),
              if began.Some? then began.value else None, Latest(TokensOf, acts), Latest(ProfileOf, acts),
              Latest(EndOf, acts), Earliest(acts), Latest(ErrorOf, acts), Latest(DiffOf, acts),
              Count(IsSteered, acts), ToolsIn(acts))
  }

  /** The acts name a thread, an image count, a configuration, a profile and a completion. */
  predicate Complete(acts: seq<Act>): (r: bool)
    ensures r <==> Ready(Assembled(acts))
  {
    && ThreadOfAll(acts).Some? && Latest(ImagesOf, acts).Some? && Latest(ConfigOf, acts).Some?
    && Latest(ProfileOf, acts).Some? && Latest(EndOf, acts).Some?
  }

  /** The accepted lines of the last diff among the acts: none when it neither adds nor deletes any. */
  function LinesAccepted(t: TurnId, acts: seq<Act>, input: Input): seq<Event>
    requires Complete(acts)
  {
    var diff := Latest(DiffOf, acts);
    var scan := if diff.Some? then UnifiedDiff.ScanDiff(diff.value) else UnifiedDiff.START;
    if scan.added == [] && scan.deleted == 0 then []
    else [AcceptedLines(turnId := t, threadId := ThreadOfAll(acts).value, model := Latest(ConfigOf, acts).value.model,
                        completedAt := input.now, repoHash := input.repoHash,
                        added := |scan.added|, deleted := scan.deleted)]
  }

  /** The report of a turn: what its acts come to, field by field, and the lines accepted. */
  function Summed(t: TurnId, source: Attribution, acts: seq<Act>, input: Input): (events: seq<Event>)
    requires Complete(acts)
    ensures events == ReportEvents(t, source, Assembled(acts), input)
  {
    var began := Latest(StartOf, acts);
    var report := TurnReport(
      threadId := ThreadOfAll(acts).value, images := Latest(ImagesOf, acts).value,
      config := Latest(ConfigOf, acts).value,
      startedAt := if began.Some? then began.value else None, tokenUsage := Latest(TokensOf, acts),
      profile := Latest(ProfileOf, acts).value, completed := Latest(EndOf, acts).value,
      interruptRequestedAtMs := Earliest(acts), codexError := Latest(ErrorOf, acts),
      steerCount := Count(IsSteered, acts), toolCounts := ToolsIn(acts));
    [TurnEvent(t, source, report)] + LinesAccepted(t, acts, input)
  }

  /** `Earliest` is the minimum over the accepted interrupts, whatever the order of their responses. */
  lemma {:induction false} EarliestIsMinimum(acts: seq<Act>)
    ensures Earliest(acts).None? <==> forall i :: 0 <= i < |acts| ==> !acts[i].Interrupted?
    ensures Earliest(acts).Some? ==> Interrupted(Earliest(acts).value) in acts
    ensures Earliest(acts).Some? ==>
              forall i :: 0 <= i < |acts| && acts[i].Interrupted? ==> Earliest(acts).value <= acts[i].requestedAtMs
  {
    if acts != [] {
      var front := acts[..|acts| - 1];
      EarliestIsMinimum(front);
      assert acts == front + [acts[|acts| - 1]];
    }
  }

  /** The tool total is the sum of its seven categories. */
  lemma {:induction false} TotalIsSum(acts: seq<Act>)
    ensures var c := ToolsIn(acts);
            c.total == c.shellCommand + c.fileChange + c.mcpToolCall + c.dynamicToolCall + c.subagentToolCall
                       + c.webSearch + c.imageGeneration
  {
    if acts != [] {
      TotalIsSum(acts[..|acts| - 1]);
    }
  }

  lemma ToolsSnoc(acts: seq<Act>, a: Act)
    ensures ToolsIn(acts + [a]) == if a.Tool? then CountTool(ToolsIn(acts), a.item) else ToolsIn(acts)
  {
    assert (acts + [a])[..|acts|] == acts;
  }

  lemma AssembledSnoc(acts: seq<Act>, a: Act)
    ensures Assembled(acts + [a]) == Applied(Assembled(acts), a)
  {
    hide ToolsIn, CountTool;
    var all := acts + [a];
    assert all[..|all| - 1] == acts;
    ToolsSnoc(acts, a);
  }

  lemma AssembledNothing()
    ensures Assembled([]) == FRESH_TURN
  {
  }

  // ----------------------------------------------------- states refine acts

  function StateOf(acts: seq<Act>): Option<TurnState> {
    if acts == [] then None else Some(Assembled(acts))
  }

  lemma TouchedAssembles(acts: seq<Act>, a: Option<Act>)
    ensures Touched(StateOf(acts), a) == StateOf(WithAct(acts, a))
  {
    hide Assembled, Applied;
    if a.Some? {
      AssembledSnoc(acts, a.value);
      AssembledNothing();
    }
  }

  lemma TraceActIsAct(inputs: seq<Input>, fact: Fact, t: TurnId)
    ensures TraceAct(inputs, fact, t) == ActOf(Run(inputs).state, fact, t)
  {
    hide RunFrom, PendingRequest, FactAct;
    if ResponseKey(fact).Some? {
      RequestsRefineTrace(inputs, ResponseKey(fact).value);
    }
  }

  lemma ReportsIsTraceReports(inputs: seq<Input>, acts: seq<Act>, trigger: bool)
    ensures Reports(Run(inputs).state, StateOf(acts), trigger) <==> TraceReports(inputs, acts, trigger)
    ensures TraceReports(inputs, acts, trigger) ==>
              TurnContext(Run(inputs).state, Assembled(acts)) == TraceTurnContext(inputs, Assembled(acts))
  {
    hide RunFrom, Assembled, TurnContext, TraceTurnContext;
    if acts != [] && Ready(Assembled(acts)) {
      TurnContextsRefineTrace(inputs, Assembled(acts));
    }
  }

  /** What one more fact makes of a turn, once the turn is known to be the aggregate of its live acts. */
  lemma NextReported(front: seq<Input>, last: Input, t: TurnId)
    requires TurnOption(Run(front).state, t) == StateOf(Live(front, t))
    ensures Reported(t, Run(front).state, StateOf(ActsAt(front, last.fact, t)), TriggersAt(front, last.fact, t), last,
                     Step(Run(front).state, last))
  {
    hide Step, RunFrom, Assembled, TraceAct, ActOf, Touched, Reported, Live;
    StepOnTurn(t, Run(front).state, last);
    TraceActIsAct(front, last.fact, t);
    TouchedAssembles(Live(front, t), TraceAct(front, last.fact, t));
  }

  /** In every run the state of a turn is the aggregate of its live acts. */
  lemma {:induction false} StateRefinesTrace(inputs: seq<Input>, t: TurnId)
    ensures TurnOption(Run(inputs).state, t) == StateOf(Live(inputs, t))
  {
    hide Step, Assembled, TraceAct, Reports, TraceReports, OutputsOf, TurnContext, ReportEvents;
    if inputs != [] {
      var front, last := inputs[..|inputs| - 1], inputs[|inputs| - 1];
      StateRefinesTrace(front, t);
      NextReported(front, last, t);
      ReportsIsTraceReports(front, ActsAt(front, last.fact, t), TriggersAt(front, last.fact, t));
    }
  }

  /** The acts a fact would report. */
  function ActsAt(inputs: seq<Input>, fact: Fact, t: TurnId): seq<Act> {
    WithAct(Live(inputs, t), TraceAct(inputs, fact, t))
  }

  /** The report of a turn that the stream calls for when a fact comes in. */
  function ReportAt(inputs: seq<Input>, input: Input, t: TurnId): seq<Event> {
    var acts := ActsAt(inputs, input.fact, t);
    if TraceReports(inputs, acts, TriggersAt(inputs, input.fact, t))
    then Summed(t, TraceTurnContext(inputs, Assembled(acts)).value, acts, input)
    else []
  }

  lemma StepReports(inputs: seq<Input>, input: Input, t: TurnId)
    ensures OutputsOf(t, Step(Run(inputs).state, input).events) == ReportAt(inputs, input, t)
  {
    hide Step, RunFrom, Assembled, ActsAt, TriggersAt, Reports, OutputsOf, TurnContext, TraceTurnContext,
      ReportEvents, Live;
    StateRefinesTrace(inputs, t);
    NextReported(inputs, input, t);
    ReportsIsTraceReports(inputs, ActsAt(inputs, input.fact, t), TriggersAt(inputs, input.fact, t));
  }

  /** The reports of a turn that a stream calls for, in order. */
  function ReportsOf(inputs: seq<Input>, t: TurnId): seq<Event> {
    if inputs == [] then []
    else
      var front := inputs[..|inputs| - 1];
      ReportsOf(front, t) + ReportAt(front, inputs[|inputs| - 1], t)
  }

  /**
   The reports of a turn in a run, exactly: there is one for each fact that triggers it while the
   live acts make the turn complete and the stream gives the turn a context. It carries that
   context and the aggregates of those acts, and the accepted lines of the last diff among them
   follow it.
   */
  lemma {:induction false} ReportsRefineTrace(inputs: seq<Input>, t: TurnId)
    ensures OutputsOf(t, Run(inputs).events) == ReportsOf(inputs, t)
  {
    hide Step, ReportAt, IsOutputOf;
    if inputs != [] {
      var front, last := inputs[..|inputs| - 1], inputs[|inputs| - 1];
      ReportsRefineTrace(front, t);
      StepReports(front, last, t);
      FilterAppend(IsOutputOf(t), Run(front).events, Step(Run(front).state, last).events);
    }
  }

  // ------------------------------------------------------ no double counting

  /** The three kinds of facts every report needs. */
  datatype Need = NeedConfig | NeedProfile | NeedCompletion

  function Meets(need: Need): Act -> bool {
    (a: Act) =>
      match need case NeedConfig => a.Configured? case NeedProfile => a.Profiled? case NeedCompletion => a.Ended?
  }

  /** The facts of a turn that meet a need. */
  function FactsFor(need: Need, t: TurnId): Input -> bool {
    (input: Input) =>
      match need
      case NeedConfig => input.fact.Custom? && input.fact.custom.ConfigFact? && input.fact.custom.config.turnId == t
      case NeedProfile => input.fact.Custom? && input.fact.custom.ProfileFact? && input.fact.custom.turnId == t
      case NeedCompletion =>
        input.fact.Notified? && input.fact.notification.TurnEnded? && input.fact.notification.turnId == t
  }

  lemma MeetingFacts(need: Need, inputs: seq<Input>, input: Input, t: TurnId)
    ensures FactsFor(need, t)(input)
       <==> TraceAct(inputs, input.fact, t).Some? && Meets(need)(TraceAct(inputs, input.fact, t).value)
  {
    hide PendingRequest;
  }

  lemma {:induction false} LatestNone<T>(f: Act -> Option<T>, p: Act -> bool, acts: seq<Act>)
    requires forall a :: p(a) <==> f(a).Some?
    ensures Latest(f, acts).Some? <==> Count(p, acts) > 0
  {
    if acts != [] {
      LatestNone(f, p, acts[..|acts| - 1]);
    }
  }

  lemma ReadyMeetsAll(need: Need, acts: seq<Act>)
    requires Ready(Assembled(acts))
    ensures Count(Meets(need), acts) > 0
  {
    match need
    case NeedConfig => LatestNone(ConfigOf, Meets(need), acts);
    case NeedProfile => LatestNone(ProfileOf, Meets(need), acts);
    case NeedCompletion => LatestNone(EndOf, Meets(need), acts);
  }

  function IsReportOf(t: TurnId): Event -> bool {
    (e: Event) => e.TurnEvent? && e.turnId == t
  }

  lemma {:induction false} OutputsCountReports(t: TurnId, events: seq<Event>)
    ensures Count(IsReportOf(t), OutputsOf(t, events)) == Count(IsReportOf(t), events)
  {
    if events != [] {
      var front, last := events[..|events| - 1], events[|events| - 1];
      OutputsCountReports(t, front);
      if IsOutputOf(t)(last) {
        CountAppend(IsReportOf(t), OutputsOf(t, front), [last]);
        CountOne(IsReportOf(t), last);
      } else {
        assert OutputsOf(t, events) == OutputsOf(t, front);
      }
    }
  }

  lemma OneReport(t: TurnId, source: Attribution, turn: TurnState, input: Input)
    requires Ready(turn)
    ensures Count(IsReportOf(t), ReportEvents(t, source, turn, input)) == 1
  {
    CountAppend(IsReportOf(t), [TurnEvent(t, source, Report(turn))], AcceptedLineEvents(t, turn, input));
    CountOne(IsReportOf(t), TurnEvent(t, source, Report(turn)));
    CountNone(IsReportOf(t), AcceptedLineEvents(t, turn, input));
  }

  lemma ReportsCounted(inputs: seq<Input>, input: Input, t: TurnId)
    ensures Count(IsReportOf(t), Step(Run(inputs).state, input).events)
         == if TraceReports(inputs, ActsAt(inputs, input.fact, t), TriggersAt(inputs, input.fact, t)) then 1 else 0
  {
    hide Step, RunFrom, Assembled, ActsAt, TriggersAt, ReportEvents, TraceTurnContext, OutputsOf, Count;
    StepReports(inputs, input, t);
    OutputsCountReports(t, Step(Run(inputs).state, input).events);
    var acts := ActsAt(inputs, input.fact, t);
    if TraceReports(inputs, acts, TriggersAt(inputs, input.fact, t)) {
      OneReport(t, TraceTurnContext(inputs, Assembled(acts)).value, Assembled(acts), input);
    } else {
      CountNone(IsReportOf(t), []);
    }
  }

  /**
   Over every run each turn event of `t` uses up a configuration, a profile and a completion of
   its own: all three have come in since the event before it, and what is still live comes on top.
   */
  lemma {:induction false} NoDoubleCounting(need: Need, inputs: seq<Input>, t: TurnId)
    ensures Count(IsReportOf(t), Run(inputs).events) + (if Count(Meets(need), Live(inputs, t)) > 0 then 1 else 0)
         <= Count(FactsFor(need, t), inputs)
  {
    hide Step, TraceAct, Assembled, TraceTurnContext, Ready, Meets, FactsFor, IsReportOf;
    if inputs != [] {
      var front, last := inputs[..|inputs| - 1], inputs[|inputs| - 1];
      var a, acts := TraceAct(front, last.fact, t), ActsAt(front, last.fact, t);
      var s := Run(front);
      NoDoubleCounting(need, front, t);
      MeetingFacts(need, front, last, t);
      ReportsCounted(front, last, t);
      CountAppend(IsReportOf(t), s.events, Step(s.state, last).events);
      MeetsSnoc(need, Live(front, t), a);
      if TraceReports(front, acts, TriggersAt(front, last.fact, t)) {
        ReadyMeetsAll(need, acts);
      }
    }
  }

  lemma MeetsSnoc(need: Need, acts: seq<Act>, a: Option<Act>)
    ensures Count(Meets(need), WithAct(acts, a))
         == Count(Meets(need), acts) + if a.Some? && Meets(need)(a.value) then 1 else 0
  {
    if a.Some? {
      CountAppend(Meets(need), acts, [a.value]);
      CountOne(Meets(need), a.value);
    }
  }

  // ------------------------------------------------------- no missed reports

  /** A turn that has everything a report needs from the stream. */
  predicate HoldsAll(turn: TurnState) {
    turn.config.Some? && turn.profile.Some? && turn.completed.Some?
  }

  /** The stream has made the threads and connections known that an act names. */
  predicate Informed(inputs: seq<Input>, a: Act) {
    match a
    case Bound(c, thread, _) => TraceConnection(inputs, c).Some? && TraceContext(inputs, thread).Some?
    case Configured(config) => TraceContext(inputs, config.threadId).Some?
    case Tokens(thread, _) => TraceContext(inputs, thread).Some?
    case Errored(thread, _) => TraceContext(inputs, thread).Some?
    case Diffed(thread, _) => TraceContext(inputs, thread).Some?
    case _ => true
  }

  /** Every act on the turn names only threads and connections known by then. */
  predicate InformedRun(inputs: seq<Input>, t: TurnId) {
    inputs == []
    || (var front, fact := inputs[..|inputs| - 1], inputs[|inputs| - 1].fact;
        && InformedRun(front, t)
        && (TraceAct(front, fact, t).Some? ==> Informed(front, TraceAct(front, fact, t).value)))
  }

  /** What a turn names resolves, and its configuration came with a thread and an image count. */
  predicate Resolves(inputs: seq<Input>, turn: TurnState) {
    && (turn.threadId.Some? ==> TraceContext(inputs, turn.threadId.value).Some?)
    && (turn.connectionId.Some? ==> TraceConnection(inputs, turn.connectionId.value).Some?)
    && Configurable(turn)
  }

  /** A configuration comes with a thread and an image count, which no later act takes away. */
  predicate Configurable(turn: TurnState) {
    turn.config.Some? ==> turn.threadId.Some? && turn.images.Some?
  }

  lemma ResolvesAct(inputs: seq<Input>, turn: TurnState, a: Act)
    requires Resolves(inputs, turn) && Informed(inputs, a)
    ensures Resolves(inputs, Applied(turn, a))
  {
    hide TraceContext, TraceConnection, CountTool;
  }

  lemma ResolvedContext(inputs: seq<Input>, turn: TurnState)
    requires Resolves(inputs, turn) && HoldsAll(turn)
    ensures Ready(turn) && TraceTurnContext(inputs, turn).Some?
  {
    hide TraceThread, TraceConnection;
  }

  lemma ResolvesLater(front: seq<Input>, last: Input, turn: TurnState)
    requires Resolves(front, turn)
    ensures Resolves(front + [last], turn)
  {
    hide TraceContext;
    assert (front + [last])[..|front|] == front;
    if turn.threadId.Some? {
      GrantStep(front, last, turn.threadId.value);
    }
  }

  /** Only the acts that trigger a report can complete a turn. */
  lemma OnlyTriggersComplete(turn: TurnState, a: Act)
    requires !HoldsAll(turn) && HoldsAll(Applied(turn, a))
    ensures Triggers(a)
  {
    hide CountTool;
  }

  /** The live acts of a turn resolve and do not complete it. */
  predicate Settled(inputs: seq<Input>, acts: seq<Act>) {
    Resolves(inputs, Assembled(acts)) && !HoldsAll(Assembled(acts))
  }

  lemma SettledAct(inputs: seq<Input>, acts: seq<Act>, a: Option<Act>)
    requires Settled(inputs, acts) && (a.Some? ==> Informed(inputs, a.value))
    ensures Resolves(inputs, Assembled(WithAct(acts, a)))
    ensures HoldsAll(Assembled(WithAct(acts, a))) ==>
              TraceReports(inputs, WithAct(acts, a), a.Some? && Triggers(a.value))
  {
    hide Assembled, Applied, Resolves, HoldsAll, TraceTurnContext, Ready, Informed;
    if a.Some? {
      AssembledSnoc(acts, a.value);
      ResolvesAct(inputs, Assembled(acts), a.value);
      if HoldsAll(Applied(Assembled(acts), a.value)) {
        OnlyTriggersComplete(Assembled(acts), a.value);
        ResolvedContext(inputs, Applied(Assembled(acts), a.value));
      }
    }
  }

  lemma NothingSettled(inputs: seq<Input>)
    ensures Settled(inputs, [])
  {
    AssembledNothing();
  }

  /**
   If every thread and connection that the facts of a turn name is known by the time they come
   in, the turn never still holds a configuration, a profile and a completion after a fact.
   */
  lemma {:induction false} NoMissedReport(inputs: seq<Input>, t: TurnId)
    requires InformedRun(inputs, t)
    ensures var turn := TurnOption(Run(inputs).state, t); turn.Some? ==> !HoldsAll(turn.value)
    ensures Settled(inputs, Live(inputs, t))
  {
    hide RunFrom, TraceAct, Assembled, Resolves, HoldsAll, Informed, TraceReports;
    StateRefinesTrace(inputs, t);
    if inputs == [] {
      NothingSettled(inputs);
    } else {
      var front, last := inputs[..|inputs| - 1], inputs[|inputs| - 1];
      NoMissedReport(front, t);
      SettledAct(front, Live(front, t), TraceAct(front, last.fact, t));
      NothingSettled(inputs);
      assert inputs == front + [last];
      ResolvesLater(front, last, Assembled(ActsAt(front, last.fact, t)));
    }
  }

  // ------------------------------------------------------- turns left behind

  /**
   The last fact of the stream that tried to report the turn found it complete and without a
   context.
   */
  predicate LeftBehind(inputs: seq<Input>, t: TurnId) {
    && inputs != []
    && var front, fact := inputs[..|inputs| - 1], inputs[|inputs| - 1].fact;
       if TriggersAt(front, fact, t) then
         var acts := ActsAt(front, fact, t);
         acts != [] && Complete(acts) && TraceTurnContext(front, Assembled(acts)).None?
       else LeftBehind(front, t)
  }

  lemma {:induction false} ActsConfigurable(acts: seq<Act>)
    ensures Configurable(Assembled(acts))
  {
    hide Assembled;
    if acts == [] {
      AssembledNothing();
    } else {
      var front, last := acts[..|acts| - 1], acts[|acts| - 1];
      assert acts == front + [last];
      ActsConfigurable(front);
      AssembledSnoc(front, last);
      ConfigurableAct(Assembled(front), last);
    }
  }

  lemma ConfigurableAct(turn: TurnState, a: Act)
    requires Configurable(turn)
    ensures Configurable(Applied(turn, a))
    ensures !Triggers(a) ==> (Ready(Applied(turn, a)) <==> Ready(turn))
  {
    hide CountTool;
  }

  /** An act that triggers no report does not complete a turn either. */
  lemma QuietAct(acts: seq<Act>, a: Option<Act>)
    requires a.Some? ==> !Triggers(a.value)
    ensures Ready(Assembled(WithAct(acts, a))) <==> Ready(Assembled(acts))
  {
    hide Assembled, Applied, Ready;
    if a.Some? {
      ActsConfigurable(acts);
      AssembledSnoc(acts, a.value);
      ConfigurableAct(Assembled(acts), a.value);
    }
  }

  lemma NothingReady()
    ensures !Ready(Assembled([]))
  {
    AssembledNothing();
  }

  lemma {:induction false} LeftBehindOnStream(inputs: seq<Input>, t: TurnId)
    ensures Ready(Assembled(Live(inputs, t))) <==> LeftBehind(inputs, t)
  {
    hide Assembled, TraceAct, Ready, TraceTurnContext;
    NothingReady();
    if inputs != [] {
      var front, last := inputs[..|inputs| - 1], inputs[|inputs| - 1];
      LeftBehindOnStream(front, t);
      if !TriggersAt(front, last.fact, t) {
        QuietAct(Live(front, t), TraceAct(front, last.fact, t));
      }
    }
  }

  /**
   A run leaves a complete turn unreported exactly when the last fact that tried to report the
   turn found it complete while the stream gave it no context.
   */
  lemma LeftBehindExactly(inputs: seq<Input>, t: TurnId)
    ensures var turn := TurnOption(Run(inputs).state, t);
            turn.Some? && Ready(turn.value) <==> LeftBehind(inputs, t)
  {
    hide RunFrom, Assembled, Live, LeftBehind, Ready;
    NothingReady();
    StateRefinesTrace(inputs, t);
    LeftBehindOnStream(inputs, t);
  }

  // A turn whose thread becomes known only after its last fact.
  const CONFIGURED := Input(Custom(ConfigFact(ResolvedConfig("turn", "thread", 0, "model", "/"))), 0, None)
  const PROFILED := Input(Custom(ProfileFact("turn", TurnProfile(0, 0))), 0, None)
  const ENDED := Input(Notified(TurnEnded("turn", ProtocolCompleted, None, None, None)), 0, None)
  const THREAD_KNOWN := Input(
    ClientResponseFact(1, Protocol.IntegerId(0),
      ThreadResponse("thread", ThreadMetadata("s", None, New, None, None)), None),
    0, None)

  /** A context that resolves too late is not enough: nothing reports the turn when its thread appears. */
  lemma LateThreadMissesReport()
    ensures var inputs := [CONNECTED, CONFIGURED, PROFILED, ENDED, THREAD_KNOWN];
            var s := Run(inputs).state;
            && "turn" in s.turns && Ready(s.turns["turn"]) && TurnContext(s, s.turns["turn"]).Some?
            && LeftBehind(inputs, "turn")
  {
    FourFacts();
    ThenThread(FourStates());
    FiveSteps(CONNECTED, CONFIGURED, PROFILED, ENDED, THREAD_KNOWN);
    hide RunFrom, Step, LeftBehind, FourStates;
    LeftBehindExactly([CONNECTED, CONFIGURED, PROFILED, ENDED, THREAD_KNOWN], "turn");
  }

  function FourStates(): State {
    Step(Step(Step(Step(INITIAL, CONNECTED).state, CONFIGURED).state, PROFILED).state, ENDED).state
  }

  lemma FourFacts()
    ensures var s := FourStates();
            && "turn" in s.turns && Ready(s.turns["turn"]) && s.turns["turn"].threadId == Some("thread")
            && s.turns["turn"].connectionId == None && 1 in s.connections
  {
    hide IngestErrorResponse, SettleReview, IngestServerResponse, IngestServerRequest, IngestRequest, IngestResponse,
      EmitReview, IngestItemCompleted, IngestItemStarted, AcceptedLineEvents, Report;
    var s3 := Step(Step(Step(INITIAL, CONNECTED).state, CONFIGURED).state, PROFILED).state;
    assert s3.threads == map[] && 1 in s3.connections;
    assert s3.turns["turn"].config.Some? && s3.turns["turn"].profile.Some?;
  }

  lemma ThenThread(s: State)
    requires "turn" in s.turns && Ready(s.turns["turn"]) && s.turns["turn"].threadId == Some("thread")
    requires s.turns["turn"].connectionId == None && 1 in s.connections
    ensures var s' := Step(s, THREAD_KNOWN).state;
            "turn" in s'.turns && Ready(s'.turns["turn"]) && TurnContext(s', s'.turns["turn"]).Some?
  {
  }

  lemma FiveSteps(a: Input, b: Input, c: Input, d: Input, e: Input)
    ensures Run([a, b, c, d, e]).state
         == Step(Step(Step(Step(Step(INITIAL, a).state, b).state, c).state, d).state, e).state
  {
    hide Step;
    RunSnoc(INITIAL, [], a);
    RunSnoc(INITIAL, [a], b);
    RunSnoc(INITIAL, [a, b], c);
    RunSnoc(INITIAL, [a, b, c], d);
    RunSnoc(INITIAL, [a, b, c, d], e);
    assert [] + [a] == [a] && [a] + [b] == [a, b] && [a, b] + [c] == [a, b, c];
    assert [a, b, c] + [d] == [a, b, c, d] && [a, b, c, d] + [e] == [a, b, c, d, e];
  }
}
