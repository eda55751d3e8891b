/**
 Tool events and the reviews they sum up, against the stream of facts.

 The reviews of a tool item are the terminal command, file-change and tool-call
 reviews that name it, since its summary was last used. They are read off the
 stream, as is the item's start.
 */
module ReducerReviews {
  import opened Options
  import opened AnalyticsFacts
  import opened ReducerSpec
  import opened FactReadings
  import opened ReducerSettlement
  import opened ReducerThreads
  import opened ReducerTurns
  import opened ReducerReports
  import opened Sequences

  /** A review that came to an end. */
  datatype Terminal = Terminal(reviewer: Reviewer, status: ReviewStatus, resolution: Resolution, review: PendingReview)

  // -------------------------------------------------------------- one step

  function TerminalOf(pending: Option<PendingReview>, fact: Fact): Option<Terminal> {
    if Answers(fact).Some? then
      var result := Answers(fact).value.1;
      if pending.None? then None else Some(Terminal(User, result.0, result.1, pending.value))
    else if fact.Notified? && fact.notification.GuardianCompleted? && ReviewGuarded(fact.notification).Some? then
      Some(Terminal(Guardian, GuardianVerdict(fact.notification.status).value, NoResolution,
                    ReviewGuarded(fact.notification).value))
    else None
  }

  function TerminalAt(s: State, fact: Fact): Option<Terminal> {
    TerminalOf(if Answers(fact).Some? then ReviewAt(s, Answers(fact).value.0) else None, fact)
  }

  /** The tool item a fact completes, if it is one whose completion makes a tool event. */
  function CompletedItem(fact: Fact): Option<ItemKey> {
    if fact.Notified? && fact.notification.ItemCompleted? && IsToolItem(fact.notification.item)
    then Some(ItemKey(fact.notification.threadId, fact.notification.turnId, fact.notification.item.id))
    else None
  }

  /** Whether the completion of an item whose start is known reaches its tool event. */
  predicate Uses(fact: Fact, key: ItemKey, turnLive: bool, startedAtMs: Option<nat>, source: Option<Attribution>) {
    && CompletedItem(fact) == Some(key)
    && turnLive && startedAtMs.Some? && fact.notification.completedAtMs >= 0
    && source.Some?
  }

  function StartedAt(s: State, key: ItemKey): Option<nat> {
    if key in s.started then Some(s.started[key]) else None
  }

  predicate UsesAt(s: State, fact: Fact, key: ItemKey) {
    Uses(fact, key, key.turnId in s.turns, StartedAt(s, key), ThreadContext(s, key.threadId))
  }

  function Recorded(summary: ReviewSummary, terminal: Terminal): ReviewSummary {
    RecordReview(summary, terminal.reviewer, terminal.status, terminal.resolution, terminal.review)
  }

  function SummaryAfter(summary: ReviewSummary, used: bool, terminal: Option<Terminal>, key: ItemKey): ReviewSummary {
    if used then NO_REVIEWS
    else if terminal.Some? && Concerns(terminal.value.review, key) then Recorded(summary, terminal.value)
    else summary
  }

  lemma EmitReviewSummary(s: State, t: Terminal, completedAtMs: nat, key: ItemKey)
    ensures SummaryAt(EmitReview(s, t.review, t.reviewer, t.status, t.resolution, completedAtMs).state, key)
         == SummaryAfter(SummaryAt(s, key), false, Some(t), key)
  {
    hide RecordReview, ThreadContext, SummaryKey, Concerns;
  }

  lemma SettleSummary(s: State, id: RequestId, result: (ReviewStatus, Resolution), completedAtMs: nat, key: ItemKey)
    ensures SummaryAt(SettleReview(s, id, result, completedAtMs).state, key)
         == if id in s.reviews
            then SummaryAfter(SummaryAt(s, key), false, Some(Terminal(User, result.0, result.1, s.reviews[id])), key)
            else SummaryAt(s, key)
  {
    hide RecordReview, EmitReview, SummaryKey, Concerns;
    if id in s.reviews {
      EmitReviewSummary(s.(reviews := s.reviews - {id}), Terminal(User, result.0, result.1, s.reviews[id]),
                        completedAtMs, key);
    }
  }

  lemma ItemSummary(s: State, thread: ThreadId, t: TurnId, item: ThreadItem, completedAtMs: int, key: ItemKey)
    ensures var fact := Notified(ItemCompleted(thread, t, item, completedAtMs));
            SummaryAt(IngestItemCompleted(s, thread, t, item, completedAtMs).state, key)
            == if UsesAt(s, fact, key) then NO_REVIEWS else SummaryAt(s, key)
  {
    hide ThreadContext, CountTool, ToolEvents;
  }

  lemma NotificationSummary(s: State, n: Notification, input: Input, key: ItemKey)
    ensures SummaryAt(IngestNotification(s, n, input).state, key)
         == SummaryAfter(SummaryAt(s, key), UsesAt(s, Notified(n), key), TerminalAt(s, Notified(n)), key)
  {
    hide MaybeEmitTurn, IngestItemCompleted, EmitReview, ThreadContext, RecordReview, GuardianSubject,
      GuardianAsksPermissions, GuardianAsksNetwork, SummaryKey, Concerns, ReviewGuarded;
    match n
    case ItemCompleted(thread, t, item, completedAtMs) => ItemSummary(s, thread, t, item, completedAtMs, key);
    case GuardianCompleted(_, _, _, _, _, _, _, completedAtMs) =>
      var terminal := TerminalAt(s, Notified(n));
      if terminal.Some? {
        EmitReviewSummary(s, terminal.value, completedAtMs, key);
      }
    case _ =>
  }

  /** What one fact does to the summary of a tool item. */
  lemma StepSummary(s: State, input: Input, key: ItemKey)
    ensures SummaryAt(Step(s, input).state, key)
         == SummaryAfter(SummaryAt(s, key), UsesAt(s, input.fact, key), TerminalAt(s, input.fact), key)
  {
    hide IngestResponse, IngestCustom, IngestNotification, SettleReview, IngestServerResponse,
      IngestServerRequest, IngestErrorResponse, IngestRequest, SummaryKey, RecordReview, ThreadContext,
      CommandResult, FileChangeResult, PermissionsResult, SummaryAt;
    if Answers(input.fact).Some? {
      AnswerSummary(s, input, key);
    } else if input.fact.Notified? {
      NotificationSummary(s, input.fact.notification, input, key);
    } else {
      OtherSummary(s, input);
      SameSummary(s, Step(s, input).state, key);
    }
  }

  lemma SameSummary(s: State, s': State, key: ItemKey)
    requires s'.summaries == s.summaries
    ensures SummaryAt(s', key) == SummaryAt(s, key)
  {
  }

  lemma AnswerSummary(s: State, input: Input, key: ItemKey)
    requires Answers(input.fact).Some?
    ensures SummaryAt(Step(s, input).state, key)
         == SummaryAfter(SummaryAt(s, key), UsesAt(s, input.fact, key), TerminalAt(s, input.fact), key)
  {
    hide Step, SettleReview, SummaryKey, Concerns, RecordReview, CommandVerdict, FileVerdict, GrantVerdict;
    var (id, result) := Answers(input.fact).value;
    StepOfAnswer(s, input);
    var completedAtMs: nat :| Step(s, input) == SettleReview(s, id, result, completedAtMs);
    SettleSummary(s, id, result, completedAtMs, key);
  }

  lemma OtherSummary(s: State, input: Input)
    requires Answers(input.fact).None? && !input.fact.Notified?
    ensures Step(s, input).state.summaries == s.summaries
  {
    hide IngestResponse, IngestCustom, IngestNotification, SettleReview, IngestErrorResponse,
      IngestServerRequest, IngestRequest, CommandResult, FileChangeResult, PermissionsResult;
    if input.fact.ServerResponseFact? {
      assert input.fact.answer.OtherAnswer?;
    }
  }

  // ------------------------------------------------------------ item starts

  /** The start a fact reports for a tool item. */
  function StartOfItem(fact: Fact, key: ItemKey): Option<nat> {
    if fact.Notified? && fact.notification.ItemStarted? && IsToolItem(fact.notification.item)
       && key == ItemKey(fact.notification.threadId, fact.notification.turnId, fact.notification.item.id)
    then Moment(Some(fact.notification.startedAtMs))
    else None
  }

  function StartedAfter(started: Option<nat>, fact: Fact, key: ItemKey, turnLive: bool): Option<nat> {
    if StartOfItem(fact, key).Some? then StartOfItem(fact, key)
    else if CompletedItem(fact) == Some(key) && turnLive then None
    else started
  }

  lemma NotificationStarted(s: State, n: Notification, input: Input, key: ItemKey)
    ensures StartedAt(IngestNotification(s, n, input).state, key)
         == StartedAfter(StartedAt(s, key), Notified(n), key, key.turnId in s.turns)
  {
    hide MaybeEmitTurn, EmitReview, ThreadContext, CountTool, ToolEvents;
  }

  lemma StepStarted(s: State, input: Input, key: ItemKey)
    ensures StartedAt(Step(s, input).state, key)
         == StartedAfter(StartedAt(s, key), input.fact, key, key.turnId in s.turns)
  {
    hide Step, IngestNotification;
    if input.fact.Notified? {
      NotifiedStep(s, input);
      NotificationStarted(s, input.fact.notification, input, key);
    }
  }

  // ------------------------------------------------------------ on the stream

  /** When a tool item started, if it is still running, read off the stream. */
  function RunningSince(inputs: seq<Input>, key: ItemKey): Option<nat> {
    if inputs == [] then None
    else
      var front, fact := inputs[..|inputs| - 1], inputs[|inputs| - 1].fact;
      StartedAfter(RunningSince(front, key), fact, key, Live(front, key.turnId) != [])
  }

  lemma {:induction false} StartsRefineTrace(inputs: seq<Input>, key: ItemKey)
    ensures StartedAt(Run(inputs).state, key) == RunningSince(inputs, key)
  {
    hide Step, Live, StartedAfter, Assembled;
    if inputs != [] {
      var front, last := inputs[..|inputs| - 1], inputs[|inputs| - 1];
      StartsRefineTrace(front, key);
      StepStarted(Run(front).state, last, key);
      StateRefinesTrace(front, key.turnId);
    }
  }

  function TraceTerminal(inputs: seq<Input>, fact: Fact): Option<Terminal> {
    TerminalOf(if Answers(fact).Some? then PendingReviewOf(inputs, Answers(fact).value.0) else None, fact)
  }

  predicate TraceUses(inputs: seq<Input>, fact: Fact, key: ItemKey) {
    Uses(fact, key, Live(inputs, key.turnId) != [], RunningSince(inputs, key), TraceContext(inputs, key.threadId))
  }

  /** The terminal reviews of a tool item since its summary was last used. */
  function ReviewLog(inputs: seq<Input>, key: ItemKey): seq<Terminal> {
    if inputs == [] then []
    else
      var front, fact := inputs[..|inputs| - 1], inputs[|inputs| - 1].fact;
      var terminal := TraceTerminal(front, fact);
      if TraceUses(front, fact, key) then []
      else if terminal.Some? && Concerns(terminal.value.review, key)
      then ReviewLog(front, key) + [terminal.value]
      else ReviewLog(front, key)
  }

  predicate ByGuardian(t: Terminal) { t.reviewer.Guardian? }
  predicate ByUser(t: Terminal) { t.reviewer.User? }

  /** What the reviews of an item add up to: their numbers, the last outcome, and whether any asked for more. */
  function Summarised(log: seq<Terminal>): ReviewSummary {
    ReviewSummary(
      |log|, Count(ByGuardian, log), Count(ByUser, log),
      if log == [] then None
      else Some(OutcomeShown(log[|log| - 1].reviewer, log[|log| - 1].status, log[|log| - 1].resolution)),
      exists i :: 0 <= i < |log| && log[i].review.permissions,
      exists i :: 0 <= i < |log| && log[i].review.network)
  }

  lemma SummarisedSnoc(log: seq<Terminal>, t: Terminal)
    ensures Summarised(log + [t]) == Recorded(Summarised(log), t)
  {
    hide FinalOutcome, OutcomeShown;
    var all := log + [t];
    assert all[..|log|] == log;
    assert all[|log|] == t;
    if Summarised(log).permissions {
      var i :| 0 <= i < |log| && log[i].review.permissions;
      assert all[i].review.permissions;
    }
    if Summarised(log).network {
      var i :| 0 <= i < |log| && log[i].review.network;
      assert all[i].review.network;
    }
  }

  /** Every review counted is either the guardian's or the user's. */
  lemma {:induction false} ReviewersAddUp(log: seq<Terminal>)
    ensures |log| == Count(ByGuardian, log) + Count(ByUser, log)
  {
    if log != [] {
      ReviewersAddUp(log[..|log| - 1]);
    }
  }

  lemma TraceTerminalIsTerminal(inputs: seq<Input>, fact: Fact)
    ensures TraceTerminal(inputs, fact) == TerminalAt(Run(inputs).state, fact)
  {
    hide RunFrom, PendingReviewOf, TerminalOf, Answers;
    if Answers(fact).Some? {
      ReviewsRefineTrace(inputs, Answers(fact).value.0);
    }
  }

  lemma TraceUsesIsUses(inputs: seq<Input>, fact: Fact, key: ItemKey)
    ensures TraceUses(inputs, fact, key) == UsesAt(Run(inputs).state, fact, key)
  {
    hide RunFrom, Live, RunningSince, Assembled, ThreadContext, TraceContext;
    StateRefinesTrace(inputs, key.turnId);
    StartsRefineTrace(inputs, key);
    ContextsRefineTrace(inputs, key.threadId);
  }

  /** In every run the stored summary of a tool item is what its reviews add up to. */
  lemma {:induction false} SummariesRefineTrace(inputs: seq<Input>, key: ItemKey)
    ensures SummaryAt(Run(inputs).state, key) == Summarised(ReviewLog(inputs, key))
  {
    hide Step, TraceTerminal, TerminalAt, TraceUses, UsesAt, Summarised, Recorded, SummaryKey, Concerns, SummaryAt;
    if inputs == [] {
      NothingSummarised(key);
    } else {
      var front, last := inputs[..|inputs| - 1], inputs[|inputs| - 1];
      SummariesRefineTrace(front, key);
      StepSummary(Run(front).state, last, key);
      TraceTerminalIsTerminal(front, last.fact);
      TraceUsesIsUses(front, last.fact, key);
      NothingSummarised(key);
      if TraceTerminal(front, last.fact).Some? {
        SummarisedSnoc(ReviewLog(front, key), TraceTerminal(front, last.fact).value);
      }
    }
  }

  lemma NothingSummarised(key: ItemKey)
    ensures Summarised([]) == NO_REVIEWS && SummaryAt(INITIAL, key) == NO_REVIEWS
  {
  }

  /** Reviews of permissions or network access, and of other threads, turns or items, are in no log of the item. */
  lemma {:induction false} LogNamesItem(inputs: seq<Input>, key: ItemKey)
    ensures forall i :: 0 <= i < |ReviewLog(inputs, key)| ==>
              var review := ReviewLog(inputs, key)[i].review;
              && !review.subject.PermissionsSubject? && !review.subject.NetworkSubject?
              && review.threadId == key.threadId && review.turnId == key.turnId && review.itemId == Some(key.itemId)
  {
    hide TraceTerminal, TraceUses;
    if inputs != [] {
      LogNamesItem(inputs[..|inputs| - 1], key);
    }
  }

  /** Conversely, every review that ended for the item since its summary was last used is in its log. */
  lemma {:induction false} LogHoldsAll(inputs: seq<Input>, i: nat, key: ItemKey)
    requires i < |inputs| && TraceTerminal(inputs[..i], inputs[i].fact).Some?
    requires Concerns(TraceTerminal(inputs[..i], inputs[i].fact).value.review, key)
    requires forall j :: i <= j < |inputs| ==> !TraceUses(inputs[..j], inputs[j].fact, key)
    ensures TraceTerminal(inputs[..i], inputs[i].fact).value in ReviewLog(inputs, key)
  {
    hide TraceTerminal, TraceUses, Concerns;
    var front := inputs[..|inputs| - 1];
    if i < |front| {
      assert front[..i] == inputs[..i];
      forall j | i <= j < |front| ensures !TraceUses(front[..j], front[j].fact, key) {
        assert front[..j] == inputs[..j];
      }
      LogHoldsAll(front, i, key);
    }
    assert !TraceUses(inputs[..|front|], inputs[|front|].fact, key);
  }

  // ------------------------------------------------------------- tool events

  function IsToolEventOf(key: ItemKey): Event -> bool {
    (e: Event) => e.ToolEvent? && e.key == key
  }

  function ToolEventsOf(key: ItemKey, events: seq<Event>): seq<Event> {
    Filter(IsToolEventOf(key), events)
  }

  lemma NoToolEvents(key: ItemKey, events: seq<Event>)
    requires forall i :: 0 <= i < |events| ==> !(events[i].ToolEvent? && events[i].key == key)
    ensures ToolEventsOf(key, events) == []
  {
    FilterNone(IsToolEventOf(key), events);
  }

  /** The tool event of a completion, given the item's source, start and reviews. */
  function ToolEventFor(source: Attribution, fact: Fact, key: ItemKey, startedAtMs: nat,
      summary: ReviewSummary): seq<Event>
    requires CompletedItem(fact) == Some(key) && fact.notification.completedAtMs >= 0
  {
    var item, outcome := fact.notification.item, ToolEnding(fact.notification.item);
    if outcome.None? then []
    else [ToolEvent(key, source, item, outcome.value, startedAtMs,
                    fact.notification.completedAtMs, Elapsed(startedAtMs, fact.notification.completedAtMs), summary)]
  }

  lemma ItemEvents(s: State, thread: ThreadId, t: TurnId, item: ThreadItem, completedAtMs: int, key: ItemKey)
    ensures var fact := Notified(ItemCompleted(thread, t, item, completedAtMs));
            ToolEventsOf(key, IngestItemCompleted(s, thread, t, item, completedAtMs).events)
            == if UsesAt(s, fact, key)
               then ToolEventFor(ThreadContext(s, key.threadId).value, fact, key, StartedAt(s, key).value,
                                 SummaryAt(s, key))
               else []
  {
    hide CountTool, ThreadContext, ToolEventsOf, OutcomeOf, Duration, ToolEnding, Elapsed, SummaryAt;
    var fact := Notified(ItemCompleted(thread, t, item, completedAtMs));
    var events := IngestItemCompleted(s, thread, t, item, completedAtMs).events;
    if UsesAt(s, fact, key) {
      assert events
             == ToolEventFor(ThreadContext(s, key.threadId).value, fact, key, StartedAt(s, key).value,
                             SummaryAt(s, key));
      if |events| == 1 {
        assert events == [events[0]];
        OneToolEvent(key, events[0]);
      } else {
        NoToolEvents(key, events);
      }
    } else {
      NoToolEvents(key, events);
    }
  }

  lemma OneToolEvent(key: ItemKey, e: Event)
    requires e.ToolEvent? && e.key == key
    ensures ToolEventsOf(key, [e]) == [e]
  {
    FilterOne(IsToolEventOf(key), e);
  }

  lemma StepToolEvents(s: State, input: Input, key: ItemKey)
    ensures ToolEventsOf(key, Step(s, input).events)
         == if UsesAt(s, input.fact, key)
            then ToolEventFor(ThreadContext(s, key.threadId).value, input.fact, key, StartedAt(s, key).value,
                              SummaryAt(s, key))
            else []
  {
    hide IngestResponse, IngestCustom, IngestItemCompleted, SettleReview, IngestServerResponse, IngestItemStarted,
      IngestServerRequest, IngestErrorResponse, IngestRequest, ToolEventsOf, ThreadContext, ToolEventFor, SummaryAt,
      MaybeEmitTurn, EmitReview, GuardianSubject, GuardianAsksPermissions, GuardianAsksNetwork;
    if input.fact.Notified? && input.fact.notification.ItemCompleted? {
      var n := input.fact.notification;
      ItemEvents(s, n.threadId, n.turnId, n.item, n.completedAtMs, key);
    } else {
      NoToolStep(s, input);
      NoToolEvents(key, Step(s, input).events);
    }
  }

  lemma NoToolStep(s: State, input: Input)
    requires !(input.fact.Notified? && input.fact.notification.ItemCompleted?)
    ensures forall i :: 0 <= i < |Step(s, input).events| ==> !Step(s, input).events[i].ToolEvent?
  {
    hide IngestResponse, IngestCustom, IngestItemCompleted, SettleReview, IngestServerResponse, IngestItemStarted,
      IngestServerRequest, IngestErrorResponse, IngestRequest,
      MaybeEmitTurn, EmitReview, GuardianSubject, GuardianAsksPermissions, GuardianAsksNetwork;
    if input.fact.ErrorResponse? {
      ErrorNoReviews(s, (input.fact.connectionId, input.fact.requestId), input.fact.rejection);
    }
  }

  /** The tool event of an item that the stream calls for when a fact comes in. */
  function ToolEventAt(inputs: seq<Input>, fact: Fact, key: ItemKey): seq<Event> {
    if TraceUses(inputs, fact, key)
    then ToolEventFor(TraceContext(inputs, key.threadId).value, fact, key, RunningSince(inputs, key).value,
                      Summarised(ReviewLog(inputs, key)))
    else []
  }

  lemma NextToolEvents(inputs: seq<Input>, input: Input, key: ItemKey)
    ensures ToolEventsOf(key, Step(Run(inputs).state, input).events) == ToolEventAt(inputs, input.fact, key)
  {
    hide Step, RunFrom, Summarised, ReviewLog, RunningSince, Live, ToolEventsOf, ToolEventFor, ThreadContext, SummaryAt,
      TraceContext;
    StepToolEvents(Run(inputs).state, input, key);
    TraceUsesIsUses(inputs, input.fact, key);
    StartsRefineTrace(inputs, key);
    SummariesRefineTrace(inputs, key);
    ContextsRefineTrace(inputs, key.threadId);
  }

  /** The tool events of an item that a stream calls for, in order. */
  function ToolTrace(inputs: seq<Input>, key: ItemKey): seq<Event> {
    if inputs == [] then []
    else
      var front := inputs[..|inputs| - 1];
      ToolTrace(front, key) + ToolEventAt(front, inputs[|inputs| - 1].fact, key)
  }

  /**
   The tool events of a run, exactly: a completion emits one just when its turn is live, its start
   was seen, its time is valid, the stream gives its thread a context and the item has come to an
   outcome; it carries that context, the start and the sum of the reviews that the stream holds
   for the item.
   */
  lemma {:induction false} ToolEventsRefineTrace(inputs: seq<Input>, key: ItemKey)
    ensures ToolEventsOf(key, Run(inputs).events) == ToolTrace(inputs, key)
  {
    hide Step, ToolEventAt, IsToolEventOf;
    if inputs != [] {
      var front, last := inputs[..|inputs| - 1], inputs[|inputs| - 1];
      ToolEventsRefineTrace(front, key);
      NextToolEvents(front, last, key);
      FilterAppend(IsToolEventOf(key), Run(front).events, Step(Run(front).state, last).events);
    }
  }

  // ----------------------------------------------------------- review events

  predicate IsReviewEvent(e: Event) { e.ReviewEvent? }

  /** When the fact that ends a review says it ended. */
  function EndedAt(fact: Fact): int {
    match fact
    case ServerResponseFact(at, _) => at
    case PermissionsAnswer(at, _, _, _) => at
    case RequestAborted(at, _) => at
    case Notified(GuardianCompleted(_, _, _, _, _, _, _, at)) => at
    case _ => 0
  }

  function ReviewEventFor(terminal: Option<Terminal>, source: Option<Attribution>, endedAtMs: int): seq<Event> {
    if terminal.None? || source.None? || endedAtMs < 0 then []
    else
      var t := terminal.value;
      [ReviewEvent(t.review, source.value, t.reviewer, t.status, t.resolution, endedAtMs,
                   Elapsed(t.review.startedAtMs, endedAtMs))]
  }

  function SourceAt(s: State, terminal: Option<Terminal>): Option<Attribution> {
    if terminal.None? then None else ThreadContext(s, terminal.value.review.threadId)
  }

  lemma OnlyReviews(events: seq<Event>)
    requires |events| <= 1 && forall i :: 0 <= i < |events| ==> events[i].ReviewEvent?
    ensures Filter(IsReviewEvent, events) == events
  {
    if |events| == 1 {
      assert events == [events[0]];
      FilterOne(IsReviewEvent, events[0]);
    }
  }

  lemma AnswerEvents(s: State, input: Input)
    requires Answers(input.fact).Some?
    ensures Step(s, input).events
         == ReviewEventFor(TerminalAt(s, input.fact), SourceAt(s, TerminalAt(s, input.fact)), EndedAt(input.fact))
  {
    hide IngestResponse, IngestCustom, IngestNotification, IngestErrorResponse, IngestServerRequest, IngestRequest,
      ThreadContext, CommandResult, FileChangeResult, PermissionsResult, SumUp, Duration, Elapsed;
    var id := Answers(input.fact).value.0;
    if id in s.reviews {
      SameContext(s, s.(reviews := s.reviews - {id}), s.reviews[id].threadId);
    }
  }

  lemma GuardianEvents(s: State, n: Notification, input: Input)
    requires n.GuardianCompleted?
    ensures var terminal := TerminalAt(s, Notified(n));
            IngestNotification(s, n, input).events
            == ReviewEventFor(terminal, SourceAt(s, terminal), EndedAt(Notified(n)))
  {
    hide ThreadContext, SumUp, Duration, Elapsed, GuardianSubject, GuardianAsksPermissions, GuardianAsksNetwork,
      ReviewGuarded;
  }

  lemma StepReviewEvents(s: State, input: Input)
    ensures Filter(IsReviewEvent, Step(s, input).events)
         == ReviewEventFor(TerminalAt(s, input.fact), SourceAt(s, TerminalAt(s, input.fact)), EndedAt(input.fact))
  {
    hide Step, IngestNotification, ReviewEventFor, SourceAt, EndedAt, IsReviewEvent;
    if Answers(input.fact).Some? {
      AnswerEvents(s, input);
      ReviewEventAlone(TerminalAt(s, input.fact), SourceAt(s, TerminalAt(s, input.fact)), EndedAt(input.fact));
    } else if input.fact.Notified? && input.fact.notification.GuardianCompleted? {
      NotifiedStep(s, input);
      GuardianEvents(s, input.fact.notification, input);
      ReviewEventAlone(TerminalAt(s, input.fact), SourceAt(s, TerminalAt(s, input.fact)), EndedAt(input.fact));
    } else {
      QuietReviewStep(s, input);
    }
  }

  lemma NotifiedStep(s: State, input: Input)
    requires input.fact.Notified?
    ensures Step(s, input) == IngestNotification(s, input.fact.notification, input)
  {
  }

  lemma ReviewEventAlone(terminal: Option<Terminal>, source: Option<Attribution>, endedAtMs: int)
    ensures Filter(IsReviewEvent, ReviewEventFor(terminal, source, endedAtMs))
         == ReviewEventFor(terminal, source, endedAtMs)
  {
    hide Filter;
    OnlyReviews(ReviewEventFor(terminal, source, endedAtMs));
  }

  lemma QuietReviewStep(s: State, input: Input)
    requires Answers(input.fact).None? && !(input.fact.Notified? && input.fact.notification.GuardianCompleted?)
    ensures Filter(IsReviewEvent, Step(s, input).events) == []
    ensures ReviewEventFor(TerminalAt(s, input.fact), SourceAt(s, TerminalAt(s, input.fact)), EndedAt(input.fact)) == []
  {
    hide IngestResponse, IngestCustom, SettleReview, IngestErrorResponse, IngestItemStarted, IngestItemCompleted,
      IngestServerRequest, IngestRequest, MaybeEmitTurn, CommandResult, FileChangeResult, PermissionsResult;
    if input.fact.ErrorResponse? {
      ErrorNoReviews(s, (input.fact.connectionId, input.fact.requestId), input.fact.rejection);
    }
    if input.fact.ServerResponseFact? {
      assert input.fact.answer.OtherAnswer?;
    }
    FilterNone(IsReviewEvent, Step(s, input).events);
  }

  /** The review event that the stream calls for when a fact comes in. */
  function ReviewEventAt(inputs: seq<Input>, fact: Fact): seq<Event> {
    var terminal := TraceTerminal(inputs, fact);
    ReviewEventFor(terminal, if terminal.None? then None else TraceContext(inputs, terminal.value.review.threadId),
                   EndedAt(fact))
  }

  function ReviewTrace(inputs: seq<Input>): seq<Event> {
    if inputs == [] then []
    else
      var front := inputs[..|inputs| - 1];
      ReviewTrace(front) + ReviewEventAt(front, inputs[|inputs| - 1].fact)
  }

  /**
   The review events of a run, exactly: one for each review that the stream brings to an end in a
   thread to which it gives a context, in order, with that context and the fact's verdict.
   */
  lemma {:induction false} ReviewEventsRefineTrace(inputs: seq<Input>)
    ensures Filter(IsReviewEvent, Run(inputs).events) == ReviewTrace(inputs)
  {
    hide Step, ReviewEventFor, TraceTerminal, TerminalAt, TraceContext, ThreadContext, IsReviewEvent;
    if inputs != [] {
      var front, last := inputs[..|inputs| - 1], inputs[|inputs| - 1];
      ReviewEventsRefineTrace(front);
      StepReviewEvents(Run(front).state, last);
      FilterAppend(IsReviewEvent, Run(front).events, Step(Run(front).state, last).events);
      TraceTerminalIsTerminal(front, last.fact);
      if TraceTerminal(front, last.fact).Some? {
        ContextsRefineTrace(front, TraceTerminal(front, last.fact).value.review.threadId);
      }
    }
  }
}
