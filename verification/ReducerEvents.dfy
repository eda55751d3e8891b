/**
 Steer, thread and context events over whole runs, against the stream of facts:
 which of them there are, in which order, and who they are attributed to.
 */
module ReducerEvents {
  import opened Options
  import opened AnalyticsFacts
  import opened ReducerSpec
  import opened FactReadings
  import opened ReducerSettlement
  import opened ReducerThreads
  import opened Sequences

  predicate Noted(e: Event) {
    e.SteerEvent? || e.ThreadInitialized? || e.ContextEvent?
  }

  /** What answers a steer request: the turn it went to, or a rejection. */
  datatype SteerAnswer = SteerAnswer(
    key: RequestKey, turn: Option<TurnId>, result: SteerResult, reason: Option<SteerRejection>)

  function AnswerOf(fact: Fact): Option<SteerAnswer> {
    match fact
    case ClientResponseFact(c, id, TurnSteerResponse(t), _) => Some(SteerAnswer((c, id), Some(t), Accepted, None))
    case ErrorResponse(c, id, reason) => Some(SteerAnswer((c, id), None, Rejected, reason))
    case _ => None
  }

  function SteerFor(answer: SteerAnswer, pending: RequestState, source: Attribution): Event
    requires pending.PendingSteer?
  {
    SteerEvent(pending.threadId, source, pending.expectedTurnId, answer.turn, pending.images, answer.result,
               answer.reason, pending.createdAt)
  }

  /** The steer event that the stream calls for when a fact comes in. */
  function SteerAt(inputs: seq<Input>, answer: SteerAnswer): seq<Event> {
    var pending := PendingRequest(inputs, answer.key);
    if pending.None? || !pending.value.PendingSteer? then []
    else
      var thread := TraceThread(inputs, pending.value.threadId);
      var source := if thread.None? then None else TraceSource(inputs, thread.value, answer.key.0);
      if source.None? then [] else [SteerFor(answer, pending.value, source.value)]
  }

  /** The announcement of a thread, on a connection that the stream has made known. */
  function AnnouncementAt(inputs: seq<Input>, fact: Fact): seq<Event>
    requires fact.ClientResponseFact? && fact.response.ThreadResponse?
  {
    var connection := TraceConnection(inputs, fact.connectionId);
    if connection.None? then []
    else
      var known := TraceThread(inputs, fact.response.threadId);
      var originator := OrElse(fact.originator, if known.Some? then known.value.originator else None);
      [ThreadInitialized(fact.response.threadId,
                         if originator.Some? then originator.value else connection.value.productClientId,
                         fact.response.metadata)]
  }

  /** The steer, thread or context event that the stream calls for when a fact comes in. */
  function NotedAt(inputs: seq<Input>, fact: Fact): seq<Event> {
    if AnswerOf(fact).Some? then SteerAt(inputs, AnswerOf(fact).value)
    else match fact
      case ClientResponseFact(_, _, ThreadResponse(_, _), _) => AnnouncementAt(inputs, fact)
      case Custom(SubAgentThreadStarted(id, _, _, client, _)) =>
        [ThreadInitialized(id, client, SubAgentFacts(fact.custom))]
      case Custom(ContextFact(kind, id, turn)) =>
        var source := TraceContext(inputs, id);
        if source.None? then [] else [ContextEvent(kind, id, turn, source.value)]
      case _ => []
  }

  // -------------------------------------------------------------- one step

  lemma AllNoted(events: seq<Event>)
    requires |events| <= 1 && forall i :: 0 <= i < |events| ==> Noted(events[i])
    ensures Filter(Noted, events) == events
  {
    if |events| == 1 {
      assert events == [events[0]];
      FilterOne(Noted, events[0]);
    }
  }

  lemma SteerEmits(inputs: seq<Input>, answer: SteerAnswer)
    ensures var s := Run(inputs).state;
            SteerAt(inputs, answer)
            == if answer.key in s.requests && s.requests[answer.key].PendingSteer?
               then EmitSteer(s, answer.key.0, s.requests[answer.key], answer.turn, answer.result, answer.reason)
               else []
  {
    hide RunFrom, PendingRequest, TraceThread, TraceConnection;
    RequestsRefineTrace(inputs, answer.key);
    ConnectionsRefineTrace(inputs, answer.key.0);
    var pending := PendingRequest(inputs, answer.key);
    if pending.Some? && pending.value.PendingSteer? {
      ThreadsRefineTrace(inputs, pending.value.threadId);
    }
  }

  lemma AnswerEmits(inputs: seq<Input>, input: Input)
    requires AnswerOf(input.fact).Some?
    ensures Step(Run(inputs).state, input).events == SteerAt(inputs, AnswerOf(input.fact).value)
  {
    hide RunFrom, SteerAt, EmitSteer, CountSteer;
    SteerEmits(inputs, AnswerOf(input.fact).value);
  }

  lemma AnnouncementEmits(inputs: seq<Input>, input: Input)
    requires input.fact.ClientResponseFact? && input.fact.response.ThreadResponse?
    ensures Step(Run(inputs).state, input).events == AnnouncementAt(inputs, input.fact)
  {
    hide RunFrom, TraceThread, TraceConnection;
    ConnectionsRefineTrace(inputs, input.fact.connectionId);
    ThreadsRefineTrace(inputs, input.fact.response.threadId);
  }

  lemma CustomEmits(inputs: seq<Input>, input: Input)
    requires input.fact.Custom? && (input.fact.custom.SubAgentThreadStarted? || input.fact.custom.ContextFact?)
    ensures Step(Run(inputs).state, input).events == NotedAt(inputs, input.fact)
  {
    hide RunFrom, TraceContext, ThreadContext, SubAgentThread;
    if input.fact.custom.ContextFact? {
      ContextsRefineTrace(inputs, input.fact.custom.threadId);
    }
  }

  /** A fact that calls for a steer, thread or context event calls for no other. */
  predicate Notes(fact: Fact) {
    || AnswerOf(fact).Some?
    || (fact.ClientResponseFact? && fact.response.ThreadResponse?)
    || (fact.Custom? && (fact.custom.SubAgentThreadStarted? || fact.custom.ContextFact?))
  }

  lemma NotesNothing(s: State, input: Input)
    requires !Notes(input.fact)
    ensures Filter(Noted, Step(s, input).events) == []
  {
    hide IngestItemStarted, IngestItemCompleted, SettleReview, IngestServerResponse, IngestServerRequest, IngestRequest,
      IngestStartResponse, IngestInterruptResponse, IngestCustom, IngestNotification;
    if input.fact.Custom? {
      CustomNotesNothing(s, input.fact.custom, input);
    }
    FilterNone(Noted, Step(s, input).events);
  }

  lemma CustomNotesNothing(s: State, fact: CustomFact, input: Input)
    requires !fact.SubAgentThreadStarted? && !fact.ContextFact?
    ensures forall i :: 0 <= i < |IngestCustom(s, fact, input).events| ==>
              !Noted(IngestCustom(s, fact, input).events[i])
  {
    hide MaybeEmitTurn;
  }

  lemma StepNotes(inputs: seq<Input>, input: Input)
    ensures Filter(Noted, Step(Run(inputs).state, input).events) == NotedAt(inputs, input.fact)
  {
    hide Step, RunFrom, SteerAt, AnnouncementAt, TraceContext, Filter;
    if Notes(input.fact) {
      NotedOnly(inputs, input.fact);
      AllNoted(NotedAt(inputs, input.fact));
      if AnswerOf(input.fact).Some? {
        AnswerEmits(inputs, input);
      } else if input.fact.ClientResponseFact? {
        AnnouncementEmits(inputs, input);
      } else {
        CustomEmits(inputs, input);
      }
    } else {
      NotesNothing(Run(inputs).state, input);
    }
  }

  lemma NotedOnly(inputs: seq<Input>, fact: Fact)
    ensures |NotedAt(inputs, fact)| <= 1
    ensures forall i :: 0 <= i < |NotedAt(inputs, fact)| ==> Noted(NotedAt(inputs, fact)[i])
  {
    hide PendingRequest, TraceThread, TraceConnection, TraceContext;
  }

  // ---------------------------------------------------------------- the run

  function NotedTrace(inputs: seq<Input>): seq<Event> {
    if inputs == [] then []
    else
      var front := inputs[..|inputs| - 1];
      NotedTrace(front) + NotedAt(front, inputs[|inputs| - 1].fact)
  }

  /**
   The steer, thread and context events of a run, exactly and in order. A steer event answers the
   steer request that the stream left pending under its key; each event carries what the stream
   says of its thread and connection by then.
   */
  lemma {:induction false} NotedRefinesTrace(inputs: seq<Input>)
    ensures Filter(Noted, Run(inputs).events) == NotedTrace(inputs)
  {
    hide Step, NotedAt, Noted;
    if inputs != [] {
      var front, last := inputs[..|inputs| - 1], inputs[|inputs| - 1];
      NotedRefinesTrace(front);
      StepNotes(front, last);
      FilterAppend(Noted, Run(front).events, Step(Run(front).state, last).events);
    }
  }

  // ------------------------------------------------- events without state

  /** The events that a fact maps to by itself. */
  predicate Unbound(e: Event) {
    e.SkillEvent? || e.AppMentionedEvent? || e.PluginUsedEvent? || e.StatelessEvent?
  }

  function Skills(ids: seq<Option<string>>): (events: seq<Event>)
    ensures |events| == |ids| && forall i :: 0 <= i < |ids| ==> events[i] == SkillEvent(ids[i])
  {
    if ids == [] then [] else [SkillEvent(ids[0])] + Skills(ids[1..])
  }

  function Mentions(ids: seq<Option<string>>): (events: seq<Event>)
    ensures |events| == |ids| && forall i :: 0 <= i < |ids| ==> events[i] == AppMentionedEvent(ids[i])
  {
    if ids == [] then [] else [AppMentionedEvent(ids[0])] + Mentions(ids[1..])
  }

  /** One event for each skill invoked or app mentioned, in order, and one for each other fact of the kind. */
  function UnboundAt(fact: Fact): seq<Event> {
    match fact
    case Custom(SkillInvoked(ids)) => Skills(ids)
    case Custom(AppsMentioned(ids)) => Mentions(ids)
    case Custom(PluginUsed(id)) => [PluginUsedEvent(id)]
    case Custom(StatelessFact(name)) => [StatelessEvent(name)]
    case _ => []
  }

  predicate MapsAlone(fact: Fact) {
    && fact.Custom?
    && var custom := fact.custom;
       custom.SkillInvoked? || custom.AppsMentioned? || custom.PluginUsed? || custom.StatelessFact?
  }

  lemma {:induction false} AllUnbound(events: seq<Event>)
    requires forall i :: 0 <= i < |events| ==> Unbound(events[i])
    ensures Filter(Unbound, events) == events
  {
    if events != [] {
      AllUnbound(events[..|events| - 1]);
    }
  }

  lemma AloneEmits(s: State, input: Input)
    requires MapsAlone(input.fact)
    ensures Step(s, input).events == UnboundAt(input.fact)
  {
  }

  lemma OthersEmitNone(s: State, input: Input)
    requires !MapsAlone(input.fact)
    ensures Filter(Unbound, Step(s, input).events) == []
  {
    hide IngestItemStarted, IngestItemCompleted, SettleReview, IngestServerResponse, IngestServerRequest, IngestRequest,
      IngestStartResponse, IngestInterruptResponse, IngestCustom, IngestNotification, Filter;
    if input.fact.Custom? {
      CustomEmitsNone(s, input.fact.custom, input);
    }
    FilterNone(Unbound, Step(s, input).events);
  }

  lemma CustomEmitsNone(s: State, fact: CustomFact, input: Input)
    requires !MapsAlone(Custom(fact))
    ensures var events := IngestCustom(s, fact, input).events; forall i :: 0 <= i < |events| ==> !Unbound(events[i])
  {
    hide MaybeEmitTurn;
  }

  function UnboundTrace(inputs: seq<Input>): seq<Event> {
    if inputs == [] then [] else UnboundTrace(inputs[..|inputs| - 1]) + UnboundAt(inputs[|inputs| - 1].fact)
  }

  /** The skill, app, plugin and other stateless events of a run, exactly and in order. */
  lemma {:induction false} UnboundRefinesTrace(inputs: seq<Input>)
    ensures Filter(Unbound, Run(inputs).events) == UnboundTrace(inputs)
  {
    hide Step, UnboundAt, Unbound;
    if inputs != [] {
      var front, last := inputs[..|inputs| - 1], inputs[|inputs| - 1];
      UnboundRefinesTrace(front);
      StepUnbound(Run(front).state, last);
      FilterAppend(Unbound, Run(front).events, Step(Run(front).state, last).events);
    }
  }

  lemma StepUnbound(s: State, input: Input)
    ensures Filter(Unbound, Step(s, input).events) == UnboundAt(input.fact)
  {
    hide Step;
    if MapsAlone(input.fact) {
      AloneEmits(s, input);
      AllUnbound(Step(s, input).events);
    } else {
      OthersEmitNone(s, input);
    }
  }
}
