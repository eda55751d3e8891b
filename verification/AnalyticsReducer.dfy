/**
 The analytics reducer itself: seven maps updated in place, fact by fact, and an
 event vector that events are pushed to. Every method is tied to the function
 of `ReducerSpec` for the same operation.
 */
module AnalyticsReducer {
  import opened Options
  import opened AnalyticsFacts
  import Spec = ReducerSpec
  import LineScanner

  /** A vector of events that callers share. */
  class EventVec {
    var items: seq<Event>

    constructor ()
      ensures items == []
    {
      items := [];
    }

    method Push(e: Event)
      modifies this
      ensures items == old(items) + [e]
    {
      items := items + [e];
    }
  }

  class Reducer {
    var requests: map<Spec.RequestKey, Spec.RequestState>
    var turns: map<TurnId, Spec.TurnState>
    var connections: map<ConnectionId, Spec.ConnectionState>
    var threads: map<ThreadId, Spec.ThreadState>
    var started: map<ItemKey, nat>
    var reviews: map<RequestId, PendingReview>
    var summaries: map<ItemKey, ReviewSummary>

    /** The Unicode class the accepted-line scanner relies on. */
    const alphanumeric: char -> bool

    /** Everything ingested so far, and everything emitted for it. */
    ghost var trace: seq<Input>
    ghost var emitted: seq<Event>

    function State(): Spec.State
      reads this
    {
      Spec.State(requests, turns, connections, threads, started, reviews, summaries)
    }

    /** The maps and the emitted events are those of the run over the trace. */
    ghost predicate Valid()
      reads this
    {
      Spec.Run(trace) == Spec.Out(State(), emitted)
    }

    constructor (alphanumeric: char -> bool)
      ensures Valid() && trace == [] && emitted == []
    {
      requests, turns, connections, threads := map[], map[], map[], map[];
      started, reviews, summaries := map[], map[], map[];
      this.alphanumeric := alphanumeric;
      trace, emitted := [], [];
    }

    // --------------------------------------------------------------- turns

    method PushAcceptedLines(t: TurnId, turn: Spec.TurnState, input: Input, out: EventVec)
      requires Spec.Ready(turn)
      modifies out
      ensures out.items == old(out.items) + Spec.AcceptedLineEvents(t, turn, input)
    {
      if turn.latestDiff.None? {
        return;
      }
      var summary := LineScanner.AcceptedLineFingerprints(turn.latestDiff.value, alphanumeric);
      if summary.added == 0 && summary.deleted == 0 {
        return;
      }
      out.Push(AcceptedLines(t, turn.threadId.value, turn.config.value.model, input.now, input.repoHash,
                             summary.added, summary.deleted));
    }

    method MaybeEmitTurnEvent(t: TurnId, input: Input, out: EventVec)
      modifies this`turns, out
      ensures Spec.Out(State(), out.items)
           == (var o := Spec.MaybeEmitTurn(old(State()), t, input); Spec.Out(o.state, old(out.items) + o.events))
    {
      if t !in turns {
        return;
      }
      var turn := turns[t];
      if turn.threadId.None? || turn.images.None? || turn.config.None? || turn.profile.None? || turn.completed.None? {
        return;
      }
      var threadId := turn.threadId.value;
      var connectionId := turn.connectionId;
      if connectionId.None? && threadId in threads {
        connectionId := threads[threadId].connectionId;
      }
      if connectionId.None? {
        return;
      }
      if connectionId.value !in connections {
        return;
      }
      if threadId !in threads {
        return;
      }
      var thread, connection := threads[threadId], connections[connectionId.value];
      if thread.metadata.None? {
        return;
      }
      var source := Attribution(Spec.ClientIdOf(thread, connection), connection.runtime, thread.metadata.value);
      out.Push(TurnEvent(t, source, Spec.Report(turn)));
      PushAcceptedLines(t, turn, input, out);
      turns := turns - {t};
    }

    // ------------------------------------------------------------ requests

    method IngestRequest(key: Spec.RequestKey, request: ClientRequest, now: nat)
      modifies this`requests
      ensures State() == Spec.IngestRequest(old(State()), key, request, now)
    {
      match request {
        case TurnStartRequest(threadId, images) =>
          requests := requests[key := Spec.PendingStart(threadId, images)];
        case TurnSteerRequest(threadId, expectedTurnId, images) =>
          requests := requests[key := Spec.PendingSteer(threadId, expectedTurnId, images, now)];
        case OtherClientRequest =>
      }
    }

    /** `requests.remove(&key)` */
    method TakeRequest(key: Spec.RequestKey) returns (taken: Option<Spec.RequestState>)
      modifies this`requests
      ensures taken == if key in old(requests) then Some(old(requests)[key]) else None
      ensures requests == old(requests) - {key}
      ensures key !in old(requests) ==> requests == old(requests)
    {
      taken := None;
      if key in requests {
        taken := Some(requests[key]);
      }
      requests := requests - {key};
    }

    method EmitThreadInitialized(c: ConnectionId, threadId: ThreadId, metadata: ThreadMetadata,
        originator: Option<string>, out: EventVec)
      modifies this`threads, out
      ensures Spec.Out(State(), out.items)
           == (var o := Spec.EmitThreadInitialized(old(State()), c, threadId, metadata, originator);
               Spec.Out(o.state, old(out.items) + o.events))
    {
      if c !in connections {
        return;
      }
      var thread := if threadId in threads then threads[threadId] else Spec.FRESH_THREAD;
      if originator.Some? {
        thread := thread.(originator := originator);
      }
      thread := thread.(connectionId := Some(c));
      thread := thread.(metadata := Some(metadata));
      threads := threads[threadId := thread];
      out.Push(ThreadInitialized(threadId, Spec.ClientIdOf(thread, connections[c]), metadata));
    }

    method EmitTurnSteerEvent(c: ConnectionId, pending: Spec.RequestState, acceptedTurnId: Option<TurnId>,
        result: SteerResult, rejection: Option<SteerRejection>, out: EventVec)
      requires pending.PendingSteer?
      modifies out
      ensures out.items == old(out.items) + Spec.EmitSteer(State(), c, pending, acceptedTurnId, result, rejection)
    {
      if c !in connections || pending.threadId !in threads {
        return;
      }
      var thread, connection := threads[pending.threadId], connections[c];
      if thread.metadata.None? {
        return;
      }
      out.Push(SteerEvent(
        pending.threadId, Attribution(Spec.ClientIdOf(thread, connection), connection.runtime, thread.metadata.value),
        pending.expectedTurnId, acceptedTurnId, pending.images, result, rejection, pending.createdAt));
    }

    method IngestStartResponse(key: Spec.RequestKey, t: TurnId, input: Input, out: EventVec)
      modifies this`requests, this`turns, out
      ensures Spec.Out(State(), out.items)
           == (var o := Spec.IngestStartResponse(old(State()), key, t, input);
               Spec.Out(o.state, old(out.items) + o.events))
    {
      var pending := TakeRequest(key);
      if pending.None? || !pending.value.PendingStart? {
        return;
      }
      var turn := if t in turns then turns[t] else Spec.FRESH_TURN;
      turn := turn.(connectionId := Some(key.0));
      turn := turn.(threadId := Some(pending.value.threadId));
      turn := turn.(images := Some(pending.value.images));
      turns := turns[t := turn];
      MaybeEmitTurnEvent(t, input, out);
    }

    method IngestSteerResponse(key: Spec.RequestKey, t: TurnId, out: EventVec)
      modifies this`requests, this`turns, out
      ensures Spec.Out(State(), out.items)
           == (var o := Spec.IngestSteerResponse(old(State()), key, t); Spec.Out(o.state, old(out.items) + o.events))
    {
      var pending := TakeRequest(key);
      if pending.None? || !pending.value.PendingSteer? {
        return;
      }
      if t in turns {
        turns := turns[t := turns[t].(steerCount := turns[t].steerCount + 1)];
      }
      EmitTurnSteerEvent(key.0, pending.value, Some(t), Accepted, None, out);
    }

    method IngestInterruptResponse(key: Spec.RequestKey, input: Input, out: EventVec)
      modifies this`requests, this`turns, out
      ensures Spec.Out(State(), out.items)
           == (var o := Spec.IngestInterruptResponse(old(State()), key, input);
               Spec.Out(o.state, old(out.items) + o.events))
    {
      var pending := TakeRequest(key);
      if pending.None? || !pending.value.PendingInterrupt? {
        return;
      }
      var t, requestedAtMs := pending.value.turnId, pending.value.requestedAtMs;
      var turn := if t in turns then turns[t] else Spec.FRESH_TURN;
      var earliest := if turn.interruptRequestedAtMs.Some? then turn.interruptRequestedAtMs.value else requestedAtMs;
      if requestedAtMs < earliest {
        earliest := requestedAtMs;
      }
      turns := turns[t := turn.(interruptRequestedAtMs := Some(earliest))];
      MaybeEmitTurnEvent(t, input, out);
    }

    method IngestResponse(key: Spec.RequestKey, response: ClientResponse, originator: Option<string>, input: Input,
        out: EventVec)
      modifies this`requests, this`turns, this`threads, out
      ensures Spec.Out(State(), out.items)
           == (var o := Spec.IngestResponse(old(State()), key, response, originator, input);
               Spec.Out(o.state, old(out.items) + o.events))
    {
      hide Spec.IngestStartResponse, Spec.IngestSteerResponse, Spec.IngestInterruptResponse,
        Spec.EmitThreadInitialized;
      match response {
        case ThreadResponse(threadId, metadata) => EmitThreadInitialized(key.0, threadId, metadata, originator, out);
        case TurnStartResponse(t) => IngestStartResponse(key, t, input, out);
        case TurnSteerResponse(t) => IngestSteerResponse(key, t, out);
        case TurnInterruptResponse => IngestInterruptResponse(key, input, out);
        case OtherClientResponse =>
      }
    }

    method IngestErrorResponse(key: Spec.RequestKey, rejection: Option<SteerRejection>, out: EventVec)
      modifies this`requests, out
      ensures Spec.Out(State(), out.items)
           == (var o := Spec.IngestErrorResponse(old(State()), key, rejection);
               Spec.Out(o.state, old(out.items) + o.events))
    {
      var pending := TakeRequest(key);
      if pending.Some? && pending.value.PendingSteer? {
        EmitTurnSteerEvent(key.0, pending.value, None, Rejected, rejection, out);
      }
    }

    // ------------------------------------------------------------- reviews

    method RecordItemReviewSummary(key: ItemKey, reviewer: Reviewer, status: ReviewStatus, resolution: Resolution,
        review: PendingReview)
      modifies this`summaries
      ensures summaries
           == old(summaries)[key := Spec.RecordReview(Spec.SummaryAt(old(State()), key), reviewer, status, resolution,
                                                      review)]
    {
      var summary := if key in summaries then summaries[key] else Spec.NO_REVIEWS;
      summary := summary.(reviews := summary.reviews + 1);
      match reviewer {
        case Guardian => summary := summary.(guardianReviews := summary.guardianReviews + 1);
        case User => summary := summary.(userReviews := summary.userReviews + 1);
      }
      summary := summary.(outcome := Some(Spec.FinalOutcome(reviewer, status, resolution)));
      summary := summary.(permissions := summary.permissions || review.permissions);
      summary := summary.(network := summary.network || review.network);
      summaries := summaries[key := summary];
    }

    method ContextOf(threadId: ThreadId) returns (context: Option<Attribution>)
      ensures context == Spec.ThreadContext(State(), threadId)
    {
      if threadId !in threads {
        return None;
      }
      var thread := threads[threadId];
      if thread.connectionId.None? {
        return None;
      }
      if thread.connectionId.value !in connections {
        return None;
      }
      if thread.metadata.None? {
        return None;
      }
      var connection := connections[thread.connectionId.value];
      return Some(Attribution(Spec.ClientIdOf(thread, connection), connection.runtime, thread.metadata.value));
    }

    method EmitReviewEvent(review: PendingReview, reviewer: Reviewer, status: ReviewStatus, resolution: Resolution,
        completedAtMs: nat, out: EventVec)
      modifies this`summaries, out
      ensures Spec.Out(State(), out.items)
           == (var o := Spec.EmitReview(old(State()), review, reviewer, status, resolution, completedAtMs);
               Spec.Out(o.state, old(out.items) + o.events))
    {
      hide Spec.RecordReview;
      var key := Spec.SummaryKey(review);
      if key.Some? {
        RecordItemReviewSummary(key.value, reviewer, status, resolution, review);
      }
      var context := ContextOf(review.threadId);
      if context.None? {
        return;
      }
      out.Push(ReviewEvent(review, context.value, reviewer, status, resolution, completedAtMs,
                           Spec.Duration(review.startedAtMs, completedAtMs)));
    }

    method IngestServerRequest(id: RequestId, request: ServerRequest)
      modifies this`reviews
      ensures State() == Spec.IngestServerRequest(old(State()), id, request)
    {
      hide Spec.OpenedReview;
      var review := Spec.OpenedReview(id, request);
      if review.Some? {
        reviews := reviews[id := review.value];
      }
    }

    method SettleReview(id: RequestId, result: (ReviewStatus, Resolution), completedAtMs: nat, out: EventVec)
      modifies this`reviews, this`summaries, out
      ensures Spec.Out(State(), out.items)
           == (var o := Spec.SettleReview(old(State()), id, result, completedAtMs);
               Spec.Out(o.state, old(out.items) + o.events))
    {
      hide Spec.EmitReview;
      if id !in reviews {
        return;
      }
      var review := reviews[id];
      reviews := reviews - {id};
      EmitReviewEvent(review, User, result.0, result.1, completedAtMs, out);
    }

    method IngestServerResponse(answer: ServerResponse, completedAtMs: nat, out: EventVec)
      modifies this`reviews, this`summaries, out
      ensures Spec.Out(State(), out.items)
           == (var o := Spec.IngestServerResponse(old(State()), answer, completedAtMs);
               Spec.Out(o.state, old(out.items) + o.events))
    {
      hide Spec.SettleReview, Spec.CommandResult, Spec.FileChangeResult;
      match answer {
        case CommandAnswer(id, decision) => SettleReview(id, Spec.CommandResult(decision), completedAtMs, out);
        case FileChangeAnswer(id, decision) => SettleReview(id, Spec.FileChangeResult(decision), completedAtMs, out);
        case OtherAnswer =>
      }
    }

    // --------------------------------------------------------------- items

    method IngestItemCompleted(threadId: ThreadId, t: TurnId, item: ThreadItem, completedAtMs: int, out: EventVec)
      modifies this`turns, this`started, this`summaries, out
      ensures Spec.Out(State(), out.items)
           == (var o := Spec.IngestItemCompleted(old(State()), threadId, t, item, completedAtMs);
               Spec.Out(o.state, old(out.items) + o.events))
    {
      hide Spec.CountTool, Spec.ThreadContext, Spec.OutcomeOf, Spec.Duration;
      if item.OtherItem? {
        return;
      }
      if t !in turns {
        return;
      }
      turns := turns[t := turns[t].(toolCounts := Spec.CountTool(turns[t].toolCounts, item))];
      if item.SubAgentActivity? {
        return;
      }
      var key := ItemKey(threadId, t, item.id);
      if key !in started {
        return;
      }
      var startedAtMs := started[key];
      started := started - {key};
      if completedAtMs < 0 {
        return;
      }
      var context := ContextOf(threadId);
      Spec.SameContext(old(State()), State(), threadId);
      if context.None? {
        return;
      }
      var outcome := Spec.OutcomeOf(item);
      if outcome.Some? {
        var summary := if key in summaries then summaries[key] else Spec.NO_REVIEWS;
        out.Push(ToolEvent(key, context.value, item, outcome.value, startedAtMs, completedAtMs,
                           Spec.Duration(startedAtMs, completedAtMs), summary));
      }
      summaries := summaries - {key};
    }

    method IngestGuardianCompleted(n: Notification, out: EventVec)
      requires n.GuardianCompleted?
      modifies this`summaries, out
      ensures Spec.Out(State(), out.items)
           == (var o := Spec.IngestGuardianCompleted(old(State()), n); Spec.Out(o.state, old(out.items) + o.events))
    {
      hide Spec.EmitReview, Spec.GuardianSubject, Spec.GuardianAsksPermissions, Spec.GuardianAsksNetwork;
      var status := Spec.GuardianResult(n.status);
      if status.None? || n.startedAtMs < 0 || n.completedAtMs < 0 {
        return;
      }
      var (subject, name, trigger) := Spec.GuardianSubject(n.action);
      var review := PendingReview(n.threadId, n.turnId, n.target, Named(n.name), subject, name, trigger, n.startedAtMs,
                                  Spec.GuardianAsksPermissions(n.action), Spec.GuardianAsksNetwork(n.action));
      EmitReviewEvent(review, Guardian, status.value, NoResolution, n.completedAtMs, out);
    }

    method IngestNotification(n: Notification, input: Input, out: EventVec)
      modifies this`turns, this`started, this`summaries, out
      ensures Spec.Out(State(), out.items)
           == (var o := Spec.IngestNotification(old(State()), n, input); Spec.Out(o.state, old(out.items) + o.events))
    {
      hide Spec.MaybeEmitTurn, Spec.IngestItemCompleted, Spec.IngestGuardianCompleted;
      match n {
        case ItemStarted(threadId, t, item, startedAtMs) =>
          if !Spec.Tracked(item) || startedAtMs < 0 {
            return;
          }
          started := started[ItemKey(threadId, t, item.id) := startedAtMs];
        case ItemCompleted(threadId, t, item, completedAtMs) =>
          IngestItemCompleted(threadId, t, item, completedAtMs, out);
        case GuardianCompleted(_, _, _, _, _, _, _, _) => IngestGuardianCompleted(n, out);
        case TurnStarted(t, startedAt) =>
          turns := turns[t := Spec.TurnAt(State(), t).(startedAt := Spec.OptionToUnsigned(startedAt))];
        case TurnDiffUpdated(t, threadId, diff) =>
          turns := turns[t := Spec.TurnAt(State(), t).(threadId := Some(threadId), latestDiff := Some(diff))];
        case TurnEnded(t, _, _, _, _) =>
          turns := turns[t := Spec.TurnAt(State(), t).(completed := Some(Spec.CompletionOf(n)))];
          MaybeEmitTurnEvent(t, input, out);
        case OtherNotification =>
      }
    }

    // -------------------------------------------------------- custom facts

    method IngestSubAgentThreadStarted(fact: CustomFact, out: EventVec)
      requires fact.SubAgentThreadStarted?
      modifies this`threads, out
      ensures State()
           == old(State()).(threads := old(threads)[fact.threadId := Spec.SubAgentThread(old(State()), fact)])
      ensures out.items
           == old(out.items) + [ThreadInitialized(fact.threadId, fact.productClientId, Spec.SubAgentMetadata(fact))]
    {
      var parentConnectionId: Option<ConnectionId> := None;
      if fact.parent.Some? && fact.parent.value in threads {
        parentConnectionId := threads[fact.parent.value].connectionId;
      }
      var thread := if fact.threadId in threads then threads[fact.threadId] else Spec.FRESH_THREAD;
      if thread.originator.None? {
        thread := thread.(originator := Some(fact.productClientId));
      }
      if thread.metadata.None? {
        thread := thread.(metadata := Some(Spec.SubAgentMetadata(fact)));
      }
      if thread.connectionId.None? {
        thread := thread.(connectionId := parentConnectionId);
      }
      threads := threads[fact.threadId := thread];
      out.Push(ThreadInitialized(fact.threadId, fact.productClientId, Spec.SubAgentMetadata(fact)));
    }

    method IngestSkillInvoked(pluginIds: seq<Option<string>>, out: EventVec)
      modifies out
      ensures out.items == old(out.items) + Spec.SkillEvents(pluginIds)
    {
      for i := 0 to |pluginIds|
        invariant out.items == old(out.items) + Spec.SkillEvents(pluginIds)[..i]
      {
        out.Push(SkillEvent(pluginIds[i]));
      }
    }

    method IngestAppMentioned(connectorIds: seq<Option<string>>, out: EventVec)
      modifies out
      ensures out.items == old(out.items) + Spec.MentionEvents(connectorIds)
    {
      for i := 0 to |connectorIds|
        invariant out.items == old(out.items) + Spec.MentionEvents(connectorIds)[..i]
      {
        out.Push(AppMentionedEvent(connectorIds[i]));
      }
    }

    method IngestCustom(fact: CustomFact, input: Input, out: EventVec)
      modifies this`turns, this`threads, out
      ensures Spec.Out(State(), out.items)
           == (var o := Spec.IngestCustom(old(State()), fact, input); Spec.Out(o.state, old(out.items) + o.events))
    {
      hide Spec.MaybeEmitTurn, Spec.SubAgentThread, Spec.ThreadContext, Spec.SkillEvents, Spec.MentionEvents;
      match fact {
        case SubAgentThreadStarted(_, _, _, _, _) => IngestSubAgentThreadStarted(fact, out);
        case ContextFact(kind, threadId, turn) =>
          var context := ContextOf(threadId);
          if context.None? {
            return;
          }
          out.Push(ContextEvent(kind, threadId, turn, context.value));
        case ConfigFact(config) =>
          var t := config.turnId;
          turns := turns[t := Spec.TurnAt(State(), t).(threadId := Some(config.threadId),
                                                      images := Some(config.images), config := Some(config))];
          MaybeEmitTurnEvent(t, input, out);
        case TokenUsageFact(t, threadId, tokens) =>
          turns := turns[t := Spec.TurnAt(State(), t).(threadId := Some(threadId), tokenUsage := Some(tokens))];
          MaybeEmitTurnEvent(t, input, out);
        case ProfileFact(t, profile) =>
          turns := turns[t := Spec.TurnAt(State(), t).(profile := Some(profile))];
          MaybeEmitTurnEvent(t, input, out);
        case CodexErrorFact(t, threadId, error) =>
          var turn := Spec.TurnAt(State(), t);
          if turn.threadId.None? {
            turn := turn.(threadId := Some(threadId));
          }
          turns := turns[t := turn.(codexError := Some(error))];
        case SkillInvoked(pluginIds) => IngestSkillInvoked(pluginIds, out);
        case AppsMentioned(connectorIds) => IngestAppMentioned(connectorIds, out);
        case PluginUsed(pluginId) => out.Push(PluginUsedEvent(pluginId));
        case StatelessFact(name) => out.Push(StatelessEvent(name));
      }
    }

    // -------------------------------------------------------------- ingest

    /** One fact: the maps become those of the longer run, and its new events are pushed. */
    method Ingest(input: Input, out: EventVec)
      requires Valid()
      modifies this, out
      ensures Valid() && trace == old(trace) + [input]
      ensures emitted == old(emitted) + Spec.Step(old(State()), input).events
      ensures out.items == old(out.items) + Spec.Step(old(State()), input).events
    {
      Dispatch(input, out);
      ghost var before := old(State());
      Spec.RunSnoc(Spec.INITIAL, trace, input);
      trace, emitted := trace + [input], emitted + Spec.Step(before, input).events;
    }

    method Dispatch(input: Input, out: EventVec)
      modifies this`requests, this`turns, this`connections, this`threads, this`started, this`reviews,
        this`summaries, out
      ensures Spec.Out(State(), out.items)
           == (var o := Spec.Step(old(State()), input); Spec.Out(o.state, old(out.items) + o.events))
    {
      hide Spec.IngestRequest, Spec.IngestResponse, Spec.IngestErrorResponse, Spec.IngestServerRequest,
        Spec.IngestServerResponse, Spec.SettleReview, Spec.IngestNotification, Spec.IngestCustom,
        Spec.PermissionsResult;
      match input.fact {
        case Initialize(c, productClientId, runtime) =>
          connections := connections[c := Spec.ConnectionState(productClientId, runtime)];
        case ClientRequestFact(c, id, request) => IngestRequest((c, id), request, input.now);
        case InterruptRequest(c, id, t, requestedAtMs) =>
          requests := requests[(c, id) := Spec.PendingInterrupt(t, requestedAtMs)];
        case ClientResponseFact(c, id, response, originator) =>
          IngestResponse((c, id), response, originator, input, out);
        case ErrorResponse(c, id, rejection) => IngestErrorResponse((c, id), rejection, out);
        case ServerRequestFact(id, request) => IngestServerRequest(id, request);
        case ServerResponseFact(completedAtMs, answer) => IngestServerResponse(answer, completedAtMs, out);
        case PermissionsAnswer(completedAtMs, id, empty, scope) =>
          SettleReview(id, Spec.PermissionsResult(empty, scope), completedAtMs, out);
        case RequestAborted(completedAtMs, id) => SettleReview(id, (Aborted, NoResolution), completedAtMs, out);
        case Notified(n) => IngestNotification(n, input, out);
        case Custom(fact) => IngestCustom(fact, input, out);
      }
    }
  }
}
