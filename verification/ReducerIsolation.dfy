/**
 Turns do not interfere: removing the facts of other turns from a stream leaves
 every event that is not about those turns as it was, in the same order.
 */
module ReducerIsolation {
  import opened Options
  import opened AnalyticsFacts
  import opened ReducerSpec
  import opened Sequences

  /** The turn a fact belongs to, for the facts that speak about one turn. */
  function TurnOf(fact: Fact): Option<TurnId> {
    match fact
    case Notified(n) =>
      (match n
       case ItemStarted(_, t, _, _) => Some(t)
       case ItemCompleted(_, t, _, _) => Some(t)
       case TurnStarted(t, _) => Some(t)
       case TurnDiffUpdated(t, _, _) => Some(t)
       case TurnEnded(t, _, _, _, _) => Some(t)
       case GuardianCompleted(_, _, _, _, _, _, _, _) => None
       case OtherNotification => None)
    case Custom(custom) =>
      (match custom
       case ConfigFact(config) => Some(config.turnId)
       case TokenUsageFact(t, _, _) => Some(t)
       case ProfileFact(t, _) => Some(t)
       case CodexErrorFact(t, _, _) => Some(t)
       case _ => None)
    case _ => None
  }

  predicate OfOtherTurn(t: TurnId, fact: Fact) {
    TurnOf(fact).Some? && TurnOf(fact).value != t
  }

  /** Everything except the turn, accepted-line and tool events of other turns. */
  predicate Visible(t: TurnId, e: Event) {
    && (TurnOutput(e) ==> e.turnId == t)
    && (e.ToolEvent? ==> e.key.turnId == t)
  }

  function VisibleTo(t: TurnId): Event -> bool {
    (e: Event) => Visible(t, e)
  }

  function Seen(t: TurnId, events: seq<Event>): seq<Event> {
    Filter(VisibleTo(t), events)
  }

  function Keeps(t: TurnId): Input -> bool {
    (input: Input) => !OfOtherTurn(t, input.fact)
  }

  /** The stream without the facts of other turns. */
  function OnlyTurn(t: TurnId, inputs: seq<Input>): seq<Input> {
    Filter(Keeps(t), inputs)
  }

  // --------------------------------------------------- states that look alike

  /** Two maps over tool items agree on the items of a turn. */
  ghost predicate AgreeOnTurn<V>(t: TurnId, m: map<ItemKey, V>, m': map<ItemKey, V>) {
    && (forall key :: key in m && key.turnId == t ==> key in m' && m'[key] == m[key])
    && (forall key :: key in m' && key.turnId == t ==> key in m)
  }

  predicate AgreeAt(t: TurnId, m: map<TurnId, TurnState>, m': map<TurnId, TurnState>) {
    (t in m <==> t in m') && (t in m ==> m[t] == m'[t])
  }

  /** States that differ only in what they hold about other turns. */
  ghost predicate Alike(t: TurnId, s: State, s': State) {
    && s.requests == s'.requests && s.connections == s'.connections && s.threads == s'.threads
    && s.reviews == s'.reviews
    && AgreeAt(t, s.turns, s'.turns)
    && AgreeOnTurn(t, s.started, s'.started)
    && AgreeOnTurn(t, s.summaries, s'.summaries)
  }

  /** Two steps that look alike and are seen alike. */
  ghost predicate AlikeSteps(t: TurnId, o: Out, o': Out) {
    Alike(t, o.state, o'.state) && Seen(t, o.events) == Seen(t, o'.events)
  }

  lemma SeenNothing(t: TurnId, events: seq<Event>)
    requires forall i :: 0 <= i < |events| ==> !Visible(t, events[i])
    ensures Seen(t, events) == []
  {
    FilterNone(VisibleTo(t), events);
  }

  lemma AlikeTurns(t: TurnId, s: State, s': State, turns: map<TurnId, TurnState>, turns': map<TurnId, TurnState>)
    requires Alike(t, s, s') && AgreeAt(t, turns, turns')
    ensures Alike(t, s.(turns := turns), s'.(turns := turns'))
  {
    hide AgreeAt, AgreeOnTurn;
  }

  lemma AlikeSetTurn(t: TurnId, s: State, s': State, u: TurnId, turn: TurnState, turn': TurnState)
    requires Alike(t, s, s')
    requires u == t ==> turn == turn'
    ensures Alike(t, SetTurn(s, u, turn), SetTurn(s', u, turn'))
  {
    hide AgreeOnTurn;
    AlikeTurns(t, s, s', s.turns[u := turn], s'.turns[u := turn']);
  }

  lemma AgreeOnTurnSet<V>(t: TurnId, m: map<ItemKey, V>, m': map<ItemKey, V>, key: ItemKey, v: V, v': V)
    requires AgreeOnTurn(t, m, m')
    requires key.turnId == t ==> v == v'
    ensures AgreeOnTurn(t, m[key := v], m'[key := v'])
  {
  }

  lemma AgreeOnTurnRemove<V>(t: TurnId, m: map<ItemKey, V>, m': map<ItemKey, V>, key: ItemKey)
    requires AgreeOnTurn(t, m, m')
    ensures AgreeOnTurn(t, m - {key}, m' - {key})
  {
  }

  lemma AgreeOnTurnOther<V>(t: TurnId, m: map<ItemKey, V>, key: ItemKey)
    requires key.turnId != t
    ensures AgreeOnTurn(t, m, m - {key})
  {
  }

  lemma AlikeStarted(t: TurnId, s: State, s': State, m: map<ItemKey, nat>, m': map<ItemKey, nat>)
    requires Alike(t, s, s') && AgreeOnTurn(t, m, m')
    ensures Alike(t, s.(started := m), s'.(started := m'))
  {
    hide AgreeAt, AgreeOnTurn;
  }

  lemma AlikeSummaries(t: TurnId, s: State, s': State, m: map<ItemKey, ReviewSummary>, m': map<ItemKey, ReviewSummary>)
    requires Alike(t, s, s') && AgreeOnTurn(t, m, m')
    ensures Alike(t, s.(summaries := m), s'.(summaries := m'))
  {
    hide AgreeAt, AgreeOnTurn;
  }

  lemma AlikeReflexive(t: TurnId, s: State)
    ensures Alike(t, s, s)
  {
  }

  lemma AlikeTurnAt(t: TurnId, s: State, s': State)
    requires Alike(t, s, s')
    ensures TurnAt(s, t) == TurnAt(s', t)
  {
  }

  lemma AlikeMaybeEmit(t: TurnId, s: State, s': State, u: TurnId, input: Input)
    requires Alike(t, s, s')
    ensures AlikeSteps(t, MaybeEmitTurn(s, u, input), MaybeEmitTurn(s', u, input))
  {
    if u == t {
      SameMaybeEmit(t, s, s', input);
    } else {
      OtherMaybeEmit(t, s, s', u, input);
    }
  }

  lemma SameMaybeEmit(t: TurnId, s: State, s': State, input: Input)
    requires Alike(t, s, s')
    ensures AlikeSteps(t, MaybeEmitTurn(s, t, input), MaybeEmitTurn(s', t, input))
  {
    hide AgreeOnTurn, Seen, TurnContext, Report, AcceptedLineEvents, Alike;
    AlikeParts(t, s, s');
    if t in s.turns && Ready(s.turns[t]) {
      SameTurnContext(s, s', s.turns[t]);
    }
    AlikeTurns(t, s, s', s.turns - {t}, s'.turns - {t});
  }

  lemma OtherMaybeEmit(t: TurnId, s: State, s': State, u: TurnId, input: Input)
    requires Alike(t, s, s') && u != t
    ensures AlikeSteps(t, MaybeEmitTurn(s, u, input), MaybeEmitTurn(s', u, input))
  {
    hide Alike, Seen, MaybeEmitTurn;
    var o, o' := MaybeEmitTurn(s, u, input), MaybeEmitTurn(s', u, input);
    AlikeParts(t, s, s');
    MaybeEmitElsewhere(t, s, u, input);
    MaybeEmitElsewhere(t, s', u, input);
    AlikeTurns(t, s, s', o.state.turns, o'.state.turns);
    SeenNothing(t, o.events);
    SeenNothing(t, o'.events);
  }

  lemma MaybeEmitElsewhere(t: TurnId, s: State, u: TurnId, input: Input)
    requires u != t
    ensures AgreeAt(t, s.turns, MaybeEmitTurn(s, u, input).state.turns)
  {
    hide TurnContext, Report, AcceptedLineEvents;
  }

  // ---------------------------------------------------------------- requests

  lemma AlikeRequests(t: TurnId, s: State, s': State, requests: map<RequestKey, RequestState>)
    requires Alike(t, s, s')
    ensures Alike(t, s.(requests := requests), s'.(requests := requests))
  {
    hide AgreeAt, AgreeOnTurn;
  }

  lemma AlikeStartResponse(t: TurnId, s: State, s': State, key: RequestKey, u: TurnId, input: Input)
    requires Alike(t, s, s')
    ensures AlikeSteps(t, IngestStartResponse(s, key, u, input), IngestStartResponse(s', key, u, input))
  {
    hide Alike, Seen, MaybeEmitTurn, TurnAt, SetTurn;
    AlikeParts(t, s, s');
    AlikeRequests(t, s, s', s.requests - {key});
    if key in s.requests && s.requests[key].PendingStart? {
      var pending := s.requests[key];
      var turn, turn' := StartedTurn(TurnAt(s, u), key.0, pending), StartedTurn(TurnAt(s', u), key.0, pending);
      if u == t {
        AlikeTurnAt(t, s, s');
      }
      AlikeSetTurn(t, Consume(s, key), Consume(s', key), u, turn, turn');
      AlikeMaybeEmit(t, SetTurn(Consume(s, key), u, turn), SetTurn(Consume(s', key), u, turn'), u, input);
    }
  }

  lemma AlikeParts(t: TurnId, s: State, s': State)
    requires Alike(t, s, s')
    ensures s.requests == s'.requests && s.connections == s'.connections && s.threads == s'.threads
    ensures s.reviews == s'.reviews
    ensures AgreeAt(t, s.turns, s'.turns)
    ensures AgreeOnTurn(t, s.started, s'.started) && AgreeOnTurn(t, s.summaries, s'.summaries)
  {
    hide AgreeAt, AgreeOnTurn;
  }

  lemma AlikeInterruptResponse(t: TurnId, s: State, s': State, key: RequestKey, input: Input)
    requires Alike(t, s, s')
    ensures AlikeSteps(t, IngestInterruptResponse(s, key, input), IngestInterruptResponse(s', key, input))
  {
    hide Alike, Seen, MaybeEmitTurn, TurnAt, SetTurn, InterruptedTurn;
    AlikeParts(t, s, s');
    AlikeRequests(t, s, s', s.requests - {key});
    if key in s.requests && s.requests[key].PendingInterrupt? {
      var u, at := s.requests[key].turnId, s.requests[key].requestedAtMs;
      var turn, turn' := InterruptedTurn(TurnAt(s, u), at), InterruptedTurn(TurnAt(s', u), at);
      if u == t {
        AlikeTurnAt(t, s, s');
      }
      AlikeSetTurn(t, Consume(s, key), Consume(s', key), u, turn, turn');
      AlikeMaybeEmit(t, SetTurn(Consume(s, key), u, turn), SetTurn(Consume(s', key), u, turn'), u, input);
    }
  }

  lemma AlikeCountSteer(t: TurnId, s: State, s': State, u: TurnId)
    requires Alike(t, s, s')
    ensures Alike(t, CountSteer(s, u), CountSteer(s', u))
  {
    hide Alike, AgreeOnTurn;
    AlikeParts(t, s, s');
    AgreeCountSteer(t, s, s', u);
    CountSteerFrame(s, u);
    CountSteerFrame(s', u);
    hide CountSteer, AgreeAt;
    AlikeTurns(t, s, s', CountSteer(s, u).turns, CountSteer(s', u).turns);
  }

  lemma CountSteerFrame(s: State, u: TurnId)
    ensures CountSteer(s, u) == s.(turns := CountSteer(s, u).turns)
  {
  }

  lemma AgreeCountSteer(t: TurnId, s: State, s': State, u: TurnId)
    requires AgreeAt(t, s.turns, s'.turns)
    ensures AgreeAt(t, CountSteer(s, u).turns, CountSteer(s', u).turns)
  {
    CountedAt(t, s, u);
    CountedAt(t, s', u);
    hide CountSteer, Steered;
  }

  /** Counting a steered turn touches that turn, and only if it is known. */
  lemma CountedAt(t: TurnId, s: State, u: TurnId)
    ensures t in CountSteer(s, u).turns <==> t in s.turns
    ensures t in s.turns ==> CountSteer(s, u).turns[t] == if u == t then Steered(s.turns[t]) else s.turns[t]
  {
    hide Steered;
  }

  lemma AlikeSteerResponse(t: TurnId, s: State, s': State, key: RequestKey, u: TurnId)
    requires Alike(t, s, s')
    ensures AlikeSteps(t, IngestSteerResponse(s, key, u), IngestSteerResponse(s', key, u))
  {
    hide Alike, Seen, CountSteer;
    AlikeParts(t, s, s');
    AlikeRequests(t, s, s', s.requests - {key});
    AlikeCountSteer(t, Consume(s, key), Consume(s', key), u);
  }

  lemma AlikeThreads(t: TurnId, s: State, s': State, threads: map<ThreadId, ThreadState>)
    requires Alike(t, s, s')
    ensures Alike(t, s.(threads := threads), s'.(threads := threads))
  {
    hide AgreeAt, AgreeOnTurn;
  }

  lemma AlikeResponse(t: TurnId, s: State, s': State, key: RequestKey, response: ClientResponse,
      originator: Option<string>, input: Input)
    requires Alike(t, s, s')
    ensures AlikeSteps(t, IngestResponse(s, key, response, originator, input),
                       IngestResponse(s', key, response, originator, input))
  {
    hide Alike, Seen, IngestStartResponse, IngestSteerResponse, IngestInterruptResponse;
    AlikeParts(t, s, s');
    match response
    case ThreadResponse(thread, metadata) =>
      AlikeThreads(t, s, s', EmitThreadInitialized(s, key.0, thread, metadata, originator).state.threads);
    case TurnStartResponse(u) => AlikeStartResponse(t, s, s', key, u, input);
    case TurnSteerResponse(u) => AlikeSteerResponse(t, s, s', key, u);
    case TurnInterruptResponse => AlikeInterruptResponse(t, s, s', key, input);
    case OtherClientResponse =>
  }

  lemma AlikeClientStep(t: TurnId, s: State, s': State, input: Input)
    requires Alike(t, s, s') && ClientSide(input.fact)
    ensures AlikeSteps(t, Step(s, input), Step(s', input))
  {
    hide Alike, Seen, IngestResponse, IngestCustom, IngestNotification, SettleReview, IngestServerResponse,
      IngestServerRequest, EmitSteer;
    AlikeParts(t, s, s');
    match input.fact
    case Initialize(c, productClientId, runtime) => AlikeInitialize(t, s, s', c, productClientId, runtime);
    case ClientRequestFact(c, id, request) =>
      AlikeRequests(t, s, s', IngestRequest(s, (c, id), request, input.now).requests);
    case InterruptRequest(c, id, u, requestedAtMs) =>
      AlikeRequests(t, s, s', s.requests[(c, id) := PendingInterrupt(u, requestedAtMs)]);
    case ClientResponseFact(c, id, response, originator) =>
      AlikeResponse(t, s, s', (c, id), response, originator, input);
    case ErrorResponse(c, id, rejection) => AlikeErrorResponse(t, s, s', (c, id), rejection);
  }

  lemma AlikeErrorResponse(t: TurnId, s: State, s': State, key: RequestKey, rejection: Option<SteerRejection>)
    requires Alike(t, s, s')
    ensures AlikeSteps(t, IngestErrorResponse(s, key, rejection), IngestErrorResponse(s', key, rejection))
  {
    hide Alike, Seen;
    AlikeParts(t, s, s');
    AlikeRequests(t, s, s', s.requests - {key});
  }

  lemma AlikeInitialize(t: TurnId, s: State, s': State, c: ConnectionId, productClientId: string, runtime: string)
    requires Alike(t, s, s')
    ensures Alike(t, IngestInitialize(s, c, productClientId, runtime),
                  IngestInitialize(s', c, productClientId, runtime))
  {
    hide AgreeAt, AgreeOnTurn;
  }

  // ----------------------------------------------------------------- reviews

  lemma AlikeSumUp(t: TurnId, s: State, s': State, review: PendingReview, reviewer: Reviewer, status: ReviewStatus,
      resolution: Resolution)
    requires Alike(t, s, s')
    ensures Alike(t, SumUp(s, review, reviewer, status, resolution), SumUp(s', review, reviewer, status, resolution))
  {
    hide Alike, RecordReview, AgreeOnTurn;
    AlikeParts(t, s, s');
    var key := SummaryKey(review);
    if key.Some? {
      var k := key.value;
      if k.turnId == t {
        AgreeSummaryAt(t, s, s', k);
      }
      var v, v' := RecordReview(SummaryAt(s, k), reviewer, status, resolution, review),
                   RecordReview(SummaryAt(s', k), reviewer, status, resolution, review);
      AgreeOnTurnSet(t, s.summaries, s'.summaries, k, v, v');
      AlikeSummaries(t, s, s', s.summaries[k := v], s'.summaries[k := v']);
    }
  }

  lemma AgreeSummaryAt(t: TurnId, s: State, s': State, key: ItemKey)
    requires AgreeOnTurn(t, s.summaries, s'.summaries) && key.turnId == t
    ensures SummaryAt(s, key) == SummaryAt(s', key)
  {
  }

  lemma AlikeEmitReview(t: TurnId, s: State, s': State, review: PendingReview, reviewer: Reviewer,
      status: ReviewStatus, resolution: Resolution, completedAtMs: nat)
    requires Alike(t, s, s')
    ensures AlikeSteps(t, EmitReview(s, review, reviewer, status, resolution, completedAtMs),
                       EmitReview(s', review, reviewer, status, resolution, completedAtMs))
  {
    hide Alike, Seen, SumUp;
    AlikeParts(t, s, s');
    AlikeSumUp(t, s, s', review, reviewer, status, resolution);
    assert ThreadContext(s, review.threadId) == ThreadContext(s', review.threadId);
  }

  lemma AlikeReviews(t: TurnId, s: State, s': State, reviews: map<RequestId, PendingReview>)
    requires Alike(t, s, s')
    ensures Alike(t, s.(reviews := reviews), s'.(reviews := reviews))
  {
    hide AgreeAt, AgreeOnTurn;
  }

  lemma AlikeSettle(t: TurnId, s: State, s': State, id: RequestId, result: (ReviewStatus, Resolution),
      completedAtMs: nat)
    requires Alike(t, s, s')
    ensures AlikeSteps(t, SettleReview(s, id, result, completedAtMs), SettleReview(s', id, result, completedAtMs))
  {
    hide Alike, Seen, EmitReview;
    AlikeParts(t, s, s');
    if id in s.reviews {
      AlikeReviews(t, s, s', s.reviews - {id});
      AlikeEmitReview(t, s.(reviews := s.reviews - {id}), s'.(reviews := s.reviews - {id}), s.reviews[id],
                      User, result.0, result.1, completedAtMs);
    }
  }

  // ------------------------------------------------------------------- items

  lemma AlikeItemStarted(t: TurnId, s: State, s': State, thread: ThreadId, u: TurnId, item: ThreadItem,
      startedAtMs: int)
    requires Alike(t, s, s')
    ensures Alike(t, IngestItemStarted(s, thread, u, item, startedAtMs),
                  IngestItemStarted(s', thread, u, item, startedAtMs))
  {
    hide Alike, AgreeOnTurn;
    AlikeParts(t, s, s');
    if Tracked(item) && startedAtMs >= 0 {
      var key, at: nat := ItemKey(thread, u, item.id), startedAtMs;
      AgreeOnTurnSet<nat>(t, s.started, s'.started, key, at, at);
      AlikeStarted(t, s, s', s.started[key := at], s'.started[key := at]);
    }
  }

  lemma AlikeItemCompleted(t: TurnId, s: State, s': State, thread: ThreadId, item: ThreadItem, completedAtMs: int)
    requires Alike(t, s, s')
    ensures AlikeSteps(t, IngestItemCompleted(s, thread, t, item, completedAtMs),
                       IngestItemCompleted(s', thread, t, item, completedAtMs))
  {
    hide Seen, CountTool, ToolEvents, Alike, SetTurn;
    AlikeParts(t, s, s');
    assert ThreadContext(s, thread) == ThreadContext(s', thread);
    if !item.OtherItem? && t in s.turns {
      var turn := s.turns[t].(toolCounts := CountTool(s.turns[t].toolCounts, item));
      AlikeSetTurn(t, s, s', t, turn, turn);
      var c, c' := CountCompletion(s, t, item), CountCompletion(s', t, item);
      var key := ItemKey(thread, t, item.id);
      AgreeOnTurnRemove(t, s.started, s'.started, key);
      AlikeStarted(t, c, c', s.started - {key}, s'.started - {key});
      AgreeOnTurnRemove(t, s.summaries, s'.summaries, key);
      AlikeSummaries(t, c.(started := s.started - {key}), c'.(started := s'.started - {key}),
                     s.summaries - {key}, s'.summaries - {key});
      if key in s.started && ThreadContext(s, thread).Some? && completedAtMs >= 0 {
        AlikeToolEvents(t, s, s', key, ThreadContext(s, thread).value, item, s.started[key], completedAtMs);
      }
    }
  }

  lemma AlikeToolEvents(t: TurnId, s: State, s': State, key: ItemKey, source: Attribution, item: ThreadItem,
      startedAtMs: nat, completedAtMs: nat)
    requires AgreeOnTurn(t, s.summaries, s'.summaries) && key.turnId == t
    ensures ToolEvents(s, key, source, item, startedAtMs, completedAtMs)
         == ToolEvents(s', key, source, item, startedAtMs, completedAtMs)
  {
    AgreeSummaryAt(t, s, s', key);
  }

  /** A completed item of another turn changes nothing that can be seen. */
  lemma OtherItemCompleted(t: TurnId, s: State, thread: ThreadId, u: TurnId, item: ThreadItem, completedAtMs: int)
    requires u != t
    ensures Alike(t, s, IngestItemCompleted(s, thread, u, item, completedAtMs).state)
    ensures Seen(t, IngestItemCompleted(s, thread, u, item, completedAtMs).events) == []
  {
    hide CountTool, ThreadContext, Seen, Alike, AgreeOnTurn;
    var o := IngestItemCompleted(s, thread, u, item, completedAtMs);
    SeenNothing(t, o.events);
    AlikeReflexive(t, s);
    AlikeParts(t, s, s);
    var key := ItemKey(thread, u, item.id);
    AgreeOnTurnOther(t, s.started, key);
    AgreeOnTurnOther(t, s.summaries, key);
    AlikeTurns(t, s, s, s.turns, o.state.turns);
    var counted := s.(turns := o.state.turns);
    AlikeStarted(t, s, counted, s.started, o.state.started);
    AlikeSummaries(t, s, counted.(started := o.state.started), s.summaries, o.state.summaries);
  }

  // ------------------------------------------------------- facts of the turn

  lemma AlikeTurnFact(t: TurnId, s: State, s': State, u: TurnId, turn: TurnState, turn': TurnState, input: Input)
    requires Alike(t, s, s') && (u == t ==> turn == turn')
    ensures AlikeSteps(t, MaybeEmitTurn(SetTurn(s, u, turn), u, input), MaybeEmitTurn(SetTurn(s', u, turn'), u, input))
  {
    hide Alike, Seen, MaybeEmitTurn, SetTurn;
    AlikeSetTurn(t, s, s', u, turn, turn');
    AlikeMaybeEmit(t, SetTurn(s, u, turn), SetTurn(s', u, turn'), u, input);
  }

  lemma AlikeNotification(t: TurnId, s: State, s': State, n: Notification, input: Input)
    requires Alike(t, s, s') && !OfOtherTurn(t, Notified(n))
    ensures AlikeSteps(t, IngestNotification(s, n, input), IngestNotification(s', n, input))
  {
    hide Alike, Seen, MaybeEmitTurn, SetTurn, TurnAt, IngestItemStarted, IngestItemCompleted, EmitReview;
    AlikeParts(t, s, s');
    AlikeTurnAt(t, s, s');
    var turn := TurnAt(s, t);
    match n
    case ItemStarted(thread, u, item, startedAtMs) => AlikeItemStarted(t, s, s', thread, u, item, startedAtMs);
    case ItemCompleted(thread, u, item, completedAtMs) => AlikeItemCompleted(t, s, s', thread, item, completedAtMs);
    case GuardianCompleted(_, _, _, _, _, _, _, _) =>
      var review := GuardianReviewOf(n);
      if review.Some? {
        AlikeEmitReview(t, s, s', review.value, Guardian, GuardianResult(n.status).value, NoResolution,
                        n.completedAtMs);
      }
    case TurnStarted(_, startedAt) =>
      AlikeSetTurn(t, s, s', t, turn.(startedAt := OptionToUnsigned(startedAt)),
                   turn.(startedAt := OptionToUnsigned(startedAt)));
    case TurnDiffUpdated(_, thread, diff) =>
      AlikeSetTurn(t, s, s', t, turn.(threadId := Some(thread), latestDiff := Some(diff)),
                   turn.(threadId := Some(thread), latestDiff := Some(diff)));
    case TurnEnded(_, _, _, _, _) =>
      AlikeTurnFact(t, s, s', t, turn.(completed := Some(CompletionOf(n))),
                    turn.(completed := Some(CompletionOf(n))), input);
    case OtherNotification =>
  }

  lemma AlikeCustom(t: TurnId, s: State, s': State, fact: CustomFact, input: Input)
    requires Alike(t, s, s') && !OfOtherTurn(t, Custom(fact))
    ensures AlikeSteps(t, IngestCustom(s, fact, input), IngestCustom(s', fact, input))
  {
    hide Alike, Seen, MaybeEmitTurn, SetTurn, TurnAt;
    AlikeParts(t, s, s');
    AlikeTurnAt(t, s, s');
    var turn := TurnAt(s, t);
    match fact
    case SubAgentThreadStarted(thread, _, _, _, _) =>
      AlikeThreads(t, s, s', s.threads[thread := SubAgentThread(s, fact)]);
    case ContextFact(_, thread, _) =>
      assert ThreadContext(s, thread) == ThreadContext(s', thread);
    case ConfigFact(config) =>
      var turn' := turn.(threadId := Some(config.threadId), images := Some(config.images), config := Some(config));
      AlikeTurnFact(t, s, s', t, turn', turn', input);
    case TokenUsageFact(_, thread, tokens) =>
      var turn' := turn.(threadId := Some(thread), tokenUsage := Some(tokens));
      AlikeTurnFact(t, s, s', t, turn', turn', input);
    case ProfileFact(_, profile) =>
      AlikeTurnFact(t, s, s', t, turn.(profile := Some(profile)), turn.(profile := Some(profile)), input);
    case CodexErrorFact(_, thread, error) =>
      var turn' := turn.(threadId := if turn.threadId.Some? then turn.threadId else Some(thread),
                         codexError := Some(error));
      AlikeSetTurn(t, s, s', t, turn', turn');
    case _ =>
  }

  lemma AlikeServerResponse(t: TurnId, s: State, s': State, answer: ServerResponse, completedAtMs: nat)
    requires Alike(t, s, s')
    ensures AlikeSteps(t, IngestServerResponse(s, answer, completedAtMs),
                       IngestServerResponse(s', answer, completedAtMs))
  {
    hide Alike, Seen, SettleReview, CommandResult, FileChangeResult;
    match answer
    case CommandAnswer(id, decision) => AlikeSettle(t, s, s', id, CommandResult(decision), completedAtMs);
    case FileChangeAnswer(id, decision) => AlikeSettle(t, s, s', id, FileChangeResult(decision), completedAtMs);
    case OtherAnswer =>
  }

  lemma AlikeServerRequest(t: TurnId, s: State, s': State, id: RequestId, request: ServerRequest)
    requires Alike(t, s, s')
    ensures Alike(t, IngestServerRequest(s, id, request), IngestServerRequest(s', id, request))
  {
    hide Alike, OpenedReview;
    AlikeParts(t, s, s');
    AlikeReviews(t, s, s', IngestServerRequest(s, id, request).reviews);
  }

  lemma AlikeServerStep(t: TurnId, s: State, s': State, input: Input)
    requires Alike(t, s, s') && !ClientSide(input.fact) && !OfOtherTurn(t, input.fact)
    ensures AlikeSteps(t, Step(s, input), Step(s', input))
  {
    hide Alike, Seen, IngestResponse, IngestCustom, IngestNotification, SettleReview, IngestServerResponse,
      IngestServerRequest, IngestErrorResponse, IngestRequest, IngestInitialize, PermissionsResult;
    match input.fact
    case ServerRequestFact(id, request) => AlikeServerRequest(t, s, s', id, request);
    case ServerResponseFact(completedAtMs, answer) => AlikeServerResponse(t, s, s', answer, completedAtMs);
    case PermissionsAnswer(completedAtMs, id, empty, scope) =>
      AlikeSettle(t, s, s', id, PermissionsResult(empty, scope), completedAtMs);
    case RequestAborted(completedAtMs, id) => AlikeSettle(t, s, s', id, (Aborted, NoResolution), completedAtMs);
    case Notified(n) => AlikeNotification(t, s, s', n, input);
    case Custom(fact) => AlikeCustom(t, s, s', fact, input);
  }

  /** A fact that is not of another turn takes like states to like states and is seen alike. */
  lemma AlikeStep(t: TurnId, s: State, s': State, input: Input)
    requires Alike(t, s, s') && !OfOtherTurn(t, input.fact)
    ensures AlikeSteps(t, Step(s, input), Step(s', input))
  {
    hide Alike, Seen, Step, OfOtherTurn;
    if ClientSide(input.fact) {
      AlikeClientStep(t, s, s', input);
    } else {
      AlikeServerStep(t, s, s', input);
    }
  }

  // ---------------------------------------------------- facts of other turns

  lemma OtherSetTurn(t: TurnId, s: State, u: TurnId, turn: TurnState)
    requires u != t
    ensures Alike(t, s, SetTurn(s, u, turn))
  {
    hide AgreeOnTurn, Alike;
    AlikeReflexive(t, s);
    AlikeTurns(t, s, s, s.turns, s.turns[u := turn]);
  }

  lemma OtherTurnFact(t: TurnId, s: State, u: TurnId, turn: TurnState, input: Input)
    requires u != t
    ensures Alike(t, s, MaybeEmitTurn(SetTurn(s, u, turn), u, input).state)
    ensures Seen(t, MaybeEmitTurn(SetTurn(s, u, turn), u, input).events) == []
  {
    hide AgreeOnTurn, Alike, Seen, MaybeEmitTurn;
    var o := MaybeEmitTurn(SetTurn(s, u, turn), u, input);
    MaybeEmitElsewhere(t, SetTurn(s, u, turn), u, input);
    AlikeReflexive(t, s);
    AlikeTurns(t, s, s, s.turns, o.state.turns);
    SeenNothing(t, o.events);
  }

  lemma OtherItemStarted(t: TurnId, s: State, thread: ThreadId, u: TurnId, item: ThreadItem, startedAtMs: int)
    requires u != t
    ensures Alike(t, s, IngestItemStarted(s, thread, u, item, startedAtMs))
  {
    hide Alike;
    AlikeReflexive(t, s);
    AlikeStarted(t, s, s, s.started, IngestItemStarted(s, thread, u, item, startedAtMs).started);
  }

  lemma OtherNotification(t: TurnId, s: State, n: Notification, input: Input)
    requires OfOtherTurn(t, Notified(n))
    ensures Alike(t, s, IngestNotification(s, n, input).state)
    ensures Seen(t, IngestNotification(s, n, input).events) == []
  {
    hide Alike, MaybeEmitTurn, SetTurn, TurnAt, IngestItemStarted, IngestItemCompleted, Visible;
    match n
    case ItemStarted(thread, u, item, startedAtMs) => OtherItemStarted(t, s, thread, u, item, startedAtMs);
    case ItemCompleted(thread, u, item, completedAtMs) => OtherItemCompleted(t, s, thread, u, item, completedAtMs);
    case TurnStarted(u, startedAt) => OtherSetTurn(t, s, u, TurnAt(s, u).(startedAt := OptionToUnsigned(startedAt)));
    case TurnDiffUpdated(u, thread, diff) =>
      OtherSetTurn(t, s, u, TurnAt(s, u).(threadId := Some(thread), latestDiff := Some(diff)));
    case TurnEnded(u, _, _, _, _) =>
      OtherTurnFact(t, s, u, TurnAt(s, u).(completed := Some(CompletionOf(n))), input);
  }

  lemma OtherCustom(t: TurnId, s: State, fact: CustomFact, input: Input)
    requires OfOtherTurn(t, Custom(fact))
    ensures Alike(t, s, IngestCustom(s, fact, input).state)
    ensures Seen(t, IngestCustom(s, fact, input).events) == []
  {
    hide Alike, MaybeEmitTurn, SetTurn, TurnAt, Visible;
    match fact
    case ConfigFact(config) =>
      var u := config.turnId;
      OtherTurnFact(t, s, u, TurnAt(s, u).(threadId := Some(config.threadId), images := Some(config.images),
                                           config := Some(config)), input);
    case TokenUsageFact(u, thread, tokens) =>
      OtherTurnFact(t, s, u, TurnAt(s, u).(threadId := Some(thread), tokenUsage := Some(tokens)), input);
    case ProfileFact(u, profile) => OtherTurnFact(t, s, u, TurnAt(s, u).(profile := Some(profile)), input);
    case CodexErrorFact(u, thread, error) =>
      var turn := TurnAt(s, u);
      OtherSetTurn(t, s, u, turn.(threadId := if turn.threadId.Some? then turn.threadId else Some(thread),
                                  codexError := Some(error)));
  }

  /** A fact of another turn cannot be seen, neither in the events nor in the state. */
  lemma OtherStep(t: TurnId, s: State, input: Input)
    requires OfOtherTurn(t, input.fact)
    ensures Alike(t, s, Step(s, input).state)
    ensures Seen(t, Step(s, input).events) == []
  {
    hide Alike, Seen, IngestResponse, IngestCustom, IngestNotification, SettleReview, IngestServerResponse,
      IngestServerRequest, IngestErrorResponse, IngestRequest, IngestInitialize;
    if input.fact.Notified? {
      OtherNotification(t, s, input.fact.notification, input);
    } else {
      OtherCustom(t, s, input.fact.custom, input);
    }
  }

  lemma AlikeEuclidean(t: TurnId, s: State, a: State, b: State)
    requires Alike(t, s, a) && Alike(t, s, b)
    ensures Alike(t, a, b)
  {
  }

  // ------------------------------------------------------------- main results

  lemma {:induction false} RunWithoutOthers(t: TurnId, inputs: seq<Input>)
    ensures AlikeSteps(t, Run(inputs), Run(OnlyTurn(t, inputs)))
  {
    hide Alike, Step, Visible, OfOtherTurn;
    if inputs == [] {
      AlikeReflexive(t, INITIAL);
    } else {
      var front, last := inputs[..|inputs| - 1], inputs[|inputs| - 1];
      var s, s' := Run(front), Run(OnlyTurn(t, front));
      RunWithoutOthers(t, front);
      FilterAppend(VisibleTo(t), s.events, Step(s.state, last).events);
      if OfOtherTurn(t, last.fact) {
        OtherStep(t, s.state, last);
        AlikeEuclidean(t, s.state, Step(s.state, last).state, s'.state);
        assert !Keeps(t)(last) && OnlyTurn(t, inputs) == OnlyTurn(t, front);
        assert Seen(t, Run(inputs).events) == Seen(t, s.events);
      } else {
        AlikeStep(t, s.state, s'.state, last);
        assert Keeps(t)(last) && OnlyTurn(t, inputs) == OnlyTurn(t, front) + [last];
        RunSnoc(INITIAL, OnlyTurn(t, front), last);
        FilterAppend(VisibleTo(t), s'.events, Step(s'.state, last).events);
      }
    }
  }

  /**
   Two streams that differ only in facts of turns other than `t`, removed from or added to
   either at any place, show the same events: the same turn, accepted-line and tool events of
   `t` and the same events of every other kind, in the same order.
   */
  lemma TurnsDoNotInterfere(t: TurnId, inputs: seq<Input>, inputs': seq<Input>)
    requires OnlyTurn(t, inputs) == OnlyTurn(t, inputs')
    ensures Seen(t, Run(inputs).events) == Seen(t, Run(inputs').events)
    ensures AgreeAt(t, Run(inputs).state.turns, Run(inputs').state.turns)
  {
    hide RunFrom, Seen, AgreeOnTurn;
    RunWithoutOthers(t, inputs);
    RunWithoutOthers(t, inputs');
  }
}
