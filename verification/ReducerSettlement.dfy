/**
 One-shot settlement: the pending requests and reviews are a function of the
 stream of facts, each is consumed by the first fact that settles it, and
 settling again does nothing.
 */
module ReducerSettlement {
  import opened Options
  import opened AnalyticsFacts
  import opened ReducerSpec
  import opened FactReadings
  import opened Sequences

  // -------------------------------------------------------- client requests

  /** The request a fact opens, if any. */
  function Opens(input: Input): Option<(RequestKey, RequestState)> {
    match input.fact
    case ClientRequestFact(c, id, TurnStartRequest(thread, images)) => Some(((c, id), PendingStart(thread, images)))
    case ClientRequestFact(c, id, TurnSteerRequest(thread, expected, images)) =>
      Some(((c, id), PendingSteer(thread, expected, images, input.now)))
    case InterruptRequest(c, id, t, requestedAtMs) => Some(((c, id), PendingInterrupt(t, requestedAtMs)))
    case _ => None
  }

  /** The key of the request a fact settles, if any: a start, steer or interrupt response, or an error. */
  function Settles(fact: Fact): Option<RequestKey> {
    match fact
    case ClientResponseFact(c, id, response, _) =>
      if response.TurnStartResponse? || response.TurnSteerResponse? || response.TurnInterruptResponse?
      then Some((c, id)) else None
    case ErrorResponse(c, id, _) => Some((c, id))
    case _ => None
  }

  /** Whether a request is pending, read off the stream alone: the latest fact about the key decides. */
  function PendingRequest(inputs: seq<Input>, key: RequestKey): Option<RequestState> {
    if inputs == [] then None
    else
      var last := inputs[|inputs| - 1];
      if Opens(last).Some? && Opens(last).value.0 == key then Some(Opens(last).value.1)
      else if Settles(last.fact) == Some(key) then None
      else PendingRequest(inputs[..|inputs| - 1], key)
  }

  function RequestAt(s: State, key: RequestKey): Option<RequestState> {
    if key in s.requests then Some(s.requests[key]) else None
  }

  lemma ResponseRequests(s: State, key: RequestKey, response: ClientResponse, originator: Option<string>, input: Input)
    ensures IngestResponse(s, key, response, originator, input).state.requests
         == if response.TurnStartResponse? || response.TurnSteerResponse? || response.TurnInterruptResponse?
            then s.requests - {key} else s.requests
  {
    hide MaybeEmitTurn, EmitSteer;
    assert key !in s.requests ==> s.requests - {key} == s.requests;
  }

  predicate RequestsAfter(s: State, input: Input, key: RequestKey, s': State) {
    RequestAt(s', key)
    == if Opens(input).Some? && Opens(input).value.0 == key then Some(Opens(input).value.1)
       else if Settles(input.fact) == Some(key) then None
       else RequestAt(s, key)
  }

  lemma SettleStepRequests(s: State, input: Input, key: RequestKey)
    requires input.fact.ClientResponseFact? || input.fact.ErrorResponse?
    ensures RequestsAfter(s, input, key, Step(s, input).state)
  {
    hide IngestResponse, IngestCustom, IngestNotification, SettleReview, IngestServerResponse,
      IngestServerRequest, IngestRequest, IngestInitialize, EmitSteer;
    if input.fact.ClientResponseFact? {
      var f := input.fact;
      ResponseRequests(s, (f.connectionId, f.requestId), f.response, f.originator, input);
    }
  }

  lemma OpenStepRequests(s: State, input: Input, key: RequestKey)
    requires ClientSide(input.fact) && !input.fact.ClientResponseFact? && !input.fact.ErrorResponse?
    ensures RequestsAfter(s, input, key, Step(s, input).state)
  {
    hide Step;
    if input.fact.ClientRequestFact? {
      OpenedByRequest(s, input);
    } else if input.fact.InterruptRequest? {
      OpenedByInterrupt(s, input);
    } else {
      InitializeRequests(s, input);
    }
  }

  lemma OpenedByRequest(s: State, input: Input)
    requires input.fact.ClientRequestFact?
    ensures Step(s, input).state.requests
         == if Opens(input).Some? then s.requests[Opens(input).value.0 := Opens(input).value.1] else s.requests
  {
  }

  lemma OpenedByInterrupt(s: State, input: Input)
    requires input.fact.InterruptRequest?
    ensures Opens(input).Some?
    ensures Step(s, input).state.requests == s.requests[Opens(input).value.0 := Opens(input).value.1]
  {
  }

  lemma InitializeRequests(s: State, input: Input)
    requires input.fact.Initialize?
    ensures Step(s, input).state.requests == s.requests
  {
  }

  lemma ServerStepRequests(s: State, input: Input, key: RequestKey)
    requires !ClientSide(input.fact)
    ensures RequestsAfter(s, input, key, Step(s, input).state)
  {
    hide IngestResponse, IngestCustom, IngestNotification, SettleReview, IngestServerResponse,
      IngestServerRequest, IngestErrorResponse, IngestRequest, IngestInitialize;
    assert Step(s, input).state.requests == s.requests;
  }

  /** What one fact does to the pending requests. */
  lemma StepRequests(s: State, input: Input, key: RequestKey)
    ensures RequestsAfter(s, input, key, Step(s, input).state)
  {
    hide Step, RequestsAfter;
    if input.fact.ClientResponseFact? || input.fact.ErrorResponse? {
      SettleStepRequests(s, input, key);
    } else if ClientSide(input.fact) {
      OpenStepRequests(s, input, key);
    } else {
      ServerStepRequests(s, input, key);
    }
  }

  /** In every run the pending requests are those the stream leaves pending. */
  lemma {:induction false} RequestsRefineTrace(inputs: seq<Input>, key: RequestKey)
    ensures RequestAt(Run(inputs).state, key) == PendingRequest(inputs, key)
  {
    hide Step, Opens, Settles;
    if inputs != [] {
      var front, last := inputs[..|inputs| - 1], inputs[|inputs| - 1];
      RequestsRefineTrace(front, key);
      StepRequests(Run(front).state, last, key);
    }
  }

  /** Settling what is not pending changes nothing and emits nothing. */
  lemma SettlingNothing(s: State, input: Input)
    requires Settles(input.fact).Some? && Settles(input.fact).value !in s.requests
    ensures Step(s, input) == Out(s, [])
  {
    hide IngestCustom, IngestNotification, SettleReview, IngestServerResponse, IngestServerRequest, MaybeEmitTurn,
      EmitSteer, EmitThreadInitialized;
  }

  lemma {:induction false} StaysSettled(inputs: seq<Input>, mid: seq<Input>, key: RequestKey)
    requires PendingRequest(inputs, key).None?
    requires forall i :: 0 <= i < |mid| ==> !(Opens(mid[i]).Some? && Opens(mid[i]).value.0 == key)
    ensures PendingRequest(inputs + mid, key).None?
  {
    if mid == [] {
      assert inputs + mid == inputs;
    } else {
      var front := mid[..|mid| - 1];
      StaysSettled(inputs, front, key);
      assert (inputs + mid)[..|inputs + mid| - 1] == inputs + front;
    }
  }

  /**
   After a fact settled a key, any further settlement of it is inert until a new request
   reuses the key.
   */
  lemma SettledOnce(inputs: seq<Input>, first: Input, mid: seq<Input>, again: Input)
    requires Settles(first.fact).Some? && Settles(again.fact) == Settles(first.fact)
    requires forall i :: 0 <= i < |mid| ==> !(Opens(mid[i]).Some? && Opens(mid[i]).value.0 == Settles(first.fact).value)
    ensures Step(Run(inputs + [first] + mid).state, again) == Out(Run(inputs + [first] + mid).state, [])
  {
    hide Step, RunFrom;
    var key := Settles(first.fact).value;
    var settled := inputs + [first];
    assert settled[..|settled| - 1] == inputs;
    StaysSettled(settled, mid, key);
    RequestsRefineTrace(settled + mid, key);
    SettlingNothing(Run(settled + mid).state, again);
  }

  // ---------------------------------------------------------------- reviews

  function OpensReview(fact: Fact): Option<(RequestId, PendingReview)> {
    if fact.ServerRequestFact? && ReviewAsked(fact.requestId, fact.serverRequest).Some?
    then Some((fact.requestId, ReviewAsked(fact.requestId, fact.serverRequest).value))
    else None
  }

  /** The answer of the user to an approval request: which request, and with what result. */
  function Answers(fact: Fact): Option<(RequestId, (ReviewStatus, Resolution))> {
    match fact
    case ServerResponseFact(_, CommandAnswer(id, decision)) => Some((id, CommandVerdict(decision)))
    case ServerResponseFact(_, FileChangeAnswer(id, decision)) => Some((id, FileVerdict(decision)))
    case PermissionsAnswer(_, id, empty, scope) => Some((id, GrantVerdict(empty, scope)))
    case RequestAborted(_, id) => Some((id, (Aborted, NoResolution)))
    case _ => None
  }

  function PendingReviewOf(inputs: seq<Input>, id: RequestId): Option<PendingReview> {
    if inputs == [] then None
    else
      var last := inputs[|inputs| - 1].fact;
      if OpensReview(last).Some? && OpensReview(last).value.0 == id then Some(OpensReview(last).value.1)
      else if Answers(last).Some? && Answers(last).value.0 == id then None
      else PendingReviewOf(inputs[..|inputs| - 1], id)
  }

  function ReviewAt(s: State, id: RequestId): Option<PendingReview> {
    if id in s.reviews then Some(s.reviews[id]) else None
  }

  /** An answer is the settlement of the review it names. */
  lemma StepOfAnswer(s: State, input: Input)
    requires Answers(input.fact).Some?
    ensures exists completedAtMs: nat ::
              Step(s, input) == SettleReview(s, Answers(input.fact).value.0, Answers(input.fact).value.1, completedAtMs)
  {
    hide IngestResponse, IngestCustom, IngestNotification, SettleReview, IngestErrorResponse,
      IngestServerRequest, IngestRequest, IngestInitialize, CommandResult, FileChangeResult, PermissionsResult,
      CommandVerdict, FileVerdict, GrantVerdict;
    var completedAtMs := input.fact.completedAtMs;
    assert Step(s, input) == SettleReview(s, Answers(input.fact).value.0, Answers(input.fact).value.1, completedAtMs);
  }

  lemma AnsweredReviews(s: State, input: Input)
    requires Answers(input.fact).Some?
    ensures Step(s, input).state.reviews == s.reviews - {Answers(input.fact).value.0}
    ensures OpensReview(input.fact).None?
  {
    hide Step, SettleReview;
    StepOfAnswer(s, input);
    var at: nat :| Step(s, input) == SettleReview(s, Answers(input.fact).value.0, Answers(input.fact).value.1, at);
    SettledReviews(s, Answers(input.fact).value.0, Answers(input.fact).value.1, at);
  }

  lemma SettledReviews(s: State, id: RequestId, result: (ReviewStatus, Resolution), completedAtMs: nat)
    ensures SettleReview(s, id, result, completedAtMs).state.reviews == s.reviews - {id}
  {
    hide EmitReview;
    assert id !in s.reviews ==> s.reviews - {id} == s.reviews;
  }

  lemma StepOfServerRequest(s: State, input: Input)
    requires input.fact.ServerRequestFact?
    ensures Step(s, input) == Out(IngestServerRequest(s, input.fact.requestId, input.fact.serverRequest), [])
  {
    hide IngestServerRequest;
  }

  lemma OpenedReviews(s: State, input: Input)
    requires input.fact.ServerRequestFact?
    ensures Step(s, input).state.reviews
         == var opens := OpensReview(input.fact);
            if opens.Some? then s.reviews[opens.value.0 := opens.value.1] else s.reviews
    ensures Answers(input.fact).None?
  {
    hide Step, OpenedReview, ReviewAsked;
    StepOfServerRequest(s, input);
  }

  lemma OtherReviews(s: State, input: Input)
    requires Answers(input.fact).None? && !input.fact.ServerRequestFact?
    ensures Step(s, input).state.reviews == s.reviews && OpensReview(input.fact).None?
  {
    hide Step;
    if input.fact.ServerResponseFact? {
      IgnoredAnswer(s, input);
    }
  }

  lemma IgnoredAnswer(s: State, input: Input)
    requires input.fact.ServerResponseFact? && Answers(input.fact).None?
    ensures Step(s, input) == Out(s, [])
  {
    assert input.fact.answer.OtherAnswer?;
  }

  lemma StepReviews(s: State, input: Input, id: RequestId)
    ensures ReviewAt(Step(s, input).state, id)
         == if OpensReview(input.fact).Some? && OpensReview(input.fact).value.0 == id
            then Some(OpensReview(input.fact).value.1)
            else if Answers(input.fact).Some? && Answers(input.fact).value.0 == id then None
            else ReviewAt(s, id)
  {
    hide Step, Answers, OpensReview;
    if Answers(input.fact).Some? {
      AnsweredReviews(s, input);
    } else if input.fact.ServerRequestFact? {
      OpenedReviews(s, input);
    } else {
      OtherReviews(s, input);
    }
  }

  /** In every run the pending reviews are those the stream leaves pending. */
  lemma {:induction false} ReviewsRefineTrace(inputs: seq<Input>, id: RequestId)
    ensures ReviewAt(Run(inputs).state, id) == PendingReviewOf(inputs, id)
  {
    hide Step, OpensReview, Answers;
    if inputs != [] {
      var front, last := inputs[..|inputs| - 1], inputs[|inputs| - 1];
      ReviewsRefineTrace(front, id);
      StepReviews(Run(front).state, last, id);
    }
  }

  lemma AnsweringNothing(s: State, input: Input)
    requires Answers(input.fact).Some? && Answers(input.fact).value.0 !in s.reviews
    ensures Step(s, input) == Out(s, [])
  {
    hide Step, Answers;
    StepOfAnswer(s, input);
  }

  lemma {:induction false} StaysAnswered(inputs: seq<Input>, mid: seq<Input>, id: RequestId)
    requires PendingReviewOf(inputs, id).None?
    requires forall i :: 0 <= i < |mid| ==> !(OpensReview(mid[i].fact).Some? && OpensReview(mid[i].fact).value.0 == id)
    ensures PendingReviewOf(inputs + mid, id).None?
  {
    if mid == [] {
      assert inputs + mid == inputs;
    } else {
      var front := mid[..|mid| - 1];
      StaysAnswered(inputs, front, id);
      assert (inputs + mid)[..|inputs + mid| - 1] == inputs + front;
    }
  }

  /** A second answer or abort of an approval request is inert until the request id is reused. */
  lemma AnsweredOnce(inputs: seq<Input>, first: Input, mid: seq<Input>, again: Input)
    requires Answers(first.fact).Some? && Answers(again.fact).Some?
    requires Answers(again.fact).value.0 == Answers(first.fact).value.0
    requires forall i :: 0 <= i < |mid| ==>
               !(OpensReview(mid[i].fact).Some? && OpensReview(mid[i].fact).value.0 == Answers(first.fact).value.0)
    ensures Step(Run(inputs + [first] + mid).state, again) == Out(Run(inputs + [first] + mid).state, [])
  {
    hide Step, RunFrom, OpensReview;
    var id := Answers(first.fact).value.0;
    var answered := inputs + [first];
    assert answered[..|answered| - 1] == inputs;
    assert OpensReview(first.fact).None? by {
      hide *;
      NoOpeningAnswer(first.fact);
    }
    StaysAnswered(answered, mid, id);
    ReviewsRefineTrace(answered + mid, id);
    AnsweringNothing(Run(answered + mid).state, again);
  }

  lemma NoOpeningAnswer(fact: Fact)
    requires Answers(fact).Some?
    ensures OpensReview(fact).None?
  {
    hide OpenedReview, CommandResult, FileChangeResult, PermissionsResult,
      CommandVerdict, FileVerdict, GrantVerdict;
  }

  // ----------------------------------------------------------------- counting

  predicate IsSteerEvent(e: Event) {
    e.SteerEvent?
  }

  predicate IsSteerRequest(input: Input) {
    input.fact.ClientRequestFact? && input.fact.request.TurnSteerRequest?
  }

  predicate IsUserReview(e: Event) {
    e.ReviewEvent? && e.reviewer.User?
  }

  predicate IsApprovalRequest(input: Input) {
    OpensReview(input.fact).Some?
  }

  function PendingSteers(s: State): set<RequestKey> {
    set key | key in s.requests && s.requests[key].PendingSteer?
  }

  /** A fact can turn one pending steer into one steer event, and only a steer request adds one. */
  predicate SteersBalance(s: State, input: Input, o: Out) {
    |PendingSteers(o.state)| + Count(IsSteerEvent, o.events)
    <= |PendingSteers(s)| + if IsSteerRequest(input) then 1 else 0
  }

  lemma NoSteers(s: State, input: Input, o: Out)
    requires o.state.requests == s.requests || (exists key :: o.state.requests == s.requests - {key})
    requires forall i :: 0 <= i < |o.events| ==> !o.events[i].SteerEvent?
    ensures SteersBalance(s, input, o)
  {
    CountNone(IsSteerEvent, o.events);
    assert PendingSteers(o.state) <= PendingSteers(s);
    CardinalityMonotone(PendingSteers(o.state), PendingSteers(s));
  }

  lemma {:induction false} CardinalityMonotone<T>(a: set<T>, b: set<T>)
    requires a <= b
    ensures |a| <= |b|
  {
    assert b == a + (b - a);
  }

  lemma OneSteer(s: State, input: Input, key: RequestKey, o: Out)
    requires key in s.requests && s.requests[key].PendingSteer? && o.state.requests == s.requests - {key}
    requires |o.events| <= 1
    ensures SteersBalance(s, input, o)
  {
    assert PendingSteers(o.state) == PendingSteers(s) - {key};
    if |o.events| == 1 {
      assert o.events == [o.events[0]];
      CountOne(IsSteerEvent, o.events[0]);
    }
  }

  lemma ResponseSteers(s: State, key: RequestKey, response: ClientResponse, originator: Option<string>, input: Input)
    ensures SteersBalance(s, input, IngestResponse(s, key, response, originator, input))
  {
    hide MaybeEmitTurn, SteersBalance;
    var o := IngestResponse(s, key, response, originator, input);
    if response.TurnSteerResponse? && key in s.requests && s.requests[key].PendingSteer? {
      OneSteer(s, input, key, o);
    } else {
      assert key !in s.requests ==> s.requests - {key} == s.requests;
      NoSteers(s, input, o);
    }
  }

  lemma ErrorSteers(s: State, key: RequestKey, rejection: Option<SteerRejection>, input: Input)
    ensures SteersBalance(s, input, IngestErrorResponse(s, key, rejection))
  {
    hide SteersBalance;
    var o := IngestErrorResponse(s, key, rejection);
    if key in s.requests && s.requests[key].PendingSteer? {
      OneSteer(s, input, key, o);
    } else {
      assert key !in s.requests ==> s.requests - {key} == s.requests;
      NoSteers(s, input, o);
    }
  }

  lemma OpeningSteers(s: State, input: Input, key: RequestKey, pending: RequestState, o: Out)
    requires pending.PendingSteer? ==> IsSteerRequest(input)
    requires o == Out(s.(requests := s.requests[key := pending]), [])
    ensures SteersBalance(s, input, o)
  {
    var grown := PendingSteers(s) + if pending.PendingSteer? then {key} else {};
    assert PendingSteers(o.state) <= grown;
    CardinalityMonotone(PendingSteers(o.state), grown);
  }

  lemma ClientStepSteers(s: State, input: Input)
    requires ClientSide(input.fact)
    ensures SteersBalance(s, input, Step(s, input))
  {
    hide IngestResponse, IngestCustom, IngestNotification, SettleReview, IngestServerResponse,
      IngestServerRequest, IngestErrorResponse, IngestInitialize, SteersBalance;
    match input.fact
    case Initialize(_, _, _) =>
      assert IngestInitialize(s, input.fact.connectionId, input.fact.productClientId, input.fact.runtime).requests
          == s.requests by { InitializeFrame(s, input); }
      NoSteers(s, input, Step(s, input));
    case ClientRequestFact(c, id, request) =>
      if request.TurnStartRequest? {
        OpeningSteers(s, input, (c, id), PendingStart(request.threadId, request.images), Step(s, input));
      } else if request.TurnSteerRequest? {
        OpeningSteers(s, input, (c, id),
                      PendingSteer(request.threadId, request.expectedTurnId, request.images, input.now),
                      Step(s, input));
      } else {
        NoSteers(s, input, Step(s, input));
      }
    case InterruptRequest(c, id, t, requestedAtMs) =>
      OpeningSteers(s, input, (c, id), PendingInterrupt(t, requestedAtMs), Step(s, input));
    case ClientResponseFact(c, id, response, originator) => ResponseSteers(s, (c, id), response, originator, input);
    case ErrorResponse(c, id, rejection) => ErrorSteers(s, (c, id), rejection, input);
  }

  lemma InitializeFrame(s: State, input: Input)
    requires input.fact.Initialize?
    ensures IngestInitialize(s, input.fact.connectionId, input.fact.productClientId, input.fact.runtime).requests
         == s.requests
  {
  }

  lemma StepSteers(s: State, input: Input)
    ensures SteersBalance(s, input, Step(s, input))
  {
    hide IngestResponse, IngestCustom, IngestNotification, SettleReview, IngestServerResponse,
      IngestServerRequest, IngestErrorResponse, IngestInitialize, IngestRequest, SteersBalance;
    if ClientSide(input.fact) {
      ClientStepSteers(s, input);
    } else {
      NoSteers(s, input, Step(s, input));
    }
  }

  /** Over every run there are at most as many steer events as steer requests. */
  lemma {:induction false} SteerEventsBounded(inputs: seq<Input>)
    ensures |PendingSteers(Run(inputs).state)| + Count(IsSteerEvent, Run(inputs).events)
         <= Count(IsSteerRequest, inputs)
  {
    hide Step, IsSteerRequest, IsSteerEvent, PendingSteers;
    if inputs == [] {
      NoPendingSteers();
    } else {
      var front, last := inputs[..|inputs| - 1], inputs[|inputs| - 1];
      SteerEventsBounded(front);
      StepSteers(Run(front).state, last);
      CountAppend(IsSteerEvent, Run(front).events, Step(Run(front).state, last).events);
    }
  }

  lemma NoPendingSteers()
    ensures PendingSteers(INITIAL) == {}
  {
  }

  // -------------------------------------------------------------- user reviews

  predicate ReviewsBalance(s: State, input: Input, o: Out) {
    |o.state.reviews| + Count(IsUserReview, o.events) <= |s.reviews| + if IsApprovalRequest(input) then 1 else 0
  }

  lemma NoUserReviews(s: State, input: Input, o: Out)
    requires o.state.reviews == s.reviews
    requires forall i :: 0 <= i < |o.events| ==> !IsUserReview(o.events[i])
    ensures ReviewsBalance(s, input, o)
  {
    CountNone(IsUserReview, o.events);
  }

  lemma SettleBalance(s: State, input: Input, id: RequestId, result: (ReviewStatus, Resolution), completedAtMs: nat)
    ensures ReviewsBalance(s, input, SettleReview(s, id, result, completedAtMs))
  {
    hide IsApprovalRequest, EmitReview;
    var o := SettleReview(s, id, result, completedAtMs);
    if id in s.reviews {
      assert o.state.reviews == s.reviews - {id};
      assert o.state.reviews.Keys == s.reviews.Keys - {id};
      if |o.events| == 1 {
        assert o.events == [o.events[0]];
        CountOne(IsUserReview, o.events[0]);
      }
    }
  }

  lemma OpenBalance(s: State, input: Input)
    requires input.fact.ServerRequestFact?
    ensures ReviewsBalance(s, input, Out(IngestServerRequest(s, input.fact.requestId, input.fact.serverRequest), []))
  {
    hide OpenedReview, ReviewAsked, IsUserReview;
    var s', id := IngestServerRequest(s, input.fact.requestId, input.fact.serverRequest), input.fact.requestId;
    CountNone(IsUserReview, []);
    if OpenedReview(id, input.fact.serverRequest).Some? {
      assert s'.reviews.Keys == s.reviews.Keys + {id};
      OneMore(s.reviews, s'.reviews, id);
    }
  }

  lemma OneMore(m: map<RequestId, PendingReview>, m': map<RequestId, PendingReview>, id: RequestId)
    requires m'.Keys == m.Keys + {id}
    ensures |m'| <= |m| + 1
  {
    assert |m'.Keys| <= |m.Keys| + 1;
  }

  lemma NoReviewStep(s: State, input: Input)
    requires Answers(input.fact).None? && !input.fact.ServerRequestFact?
    ensures forall i :: 0 <= i < |Step(s, input).events| ==> !IsUserReview(Step(s, input).events[i])
  {
    hide IngestResponse, IngestCustom, IngestNotification, SettleReview, IngestErrorResponse,
      IngestServerRequest, IngestRequest, CommandResult, FileChangeResult, PermissionsResult,
      CommandVerdict, FileVerdict, GrantVerdict;
    if input.fact.ErrorResponse? {
      ErrorNoReviews(s, (input.fact.connectionId, input.fact.requestId), input.fact.rejection);
    } else if input.fact.ServerResponseFact? {
      assert input.fact.answer.OtherAnswer?;
    }
  }

  lemma ErrorNoReviews(s: State, key: RequestKey, rejection: Option<SteerRejection>)
    ensures forall i :: 0 <= i < |IngestErrorResponse(s, key, rejection).events| ==>
              IngestErrorResponse(s, key, rejection).events[i].SteerEvent?
  {
  }

  lemma StepReviewBalance(s: State, input: Input)
    ensures ReviewsBalance(s, input, Step(s, input))
  {
    hide Step, ReviewsBalance, SettleReview, IngestServerRequest;
    if Answers(input.fact).Some? {
      StepOfAnswer(s, input);
      var completedAtMs: nat :| Step(s, input)
        == SettleReview(s, Answers(input.fact).value.0, Answers(input.fact).value.1, completedAtMs);
      SettleBalance(s, input, Answers(input.fact).value.0, Answers(input.fact).value.1, completedAtMs);
    } else if input.fact.ServerRequestFact? {
      StepOfServerRequest(s, input);
      OpenBalance(s, input);
    } else {
      OtherReviews(s, input);
      NoReviewStep(s, input);
      NoUserReviews(s, input, Step(s, input));
    }
  }

  /** Over every run there are at most as many user review events as approval requests. */
  lemma {:induction false} UserReviewsBounded(inputs: seq<Input>)
    ensures |Run(inputs).state.reviews| + Count(IsUserReview, Run(inputs).events)
         <= Count(IsApprovalRequest, inputs)
  {
    hide Step, IsApprovalRequest, IsUserReview;
    if inputs != [] {
      var front, last := inputs[..|inputs| - 1], inputs[|inputs| - 1];
      UserReviewsBounded(front);
      StepReviewBalance(Run(front).state, last);
      CountAppend(IsUserReview, Run(front).events, Step(Run(front).state, last).events);
    }
  }
}
