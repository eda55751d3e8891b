/**
 What the reports of a turn depend on: the acts on the turn and what the stream
 says of threads and connections, and nothing else.
 */
module ReducerDependence {
  import opened Options
  import Protocol
  import opened AnalyticsFacts
  import opened ReducerSpec
  import opened ReducerSettlement
  import opened ReducerThreads
  import opened ReducerTurns
  import opened ReducerReports

  /** What a stream holds for a turn. */
  datatype Essential =
    | ActOn(act: Act, now: nat, repoHash: Option<string>)
    | Known(fact: Fact)  // a handshake, an announced thread or a started subagent

  predicate MakesKnown(fact: Fact) {
    || fact.Initialize?
    || (fact.ClientResponseFact? && fact.response.ThreadResponse?)
    || (fact.Custom? && fact.custom.SubAgentThreadStarted?)
  }

  /** What a fact adds to the essence of the stream before it. */
  function EssenceOf(inputs: seq<Input>, input: Input, t: TurnId): seq<Essential> {
    var a := TraceAct(inputs, input.fact, t);
    if a.Some? then [ActOn(a.value, input.now, input.repoHash)]
    else if MakesKnown(input.fact) then [Known(input.fact)]
    else []
  }

  function Essence(inputs: seq<Input>, t: TurnId): seq<Essential> {
    if inputs == [] then []
    else
      var front := inputs[..|inputs| - 1];
      Essence(front, t) + EssenceOf(front, inputs[|inputs| - 1], t)
  }

  // ----------------------------------------------------------------- one fact

  /** The streams agree on connections, on threads and on the live acts of the turn. */
  ghost predicate Agree(t: TurnId, a: seq<Input>, b: seq<Input>) {
    && (forall c :: TraceConnection(a, c) == TraceConnection(b, c))
    && (forall id :: TraceThread(a, id) == TraceThread(b, id))
    && Live(a, t) == Live(b, t)
  }

  lemma ActsMakeNothingKnown(inputs: seq<Input>, fact: Fact, t: TurnId)
    requires TraceAct(inputs, fact, t).Some?
    ensures !MakesKnown(fact)
  {
    hide PendingRequest;
  }

  lemma NothingKnown(front: seq<Input>, last: Input)
    requires !MakesKnown(last.fact)
    ensures forall c :: TraceConnection(front + [last], c) == TraceConnection(front, c)
    ensures forall id :: TraceThread(front + [last], id) == TraceThread(front, id)
  {
    assert (front + [last])[..|front|] == front;
  }

  lemma SameKnown(a: seq<Input>, b: seq<Input>, x: Input, y: Input)
    requires forall c :: TraceConnection(a, c) == TraceConnection(b, c)
    requires forall id :: TraceThread(a, id) == TraceThread(b, id)
    requires x.fact == y.fact
    ensures forall c :: TraceConnection(a + [x], c) == TraceConnection(b + [y], c)
    ensures forall id :: TraceThread(a + [x], id) == TraceThread(b + [y], id)
  {
    assert (a + [x])[..|a|] == a && (b + [y])[..|b|] == b;
  }

  lemma SameContexts(a: seq<Input>, b: seq<Input>, turn: TurnState)
    requires forall c :: TraceConnection(a, c) == TraceConnection(b, c)
    requires forall id :: TraceThread(a, id) == TraceThread(b, id)
    requires turn.threadId.Some?
    ensures TraceTurnContext(a, turn) == TraceTurnContext(b, turn)
  {
    hide TraceConnection, TraceThread;
  }

  lemma LiveSnoc(front: seq<Input>, last: Input, t: TurnId)
    ensures Live(front + [last], t)
         == if TraceReports(front, ActsAt(front, last.fact, t), TriggersAt(front, last.fact, t)) then []
            else ActsAt(front, last.fact, t)
  {
    hide TraceAct, TraceReports;
    assert (front + [last])[..|front|] == front;
  }

  /** A fact outside the essence changes nothing for the turn. */
  lemma QuietFact(front: seq<Input>, last: Input, t: TurnId)
    requires EssenceOf(front, last, t) == []
    ensures Agree(t, front + [last], front) && ReportAt(front, last, t) == []
  {
    hide TraceAct, TraceConnection, TraceThread;
    NothingKnown(front, last);
    LiveSnoc(front, last, t);
    hide Live;
  }

  /** Facts of one essence do the same to streams that agree. */
  lemma SameFact(t: TurnId, a: seq<Input>, b: seq<Input>, x: Input, y: Input)
    requires Agree(t, a, b) && EssenceOf(a, x, t) == EssenceOf(b, y, t) != []
    ensures Agree(t, a + [x], b + [y]) && ReportAt(a, x, t) == ReportAt(b, y, t)
  {
    hide TraceAct, TraceConnection, TraceThread, Live;
    LiveSnoc(a, x, t);
    LiveSnoc(b, y, t);
    if TraceAct(a, x.fact, t).Some? {
      ActsMakeNothingKnown(a, x.fact, t);
      ActsMakeNothingKnown(b, y.fact, t);
      NothingKnown(a, x);
      NothingKnown(b, y);
      SameReports(t, a, b, x, y);
    } else {
      SameKnown(a, b, x, y);
    }
  }

  lemma SameReports(t: TurnId, a: seq<Input>, b: seq<Input>, x: Input, y: Input)
    requires Agree(t, a, b) && TraceAct(a, x.fact, t) == TraceAct(b, y.fact, t)
    requires x.now == y.now && x.repoHash == y.repoHash
    ensures var acts, trigger := ActsAt(a, x.fact, t), TriggersAt(a, x.fact, t);
            && ActsAt(b, y.fact, t) == acts && TriggersAt(b, y.fact, t) == trigger
            && TraceReports(a, acts, trigger) == TraceReports(b, acts, trigger)
    ensures ReportAt(a, x, t) == ReportAt(b, y, t)
  {
    hide TraceAct, TraceConnection, TraceThread, Live, Assembled, Report, TraceTurnContext;
    var acts := ActsAt(a, x.fact, t);
    if Ready(Assembled(acts)) {
      SameContexts(a, b, Assembled(acts));
    }
  }

  // ------------------------------------------------------------ main results

  lemma AgreeVia(t: TurnId, a: seq<Input>, m: seq<Input>, b: seq<Input>)
    requires Agree(t, a, m) && Agree(t, m, b)
    ensures Agree(t, a, b)
  {
    hide TraceConnection, TraceThread, Live;
  }

  lemma AgreeBack(t: TurnId, a: seq<Input>, b: seq<Input>)
    requires Agree(t, a, b)
    ensures Agree(t, b, a)
  {
    hide TraceConnection, TraceThread, Live;
  }

  lemma AgreeSelf(t: TurnId, a: seq<Input>)
    ensures Agree(t, a, a)
  {
    hide TraceConnection, TraceThread, Live;
  }

  predicate EndsQuietly(inputs: seq<Input>, t: TurnId) {
    inputs != [] && EssenceOf(inputs[..|inputs| - 1], inputs[|inputs| - 1], t) == []
  }

  lemma QuietEnd(inputs: seq<Input>, t: TurnId)
    requires EndsQuietly(inputs, t)
    ensures var front := inputs[..|inputs| - 1];
            Agree(t, inputs, front) && ReportsOf(inputs, t) == ReportsOf(front, t)
            && Essence(inputs, t) == Essence(front, t)
  {
    hide Agree, EssenceOf, ReportAt;
    var front, last := inputs[..|inputs| - 1], inputs[|inputs| - 1];
    assert inputs == front + [last];
    QuietFact(front, last, t);
  }

  lemma LoudEnd(inputs: seq<Input>, t: TurnId)
    requires inputs != [] && !EndsQuietly(inputs, t)
    ensures var front, last := inputs[..|inputs| - 1], inputs[|inputs| - 1];
            |EssenceOf(front, last, t)| == 1 && Essence(inputs, t) == Essence(front, t) + EssenceOf(front, last, t)
  {
    hide TraceAct;
  }

  lemma SplitLast(p: seq<Essential>, q: seq<Essential>, e: seq<Essential>, f: seq<Essential>)
    requires p + e == q + f && |e| == |f| == 1
    ensures p == q && e == f
  {
    assert p == (p + e)[..|p + e| - 1] && q == (q + f)[..|q + f| - 1];
    assert e == (p + e)[|p + e| - 1..] && f == (q + f)[|q + f| - 1..];
  }

  lemma {:induction false} EssenceDecides(t: TurnId, a: seq<Input>, b: seq<Input>)
    requires Essence(a, t) == Essence(b, t)
    ensures Agree(t, a, b) && ReportsOf(a, t) == ReportsOf(b, t)
    decreases |a| + |b|
  {
    hide Agree, EssenceOf, ReportAt, EndsQuietly;
    if EndsQuietly(a, t) {
      QuietEnd(a, t);
      assert a != [] by { NotEmpty(a, t); }
      EssenceDecides(t, a[..|a| - 1], b);
      AgreeVia(t, a, a[..|a| - 1], b);
    } else if EndsQuietly(b, t) {
      QuietEnd(b, t);
      assert b != [] by { NotEmpty(b, t); }
      EssenceDecides(t, a, b[..|b| - 1]);
      AgreeBack(t, b, b[..|b| - 1]);
      AgreeVia(t, a, b[..|b| - 1], b);
    } else if a == [] && b == [] {
      AgreeSelf(t, a);
    } else {
      if a != [] {
        LoudEnd(a, t);
      }
      if b != [] {
        LoudEnd(b, t);
      }
      var f, g, x, y := a[..|a| - 1], b[..|b| - 1], a[|a| - 1], b[|b| - 1];
      assert a == f + [x] && b == g + [y];
      SplitLast(Essence(f, t), Essence(g, t), EssenceOf(f, x, t), EssenceOf(g, y, t));
      EssenceDecides(t, f, g);
      SameFact(t, f, g, x, y);
    }
  }

  lemma NotEmpty(inputs: seq<Input>, t: TurnId)
    requires EndsQuietly(inputs, t)
    ensures inputs != []
  {
  }

  /**
   Streams that hold the same acts on a turn and the same handshakes, threads and subagents, in
   the same order, report the turn alike. All else may differ: other turns and the requests and
   responses that concern them, items, reviews and every fact of another kind.
   */
  lemma ReportsDependOnly(t: TurnId, a: seq<Input>, b: seq<Input>)
    requires Essence(a, t) == Essence(b, t)
    ensures OutputsOf(t, Run(a).events) == OutputsOf(t, Run(b).events)
    ensures TurnOption(Run(a).state, t) == TurnOption(Run(b).state, t)
  {
    hide Essence, RunFrom, OutputsOf, Live, ReportsOf, Assembled;
    EssenceDecides(t, a, b);
    ReportsRefineTrace(a, t);
    ReportsRefineTrace(b, t);
    StateRefinesTrace(a, t);
    StateRefinesTrace(b, t);
  }

  // ------------------------------------------------------- dropping one fact

  predicate OpensKey(input: Input, key: RequestKey) {
    Opens(input).Some? && Opens(input).value.0 == key
  }

  /** A request is opened anew before it is settled again. */
  predicate Reopened(inputs: seq<Input>, key: RequestKey) {
    forall i :: 0 <= i < |inputs| && Settles(inputs[i].fact) == Some(key) ==>
      exists j :: 0 <= j < i && OpensKey(inputs[j], key)
  }

  predicate SomeOpens(inputs: seq<Input>, key: RequestKey) {
    exists j :: 0 <= j < |inputs| && OpensKey(inputs[j], key)
  }

  /** Dropping a fact that opens nothing leaves every pending request as it is but the one it settled. */
  lemma {:induction false} SamePending(a: seq<Input>, r: Input, b: seq<Input>, key: RequestKey)
    requires Opens(r).None?
    ensures Settles(r.fact) != Some(key) || SomeOpens(b, key) ==>
              PendingRequest(a + [r] + b, key) == PendingRequest(a + b, key)
  {
    hide Opens, Settles;
    if b == [] {
      assert a + [r] + b == a + [r] && a + b == a && (a + [r])[..|a|] == a;
    } else {
      var front, last := b[..|b| - 1], b[|b| - 1];
      assert b == front + [last];
      assert (a + [r] + b)[..|a + [r] + b| - 1] == a + [r] + front;
      assert (a + b)[..|a + b| - 1] == a + front;
      SamePending(a, r, front, key);
    }
  }

  lemma SameEssenceOf(a: seq<Input>, r: Input, b: seq<Input>, last: Input, t: TurnId)
    requires Opens(r).None?
    requires Settles(r.fact).Some? && Settles(last.fact) == Settles(r.fact) ==> SomeOpens(b, Settles(r.fact).value)
    ensures EssenceOf(a + [r] + b, last, t) == EssenceOf(a + b, last, t)
  {
    hide PendingRequest, SomeOpens;
    if ResponseKey(last.fact).Some? && Settles(last.fact).Some? {
      SamePending(a, r, b, ResponseKey(last.fact).value);
    }
  }

  lemma {:induction false} SameEssence(a: seq<Input>, r: Input, b: seq<Input>, t: TurnId)
    requires Opens(r).None? && EssenceOf(a, r, t) == []
    requires Settles(r.fact).Some? ==> Reopened(b, Settles(r.fact).value)
    ensures Essence(a + [r] + b, t) == Essence(a + b, t)
  {
    hide EssenceOf, Opens, Settles;
    if b == [] {
      assert a + [r] + b == a + [r] && a + b == a && (a + [r])[..|a|] == a;
    } else {
      var front, last := b[..|b| - 1], b[|b| - 1];
      assert (a + [r] + b)[..|a + [r] + b| - 1] == a + [r] + front;
      assert (a + b)[..|a + b| - 1] == a + front;
      if Settles(r.fact).Some? {
        ReopenedFront(b, Settles(r.fact).value);
      }
      SameEssence(a, r, front, t);
      SameEssenceOf(a, r, front, last, t);
    }
  }

  lemma ReopenedFront(b: seq<Input>, key: RequestKey)
    requires b != [] && Reopened(b, key)
    ensures Reopened(b[..|b| - 1], key)
    ensures Settles(b[|b| - 1].fact) == Some(key) ==> SomeOpens(b[..|b| - 1], key)
  {
    hide Settles, OpensKey;
    var front := b[..|b| - 1];
    forall i | 0 <= i < |front| && Settles(front[i].fact) == Some(key)
      ensures exists j :: 0 <= j < i && OpensKey(front[j], key)
    {
      assert b[i] == front[i];
      var j :| 0 <= j < i && OpensKey(b[j], key);
      assert front[j] == b[j];
    }
    if Settles(b[|b| - 1].fact) == Some(key) {
      var j :| 0 <= j < |b| - 1 && OpensKey(b[j], key);
      assert front[j] == b[j];
    }
  }

  /**
   The answer to a request that concerns another turn can be dropped anywhere without a trace in
   the reports of this one, as long as its request is not answered twice without being asked anew.
   The same holds of every review, item or other fact that neither acts on the turn nor announces
   a thread or connection.
   */
  lemma DroppedUnseen(a: seq<Input>, r: Input, b: seq<Input>, t: TurnId)
    requires Opens(r).None? && TraceAct(a, r.fact, t).None? && !MakesKnown(r.fact)
    requires Settles(r.fact).Some? ==> Reopened(b, Settles(r.fact).value)
    ensures OutputsOf(t, Run(a + [r] + b).events) == OutputsOf(t, Run(a + b).events)
    ensures TurnOption(Run(a + [r] + b).state, t) == TurnOption(Run(a + b).state, t)
  {
    hide RunFrom, Essence, OutputsOf, Opens, Settles, Reopened, TraceAct;
    SameEssence(a, r, b, t);
    ReportsDependOnly(t, a + [r] + b, a + b);
  }

  // One start request answered for turn "u" and then again for turn "t".
  const ASKED := Input(ClientRequestFact(1, Protocol.IntegerId(0), TurnStartRequest("thread", 0)), 0, None)
  const ANSWERED_U := Input(ClientResponseFact(1, Protocol.IntegerId(0), TurnStartResponse("u"), None), 0, None)
  const ANSWERED_T := Input(ClientResponseFact(1, Protocol.IntegerId(0), TurnStartResponse("t"), None), 0, None)

  /** Without the first answer the second one binds its turn, so here the dropped fact is missed. */
  lemma DoubleAnswerIsMissed()
    ensures TurnOption(Run([ASKED, ANSWERED_U, ANSWERED_T]).state, "t") == None
    ensures TurnOption(Run([ASKED, ANSWERED_T]).state, "t").Some?
  {
    AnsweredOnceBinds();
    AnsweredTwiceDoesNot();
    hide RunFrom, Live, Assembled;
    StateRefinesTrace([ASKED, ANSWERED_T], "t");
    StateRefinesTrace([ASKED, ANSWERED_U, ANSWERED_T], "t");
  }

  lemma NothingLive()
    ensures PendingRequest([ASKED], (1, Protocol.IntegerId(0))) == Some(PendingStart("thread", 0))
    ensures Live([ASKED], "t") == []
  {
    assert [ASKED][..0] == [];
    assert Live([ASKED][..0], "t") == [];
    assert TraceAct([ASKED][..0], ASKED.fact, "t").None?;
  }

  lemma AnsweredOnceBinds()
    ensures Live([ASKED, ANSWERED_T], "t") == [Bound(1, "thread", 0)]
  {
    hide Assembled, TraceTurnContext, PendingRequest, Ready;
    NothingLive();
    OneBindingIsNotReady(1, "thread", 0);
    assert [ASKED, ANSWERED_T] == [ASKED] + [ANSWERED_T];
    LiveSnoc([ASKED], ANSWERED_T, "t");
    assert TraceAct([ASKED], ANSWERED_T.fact, "t") == Some(Bound(1, "thread", 0));
    hide Live;
    assert ActsAt([ASKED], ANSWERED_T.fact, "t") == [Bound(1, "thread", 0)];
  }

  lemma AnsweredTwiceDoesNot()
    ensures Live([ASKED, ANSWERED_U, ANSWERED_T], "t") == []
  {
    hide Assembled, TraceTurnContext, Ready;
    NothingLive();
    var front := [ASKED, ANSWERED_U];
    assert front == [ASKED] + [ANSWERED_U] && [ASKED, ANSWERED_U, ANSWERED_T] == front + [ANSWERED_T];
    LiveSnoc([ASKED], ANSWERED_U, "t");
    LiveSnoc(front, ANSWERED_T, "t");
    assert PendingRequest(front, (1, Protocol.IntegerId(0))) == None;
    hide Live, PendingRequest;
    assert TraceAct([ASKED], ANSWERED_U.fact, "t").None? && TraceAct(front, ANSWERED_T.fact, "t").None?;
  }

  lemma OneBindingIsNotReady(c: ConnectionId, thread: ThreadId, images: nat)
    ensures !Ready(Assembled([Bound(c, thread, images)]))
  {
    AssembledNothing();
    AssembledSnoc([], Bound(c, thread, images));
    assert [] + [Bound(c, thread, images)] == [Bound(c, thread, images)];
  }
}
