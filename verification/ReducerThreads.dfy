/**
 Thread contexts over whole runs: in every reachable state each thread has
 metadata and names only recorded connections, and a context never gets lost.
 */
module ReducerThreads {
  import opened Options
  import Protocol
  import opened AnalyticsFacts
  import opened ReducerSpec
  import opened FactReadings

  predicate SoundThread(s: State, thread: ThreadState) {
    thread.metadata.Some? && (thread.connectionId.Some? ==> thread.connectionId.value in s.connections)
  }

  predicate SoundThreads(s: State) {
    forall id :: id in s.threads ==> SoundThread(s, s.threads[id])
  }

  predicate KeepsThread(before: ThreadState, after: ThreadState) {
    && (before.connectionId.Some? ==> after.connectionId.Some?)
    && (before.metadata.Some? ==> after.metadata.Some?)
  }

  /** No connection or thread is forgotten, and no thread loses its connection or metadata. */
  predicate Grows(s: State, s': State) {
    && s.connections.Keys <= s'.connections.Keys
    && forall id :: id in s.threads ==> id in s'.threads && KeepsThread(s.threads[id], s'.threads[id])
  }

  lemma UnchangedGrows(s: State, s': State)
    requires s'.threads == s.threads && s'.connections == s.connections
    ensures Grows(s, s')
    ensures SoundThreads(s) ==> SoundThreads(s')
  {
    assert SoundThreads(s) ==> forall id :: id in s'.threads ==> SoundThread(s, s'.threads[id]);
  }

  lemma SetThreadGrows(s: State, id: ThreadId, thread: ThreadState)
    requires KeepsThread(ThreadAt(s, id), thread) && SoundThread(s, thread)
    ensures Grows(s, s.(threads := s.threads[id := thread]))
    ensures SoundThreads(s) ==> SoundThreads(s.(threads := s.threads[id := thread]))
  {
    var s' := s.(threads := s.threads[id := thread]);
    assert SoundThreads(s) ==> forall i :: i in s'.threads ==> SoundThread(s, s'.threads[i]);
  }

  lemma ResponseGrows(s: State, key: RequestKey, response: ClientResponse, originator: Option<string>, input: Input)
    requires SoundThreads(s)
    ensures Grows(s, IngestResponse(s, key, response, originator, input).state)
    ensures SoundThreads(IngestResponse(s, key, response, originator, input).state)
  {
    hide IngestStartResponse, IngestSteerResponse, IngestInterruptResponse;
    var s' := IngestResponse(s, key, response, originator, input).state;
    if response.ThreadResponse? && key.0 in s.connections {
      SetThreadGrows(s, response.threadId, s'.threads[response.threadId]);
    } else {
      UnchangedGrows(s, s');
    }
  }

  lemma CustomGrows(s: State, fact: CustomFact, input: Input)
    requires SoundThreads(s)
    ensures Grows(s, IngestCustom(s, fact, input).state)
    ensures SoundThreads(IngestCustom(s, fact, input).state)
  {
    hide MaybeEmitTurn;
    if fact.SubAgentThreadStarted? {
      SetThreadGrows(s, fact.threadId, SubAgentThread(s, fact));
    } else {
      UnchangedGrows(s, IngestCustom(s, fact, input).state);
    }
  }

  lemma InitializeGrows(s: State, c: ConnectionId, productClientId: string, runtime: string)
    requires SoundThreads(s)
    ensures Grows(s, IngestInitialize(s, c, productClientId, runtime))
    ensures SoundThreads(IngestInitialize(s, c, productClientId, runtime))
  {
    var s' := IngestInitialize(s, c, productClientId, runtime);
    assert forall id :: id in s'.threads ==> SoundThread(s, s'.threads[id]);
  }

  lemma ClientStepGrows(s: State, input: Input)
    requires SoundThreads(s) && ClientSide(input.fact)
    ensures Grows(s, Step(s, input).state)
    ensures SoundThreads(Step(s, input).state)
  {
    hide IngestResponse, IngestCustom, IngestNotification, SettleReview, IngestServerResponse, IngestErrorResponse,
      IngestServerRequest, IngestRequest, IngestInitialize, Grows, SoundThreads;
    var s' := Step(s, input).state;
    match input.fact
    case Initialize(c, productClientId, runtime) => InitializeGrows(s, c, productClientId, runtime);
    case ClientResponseFact(c, id, response, originator) => ResponseGrows(s, (c, id), response, originator, input);
    case ClientRequestFact(_, _, _) => UnchangedGrows(s, s');
    case InterruptRequest(_, _, _, _) => UnchangedGrows(s, s');
    case ErrorResponse(_, _, _) => UnchangedGrows(s, s');
  }

  lemma StepGrows(s: State, input: Input)
    requires SoundThreads(s)
    ensures Grows(s, Step(s, input).state)
    ensures SoundThreads(Step(s, input).state)
  {
    hide IngestResponse, IngestCustom, IngestNotification, SettleReview, IngestServerResponse, IngestErrorResponse,
      IngestServerRequest, IngestRequest, IngestInitialize, Grows, SoundThreads;
    if ClientSide(input.fact) {
      ClientStepGrows(s, input);
    } else if input.fact.Custom? {
      CustomGrows(s, input.fact.custom, input);
    } else {
      UnchangedGrows(s, Step(s, input).state);
    }
  }

  lemma GrowsTransitive(a: State, b: State, c: State)
    requires Grows(a, b) && Grows(b, c)
    ensures Grows(a, c)
  {
  }

  lemma {:induction false} RunGrows(s: State, inputs: seq<Input>)
    requires SoundThreads(s)
    ensures Grows(s, RunFrom(s, inputs).state) && SoundThreads(RunFrom(s, inputs).state)
  {
    hide Step, Grows, SoundThreads;
    if inputs == [] {
      UnchangedGrows(s, s);
    } else {
      var front := inputs[..|inputs| - 1];
      RunGrows(s, front);
      StepGrows(RunFrom(s, front).state, inputs[|inputs| - 1]);
      GrowsTransitive(s, RunFrom(s, front).state, RunFrom(s, inputs).state);
    }
  }

  // ------------------------------------------------------------ main results

  lemma InitialIsSound()
    ensures SoundThreads(INITIAL)
  {
  }

  /**
   In every reachable state each thread has metadata, and a connection id held by a
   thread names a recorded connection. So the only thing a known thread can lack is
   a connection of its own.
   */
  lemma ReachableThreadsSound(inputs: seq<Input>)
    ensures SoundThreads(Run(inputs).state)
    ensures forall id :: id in Run(inputs).state.threads ==>
              (ThreadContext(Run(inputs).state, id).None? <==> Run(inputs).state.threads[id].connectionId.None?)
  {
    hide RunFrom;
    InitialIsSound();
    RunGrows(INITIAL, inputs);
    ConnectionDecidesContext(Run(inputs).state);
  }

  lemma ConnectionDecidesContext(s: State)
    requires SoundThreads(s)
    ensures forall id :: id in s.threads ==> (ThreadContext(s, id).None? <==> s.threads[id].connectionId.None?)
  {
    forall id | id in s.threads
      ensures ThreadContext(s, id).None? <==> s.threads[id].connectionId.None?
    {
      assert SoundThread(s, s.threads[id]);
    }
  }

  lemma GrowthKeepsContext(s: State, s': State, thread: ThreadId)
    requires Grows(s, s') && SoundThreads(s')
    requires ThreadContext(s, thread).Some?
    ensures ThreadContext(s', thread).Some?
  {
    assert SoundThread(s', s'.threads[thread]);
  }

  /** A thread whose context resolves after some facts resolves after any more of them. */
  lemma ContextPersists(inputs: seq<Input>, more: seq<Input>, thread: ThreadId)
    requires ThreadContext(Run(inputs).state, thread).Some?
    ensures ThreadContext(Run(inputs + more).state, thread).Some?
  {
    hide RunFrom;
    ReachableThreadsSound(inputs);
    RunAppend(INITIAL, inputs, more);
    RunGrows(Run(inputs).state, more);
    GrowthKeepsContext(Run(inputs).state, Run(inputs + more).state, thread);
  }

  // ------------------------------------------------------------ on the stream

  /** What the last handshake of a connection said, read off the stream. */
  function TraceConnection(inputs: seq<Input>, c: ConnectionId): Option<ConnectionState> {
    if inputs == [] then None
    else
      var front, fact := inputs[..|inputs| - 1], inputs[|inputs| - 1].fact;
      if fact.Initialize? && fact.connectionId == c then Some(ConnectionState(fact.productClientId, fact.runtime))
      else TraceConnection(front, c)
  }

  /** A response that announces the thread. */
  predicate Announces(fact: Fact, id: ThreadId) {
    fact.ClientResponseFact? && fact.response.ThreadResponse? && fact.response.threadId == id
  }

  predicate StartsSubAgent(fact: Fact, id: ThreadId) {
    fact.Custom? && fact.custom.SubAgentThreadStarted? && fact.custom.threadId == id
  }

  function OrElse<T>(first: Option<T>, second: Option<T>): Option<T> {
    if first.Some? then first else second
  }

  /** The thread's connection, metadata and originator, read off the stream. */
  function TraceThread(inputs: seq<Input>, id: ThreadId): Option<ThreadState> {
    if inputs == [] then None
    else
      var front, fact := inputs[..|inputs| - 1], inputs[|inputs| - 1].fact;
      var known := TraceThread(front, id);
      var before := if known.Some? then known.value else FRESH_THREAD;
      if Announces(fact, id) && TraceConnection(front, fact.connectionId).Some? then
        Some(ThreadState(Some(fact.connectionId), Some(fact.response.metadata),
                         OrElse(fact.originator, before.originator)))
      else if StartsSubAgent(fact, id) then
        var parent := if fact.custom.parent.Some? then TraceThread(front, fact.custom.parent.value) else None;
        Some(ThreadState(OrElse(before.connectionId, if parent.Some? then parent.value.connectionId else None),
                         OrElse(before.metadata, Some(SubAgentFacts(fact.custom))),
                         OrElse(before.originator, Some(fact.custom.productClientId))))
      else known
  }

  function ConnectionAt(s: State, c: ConnectionId): Option<ConnectionState> {
    if c in s.connections then Some(s.connections[c]) else None
  }

  function KnownThread(s: State, id: ThreadId): Option<ThreadState> {
    if id in s.threads then Some(s.threads[id]) else None
  }

  lemma InitializeStep(s: State, input: Input)
    requires input.fact.Initialize?
    ensures Step(s, input).state
         == IngestInitialize(s, input.fact.connectionId, input.fact.productClientId, input.fact.runtime)
  {
  }

  lemma StepThreads(s: State, input: Input)
    requires !(input.fact.ClientResponseFact? && input.fact.response.ThreadResponse?)
    requires !(input.fact.Custom? && input.fact.custom.SubAgentThreadStarted?)
    ensures Step(s, input).state.threads == s.threads
  {
    hide IngestResponse, IngestCustom;
    match input.fact
    case ClientResponseFact(c, id, response, originator) =>
      ResponseKeepsThreads(s, (c, id), response, originator, input);
    case Custom(fact) => CustomKeepsThreads(s, fact, input);
    case _ => hide Step;
  }

  lemma ResponseKeepsThreads(s: State, key: RequestKey, response: ClientResponse,
      originator: Option<string>, input: Input)
    requires !response.ThreadResponse?
    ensures IngestResponse(s, key, response, originator, input).state.threads == s.threads
  {
    hide IngestStartResponse, IngestSteerResponse, IngestInterruptResponse;
  }

  lemma CustomKeepsThreads(s: State, fact: CustomFact, input: Input)
    requires !fact.SubAgentThreadStarted?
    ensures IngestCustom(s, fact, input).state.threads == s.threads
  {
    hide MaybeEmitTurn;
  }

  lemma ThreadStep(s: State, input: Input, id: ThreadId)
    requires input.fact.ClientResponseFact? && input.fact.response.ThreadResponse?
    ensures KnownThread(Step(s, input).state, id)
         == if Announces(input.fact, id) && input.fact.connectionId in s.connections
            then Some(ThreadState(Some(input.fact.connectionId), Some(input.fact.response.metadata),
                                  OrElse(input.fact.originator, ThreadAt(s, id).originator)))
            else KnownThread(s, id)
  {
  }

  lemma SubAgentStep(s: State, input: Input, id: ThreadId)
    requires input.fact.Custom? && input.fact.custom.SubAgentThreadStarted?
    ensures KnownThread(Step(s, input).state, id)
         == if input.fact.custom.threadId == id then Some(SubAgentThread(s, input.fact.custom)) else KnownThread(s, id)
  {
    hide SubAgentThread;
  }

  /** In every run the recorded connections are those of the stream's handshakes. */
  lemma {:induction false} ConnectionsRefineTrace(inputs: seq<Input>, c: ConnectionId)
    ensures ConnectionAt(Run(inputs).state, c) == TraceConnection(inputs, c)
  {
    hide Step;
    if inputs != [] {
      var front := inputs[..|inputs| - 1];
      ConnectionsRefineTrace(front, c);
      if inputs[|inputs| - 1].fact.Initialize? {
        InitializeStep(Run(front).state, inputs[|inputs| - 1]);
      }
    }
  }

  /** In every run the recorded threads are those that the stream announces, with what it says of them. */
  lemma {:induction false} ThreadsRefineTrace(inputs: seq<Input>, id: ThreadId)
    ensures KnownThread(Run(inputs).state, id) == TraceThread(inputs, id)
  {
    hide Step, TraceConnection;
    if inputs != [] {
      var front, last := inputs[..|inputs| - 1], inputs[|inputs| - 1];
      var s := Run(front).state;
      ThreadsRefineTrace(front, id);
      if last.fact.ClientResponseFact? && last.fact.response.ThreadResponse? {
        ConnectionsRefineTrace(front, last.fact.connectionId);
        ThreadStep(s, last, id);
      } else if last.fact.Custom? && last.fact.custom.SubAgentThreadStarted? {
        if last.fact.custom.parent.Some? {
          ThreadsRefineTrace(front, last.fact.custom.parent.value);
        }
        SubAgentStep(s, last, id);
      } else {
        StepThreads(s, last);
      }
    }
  }

  /** Who a thread's events are attributed to, read off the stream. */
  function TraceContext(inputs: seq<Input>, id: ThreadId): Option<Attribution> {
    var thread := TraceThread(inputs, id);
    if thread.None? || thread.value.connectionId.None? then None
    else TraceSource(inputs, thread.value, thread.value.connectionId.value)
  }

  /** The attribution of a thread's events on a connection. */
  function TraceSource(inputs: seq<Input>, thread: ThreadState, c: ConnectionId): Option<Attribution> {
    var connection := TraceConnection(inputs, c);
    if connection.None? || thread.metadata.None? then None
    else
      var client := ClientFor(thread.originator, connection.value.productClientId);
      Some(Attribution(client, connection.value.runtime, thread.metadata.value))
  }

  /** Who a turn's events are attributed to: its own connection takes precedence over its thread's. */
  function TraceTurnContext(inputs: seq<Input>, turn: TurnState): Option<Attribution>
    requires turn.threadId.Some?
  {
    var thread := TraceThread(inputs, turn.threadId.value);
    if thread.None? then None
    else
      var c := OrElse(turn.connectionId, thread.value.connectionId);
      if c.None? then None else TraceSource(inputs, thread.value, c.value)
  }

  /** In every run a thread's context is the one the stream gives it. */
  lemma ContextsRefineTrace(inputs: seq<Input>, id: ThreadId)
    ensures ThreadContext(Run(inputs).state, id) == TraceContext(inputs, id)
  {
    hide RunFrom, TraceThread, TraceConnection;
    ThreadsRefineTrace(inputs, id);
    var thread := TraceThread(inputs, id);
    if thread.Some? && thread.value.connectionId.Some? {
      ConnectionsRefineTrace(inputs, thread.value.connectionId.value);
    }
  }

  lemma TurnContextsRefineTrace(inputs: seq<Input>, turn: TurnState)
    requires turn.threadId.Some?
    ensures TurnContext(Run(inputs).state, turn) == TraceTurnContext(inputs, turn)
  {
    hide RunFrom, TraceThread, TraceConnection;
    ThreadsRefineTrace(inputs, turn.threadId.value);
    var thread := TraceThread(inputs, turn.threadId.value);
    if turn.connectionId.Some? {
      ConnectionsRefineTrace(inputs, turn.connectionId.value);
    } else if thread.Some? && thread.value.connectionId.Some? {
      ConnectionsRefineTrace(inputs, thread.value.connectionId.value);
    }
  }

  // --------------------------------------------------------------- subagents

  predicate ParentResolves(s: State, parent: Option<ThreadId>) {
    parent.Some? && ThreadContext(s, parent.value).Some?
  }

  /** A started subagent has a context exactly when it had one already or its parent has one at that moment. */
  lemma SubAgentInherits(s: State, input: Input)
    requires SoundThreads(s)
    requires input.fact.Custom? && input.fact.custom.SubAgentThreadStarted?
    ensures var fact := input.fact.custom;
            ThreadContext(Step(s, input).state, fact.threadId).Some?
            <==> ThreadContext(s, fact.threadId).Some? || ParentResolves(s, fact.parent)
  {
    hide IngestResponse, IngestNotification, SettleReview, IngestServerResponse, IngestErrorResponse,
      IngestServerRequest, IngestRequest, IngestInitialize;
    var fact := input.fact.custom;
    var s', after := Step(s, input).state, SubAgentThread(s, fact);
    assert s'.threads[fact.threadId] == after;
    assert fact.threadId in s.threads ==> SoundThread(s, s.threads[fact.threadId]);
    assert fact.parent.Some? && fact.parent.value in s.threads ==> SoundThread(s, s.threads[fact.parent.value]);
  }

  /** A fact that gives a thread its context, given the stream before it. */
  predicate Grants(before: seq<Input>, fact: Fact, id: ThreadId) {
    || (Announces(fact, id) && TraceConnection(before, fact.connectionId).Some?)
    || (StartsSubAgent(fact, id) && fact.custom.parent.Some? && TraceContext(before, fact.custom.parent.value).Some?)
  }

  predicate GrantedAt(inputs: seq<Input>, i: int, id: ThreadId) {
    0 <= i < |inputs| && Grants(inputs[..i], inputs[i].fact, id)
  }

  lemma GrantStep(front: seq<Input>, last: Input, id: ThreadId)
    ensures TraceContext(front + [last], id).Some? <==> TraceContext(front, id).Some? || Grants(front, last.fact, id)
  {
    hide Step, RunFrom, TraceContext, TraceConnection, SoundThreads, ThreadContext;
    var s := Run(front).state;
    RunSnoc(INITIAL, front, last);
    ReachableThreadsSound(front);
    ContextsRefineTrace(front, id);
    ContextsRefineTrace(front + [last], id);
    if last.fact.ClientResponseFact? && last.fact.response.ThreadResponse? {
      ConnectionsRefineTrace(front, last.fact.connectionId);
      AnnouncedContext(s, last, id);
    } else if last.fact.Custom? && last.fact.custom.SubAgentThreadStarted? {
      if last.fact.custom.parent.Some? {
        ContextsRefineTrace(front, last.fact.custom.parent.value);
      }
      if StartsSubAgent(last.fact, id) {
        SubAgentInherits(s, last);
      } else {
        SubAgentStep(s, last, id);
        OtherContext(s, last, id);
      }
    } else {
      StepThreads(s, last);
      OtherContext(s, last, id);
    }
  }

  lemma AnnouncedContext(s: State, input: Input, id: ThreadId)
    requires input.fact.ClientResponseFact? && input.fact.response.ThreadResponse?
    ensures ThreadContext(Step(s, input).state, id).Some?
            <==> ThreadContext(s, id).Some? || (Announces(input.fact, id) && input.fact.connectionId in s.connections)
  {
  }

  lemma OtherContext(s: State, input: Input, id: ThreadId)
    requires SoundThreads(s) && KnownThread(Step(s, input).state, id) == KnownThread(s, id)
    ensures ThreadContext(Step(s, input).state, id).Some? <==> ThreadContext(s, id).Some?
  {
    hide Step;
    StepGrows(s, input);
    assert id in s.threads ==> SoundThread(s, s.threads[id]);
    assert id in Step(s, input).state.threads ==> SoundThread(Step(s, input).state, Step(s, input).state.threads[id]);
  }

  /**
   A thread has a context after a stream exactly when some fact of it granted one: a response
   announcing it on a connection that was known by then, or its start as the subagent of a
   thread that had a context by then.
   */
  lemma {:induction false} ContextExactly(inputs: seq<Input>, id: ThreadId)
    ensures TraceContext(inputs, id).Some? <==> exists i :: GrantedAt(inputs, i, id)
  {
    hide TraceContext, Grants;
    if inputs == [] {
      NoContext(id);
    } else {
      var n := |inputs| - 1;
      var front, last := inputs[..n], inputs[n];
      assert inputs == front + [last];
      GrantStep(front, last, id);
      ContextExactly(front, id);
      forall i | 0 <= i < n ensures GrantedAt(inputs, i, id) == GrantedAt(front, i, id) {
        assert inputs[..i] == front[..i];
      }
      assert GrantedAt(inputs, n, id) <==> Grants(front, last.fact, id);
    }
  }

  lemma NoContext(id: ThreadId)
    ensures TraceContext([], id).None?
  {
  }

  /** The thread of a started subagent. */
  function Child(fact: Fact): Option<ThreadId> {
    if fact.Custom? && fact.custom.SubAgentThreadStarted? then Some(fact.custom.threadId) else None
  }

  function Parent(fact: Fact): Option<ThreadId> {
    if fact.Custom? && fact.custom.SubAgentThreadStarted? then fact.custom.parent else None
  }

  /** Starts of subagents at these positions of a stream: each under the one before it, the first under `root`. */
  predicate SubAgentChain(inputs: seq<Input>, at: seq<nat>, root: ThreadId) {
    forall k :: 0 <= k < |at| ==>
      && at[k] < |inputs| && Child(inputs[at[k]].fact).Some?
      && (k == 0 ==> Parent(inputs[at[k]].fact) == Some(root))
      && (k > 0 ==> at[k - 1] < at[k] && Parent(inputs[at[k]].fact) == Child(inputs[at[k - 1]].fact))
  }

  /**
   At any depth of subagents, whatever facts come before, between and after their starts, the
   last one has a context if the root had one when the first of them started.
   */
  lemma {:induction false} ChainInherits(inputs: seq<Input>, at: seq<nat>, root: ThreadId)
    requires at != [] && SubAgentChain(inputs, at, root)
    requires TraceContext(inputs[..at[0]], root).Some?
    ensures TraceContext(inputs, Child(inputs[at[|at| - 1]].fact).value).Some?
    decreases |at|
  {
    hide TraceContext;
    var last := |at| - 1;
    var i := at[last];
    var before, fact := inputs[..i], inputs[i].fact;
    if last > 0 {
      var front := at[..last];
      ChainPrefix(inputs, at, root);
      assert before[..at[0]] == inputs[..at[0]];
      ChainInherits(before, front, root);
    }
    assert GrantedAt(inputs, i, fact.custom.threadId);
    ContextExactly(inputs, fact.custom.threadId);
  }

  lemma ChainPrefix(inputs: seq<Input>, at: seq<nat>, root: ThreadId)
    requires |at| > 1 && SubAgentChain(inputs, at, root)
    ensures var front, i := at[..|at| - 1], at[|at| - 1];
            SubAgentChain(inputs[..i], front, root) && front[0] < i
  {
    hide Child, Parent;
    Increasing(inputs, at, root, |at| - 1);
  }

  lemma {:induction false} Increasing(inputs: seq<Input>, at: seq<nat>, root: ThreadId, n: nat)
    requires SubAgentChain(inputs, at, root) && n < |at|
    ensures forall k :: 0 <= k < n ==> at[k] < at[n]
  {
    hide Child, Parent;
    if n > 0 {
      Increasing(inputs, at, root, n - 1);
    }
  }

  // A subagent started while its parent is still unknown, and the parent's thread announced afterwards.
  const CONNECTED := Input(Initialize(1, "client", "runtime"), 0, None)
  const CHILD_STARTED := Input(Custom(SubAgentThreadStarted("child", "s", Some("parent"), "client", "task")), 0, None)
  const PARENT_KNOWN := Input(
    ClientResponseFact(1, Protocol.IntegerId(0),
      ThreadResponse("parent", ThreadMetadata("s", None, New, None, None)), None),
    0, None)

  /** A context the parent gets after the start is not inherited. */
  lemma EarlyChildInheritsNothing()
    ensures var inputs := [CONNECTED, CHILD_STARTED, PARENT_KNOWN];
            TraceContext(inputs, "parent").Some? && TraceContext(inputs, "child").None?
  {
    var inputs := [CONNECTED, CHILD_STARTED, PARENT_KNOWN];
    assert inputs[..2] == [CONNECTED, CHILD_STARTED] && inputs[..2][..1] == [CONNECTED] && inputs[..2][..1][..0] == [];
    assert TraceThread([CONNECTED], "parent").None? && TraceThread([CONNECTED], "child").None?;
    assert TraceThread(inputs[..2], "child").value.connectionId.None?;
    assert TraceConnection([CONNECTED], 1).Some? && TraceConnection(inputs[..2], 1).Some?;
  }
}
