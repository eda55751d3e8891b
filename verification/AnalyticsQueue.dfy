/**
 The analytics queue: producers put facts into a bounded channel, one worker
 ingests them and hands their events to the sender, and a flush waits for
 everything accepted before it.
 */
module AnalyticsQueue {
  import opened AnalyticsFacts
  import Spec = ReducerSpec
  import Reducers = AnalyticsReducer
  import opened EventBatching
  import Sequences

  const QUEUE_SIZE := 256

  /** A flush is named by its position among the actions. */
  datatype Message = FactMessage(input: Input) | FlushMessage(ticket: nat)

  /**
   The steps that producers and the worker interleave. A flush that finds the channel full waits,
   and so does the worker when it is empty: such an action changes nothing and can be taken again.
   */
  datatype Action = TrySend(input: Input) | Flush | Receive(auth: Auth)

  datatype Ingested = Ingested(input: Input, auth: Auth)

  datatype Queue = Queue(channel: seq<Message>, handled: seq<Ingested>, delivered: seq<Event>, acked: seq<nat>)

  const EMPTY := Queue([], [], [], [])

  function Inputs(handled: seq<Ingested>): seq<Input> {
    seq(|handled|, i requires 0 <= i < |handled| => handled[i].input)
  }

  /** The events of the next fact, given what was ingested before it. */
  function EventsOf(handled: seq<Ingested>, input: Input): seq<Event> {
    Spec.Step(Spec.Run(Inputs(handled)).state, input).events
  }

  predicate HasRoom(q: Queue) {
    |q.channel| < QUEUE_SIZE
  }

  function Act(q: Queue, position: nat, action: Action): Queue {
    match action
    case TrySend(input) => if HasRoom(q) then q.(channel := q.channel + [FactMessage(input)]) else q
    case Flush => if HasRoom(q) then q.(channel := q.channel + [FlushMessage(position)]) else q
    case Receive(auth) =>
      if q.channel == [] then q
      else
        var rest := q.channel[1..];
        match q.channel[0]
        case FlushMessage(ticket) => q.(channel := rest, acked := q.acked + [ticket])
        case FactMessage(input) =>
          Queue(rest, q.handled + [Ingested(input, auth)],
                q.delivered + Permitted(auth, EventsOf(q.handled, input)), q.acked)
  }

  function After(actions: seq<Action>): Queue {
    if actions == [] then EMPTY
    else Act(After(actions[..|actions| - 1]), |actions| - 1, actions[|actions| - 1])
  }

  // --------------------------------------------------------------- on actions

  /** How many messages wait: a send finds room for at most 256 of them. */
  function Waiting(actions: seq<Action>): (n: nat)
    ensures n <= 256
  {
    if actions == [] then 0
    else
      var n := Waiting(actions[..|actions| - 1]);
      if actions[|actions| - 1].Receive? then if n == 0 then 0 else n - 1
      else if n < 256 then n + 1 else n
  }

  /** The facts that found room, in order. */
  function AcceptedFacts(actions: seq<Action>): seq<Input> {
    if actions == [] then []
    else
      var front, last := actions[..|actions| - 1], actions[|actions| - 1];
      AcceptedFacts(front) + if last.TrySend? && Waiting(front) < 256 then [last.input] else []
  }

  lemma {:induction false} WaitingIsMeasured(actions: seq<Action>)
    ensures |After(actions).channel| == Waiting(actions)
  {
    hide EventsOf, Permitted;
    if actions != [] {
      WaitingIsMeasured(actions[..|actions| - 1]);
    }
  }

  function FactsIn(channel: seq<Message>): seq<Input> {
    if channel == [] then []
    else
      var last := channel[|channel| - 1];
      FactsIn(channel[..|channel| - 1]) + if last.FactMessage? then [last.input] else []
  }

  /** The events handed to the sender for a list of ingested facts. */
  function DeliveredFor(handled: seq<Ingested>): seq<Event> {
    if handled == [] then []
    else
      var front, last := handled[..|handled| - 1], handled[|handled| - 1];
      DeliveredFor(front) + Permitted(last.auth, EventsOf(front, last.input))
  }

  lemma {:induction false} FactsAppend(a: seq<Message>, b: seq<Message>)
    ensures FactsIn(a + b) == FactsIn(a) + FactsIn(b)
  {
    if b == [] {
      assert a + b == a;
    } else {
      assert (a + b)[..|a + b| - 1] == a + b[..|b| - 1];
      FactsAppend(a, b[..|b| - 1]);
    }
  }

  lemma FactsOne(m: Message)
    ensures FactsIn([m]) == if m.FactMessage? then [m.input] else []
  {
    assert [m][..0] == [];
    assert FactsIn([m][..0]) == [];
  }

  /** What was ingested and what is queued make up what was accepted. */
  ghost predicate Conserves(q: Queue, accepted: seq<Input>) {
    accepted == Inputs(q.handled) + FactsIn(q.channel)
  }

  lemma PushConserves(q: Queue, accepted: seq<Input>, m: Message)
    requires Conserves(q, accepted)
    ensures Conserves(q.(channel := q.channel + [m]), accepted + if m.FactMessage? then [m.input] else [])
  {
    hide FactsIn;
    FactsAppend(q.channel, [m]);
    FactsOne(m);
    assert Inputs(q.handled) + (FactsIn(q.channel) + FactsIn([m])) == accepted + FactsIn([m]);
  }

  lemma ReceiveConserves(q: Queue, accepted: seq<Input>, auth: Auth)
    requires Conserves(q, accepted)
    ensures Conserves(Act(q, 0, Receive(auth)), accepted)
  {
    hide FactsIn, EventsOf, Permitted;
    if q.channel != [] {
      var first, rest := q.channel[0], q.channel[1..];
      assert q.channel == [first] + rest;
      FactsAppend([first], rest);
      FactsOne(first);
      if first.FactMessage? {
        assert Inputs(q.handled + [Ingested(first.input, auth)]) == Inputs(q.handled) + [first.input];
      }
    }
  }

  /** For every interleaving: accepted facts are the ingested ones followed by the queued ones, within the bound. */
  lemma {:induction false} AcceptedIsIngestedThenQueued(actions: seq<Action>)
    ensures Conserves(After(actions), AcceptedFacts(actions))
    ensures |After(actions).channel| <= 256
    ensures After(actions).delivered == DeliveredFor(After(actions).handled)
  {
    hide Conserves, EventsOf, Permitted;
    if actions == [] {
      EmptyConserves();
    } else {
      var front, last := actions[..|actions| - 1], actions[|actions| - 1];
      var q := After(front);
      WaitingIsMeasured(front);
      AcceptedIsIngestedThenQueued(front);
      assert AcceptedFacts(front) + [] == AcceptedFacts(front);
      match last
      case TrySend(input) => PushConserves(q, AcceptedFacts(front), FactMessage(input));
      case Flush => PushConserves(q, AcceptedFacts(front), FlushMessage(|front|));
      case Receive(auth) => ReceiveConserves(q, AcceptedFacts(front), auth);
    }
  }

  lemma EmptyConserves()
    ensures Conserves(EMPTY, [])
  {
  }

  // -------------------------------------------------------- first in, first out

  /** The messages that found room, in order. */
  function Sent(actions: seq<Action>): seq<Message> {
    if actions == [] then []
    else
      var front, last := actions[..|actions| - 1], actions[|actions| - 1];
      Sent(front)
      + if last.Receive? || Waiting(front) == 256 then []
        else if last.TrySend? then [FactMessage(last.input)] else [FlushMessage(|front|)]
  }

  /** The turns of the worker that found a message, with the authentication of each. */
  function Turns(actions: seq<Action>): seq<Auth> {
    if actions == [] then []
    else
      var front, last := actions[..|actions| - 1], actions[|actions| - 1];
      Turns(front) + if last.Receive? && Waiting(front) > 0 then [last.auth] else []
  }

  /** What the worker has ingested when it took one message each turn. */
  function Taken(messages: seq<Message>, turns: seq<Auth>): seq<Ingested>
    requires |messages| == |turns|
  {
    if messages == [] then []
    else
      var n := |messages| - 1;
      Taken(messages[..n], turns[..n])
      + if messages[n].FactMessage? then [Ingested(messages[n].input, turns[n])] else []
  }

  function Tickets(messages: seq<Message>): seq<nat> {
    if messages == [] then []
    else
      var n := |messages| - 1;
      Tickets(messages[..n]) + if messages[n].FlushMessage? then [messages[n].ticket] else []
  }

  /** The worker has taken the oldest messages, one a turn and in order, and the others wait. */
  ghost predicate InTurn(q: Queue, sent: seq<Message>, turns: seq<Auth>) {
    && |turns| <= |sent| && q.channel == sent[|turns|..]
    && q.handled == Taken(sent[..|turns|], turns) && q.acked == Tickets(sent[..|turns|])
  }

  lemma SendInTurn(q: Queue, sent: seq<Message>, turns: seq<Auth>, m: Message)
    requires InTurn(q, sent, turns)
    ensures InTurn(q.(channel := q.channel + [m]), sent + [m], turns)
  {
    hide Taken, Tickets;
    assert (sent + [m])[..|turns|] == sent[..|turns|];
  }

  lemma ReceiveInTurn(q: Queue, sent: seq<Message>, turns: seq<Auth>, auth: Auth)
    requires InTurn(q, sent, turns) && q.channel != []
    ensures InTurn(Act(q, 0, Receive(auth)), sent, turns + [auth])
  {
    hide EventsOf, Permitted;
    var n := |turns|;
    assert q.channel[0] == sent[n] && q.channel[1..] == sent[n + 1..];
    assert sent[..n + 1][..n] == sent[..n] && (turns + [auth])[..n] == turns;
  }

  /** For every interleaving, the queue is first in, first out, and nothing that found room is lost. */
  lemma {:induction false} QueueRefinesTrace(actions: seq<Action>)
    ensures InTurn(After(actions), Sent(actions), Turns(actions))
    ensures |Sent(actions)| == |Turns(actions)| + Waiting(actions)
  {
    hide EventsOf, Permitted, InTurn;
    if actions == [] {
      NothingInTurn();
    } else {
      var front, last := actions[..|actions| - 1], actions[|actions| - 1];
      var q := After(front);
      QueueRefinesTrace(front);
      WaitingIsMeasured(front);
      assert Sent(front) + [] == Sent(front) && Turns(front) + [] == Turns(front);
      match last
      case TrySend(input) => SendInTurn(q, Sent(front), Turns(front), FactMessage(input));
      case Flush => SendInTurn(q, Sent(front), Turns(front), FlushMessage(|front|));
      case Receive(auth) =>
        if q.channel != [] {
          ReceiveInTurn(q, Sent(front), Turns(front), auth);
        }
    }
  }

  lemma {:induction false} TicketsHold(messages: seq<Message>, ticket: nat)
    ensures ticket in Tickets(messages) <==> FlushMessage(ticket) in messages
  {
    if messages != [] {
      var front, last := messages[..|messages| - 1], messages[|messages| - 1];
      assert messages == front + [last];
      TicketsHold(front, ticket);
    }
  }

  /** A queued flush stands where the messages sent before it end. */
  predicate Stands(actions: seq<Action>, k: nat, ticket: nat)
    requires k < |Sent(actions)|
  {
    Sent(actions)[k] == FlushMessage(ticket) ==>
      ticket < |actions| && actions[ticket].Flush? && k == |Sent(actions[..ticket])|
  }

  lemma {:induction false} FlushStands(actions: seq<Action>, k: nat, ticket: nat)
    requires k < |Sent(actions)|
    ensures Stands(actions, k, ticket)
  {
    hide Waiting;
    if actions != [] {
      var front, last := actions[..|actions| - 1], actions[|actions| - 1];
      assert ticket <= |front| ==> actions[..ticket] == front[..ticket];
      assert front[..|front|] == front;
      if k < |Sent(front)| {
        FlushStands(front, k, ticket);
      }
    }
  }

  lemma {:induction false} SentGrows(actions: seq<Action>, n: nat)
    requires n <= |actions|
    ensures Sent(actions[..n]) <= Sent(actions)
  {
    hide Waiting;
    if n == |actions| {
      assert actions[..n] == actions;
    } else {
      SentGrows(actions[..|actions| - 1], n);
      assert actions[..|actions| - 1][..n] == actions[..n];
    }
  }

  /** A flush that found room is acknowledged exactly when the worker has had a turn for it and for all before it. */
  lemma FlushIsAckedInTurn(actions: seq<Action>, ticket: nat)
    requires ticket < |actions| && actions[ticket].Flush? && Waiting(actions[..ticket]) < 256
    ensures ticket in After(actions).acked <==> |Turns(actions)| > |Sent(actions[..ticket])|
  {
    hide After, Turns, Taken, Waiting;
    var sent, n, k := Sent(actions), |Turns(actions)|, |Sent(actions[..ticket])|;
    QueueRefinesTrace(actions);
    TicketsHold(sent[..n], ticket);
    SentGrows(actions, ticket + 1);
    assert actions[..ticket + 1][..ticket] == actions[..ticket];
    assert Sent(actions[..ticket + 1]) == Sent(actions[..ticket]) + [FlushMessage(ticket)];
    assert sent[k] == FlushMessage(ticket);
    if FlushMessage(ticket) in sent[..n] {
      var j :| 0 <= j < n && sent[j] == FlushMessage(ticket);
      FlushStands(actions, j, ticket);
    }
    if k < n {
      assert sent[..n][k] == FlushMessage(ticket);
    }
  }

  lemma NothingInTurn()
    ensures InTurn(EMPTY, [], [])
  {
  }

  // ----------------------------------------------------------------- barrier

  /** A queued flush has exactly the facts accepted before it in front of it. */
  ghost predicate Behind(q: Queue, i: int, before: seq<Input>)
    requires 0 <= i < |q.channel|
  {
    Inputs(q.handled) + FactsIn(q.channel[..i]) == before
  }

  ghost predicate Barrier(actions: seq<Action>) {
    var q := After(actions);
    && (forall i :: 0 <= i < |q.channel| && q.channel[i].FlushMessage? ==>
          q.channel[i].ticket < |actions| && Behind(q, i, AcceptedFacts(actions[..q.channel[i].ticket])))
    && (forall ticket :: ticket in q.acked ==>
          ticket < |actions| && AcceptedFacts(actions[..ticket]) <= Inputs(q.handled))
  }

  lemma PushBarrier(front: seq<Action>, last: Action)
    requires Barrier(front) && !last.Receive?
    ensures Barrier(front + [last])
  {
    hide FactsIn, AcceptedFacts, DeliveredFor;
    var actions, q := front + [last], After(front);
    assert actions[..|front|] == front;
    assert forall k :: 0 <= k <= |front| ==> actions[..k] == front[..k];
    assert front[..|front|] == front;
    AcceptedIsIngestedThenQueued(front);
    var q' := After(actions);
    assert q'.handled == q.handled && q'.acked == q.acked;
    forall i | 0 <= i < |q'.channel| && q'.channel[i].FlushMessage?
      ensures q'.channel[i].ticket < |actions|
      ensures Behind(q', i, AcceptedFacts(actions[..q'.channel[i].ticket]))
    {
      if i < |q.channel| {
        assert q'.channel[i] == q.channel[i] && q'.channel[..i] == q.channel[..i];
        assert Behind(q, i, AcceptedFacts(front[..q.channel[i].ticket]));
      } else {
        assert q'.channel[..i] == q.channel;
      }
    }
  }

  lemma ReceiveBarrier(front: seq<Action>, auth: Auth)
    requires Barrier(front)
    ensures Barrier(front + [Receive(auth)])
  {
    hide FactsIn, AcceptedFacts, DeliveredFor, EventsOf, Permitted;
    var actions, q := front + [Receive(auth)], After(front);
    assert actions[..|front|] == front;
    assert forall k :: 0 <= k <= |front| ==> actions[..k] == front[..k];
    var q' := After(actions);
    if q.channel != [] {
      var first, rest := q.channel[0], q.channel[1..];
      forall i | 0 <= i < |rest| && rest[i].FlushMessage?
        ensures rest[i].ticket < |actions| && Behind(q', i, AcceptedFacts(actions[..rest[i].ticket]))
      {
        assert q.channel[i + 1] == rest[i] && Behind(q, i + 1, AcceptedFacts(front[..rest[i].ticket]));
        ReceiveShifts(q, i, auth, AcceptedFacts(front[..rest[i].ticket]));
      }
      if first.FlushMessage? {
        assert Behind(q, 0, AcceptedFacts(front[..first.ticket]));
        assert q.channel[..0] == [];
        NoFacts();
      } else {
        assert Inputs(q'.handled) == Inputs(q.handled) + [first.input];
      }
    }
  }

  lemma NoFacts()
    ensures FactsIn([]) == []
  {
  }

  lemma ReceiveShifts(q: Queue, i: nat, auth: Auth, before: seq<Input>)
    requires i + 1 < |q.channel| && Behind(q, i + 1, before)
    ensures |Act(q, 0, Receive(auth)).channel| == |q.channel| - 1 && Behind(Act(q, 0, Receive(auth)), i, before)
  {
    hide FactsIn, EventsOf, Permitted;
    var first, rest := q.channel[0], q.channel[1..];
    assert q.channel[..i + 1] == [first] + rest[..i];
    FactsAppend([first], rest[..i]);
    FactsOne(first);
    if first.FactMessage? {
      assert Inputs(q.handled + [Ingested(first.input, auth)]) == Inputs(q.handled) + [first.input];
    }
  }

  lemma {:induction false} BarrierHolds(actions: seq<Action>)
    ensures Barrier(actions)
  {
    hide AcceptedFacts, DeliveredFor;
    if actions == [] {
    } else {
      var front, last := actions[..|actions| - 1], actions[|actions| - 1];
      BarrierHolds(front);
      assert actions == front + [last];
      if last.Receive? {
        ReceiveBarrier(front, last.auth);
      } else {
        PushBarrier(front, last);
      }
    }
  }

  lemma {:induction false} DeliveredPrefix(handled: seq<Ingested>, n: nat)
    requires n <= |handled|
    ensures DeliveredFor(handled[..n]) <= DeliveredFor(handled)
  {
    hide EventsOf, Permitted;
    if n == |handled| {
      assert handled[..n] == handled;
    } else {
      var front := handled[..|handled| - 1];
      DeliveredPrefix(front, n);
      assert front[..n] == handled[..n];
    }
  }

  /**
   When a flush has been acknowledged, every fact accepted before it has been ingested, in order,
   and the events of each have been handed to the sender, in order.
   */
  lemma FlushIsBarrier(actions: seq<Action>, ticket: nat)
    requires ticket in After(actions).acked
    ensures ticket < |actions|
    ensures var before, q := AcceptedFacts(actions[..ticket]), After(actions);
            && before <= Inputs(q.handled)
            && Inputs(q.handled[..|before|]) == before
            && DeliveredFor(q.handled[..|before|]) <= q.delivered
  {
    hide After, AcceptedFacts, DeliveredFor;
    BarrierHolds(actions);
    AcceptedIsIngestedThenQueued(actions);
    var before, q := AcceptedFacts(actions[..ticket]), After(actions);
    assert Inputs(q.handled)[..|before|] == before;
    DeliveredPrefix(q.handled, |before|);
  }

  /** With a Codex backend throughout, the sender is handed all events of the reducer's run. */
  lemma {:induction false} BackendDeliversRun(handled: seq<Ingested>)
    requires forall i :: 0 <= i < |handled| ==> handled[i].auth.CodexBackend?
    ensures DeliveredFor(handled) == Spec.Run(Inputs(handled)).events
  {
    hide Spec.Step;
    if handled != [] {
      var front, last := handled[..|handled| - 1], handled[|handled| - 1];
      BackendDeliversRun(front);
      assert Inputs(handled) == Inputs(front) + [last.input];
      Spec.RunSnoc(Spec.INITIAL, Inputs(front), last.input);
    }
  }

  // ------------------------------------------------------------- in place

  class EventsQueue {
    var channel: seq<Message>
    var requests: seq<seq<Event>>  // handed to the sender
    var acked: seq<nat>
    const reducer: Reducers.Reducer
    ghost var handled: seq<Ingested>

    ghost predicate Valid()
      reads this, reducer
    {
      reducer.Valid() && reducer.trace == Inputs(handled)
    }

    ghost function State(): Queue
      reads this
    {
      Queue(channel, handled, Flatten(requests), acked)
    }

    constructor (alphanumeric: char -> bool)
      ensures Valid() && fresh(reducer) && State() == EMPTY
    {
      channel, requests, acked, handled := [], [], [], [];
      reducer := new Reducers.Reducer(alphanumeric);
    }

    method TrySend(input: Input, ghost position: nat)
      requires Valid()
      modifies this`channel
      ensures Valid() && State() == Act(old(State()), position, Action.TrySend(input))
    {
      if |channel| < QUEUE_SIZE {
        channel := channel + [FactMessage(input)];
      }
    }

    /** The flush message takes the slot it waited for. */
    method SendFlush(position: nat)
      requires Valid() && |channel| < QUEUE_SIZE
      modifies this`channel
      ensures Valid() && State() == Act(old(State()), position, Flush)
    {
      channel := channel + [FlushMessage(position)];
    }

    /** One round of the worker's loop. */
    method Receive(auth: Auth, ghost position: nat)
      requires Valid() && channel != []
      modifies this, reducer
      ensures Valid() && State() == Act(old(State()), position, Action.Receive(auth))
    {
      hide Spec.Step, Spec.RunFrom, Permitted, NamesPlugin, Sequences.Filter, Proper, Greedy, Flatten;
      var message := channel[0];
      channel := channel[1..];
      match message {
        case FlushMessage(ticket) => acked := acked + [ticket];
        case FactMessage(input) =>
          assert reducer.State() == Spec.Run(Inputs(handled)).state;
          var events := new Reducers.EventVec();
          reducer.Ingest(input, events);
          assert events.items == EventsOf(handled, input);
          var sent := SendTrackEvents(auth, events.items);
          FlattenAppend(requests, sent);
          requests := requests + sent;
          assert Inputs(handled + [Ingested(input, auth)]) == Inputs(handled) + [input];
          handled := handled + [Ingested(input, auth)];
      }
    }
  }

  lemma {:induction false} FlattenAppend(a: seq<seq<Event>>, b: seq<seq<Event>>)
    ensures Flatten(a + b) == Flatten(a) + Flatten(b)
  {
    if b == [] {
      assert a + b == a;
    } else {
      assert (a + b)[..|a + b| - 1] == a + b[..|b| - 1];
      FlattenAppend(a, b[..|b| - 1]);
    }
  }
}
