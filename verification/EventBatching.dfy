/**
 Splitting events into requests: the batcher keeps order, isolates the
 accepted-line events, and needs no more requests than any other such split.
 */
module EventBatching {
  import opened AnalyticsFacts
  import opened Sequences

  predicate Isolated(e: Event) {
    e.AcceptedLines?
  }

  predicate SendableWithApiKey(e: Event) {
    match e
    case PluginUsedEvent(pluginId) => pluginId.Some?
    case SkillEvent(pluginId) => pluginId.Some?
    case ToolEvent(_, _, McpToolCall(_, _, pluginId), _, _, _, _, _) => pluginId.Some?
    case _ => false
  }

  datatype Auth = NoAuth | ApiKey | CodexBackend | OtherBackend

  function Flatten(batches: seq<seq<Event>>): seq<Event> {
    if batches == [] then [] else Flatten(batches[..|batches| - 1]) + batches[|batches| - 1]
  }

  /** Accepted-line events travel alone. */
  predicate Proper(batch: seq<Event>) {
    (exists i :: 0 <= i < |batch| && batch[i].AcceptedLines?) ==> |batch| == 1
  }

  ghost predicate ProperSplit(batches: seq<seq<Event>>, events: seq<Event>) {
    Flatten(batches) == events && forall i :: 0 <= i < |batches| ==> Proper(batches[i])
  }

  /** How many requests the greedy splitter has closed or opened after some events. */
  datatype Progress = Progress(closed: nat, open: bool)

  function Needed(p: Progress): nat {
    p.closed + if p.open then 1 else 0
  }

  function Greedy(events: seq<Event>): Progress {
    if events == [] then Progress(0, false)
    else
      var p := Greedy(events[..|events| - 1]);
      if Isolated(events[|events| - 1]) then Progress(Needed(p) + 1, false) else Progress(p.closed, true)
  }

  predicate Plain(batch: seq<Event>) {
    forall i :: 0 <= i < |batch| ==> !Isolated(batch[i])
  }

  ghost predicate Closed(batches: seq<seq<Event>>) {
    forall i :: 0 <= i < |batches| ==> batches[i] != [] && Proper(batches[i])
  }

  /** What the batcher holds after the events `done`. */
  ghost predicate SplitSoFar(batches: seq<seq<Event>>, current: seq<Event>, done: seq<Event>) {
    && Flatten(batches) + current == done && Closed(batches) && Plain(current)
    && Greedy(done) == Progress(|batches|, current != [])
  }

  function Close(batches: seq<seq<Event>>, current: seq<Event>): seq<seq<Event>> {
    if current == [] then batches else batches + [current]
  }

  lemma CloseKeeps(batches: seq<seq<Event>>, current: seq<Event>, done: seq<Event>)
    requires SplitSoFar(batches, current, done)
    ensures Flatten(Close(batches, current)) == done && Closed(Close(batches, current))
    ensures |Close(batches, current)| == Needed(Greedy(done))
  {
    hide Greedy, Flatten;
    FlattenSnoc(batches, current);
  }

  lemma GreedySnoc(done: seq<Event>, e: Event)
    ensures Greedy(done + [e])
         == if Isolated(e) then Progress(Needed(Greedy(done)) + 1, false) else Progress(Greedy(done).closed, true)
  {
    assert (done + [e])[..|done|] == done;
  }

  lemma IsolateOne(batches: seq<seq<Event>>, current: seq<Event>, done: seq<Event>, e: Event)
    requires SplitSoFar(batches, current, done) && Isolated(e)
    ensures SplitSoFar(Close(batches, current) + [[e]], [], done + [e])
  {
    hide Greedy, Flatten, Close;
    CloseKeeps(batches, current, done);
    FlattenSnoc(Close(batches, current), [e]);
    GreedySnoc(done, e);
  }

  lemma AddOne(batches: seq<seq<Event>>, current: seq<Event>, done: seq<Event>, e: Event)
    requires SplitSoFar(batches, current, done) && !Isolated(e)
    ensures SplitSoFar(batches, current + [e], done + [e])
  {
    hide Greedy, Flatten, Closed;
    GreedySnoc(done, e);
    assert Flatten(batches) + (current + [e]) == Flatten(batches) + current + [e];
  }

  /** The batcher as the source runs it. */
  method TrackEventRequestBatches(events: seq<Event>) returns (batches: seq<seq<Event>>)
    ensures ProperSplit(batches, events)
    ensures forall i :: 0 <= i < |batches| ==> batches[i] != []
    ensures |batches| == Needed(Greedy(events))
  {
    hide Greedy, Isolated;
    batches := [];
    var current: seq<Event> := [];
    NothingSplit();
    for k := 0 to |events|
      invariant SplitSoFar(batches, current, events[..k])
    {
      hide SplitSoFar;
      var e := events[k];
      assert events[..k + 1] == events[..k] + [e];
      if Isolated(e) {
        IsolateOne(batches, current, events[..k], e);
        if current != [] {
          batches := batches + [current];
          current := [];
        }
        batches := batches + [[e]];
      } else {
        AddOne(batches, current, events[..k], e);
        current := current + [e];
      }
    }
    assert events[..|events|] == events;
    CloseKeeps(batches, current, events);
    if current != [] {
      batches := batches + [current];
    }
  }

  lemma NothingSplit()
    ensures SplitSoFar([], [], [])
  {
  }

  lemma FlattenSnoc(batches: seq<seq<Event>>, batch: seq<Event>)
    ensures Flatten(batches + [batch]) == Flatten(batches) + batch
  {
    assert (batches + [batch])[..|batches|] == batches;
  }

  // -------------------------------------------------------------- minimality

  lemma {:induction false} GreedyAppend(a: seq<Event>, b: seq<Event>)
    ensures Needed(Greedy(a + b)) <= Needed(Greedy(a)) + Needed(Greedy(b))
    ensures Greedy(b).open ==> Greedy(a + b).open
  {
    if b == [] {
      assert a + b == a;
    } else {
      assert (a + b)[..|a + b| - 1] == a + b[..|b| - 1];
      GreedyAppend(a, b[..|b| - 1]);
    }
  }

  lemma {:induction false} ProperNeedsOne(batch: seq<Event>)
    requires Proper(batch)
    ensures Needed(Greedy(batch)) <= 1
  {
    if |batch| > 1 {
      var front := batch[..|batch| - 1];
      assert !Isolated(batch[|batch| - 1]);
      assert forall i :: 0 <= i < |front| ==> front[i] == batch[i];
      PlainNeedsOne(front);
    } else if |batch| == 1 {
      assert batch[..0] == [];
      assert Greedy(batch[..0]) == Progress(0, false);
    }
  }

  lemma {:induction false} PlainNeedsOne(batch: seq<Event>)
    requires forall i :: 0 <= i < |batch| ==> !Isolated(batch[i])
    ensures Greedy(batch) == Progress(0, batch != [])
  {
    if batch != [] {
      PlainNeedsOne(batch[..|batch| - 1]);
    }
  }

  /** No order-preserving split that isolates the same events uses fewer requests. */
  lemma {:induction false} BatchesMinimal(other: seq<seq<Event>>, events: seq<Event>)
    requires ProperSplit(other, events)
    ensures Needed(Greedy(events)) <= |other|
  {
    if other != [] {
      var front, last := other[..|other| - 1], other[|other| - 1];
      BatchesMinimal(front, Flatten(front));
      ProperNeedsOne(last);
      GreedyAppend(Flatten(front), last);
    }
  }

  // ------------------------------------------------------------------ sending

  /** The events that may be sent at all, by kind of authentication. */
  function Permitted(auth: Auth, events: seq<Event>): seq<Event> {
    match auth
    case NoAuth => []
    case ApiKey => Filter(SendableWithApiKey, events)
    case CodexBackend => events
    case OtherBackend => []
  }

  /** The event is about a plugin that has an id. */
  predicate NamesPlugin(e: Event) {
    || ((e.PluginUsedEvent? || e.SkillEvent?) && e.pluginId.Some?)
    || (e.ToolEvent? && e.item.McpToolCall? && e.item.pluginId.Some?)
  }

  lemma {:induction false} PermittedRead(events: seq<Event>)
    ensures Permitted(ApiKey, events) == Filter(NamesPlugin, events)
  {
    if events != [] {
      PermittedRead(events[..|events| - 1]);
    }
  }

  /** A Codex backend is sent everything, an API key what names a plugin, anyone else nothing. */
  method SendTrackEvents(auth: Auth, events: seq<Event>) returns (requests: seq<seq<Event>>)
    ensures ProperSplit(requests, Permitted(auth, events))
    ensures Flatten(requests)
         == if auth.CodexBackend? then events else if auth.ApiKey? then Filter(NamesPlugin, events) else []
    ensures forall i :: 0 <= i < |requests| ==> requests[i] != []
    ensures |requests| == Needed(Greedy(Permitted(auth, events)))
    ensures auth.ApiKey? ==> |requests| <= 1
  {
    PermittedRead(events);
    if events == [] {
      return [];
    }
    var kept := events;
    match auth {
      case NoAuth => return [];
      case ApiKey => kept := Filter(SendableWithApiKey, events);
      case CodexBackend =>
      case OtherBackend => return [];
    }
    if auth.ApiKey? {
      SendableIsPlain(events);
      PlainNeedsOne(kept);
    }
    requests := TrackEventRequestBatches(kept);
  }

  lemma {:induction false} SendableIsPlain(events: seq<Event>)
    ensures forall i :: 0 <= i < |Filter(SendableWithApiKey, events)| ==>
              !Isolated(Filter(SendableWithApiKey, events)[i])
  {
    if events != [] {
      SendableIsPlain(events[..|events| - 1]);
    }
  }
}
