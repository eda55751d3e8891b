/**
 The usage dedupe: a set of keys that is cleared when it is full. Between two
 clears each key is answered `true` once, which bounds the repeats over any
 sequence of calls.
 */
module UsageDedupe {
  import opened Options

  const MAX_KEYS := 4096

  /** The turn and the connector or plugin. */
  type Key = (string, string)

  /** Which of the two checks is asked: they differ in what a call without a key does. */
  datatype Check = AppUsed | PluginUsed

  datatype Answer = Answer(emitted: set<Key>, enqueue: bool)

  function Cleared(emitted: set<Key>): set<Key> {
    if |emitted| >= MAX_KEYS then {} else emitted
  }

  function Ask(check: Check, emitted: set<Key>, key: Option<Key>): Answer {
    match key
    case None => Answer(if check.AppUsed? then emitted else Cleared(emitted), true)
    case Some(k) => Answer(Cleared(emitted) + {k}, k !in Cleared(emitted))
  }

  class EmittedKeys {
    var emitted: set<Key>

    constructor ()
      ensures emitted == {}
    {
      emitted := {};
    }

    method Insert(key: Key) returns (added: bool)
      modifies this
      ensures emitted == old(emitted) + {key} && added == (key !in old(emitted))
    {
      added := key !in emitted;
      emitted := emitted + {key};
    }

    method ShouldEnqueueAppUsed(turnId: string, connectorId: Option<string>) returns (enqueue: bool)
      modifies this
      ensures Answer(emitted, enqueue)
           == Ask(AppUsed, old(emitted), if connectorId.Some? then Some((turnId, connectorId.value)) else None)
    {
      if connectorId.None? {
        return true;
      }
      if |emitted| >= MAX_KEYS {
        emitted := {};
      }
      enqueue := Insert((turnId, connectorId.value));
    }

    method ShouldEnqueuePluginUsed(turnId: string, pluginId: Option<string>, remotePluginId: Option<string>)
        returns (enqueue: bool)
      modifies this
      ensures var id := if pluginId.Some? then pluginId else remotePluginId;
              Answer(emitted, enqueue)
              == Ask(PluginUsed, old(emitted), if id.Some? then Some((turnId, id.value)) else None)
    {
      if |emitted| >= MAX_KEYS {
        emitted := {};
      }
      var id := if pluginId.Some? then pluginId else remotePluginId;
      if id.None? {
        return true;
      }
      enqueue := Insert((turnId, id.value));
    }
  }

  // ------------------------------------------------------------ call sequences

  /** The set after a sequence of calls. */
  function EmittedAfter(check: Check, calls: seq<Option<Key>>): set<Key> {
    if calls == [] then {}
    else Ask(check, EmittedAfter(check, calls[..|calls| - 1]), calls[|calls| - 1]).emitted
  }

  /** The answer to the last call of a sequence. */
  predicate Enqueued(check: Check, calls: seq<Option<Key>>)
    requires calls != []
  {
    Ask(check, EmittedAfter(check, calls[..|calls| - 1]), calls[|calls| - 1]).enqueue
  }

  /** How often a call with a key was answered `true`. */
  function Trues(check: Check, calls: seq<Option<Key>>): nat {
    if calls == [] then 0
    else
      Trues(check, calls[..|calls| - 1])
      + if calls[|calls| - 1].Some? && Enqueued(check, calls) then 1 else 0
  }

  /** How often a given key was answered `true`. */
  function TruesFor(check: Check, calls: seq<Option<Key>>, key: Key): nat {
    if calls == [] then 0
    else
      TruesFor(check, calls[..|calls| - 1], key)
      + if calls[|calls| - 1] == Some(key) && Enqueued(check, calls) then 1 else 0
  }

  /** The number of clears that emptied a full set. */
  function Clears(check: Check, calls: seq<Option<Key>>): nat {
    if calls == [] then 0
    else
      var full := |EmittedAfter(check, calls[..|calls| - 1])| >= MAX_KEYS;
      Clears(check, calls[..|calls| - 1])
      + if full && (check.PluginUsed? || calls[|calls| - 1].Some?) then 1 else 0
  }

  /** The set never outgrows its bound, and every `true` answer is in it or was cleared with 4096 others. */
  lemma {:induction false} TruesAccounted(check: Check, calls: seq<Option<Key>>, key: Key)
    ensures |EmittedAfter(check, calls)| <= MAX_KEYS
    ensures Trues(check, calls) == MAX_KEYS * Clears(check, calls) + |EmittedAfter(check, calls)|
    ensures TruesFor(check, calls, key)
         <= Clears(check, calls) + if key in EmittedAfter(check, calls) then 1 else 0
  {
    if calls != [] {
      var front, last := calls[..|calls| - 1], calls[|calls| - 1];
      TruesAccounted(check, front, key);
      if last.Some? {
        var before := Cleared(EmittedAfter(check, front));
        assert last.value in before ==> before + {last.value} == before;
        assert last.value !in before ==> |before + {last.value}| == |before| + 1;
      }
    }
  }

  function CeilDiv(a: nat, b: nat): nat
    requires b > 0
  {
    (a + b - 1) / b
  }

  /** A key is answered `true` at most once per 4096 keyed `true` answers, begun ones included. */
  lemma RepeatsBounded(check: Check, calls: seq<Option<Key>>, key: Key)
    ensures TruesFor(check, calls, key) <= CeilDiv(Trues(check, calls), MAX_KEYS)
  {
    TruesAccounted(check, calls, key);
    var c, n := Clears(check, calls), |EmittedAfter(check, calls)|;
    if key in EmittedAfter(check, calls) {
      assert n >= 1 by {
        assert {key} <= EmittedAfter(check, calls);
        assert EmittedAfter(check, calls) == {key} + (EmittedAfter(check, calls) - {key});
      }
    }
  }

  lemma {:induction false} NoClearKeepsKeys(check: Check, calls: seq<Option<Key>>, key: Key)
    requires Clears(check, calls) == 0
    ensures key in EmittedAfter(check, calls) <==> Some(key) in calls
  {
    if calls != [] {
      var front, last := calls[..|calls| - 1], calls[|calls| - 1];
      NoClearKeepsKeys(check, front, key);
      var before := EmittedAfter(check, front);
      assert Ask(check, before, last).emitted == if last.Some? then before + {last.value} else before;
      hide Ask;
      assert Some(key) in calls <==> Some(key) in front || last == Some(key) by {
        assert calls == front + [last];
      }
    }
  }

  /** While no more than 4096 keyed calls were answered `true`, a call is answered `true` just when its key is new. */
  lemma ExactWhileSmall(check: Check, calls: seq<Option<Key>>, key: Key)
    requires Trues(check, calls + [Some(key)]) <= MAX_KEYS
    ensures Enqueued(check, calls + [Some(key)]) <==> Some(key) !in calls
  {
    var all := calls + [Some(key)];
    assert all[..|calls|] == calls;
    TruesAccounted(check, all, key);
    TruesAccounted(check, calls, key);
    assert key in EmittedAfter(check, all);
    assert |EmittedAfter(check, all)| >= 1 by {
      assert EmittedAfter(check, all) == {key} + (EmittedAfter(check, all) - {key});
    }
    assert Clears(check, all) == 0;
    NoClearKeepsKeys(check, calls, key);
  }

  // ---------------------------------------------------------- every sequence

  function KeysOf(calls: seq<Option<Key>>): set<Key> {
    set call | call in calls && call.Some? :: call.value
  }

  /** From which call on the keys are remembered: a call that finds 4096 of them begins anew. */
  function Remembered(check: Check, calls: seq<Option<Key>>): (from: nat)
    ensures from <= |calls|
  {
    if calls == [] then 0
    else
      var front, last := calls[..|calls| - 1], calls[|calls| - 1];
      var from := Remembered(check, front);
      if |KeysOf(front[from..])| == 4096 && (last.Some? || check == PluginUsed) then |front| else from
  }

  lemma KeysSnoc(calls: seq<Option<Key>>, call: Option<Key>)
    ensures KeysOf(calls + [call]) == KeysOf(calls) + if call.Some? then {call.value} else {}
  {
  }

  /** The set holds the keys of the calls that are remembered. */
  lemma {:induction false} SetIsRemembered(check: Check, calls: seq<Option<Key>>)
    ensures EmittedAfter(check, calls) == KeysOf(calls[Remembered(check, calls)..])
  {
    hide KeysOf, Trues, TruesFor, Clears;
    NoKeys();
    if calls != [] {
      var front, last := calls[..|calls| - 1], calls[|calls| - 1];
      var from := Remembered(check, front);
      SetIsRemembered(check, front);
      TruesAccounted(check, front, ("", ""));
      KeysSnoc(front[from..], last);
      KeysSnoc([], last);
      assert calls[from..] == front[from..] + [last] && calls[|front|..] == [] + [last];
    }
  }

  lemma NoKeys()
    ensures KeysOf([]) == {}
  {
  }

  /** A call without a key always passes; one with a key passes exactly when no remembered call had that key. */
  lemma AnswerIsExact(check: Check, calls: seq<Option<Key>>, call: Option<Key>)
    ensures var all := calls + [call];
            var from := Remembered(check, all);
            Enqueued(check, all) <==> call.None? || from == |calls| || call !in calls[from..]
  {
    var all := calls + [call];
    assert all[..|calls|] == calls;
    SetIsRemembered(check, calls);
    TruesAccounted(check, calls, ("", ""));
    if call.Some? {
      var from := Remembered(check, calls);
      assert call.value in KeysOf(calls[from..]) <==> call in calls[from..];
    }
  }
}
