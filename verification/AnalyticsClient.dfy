/**
 Two bookkeeping pieces of codex-rs/analytics/src/client.rs: the bounded sets that keep
 an event from being sent twice in a turn, and the batching of events into requests.
 */
module AnalyticsDedupe {
  import opened Results

  const MAX_KEYS: nat := 4096

  type Pair = (string, string)

  // A call on the app set or on the plugin set.  The plugin set is cleared when it is
  // full even if the call then turns out to have no key.
  datatype Ask =
    | AppUsed(turn: string, connector: Option<string>)
    | PluginUsed(turn: string, plugin: Option<string>, remote: Option<string>)

  function KeyOf(a: Ask): Option<Pair> {
    match a
    case AppUsed(turn, connector) => if connector.Some? then Some((turn, connector.value)) else None
    case PluginUsed(turn, plugin, remote) =>
      if plugin.Some? then Some((turn, plugin.value))
      else if remote.Some? then Some((turn, remote.value)) else None
  }

  predicate Clears(emitted: set<Pair>, a: Ask) {
    |emitted| >= MAX_KEYS && (a.AppUsed? ==> KeyOf(a).Some?)
  }

  function After(emitted: set<Pair>, a: Ask): set<Pair> {
    var kept := if Clears(emitted, a) then {} else emitted;
    if KeyOf(a).Some? then kept + {KeyOf(a).value} else kept
  }

  predicate Answer(emitted: set<Pair>, a: Ask) {
    KeyOf(a).None? || Clears(emitted, a) || KeyOf(a).value !in emitted
  }

  class EmittedKeys {
    var emitted: set<Pair>

    constructor ()
      ensures emitted == {}
    {
      emitted := {};
    }

    method ShouldEnqueueAppUsed(turn: string, connector: Option<string>) returns (r: bool)
      modifies this
      ensures emitted == After(old(emitted), AppUsed(turn, connector))
      ensures r == Answer(old(emitted), AppUsed(turn, connector))
    {
      if connector.None? {
        return true;
      }
      if |emitted| >= MAX_KEYS {
        emitted := {};
      }
      r := (turn, connector.value) !in emitted;
      emitted := emitted + {(turn, connector.value)};
    }

    method ShouldEnqueuePluginUsed(turn: string, plugin: Option<string>, remote: Option<string>) returns (r: bool)
      modifies this
      ensures emitted == After(old(emitted), PluginUsed(turn, plugin, remote))
      ensures r == Answer(old(emitted), PluginUsed(turn, plugin, remote))
    {
      if |emitted| >= MAX_KEYS {
        emitted := {};
      }
      var id := if plugin.Some? then plugin else remote;
      if id.None? {
        return true;
      }
      r := (turn, id.value) !in emitted;
      emitted := emitted + {(turn, id.value)};
    }
  }

  // -------------------------------------------------------------- runs on one set

  function SetAfter(asks: seq<Ask>): set<Pair> {
    if asks == [] then {} else After(SetAfter(asks[..|asks| - 1]), asks[|asks| - 1])
  }

  function ClearCount(asks: seq<Ask>): nat {
    if asks == [] then 0
    else ClearCount(asks[..|asks| - 1]) + if Clears(SetAfter(asks[..|asks| - 1]), asks[|asks| - 1]) then 1 else 0
  }

  predicate KeyedTrue(asks: seq<Ask>, k: nat)
    requires k < |asks|
  {
    KeyOf(asks[k]).Some? && Answer(SetAfter(asks[..k]), asks[k])
  }

  function TrueCount(asks: seq<Ask>): nat {
    if asks == [] then 0
    else TrueCount(asks[..|asks| - 1]) + if KeyedTrue(asks, |asks| - 1) then 1 else 0
  }

  function TrueCountOf(asks: seq<Ask>, key: Pair): nat {
    if asks == [] then 0
    else
      var last := |asks| - 1;
      TrueCountOf(asks[..last], key) + if KeyedTrue(asks, last) && KeyOf(asks[last]) == Some(key) then 1 else 0
  }

  // Over any run the set stays bounded, every clear accounts for exactly a full set of
  // keyed `true` answers, and no key gets more of them than one per clear and one more.
  lemma {:induction false} DedupeAccounting(asks: seq<Ask>, key: Pair)
    ensures |SetAfter(asks)| <= MAX_KEYS
    ensures TrueCount(asks) == MAX_KEYS * ClearCount(asks) + |SetAfter(asks)|
    ensures TrueCountOf(asks, key) <= ClearCount(asks) + if key in SetAfter(asks) then 1 else 0
    decreases |asks|
  {
    if asks != [] {
      var front, a := asks[..|asks| - 1], asks[|asks| - 1];
      DedupeAccounting(front, key);
      var before := SetAfter(front);
      if Clears(before, a) && KeyOf(a).Some? {
        assert {} + {KeyOf(a).value} == {KeyOf(a).value};
      }
    }
  }

  // The index of the first ask after the last clear.
  ghost function SinceClear(asks: seq<Ask>): (i: nat)
    ensures i <= |asks|
  {
    if asks == [] then 0
    else if Clears(SetAfter(asks[..|asks| - 1]), asks[|asks| - 1]) then |asks| - 1
    else SinceClear(asks[..|asks| - 1])
  }

  // Some ask from index i on was about the key.
  ghost predicate AskedSince(asks: seq<Ask>, i: nat, key: Pair) {
    exists k :: i <= k < |asks| && KeyOf(asks[k]) == Some(key)
  }

  lemma AskedSnoc(front: seq<Ask>, last: Ask, i: nat, key: Pair)
    requires i <= |front|
    ensures AskedSince(front + [last], i, key) <==> AskedSince(front, i, key) || KeyOf(last) == Some(key)
  {
    hide KeyOf;
    var asks := front + [last];
    if AskedSince(front, i, key) {
      var k :| i <= k < |front| && KeyOf(front[k]) == Some(key);
      assert KeyOf(asks[k]) == Some(key);
    }
    assert asks[|front|] == last;
  }

  // The set holds exactly the keys asked about since it was last cleared, so a key is
  // refused exactly when it was asked about since then.
  lemma {:induction false} RefusedIffRepeated(asks: seq<Ask>, key: Pair)
    ensures key in SetAfter(asks) <==> AskedSince(asks, SinceClear(asks), key)
    decreases |asks|
  {
    hide KeyOf, AskedSince, Clears;
    if asks == [] {
      NothingAsked(key);
    } else {
      var front, last := asks[..|asks| - 1], asks[|asks| - 1];
      RefusedIffRepeated(front, key);
      assert asks == front + [last];
      AskedSnoc(front, last, SinceClear(asks), key);
      NotAsked(front, key);
    }
  }

  lemma NothingAsked(key: Pair)
    ensures !AskedSince([], 0, key)
  {
  }

  lemma NotAsked(asks: seq<Ask>, key: Pair)
    ensures !AskedSince(asks, |asks|, key)
  {
  }
}

module AnalyticsBatches {

  datatype Event = Event(isolated: bool, payload: string)

  // The batches closed so far and the one being filled.
  datatype Filling = Filling(batches: seq<seq<Event>>, current: seq<Event>)

  function Close(f: Filling): seq<seq<Event>> {
    if f.current == [] then f.batches else f.batches + [f.current]
  }

  function Fill(events: seq<Event>): Filling {
    if events == [] then Filling([], [])
    else
      var f, e := Fill(events[..|events| - 1]), events[|events| - 1];
      if e.isolated then Filling(Close(f) + [[e]], []) else f.(current := f.current + [e])
  }

  function Batches(events: seq<Event>): seq<seq<Event>> {
    Close(Fill(events))
  }

  method TrackEventRequestBatches(events: seq<Event>) returns (batches: seq<seq<Event>>)
    ensures batches == Batches(events)
  {
    batches := [];
    var current: seq<Event> := [];
    for k := 0 to |events|
      invariant Filling(batches, current) == Fill(events[..k])
    {
      assert events[..k + 1][..k] == events[..k];
      if events[k].isolated {
        if current != [] {
          batches := batches + [current];
          current := [];
        }
        batches := batches + [[events[k]]];
      } else {
        current := current + [events[k]];
      }
    }
    assert events[..|events|] == events;
    if current != [] {
      batches := batches + [current];
    }
  }

  function Concat(bs: seq<seq<Event>>): seq<Event> {
    if bs == [] then [] else Concat(bs[..|bs| - 1]) + bs[|bs| - 1]
  }

  // Each isolated event is alone in its batch.
  ghost predicate Isolates(bs: seq<seq<Event>>) {
    forall b :: b in bs ==> forall e :: e in b && e.isolated ==> |b| == 1
  }

  lemma ConcatSnoc(bs: seq<seq<Event>>, b: seq<Event>)
    ensures Concat(bs + [b]) == Concat(bs) + b
  {
    assert (bs + [b])[..|bs|] == bs;
  }

  // What has been batched so far: the closed batches and the one being filled.
  ghost predicate Partition(f: Filling, events: seq<Event>) {
    && Concat(f.batches) + f.current == events && [] !in f.batches && Isolates(f.batches)
    && forall e :: e in f.current ==> !e.isolated
  }

  lemma ClosePartition(f: Filling, events: seq<Event>)
    requires Partition(f, events)
    ensures Concat(Close(f)) == events && [] !in Close(f) && Isolates(Close(f))
  {
    hide Concat;
    ConcatSnoc(f.batches, f.current);
    assert f.current == [] ==> events == Concat(f.batches);
  }

  lemma FillPartition(f: Filling, events: seq<Event>, e: Event)
    requires Partition(f, events)
    ensures Partition(if e.isolated then Filling(Close(f) + [[e]], []) else f.(current := f.current + [e]), events + [e])
  {
    hide Concat;
    if e.isolated {
      ClosePartition(f, events);
      ConcatSnoc(Close(f), [e]);
      assert Concat(Close(f) + [[e]]) + [] == events + [e];
    } else {
      assert Concat(f.batches) + (f.current + [e]) == Concat(f.batches) + f.current + [e];
    }
  }

  lemma {:induction false} FillIsPartition(events: seq<Event>)
    ensures Partition(Fill(events), events)
    decreases |events|
  {
    if events != [] {
      FillIsPartition(events[..|events| - 1]);
      FillPartition(Fill(events[..|events| - 1]), events[..|events| - 1], events[|events| - 1]);
      assert events == events[..|events| - 1] + [events[|events| - 1]];
    }
  }

  // The batches are an order-preserving partition into non-empty batches that isolates.
  lemma BatchesPartition(events: seq<Event>)
    ensures Concat(Batches(events)) == events && [] !in Batches(events) && Isolates(Batches(events))
  {
    FillIsPartition(events);
    ClosePartition(Fill(events), events);
  }

  lemma FillSnoc(events: seq<Event>, e: Event)
    ensures var f, g := Fill(events), Fill(events + [e]);
      g == if e.isolated then Filling(Close(f) + [[e]], []) else f.(current := f.current + [e])
  {
    assert (events + [e])[..|events|] == events;
  }

  // Adding a batch's worth of events adds at most one batch, and leaves one open to
  // further events unless it was an isolated one.
  lemma {:induction false} OneMoreBatch(events: seq<Event>, b: seq<Event>)
    requires forall e :: e in b && e.isolated ==> |b| == 1
    ensures |Batches(events + b)| <= |Batches(events)| + 1
    ensures |b| > 0 && !b[0].isolated ==>
      Fill(events + b).batches == Fill(events).batches && Fill(events + b).current == Fill(events).current + b
    decreases |b|
  {
    if b == [] {
      assert events + b == events;
    } else {
      var front, last := b[..|b| - 1], b[|b| - 1];
      assert events + b == events + front + [last];
      FillSnoc(events + front, last);
      if |b| == 1 {
        assert events + front == events && b == [last];
      } else {
        assert !b[0].isolated && !last.isolated by {
          assert b[0] in b && last in b;
        }
        assert front[0] == b[0];
        OneMoreBatch(events, front);
        assert Fill(events).current + front + [last] == Fill(events).current + b;
      }
    }
  }

  // No order-preserving partition that isolates the same events has fewer batches.
  lemma {:induction false} BatchesOptimal(other: seq<seq<Event>>)
    requires Isolates(other)
    ensures |Batches(Concat(other))| <= |other|
    decreases |other|
  {
    if other != [] {
      var front, last := other[..|other| - 1], other[|other| - 1];
      assert last in other;
      BatchesOptimal(front);
      OneMoreBatch(Concat(front), last);
    }
  }
}
