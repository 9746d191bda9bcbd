/**
 The analytics queue of codex-rs/analytics/src/client.rs as a state machine: a bounded
 channel, producers that drop what does not fit, flushers that wait for room, and one
 consumer.  The reducer is any state-transition function.

 The steps are those an observer could tell apart: the consumer takes a message, runs
 the reducer, hands the events to the sender, and acknowledges a flush, one at a time
 and in any interleaving with the others.
 */
module AnalyticsQueue {

  const QUEUE_SIZE: nat := 256

  datatype Reducer<!S, !F, !E> = Reducer(init: S, ingest: (S, F) -> (S, seq<E>), flush: S -> (S, seq<E>))

  datatype Message<F> = Fact(fact: F) | Flush(id: nat)

  datatype Consumer<F, E> =
    | Waiting
    | Handling(message: Message<F>)
    | Sending(message: Message<F>, events: seq<E>)
    | Acknowledging(id: nat)

  // `accepted` is the history of enqueued messages, `handed` what the sender was given,
  // `started` how many messages had been accepted when each flush was called.
  datatype State<S, F, E> = State(
    channel: seq<Message<F>>, consumer: Consumer<F, E>, reducer: S,
    accepted: seq<Message<F>>, handed: seq<E>,
    started: map<nat, nat>, blocked: set<nat>, acknowledged: set<nat>)

  datatype Action<F> =
    | TrySend(fact: F, dropped: bool)
    | StartFlush(id: nat)
    | EnqueueFlush(id: nat)
    | GiveUp(id: nat)
    | Receive
    | Reduce
    | Deliver
    | Acknowledge

  predicate Init<S(==), F(==), E(==)>(r: Reducer<S, F, E>, s: State<S, F, E>) {
    s == State([], Waiting, r.init, [], [], map[], {}, {})
  }

  function Apply<S, F, E>(r: Reducer<S, F, E>, s: S, m: Message<F>): (S, seq<E>) {
    match m
    case Fact(f) => r.ingest(s, f)
    case Flush(_) => r.flush(s)
  }

  function Enqueue<S, F, E>(s: State<S, F, E>, m: Message<F>): State<S, F, E> {
    s.(channel := s.channel + [m], accepted := s.accepted + [m])
  }

  // When an action may happen.  A producer is refused only when the channel is full or
  // its room is promised to a waiting flusher; it never waits.
  predicate Enabled<S, F, E>(s: State<S, F, E>, a: Action<F>) {
    match a
    case TrySend(_, dropped) => if dropped then |s.channel| >= QUEUE_SIZE || s.blocked != {} else |s.channel| < QUEUE_SIZE
    case StartFlush(id) => id !in s.started
    case EnqueueFlush(id) => id in s.blocked && |s.channel| < QUEUE_SIZE
    case GiveUp(id) => id in s.blocked
    case Receive => s.consumer.Waiting? && s.channel != []
    case Reduce => s.consumer.Handling?
    case Deliver => s.consumer.Sending?
    case Acknowledge => s.consumer.Acknowledging?
  }

  function Next<S, F, E>(r: Reducer<S, F, E>, s: State<S, F, E>, a: Action<F>): State<S, F, E>
    requires Enabled(s, a)
  {
    match a
    case TrySend(f, dropped) => if dropped then s else Enqueue(s, Fact(f))
    case StartFlush(id) => s.(started := s.started[id := |s.accepted|], blocked := s.blocked + {id})
    case EnqueueFlush(id) => Enqueue(s, Flush(id)).(blocked := s.blocked - {id})
    case GiveUp(id) => s.(blocked := s.blocked - {id})
    case Receive => s.(consumer := Handling(s.channel[0]), channel := s.channel[1..])
    case Reduce =>
      var (s', events) := Apply(r, s.reducer, s.consumer.message);
      s.(reducer := s', consumer := Sending(s.consumer.message, events))
    case Deliver =>
      s.(handed := s.handed + s.consumer.events,
         consumer := if s.consumer.message.Flush? then Acknowledging(s.consumer.message.id) else Waiting)
    case Acknowledge => s.(acknowledged := s.acknowledged + {s.consumer.id}, consumer := Waiting)
  }

  // A run: every state follows from the one before by an enabled action.
  ghost predicate IsRun<S, F, E>(r: Reducer<S, F, E>, states: seq<State<S, F, E>>, actions: seq<Action<F>>) {
    && |states| == |actions| + 1
    && Init(r, states[0])
    && forall i :: 0 <= i < |actions| ==> Enabled(states[i], actions[i]) && states[i + 1] == Next(r, states[i], actions[i])
  }

  // ------------------------------------------------------------------ the sequential fold

  function Fold<S, F, E>(r: Reducer<S, F, E>, ms: seq<Message<F>>): (S, seq<E>) {
    if ms == [] then (r.init, [])
    else
      var (s, events) := Fold(r, ms[..|ms| - 1]);
      var (s', more) := Apply(r, s, ms[|ms| - 1]);
      (s', events + more)
  }

  lemma FoldSnoc<S, F, E>(r: Reducer<S, F, E>, ms: seq<Message<F>>, m: Message<F>)
    ensures var (s, events) := Fold(r, ms);
      Fold(r, ms + [m]) == (Apply(r, s, m).0, events + Apply(r, s, m).1)
  {
    assert (ms + [m])[..|ms|] == ms;
  }

  lemma {:induction false} FoldPrefix<S, F, E>(r: Reducer<S, F, E>, ms: seq<Message<F>>, k: nat)
    requires k <= |ms|
    ensures Fold(r, ms[..k]).1 <= Fold(r, ms).1
    decreases |ms|
  {
    if k == |ms| {
      assert ms[..k] == ms;
    } else {
      assert ms[..|ms| - 1][..k] == ms[..k];
      FoldPrefix(r, ms[..|ms| - 1], k);
    }
  }

  // ------------------------------------------------------------------------- invariant

  // How many accepted messages the consumer has taken, and how many it has handed over.
  function Taken<S, F, E>(s: State<S, F, E>): int {
    |s.accepted| - |s.channel|
  }

  function Finished<S, F, E>(s: State<S, F, E>): int {
    if s.consumer.Handling? || s.consumer.Sending? then Taken(s) - 1 else Taken(s)
  }

  ghost predicate Fifo<S, F, E>(s: State<S, F, E>) {
    && |s.channel| <= QUEUE_SIZE
    && 0 <= Finished(s) <= Taken(s) <= |s.accepted|
    && s.accepted[Taken(s)..] == s.channel
    && (s.consumer.Handling? || s.consumer.Sending? ==> s.accepted[Taken(s) - 1] == s.consumer.message)
    && (s.consumer.Acknowledging? ==> Taken(s) > 0 && s.accepted[Taken(s) - 1] == Flush(s.consumer.id))
  }

  ghost predicate Folded<S, F, E>(r: Reducer<S, F, E>, s: State<S, F, E>)
    requires Fifo(s)
  {
    && s.handed == Fold(r, s.accepted[..Finished(s)]).1
    && if s.consumer.Sending? then (s.reducer, s.handed + s.consumer.events) == Fold(r, s.accepted[..Taken(s)])
       else s.reducer == Fold(r, s.accepted[..Finished(s)]).0
  }

  // A flush enters the queue at most once, after the messages accepted before its call.
  ghost predicate Calls<S, F, E>(s: State<S, F, E>) {
    && (forall id :: id in s.started ==> s.started[id] <= |s.accepted|)
    && s.blocked <= s.started.Keys
  }

  ghost predicate Queued<S, F, E>(s: State<S, F, E>) {
    forall k :: 0 <= k < |s.accepted| && s.accepted[k].Flush? ==>
      s.accepted[k].id in s.started && s.started[s.accepted[k].id] <= k && s.accepted[k].id !in s.blocked
  }

  // The flush with message k is behind the consumer.
  ghost predicate IsDone<S, F, E>(s: State<S, F, E>, k: int, id: nat) {
    0 <= k < Finished(s) && k < |s.accepted| && s.accepted[k] == Flush(id)
  }

  ghost predicate Answered<S, F, E>(s: State<S, F, E>) {
    forall id :: id in s.acknowledged ==> exists k :: IsDone(s, k, id)
  }

  ghost predicate Flushes<S, F, E>(s: State<S, F, E>) {
    Calls(s) && Queued(s) && Answered(s)
  }

  ghost predicate Inv<S, F, E>(r: Reducer<S, F, E>, s: State<S, F, E>) {
    Fifo(s) && Folded(r, s) && Flushes(s)
  }

  lemma EnqueueFifo<S, F, E>(s: State<S, F, E>, m: Message<F>)
    requires Fifo(s) && |s.channel| < QUEUE_SIZE
    ensures Fifo(Enqueue(s, m)) && Finished(Enqueue(s, m)) == Finished(s)
  {
    assert (s.accepted + [m])[Taken(s)..] == s.accepted[Taken(s)..] + [m];
  }

  lemma ReceiveFifo<S, F, E>(s: State<S, F, E>)
    requires Fifo(s) && s.consumer.Waiting? && s.channel != []
    ensures Fifo(s.(consumer := Handling(s.channel[0]), channel := s.channel[1..]))
  {
    assert s.accepted[Taken(s)..][0] == s.accepted[Taken(s)];
    assert s.accepted[Taken(s) + 1..] == s.accepted[Taken(s)..][1..];
  }

  // Changes that leave the channel, its history and the consumer's place in it alone.
  lemma FifoKept<S, F, E>(s: State<S, F, E>, t: State<S, F, E>)
    requires Fifo(s) && (t.channel, t.accepted, t.consumer) == (s.channel, s.accepted, s.consumer)
    ensures Fifo(t) && Finished(t) == Finished(s)
  {
  }

  lemma ConsumerFifo<S, F, E>(r: Reducer<S, F, E>, s: State<S, F, E>, a: Action<F>)
    requires Fifo(s) && Enabled(s, a) && (a.Reduce? || a.Deliver? || a.Acknowledge?)
    ensures Fifo(Next(r, s, a)) && Finished(s) <= Finished(Next(r, s, a))
  {
    hide Apply;
  }

  lemma StepFifo<S, F, E>(r: Reducer<S, F, E>, s: State<S, F, E>, a: Action<F>)
    requires Fifo(s) && Enabled(s, a)
    ensures Fifo(Next(r, s, a))
    ensures s.accepted <= Next(r, s, a).accepted && Finished(s) <= Finished(Next(r, s, a))
  {
    hide Apply, Fifo;
    var t := Next(r, s, a);
    match a {
      case TrySend(f, dropped) =>
        if !dropped { EnqueueFifo(s, Fact(f)); }
      case EnqueueFlush(id) =>
        EnqueueFifo(s, Flush(id));
        FifoKept(Enqueue(s, Flush(id)), t);
      case Receive =>
        ReceiveFifo(s);
      case StartFlush(id) => FifoKept(s, t);
      case GiveUp(id) => FifoKept(s, t);
      case _ => ConsumerFifo(r, s, a);
    }
  }

  // Only the reducer's own steps change what is folded.
  lemma FoldedKept<S, F, E>(r: Reducer<S, F, E>, s: State<S, F, E>, t: State<S, F, E>)
    requires Fifo(s) && Folded(r, s) && Fifo(t) && s.accepted <= t.accepted
    requires (t.reducer, t.handed, Finished(t)) == (s.reducer, s.handed, Finished(s))
    requires s.consumer.Sending? || t.consumer.Sending? ==> t.consumer == s.consumer && Taken(t) == Taken(s)
    ensures Folded(r, t)
  {
    hide Fold;
    assert t.accepted[..Taken(s)] == s.accepted[..Taken(s)];
    assert t.accepted[..Finished(s)] == s.accepted[..Finished(s)];
  }

  lemma ReduceFolded<S, F, E>(r: Reducer<S, F, E>, s: State<S, F, E>)
    requires Fifo(s) && Folded(r, s) && s.consumer.Handling? && Fifo(Next(r, s, Reduce))
    ensures Folded(r, Next(r, s, Reduce))
  {
    hide Apply, Fold;
    var m := s.consumer.message;
    assert s.accepted[..Taken(s)] == s.accepted[..Finished(s)] + [m];
    FoldSnoc(r, s.accepted[..Finished(s)], m);
  }

  lemma StepFolded<S, F, E>(r: Reducer<S, F, E>, s: State<S, F, E>, a: Action<F>)
    requires Fifo(s) && Folded(r, s) && Enabled(s, a)
    ensures Fifo(Next(r, s, a)) && Folded(r, Next(r, s, a))
  {
    hide Fold, Apply, Fifo;
    StepFifo(r, s, a);
    match a {
      case Reduce => ReduceFolded(r, s);
      case Deliver => hide Next; DeliverFolded(r, s);
      case _ => FoldedKept(r, s, Next(r, s, a));
    }
  }

  lemma DeliverFolded<S, F, E>(r: Reducer<S, F, E>, s: State<S, F, E>)
    requires Fifo(s) && Folded(r, s) && s.consumer.Sending? && Fifo(Next(r, s, Deliver))
    ensures Folded(r, Next(r, s, Deliver))
  {
    hide Fold;
  }

  lemma StepCalls<S, F, E>(r: Reducer<S, F, E>, s: State<S, F, E>, a: Action<F>)
    requires Calls(s) && Enabled(s, a)
    ensures Calls(Next(r, s, a))
  {
    hide Apply;
  }

  lemma EnqueueQueued<S, F, E>(s: State<S, F, E>, m: Message<F>)
    requires Queued(s)
    requires m.Flush? ==> m.id in s.started && s.started[m.id] <= |s.accepted| && m.id !in s.blocked
    ensures Queued(Enqueue(s, m))
  {
  }

  // Fewer flushes wait, and more are called, than before.
  lemma QueuedKept<S, F, E>(s: State<S, F, E>, t: State<S, F, E>)
    requires Queued(s) && t.accepted == s.accepted
    requires forall id :: id in s.started ==> id in t.started && t.started[id] == s.started[id]
    requires forall id :: id in t.blocked && id in s.started ==> id in s.blocked
    ensures Queued(t)
  {
  }

  lemma StepQueued<S, F, E>(r: Reducer<S, F, E>, s: State<S, F, E>, a: Action<F>)
    requires Calls(s) && Queued(s) && Enabled(s, a)
    ensures Queued(Next(r, s, a))
  {
    hide Apply, Queued;
    match a {
      case TrySend(f, dropped) =>
        if !dropped { EnqueueQueued(s, Fact(f)); }
      case EnqueueFlush(id) =>
        var t := s.(blocked := s.blocked - {id});
        QueuedKept(s, t);
        EnqueueQueued(t, Flush(id));
      case _ => QueuedKept(s, Next(r, s, a));
    }
  }

  lemma AnsweredKept<S, F, E>(s: State<S, F, E>, t: State<S, F, E>)
    requires Answered(s) && s.accepted <= t.accepted && Finished(s) <= Finished(t) && t.acknowledged == s.acknowledged
    ensures Answered(t)
  {
    forall id | id in t.acknowledged
      ensures exists k :: IsDone(t, k, id)
    {
      var k :| IsDone(s, k, id);
      assert IsDone(t, k, id);
    }
  }

  lemma StepAnswered<S, F, E>(r: Reducer<S, F, E>, s: State<S, F, E>, a: Action<F>)
    requires Fifo(s) && Answered(s) && Enabled(s, a)
    ensures Answered(Next(r, s, a))
  {
    hide Answered, Apply;
    StepFifo(r, s, a);
    if a.Acknowledge? {
      AcknowledgeAnswered(r, s);
    } else {
      AnsweredKept(s, Next(r, s, a));
    }
  }

  lemma AcknowledgeAnswered<S, F, E>(r: Reducer<S, F, E>, s: State<S, F, E>)
    requires Fifo(s) && Answered(s) && s.consumer.Acknowledging?
    ensures Answered(Next(r, s, Acknowledge))
  {
    var t := Next(r, s, Acknowledge);
    forall id | id in t.acknowledged
      ensures exists k :: IsDone(t, k, id)
    {
      if id == s.consumer.id {
        assert IsDone(t, Taken(s) - 1, id);
      } else {
        var k :| IsDone(s, k, id);
        assert IsDone(t, k, id);
      }
    }
  }

  lemma StepFlushes<S, F, E>(r: Reducer<S, F, E>, s: State<S, F, E>, a: Action<F>)
    requires Fifo(s) && Flushes(s) && Enabled(s, a)
    ensures Flushes(Next(r, s, a))
  {
    hide Fifo, Enabled, Next, Calls, Queued, Answered;
    StepCalls(r, s, a);
    StepQueued(r, s, a);
    StepAnswered(r, s, a);
  }

  lemma {:induction false} RunInv<S, F, E>(r: Reducer<S, F, E>, states: seq<State<S, F, E>>, actions: seq<Action<F>>, i: nat)
    requires IsRun(r, states, actions) && i < |states|
    ensures Inv(r, states[i])
  {
    if i > 0 {
      RunInv(r, states, actions, i - 1);
      StepFolded(r, states[i - 1], actions[i - 1]);
      StepFlushes(r, states[i - 1], actions[i - 1]);
    }
  }

  // ----------------------------------------------------------------------- main results

  // In every reachable state the channel is bounded and holds the last accepted messages
  // in order, and the delivered log is the fold of those finished: a prefix of the fold
  // of all accepted messages, and all of it once the queue is drained.
  lemma RunIsSequential<S, F, E>(r: Reducer<S, F, E>, states: seq<State<S, F, E>>, actions: seq<Action<F>>, i: nat)
    requires IsRun(r, states, actions) && i < |states|
    ensures var s := states[i];
      && |s.channel| <= QUEUE_SIZE && |s.channel| <= |s.accepted|
      && s.accepted == s.accepted[..|s.accepted| - |s.channel|] + s.channel
      && s.handed <= Fold(r, s.accepted).1
      && (s.channel == [] && s.consumer.Waiting? ==> (s.reducer, s.handed) == Fold(r, s.accepted))
  {
    RunInv(r, states, actions, i);
    var s := states[i];
    FoldPrefix(r, s.accepted, Finished(s));
    if s.channel == [] {
      assert s.accepted[..|s.accepted|] == s.accepted;
    }
  }

  // The first n accepted messages are exactly those the reducer has ingested.
  ghost predicate Ingested<S, F, E>(r: Reducer<S, F, E>, s: State<S, F, E>, n: nat) {
    n <= |s.accepted| && s.reducer == Fold(r, s.accepted[..n]).0
  }

  lemma IngestedSome<S, F, E>(r: Reducer<S, F, E>, s: State<S, F, E>) returns (n: nat)
    requires Fifo(s) && Folded(r, s)
    ensures Finished(s) <= n <= Taken(s) && Ingested(r, s, n)
  {
    hide Fold;
    n := if s.consumer.Sending? then Taken(s) else Finished(s);
  }

  // The flush message at position k, and everything before it, is done.
  ghost predicate DoneUpTo<S, F, E>(r: Reducer<S, F, E>, s: State<S, F, E>, k: nat, id: nat) {
    IsDone(s, k, id) && Fold(r, s.accepted[..k + 1]).1 <= s.handed
  }

  // An acknowledged flush is a barrier: its message was accepted after everything
  // accepted before its call, the reducer has ingested all messages up to it, and their
  // events were handed over.
  lemma FlushIsBarrier<S, F, E>(r: Reducer<S, F, E>, states: seq<State<S, F, E>>, actions: seq<Action<F>>, i: nat, id: nat)
    requires IsRun(r, states, actions) && i < |states| && id in states[i].acknowledged
    ensures var s := states[i];
      && id in s.started && s.started[id] <= |s.accepted|
      && Fold(r, s.accepted[..s.started[id]]).1 <= s.handed
      && exists k: nat, n: nat :: s.started[id] <= k < n && DoneUpTo(r, s, k, id) && Ingested(r, s, n)
  {
    hide Fold;
    RunInv(r, states, actions, i);
    var s := states[i];
    var k: nat :| IsDone(s, k, id);
    assert s.accepted[k].Flush? && s.accepted[k].id == id;
    FinishedPrefix(r, s, k + 1);
    FinishedPrefix(r, s, s.started[id]);
    var n := IngestedSome(r, s);
    assert DoneUpTo(r, s, k, id) && s.started[id] <= k < n;
  }

  lemma FinishedPrefix<S, F, E>(r: Reducer<S, F, E>, s: State<S, F, E>, n: nat)
    requires Fifo(s) && Folded(r, s) && n <= Finished(s)
    ensures Fold(r, s.accepted[..n]).1 <= s.handed
  {
    var done := s.accepted[..Finished(s)];
    assert done[..n] == s.accepted[..n];
    FoldPrefix(r, done, n);
  }

  lemma {:induction false} RunGrows<S, F, E>(r: Reducer<S, F, E>, states: seq<State<S, F, E>>, actions: seq<Action<F>>, i: nat, j: nat)
    requires IsRun(r, states, actions) && i <= j < |states|
    ensures states[i].accepted <= states[j].accepted
    ensures forall id :: id in states[i].started ==> id in states[j].started && states[j].started[id] == states[i].started[id]
    decreases j
  {
    if i < j {
      RunGrows(r, states, actions, i, j - 1);
    }
  }

  // In terms of calls: whatever was accepted when `flush` was called (at step i) has
  // been ingested and its events handed over when the flush is acknowledged (at step j).
  lemma FlushCoversEarlierFacts<S, F, E>(r: Reducer<S, F, E>, states: seq<State<S, F, E>>, actions: seq<Action<F>>,
                                         i: nat, j: nat, id: nat)
    requires IsRun(r, states, actions) && i < j < |states|
    requires actions[i] == StartFlush(id) && id in states[j].acknowledged
    ensures states[i].accepted <= states[j].accepted
    ensures Fold(r, states[i].accepted).1 <= states[j].handed
    ensures exists n: nat :: |states[i].accepted| < n && Ingested(r, states[j], n)
  {
    hide Fold;
    RunGrows(r, states, actions, i, j);
    RunGrows(r, states, actions, i + 1, j);
    FlushIsBarrier(r, states, actions, j, id);
    assert states[j].accepted[..|states[i].accepted|] == states[i].accepted;
  }

  // ----------------------------------------------------------------------------- progress

  predicate Busy<S, F, E>(s: State<S, F, E>) {
    !s.consumer.Waiting? || s.channel != []
  }

  // The consumer's next action is determined, and there is one while work is left.
  function ConsumerAction<S, F, E>(s: State<S, F, E>): (a: Action<F>)
    requires Busy(s)
    ensures Enabled(s, a)
  {
    match s.consumer
    case Waiting => Receive
    case Handling(_) => Reduce
    case Sending(_, _) => Deliver
    case Acknowledging(_) => Acknowledge
  }

  function Work<S, F, E>(s: State<S, F, E>): nat {
    4 * |s.channel| + match s.consumer case Waiting => 0 case Handling(_) => 3 case Sending(_, _) => 2 case Acknowledging(_) => 1
  }

  // The consumer left to itself until nothing is queued.
  function Drain<S, F, E>(r: Reducer<S, F, E>, s: State<S, F, E>): State<S, F, E>
    decreases Work(s)
  {
    if Busy(s) then Drain(r, Next(r, s, ConsumerAction(s))) else s
  }

  // Nothing gets stuck: draining acknowledges every flush in the queue and leaves the
  // delivered log equal to the sequential fold of everything accepted.
  lemma {:induction false} DrainFinishes<S, F, E>(r: Reducer<S, F, E>, s: State<S, F, E>)
    requires Inv(r, s) && AllAcknowledged(s)
    ensures var t := Drain(r, s);
      && t.accepted == s.accepted && t.channel == [] && t.consumer.Waiting?
      && (t.reducer, t.handed) == Fold(r, s.accepted)
      && forall k :: 0 <= k < |s.accepted| && s.accepted[k].Flush? ==> s.accepted[k].id in t.acknowledged
    decreases Work(s)
  {
    if Busy(s) {
      var a := ConsumerAction(s);
      StepFifo(r, s, a);
      StepFolded(r, s, a);
      StepFlushes(r, s, a);
      StepAcknowledged(r, s, a);
      DrainFinishes(r, Next(r, s, a));
    } else {
      assert s.accepted[..|s.accepted|] == s.accepted;
    }
  }

  // Every flush the consumer is done with was acknowledged.
  ghost predicate AllAcknowledged<S, F, E>(s: State<S, F, E>) {
    var n := if s.consumer.Waiting? then Taken(s) else Taken(s) - 1;
    forall k :: 0 <= k < n && k < |s.accepted| && s.accepted[k].Flush? ==> s.accepted[k].id in s.acknowledged
  }

  lemma StepAcknowledged<S, F, E>(r: Reducer<S, F, E>, s: State<S, F, E>, a: Action<F>)
    requires Fifo(s) && AllAcknowledged(s) && Enabled(s, a)
    ensures AllAcknowledged(Next(r, s, a))
  {
    StepFifo(r, s, a);
  }

  // From any reachable state, then, every enqueued flush can be answered.
  lemma {:induction false} RunAcknowledged<S, F, E>(r: Reducer<S, F, E>, states: seq<State<S, F, E>>, actions: seq<Action<F>>, i: nat)
    requires IsRun(r, states, actions) && i < |states|
    ensures AllAcknowledged(states[i])
  {
    if i > 0 {
      RunInv(r, states, actions, i - 1);
      RunAcknowledged(r, states, actions, i - 1);
      StepAcknowledged(r, states[i - 1], actions[i - 1]);
    }
  }

  lemma QueuedFlushesAreAnswered<S, F, E>(r: Reducer<S, F, E>, states: seq<State<S, F, E>>, actions: seq<Action<F>>, i: nat)
    requires IsRun(r, states, actions) && i < |states|
    ensures var s, t := states[i], Drain(r, states[i]);
      && (t.reducer, t.handed) == Fold(r, s.accepted)
      && forall k :: 0 <= k < |s.accepted| && s.accepted[k].Flush? ==> s.accepted[k].id in t.acknowledged
  {
    RunInv(r, states, actions, i);
    RunAcknowledged(r, states, actions, i);
    DrainFinishes(r, states[i]);
  }
}
