/**
 The JSONL app-server client of scripts/mcp_conformance/run_codex_compliance.py: one
 stream carries responses, notifications and server requests, and the client
 demultiplexes it while keeping a log.

 The stream is a sequence of arrivals, so a call that times out may be followed by
 calls that find more messages; `sendsLeft` says how many writes the process will
 still accept before it exits, which the client cannot know.  Objects the client only
 passes on are JSON text.
 */
module AppServerProtocol {
  import opened Results
  import opened Sequences

  datatype Id = Number(n: int) | Text(s: string) | Null
  datatype MethodField = NoMethod | Named(name: string) | NotText

  // `params` is None unless the field is an object.
  datatype Message = Message(id: Option<Id>, methodField: MethodField, params: Option<string>, payload: string)

  datatype Arrival = Arrived(message: Message) | Closed | Silence

  datatype Body = Accepted(content: string) | Unsupported(methodName: string)
  datatype Outgoing =
    | Request(requestId: int, methodName: string, params: Option<string>)
    | Notification(methodName: string)
    | Reply(id: Id, body: Body)

  datatype Outcome = Returned(message: Message) | TimedOut | StreamClosed | Exited

  type Test = Option<string -> bool>
  type Answer = Option<string -> string>

  const ELICITATION := "mcpServer/elicitation/request"
  const DEFAULT_CONTENT := "{\"confirmation\":\"confirmed\"}"

  datatype State = State(
    nextId: int, events: seq<Message>, elicitations: seq<string>, sent: seq<Outgoing>,
    pending: seq<Arrival>, sendsLeft: nat)

  predicate IsServerRequest(m: Message) {
    m.id.Some? && m.methodField.Named?
  }

  predicate Answers(m: Message, requestId: int) {
    m.id == Some(Number(requestId)) && m.methodField.NoMethod?
  }

  predicate Matches(m: Message, methodName: string, test: Test) {
    m.methodField == Named(methodName) && m.params.Some? && (test.None? || test.value(m.params.value))
  }

  function ReplyTo(m: Message, answer: Answer): Outgoing
    requires IsServerRequest(m)
  {
    if m.methodField.name == ELICITATION then
      var params := if m.params.Some? then m.params.value else "{}";
      Reply(m.id.value, Accepted(if answer.Some? then answer.value(params) else DEFAULT_CONTENT))
    else Reply(m.id.value, Unsupported(m.methodField.name))
  }

  function Elicited(m: Message): seq<string> {
    if IsServerRequest(m) && m.methodField.name == ELICITATION && m.params.Some? then [m.params.value] else []
  }

  // -------------------------------------------------------- the client as a function

  function Log(s: State, m: Message): State {
    s.(events := s.events + [m])
  }

  function Write(s: State, o: Outgoing): State
    requires s.sendsLeft > 0
  {
    s.(sent := s.sent + [o], sendsLeft := s.sendsLeft - 1)
  }

  // The log entry and the elicitation of a server request, before the reply.
  function Received(s: State, m: Message): State {
    Log(s, m).(elicitations := s.elicitations + Elicited(m))
  }

  // A message that ends no call: logged, and answered if the server asked for it.
  function Absorb(s: State, m: Message, answer: Answer): State {
    if !IsServerRequest(m) then Log(s, m)
    else if s.sendsLeft == 0 then Received(s, m)
    else Write(Received(s, m), ReplyTo(m, answer))
  }

  predicate Unanswerable(s: State, m: Message) {
    IsServerRequest(m) && s.sendsLeft == 0
  }

  function RequestLoop(s: State, requestId: int, answer: Answer): (State, Outcome)
    decreases |s.pending|
  {
    if s.pending == [] then (s, TimedOut)
    else
      var s1 := s.(pending := s.pending[1..]);
      match s.pending[0]
      case Silence => (s1, TimedOut)
      case Closed => (s1, StreamClosed)
      case Arrived(m) =>
        if Answers(m, requestId) then (s1, Returned(m))
        else if Unanswerable(s1, m) then (Absorb(s1, m, answer), Exited)
        else RequestLoop(Absorb(s1, m, answer), requestId, answer)
  }

  function RequestSpec(s: State, methodName: string, params: Option<string>, answer: Answer): (State, Outcome) {
    var s1 := s.(nextId := s.nextId + 1);
    if s1.sendsLeft == 0 then (s1, Exited)
    else RequestLoop(Write(s1, Request(s.nextId, methodName, params)), s.nextId, answer)
  }

  function WaitLoop(s: State, methodName: string, test: Test, answer: Answer): (State, Outcome)
    decreases |s.pending|
  {
    if s.pending == [] then (s, TimedOut)
    else
      var s1 := s.(pending := s.pending[1..]);
      match s.pending[0]
      case Silence => (s1, TimedOut)
      case Closed => (s1, StreamClosed)
      case Arrived(m) =>
        if Unanswerable(s1, m) then (Absorb(s1, m, answer), Exited)
        else if !IsServerRequest(m) && Matches(m, methodName, test) then (Absorb(s1, m, answer), Returned(m))
        else WaitLoop(Absorb(s1, m, answer), methodName, test, answer)
  }

  // Where Python starts the slice `events[i:]` of n events.
  function SliceStart(i: int, n: nat): (start: nat)
    ensures start <= n
    ensures 0 <= i <= n ==> start == i
  {
    if i >= n then n else if i >= 0 then i else if n + i >= 0 then n + i else 0
  }

  function FirstMatch(events: seq<Message>, from: nat, methodName: string, test: Test): (i: nat)
    requires from <= |events|
    ensures from <= i <= |events|
    ensures forall k :: from <= k < i ==> !Matches(events[k], methodName, test)
    ensures i < |events| ==> Matches(events[i], methodName, test)
    decreases |events| - from
  {
    if from == |events| || Matches(events[from], methodName, test) then from
    else FirstMatch(events, from + 1, methodName, test)
  }

  function WaitSpec(s: State, methodName: string, test: Test, after: int, answer: Answer): (State, Outcome) {
    var i := FirstMatch(s.events, SliceStart(after, |s.events|), methodName, test);
    if i < |s.events| then (s, Returned(s.events[i])) else WaitLoop(s, methodName, test, answer)
  }

  // ---------------------------------------------------------------- runs of calls

  datatype Call =
    | DoRequest(methodName: string, params: Option<string>)
    | DoWait(methodName: string, test: Test, after: int)

  function Step(s: State, c: Call, answer: Answer): (State, Outcome) {
    match c
    case DoRequest(methodName, params) => RequestSpec(s, methodName, params, answer)
    case DoWait(methodName, test, after) => WaitSpec(s, methodName, test, after, answer)
  }

  // What one call consumed: the messages it logged and the response it returned.
  datatype Entry = Entry(logged: seq<Message>, response: Option<Message>, outcome: Outcome)

  function EntryOf(s: State, c: Call, answer: Answer): Entry {
    var (s1, o) := Step(s, c, answer);
    Entry(if |s.events| <= |s1.events| then s1.events[|s.events|..] else [],
          if c.DoRequest? && o.Returned? then Some(o.message) else None, o)
  }

  function Run(s: State, calls: seq<Call>, answer: Answer): (State, seq<Entry>)
    decreases |calls|
  {
    if calls == [] then (s, [])
    else
      var (s1, entries) := Run(s, calls[..|calls| - 1], answer);
      var c := calls[|calls| - 1];
      (Step(s1, c, answer).0, entries + [EntryOf(s1, c, answer)])
  }

  function Messages(arrivals: seq<Arrival>): seq<Message> {
    if arrivals == [] then []
    else
      var rest := Messages(arrivals[1..]);
      if arrivals[0].Arrived? then [arrivals[0].message] + rest else rest
  }

  function Taken(e: Entry): seq<Message> {
    e.logged + if e.response.Some? then [e.response.value] else []
  }

  function AllTaken(entries: seq<Entry>): seq<Message> {
    if entries == [] then [] else AllTaken(entries[..|entries| - 1]) + Taken(entries[|entries| - 1])
  }

  function AllLogged(entries: seq<Entry>): seq<Message> {
    if entries == [] then [] else AllLogged(entries[..|entries| - 1]) + entries[|entries| - 1].logged
  }

  function Replies(sent: seq<Outgoing>): seq<Outgoing> {
    if sent == [] then []
    else
      var front := Replies(sent[..|sent| - 1]);
      if sent[|sent| - 1].Reply? then front + [sent[|sent| - 1]] else front
  }

  // The replies the server requests of a log call for, in order.
  function Owed(events: seq<Message>, answer: Answer): seq<Outgoing> {
    if events == [] then []
    else
      var front, m := Owed(events[..|events| - 1], answer), events[|events| - 1];
      if IsServerRequest(m) then front + [ReplyTo(m, answer)] else front
  }

  function ElicitedIn(events: seq<Message>): seq<string> {
    if events == [] then [] else ElicitedIn(events[..|events| - 1]) + Elicited(events[|events| - 1])
  }

  // ------------------------------------------------------------- lemmas on sequences

  lemma {:induction false} MessagesAppend(a: seq<Arrival>, b: seq<Arrival>)
    ensures Messages(a + b) == Messages(a) + Messages(b)
  {
    if a == [] {
      assert a + b == b;
    } else {
      assert (a + b)[1..] == a[1..] + b;
      MessagesAppend(a[1..], b);
    }
  }

  lemma {:induction false} OwedAppend(a: seq<Message>, b: seq<Message>, answer: Answer)
    ensures Owed(a + b, answer) == Owed(a, answer) + Owed(b, answer)
    ensures ElicitedIn(a + b) == ElicitedIn(a) + ElicitedIn(b)
    decreases |b|
  {
    hide ReplyTo, Elicited;
    if b == [] {
      assert a + b == a;
    } else {
      var b', m := b[..|b| - 1], b[|b| - 1];
      LastOf(a, b);
      OwedAppend(a, b', answer);
      Assoc(ElicitedIn(a), ElicitedIn(b'), Elicited(m));
      if IsServerRequest(m) {
        Assoc(Owed(a, answer), Owed(b', answer), [ReplyTo(m, answer)]);
      }
    }
  }

  lemma RepliesSnoc(sent: seq<Outgoing>, o: Outgoing)
    ensures Replies(sent + [o]) == Replies(sent) + if o.Reply? then [o] else []
  {
    assert (sent + [o])[..|sent|] == sent;
  }

  // ------------------------------------------------------------ what one call does

  // The loops take `taken` off the stream, log `logged` of it in order, and answer the
  // server requests in it; only a process that exits leaves its last one unanswered.
  ghost predicate Consumed(s: State, s': State, taken: seq<Arrival>, logged: seq<Message>, o: Outcome, answer: Answer) {
    && s.pending == taken + s'.pending
    && s'.events == s.events + logged
    && s'.elicitations == s.elicitations + ElicitedIn(logged)
    && s'.nextId == s.nextId
    && (o != Exited ==> Replies(s'.sent) == Replies(s.sent) + Owed(logged, answer))
    && (o == Exited ==> logged != [] && IsServerRequest(logged[|logged| - 1]))
    && (o == Exited ==> Replies(s'.sent) == Replies(s.sent) + Owed(logged[..|logged| - 1], answer))
  }

  lemma LastOf(a: seq<Message>, b: seq<Message>)
    requires b != []
    ensures (a + b)[..|a + b| - 1] == a + b[..|b| - 1] && (a + b)[|a + b| - 1] == b[|b| - 1]
  {
  }

  lemma ConsumedThen(s: State, s1: State, s2: State, taken1: seq<Arrival>, taken2: seq<Arrival>,
                     logged1: seq<Message>, logged2: seq<Message>, o1: Outcome, o: Outcome, answer: Answer)
    requires o1 != Exited && Consumed(s, s1, taken1, logged1, o1, answer)
    requires Consumed(s1, s2, taken2, logged2, o, answer)
    ensures Consumed(s, s2, taken1 + taken2, logged1 + logged2, o, answer)
    ensures Messages(taken1 + taken2) == Messages(taken1) + Messages(taken2)
  {
    MessagesAppend(taken1, taken2);
    Assoc(taken1, taken2, s2.pending);
    Assoc(s.events, logged1, logged2);
    Assoc(s.elicitations, ElicitedIn(logged1), ElicitedIn(logged2));
    OwedAppend(logged1, logged2, answer);
    if o == Exited {
      var front := logged2[..|logged2| - 1];
      LastOf(logged1, logged2);
      OwedAppend(logged1, front, answer);
      Assoc(Replies(s.sent), Owed(logged1, answer), Owed(front, answer));
    } else {
      Assoc(Replies(s.sent), Owed(logged1, answer), Owed(logged2, answer));
    }
  }

  lemma OwedOne(m: Message, answer: Answer)
    ensures Owed([m], answer) == if IsServerRequest(m) then [ReplyTo(m, answer)] else []
    ensures ElicitedIn([m]) == Elicited(m)
    ensures Messages([Arrived(m)]) == [m]
  {
    assert [m][..0] == [];
    assert Elicited(m) == [] + Elicited(m);
  }

  lemma AbsorbConsumes(s: State, m: Message, answer: Answer)
    requires s.pending != [] && s.pending[0] == Arrived(m)
    ensures var s1 := s.(pending := s.pending[1..]);
      Consumed(s, Absorb(s1, m, answer), [Arrived(m)], [m], if Unanswerable(s1, m) then Exited else TimedOut, answer)
  {
    var s1 := s.(pending := s.pending[1..]);
    OwedOne(m, answer);
    assert s.pending == [Arrived(m)] + s1.pending;
    assert [m][..0] == [] && Replies(s.sent) + [] == Replies(s.sent);
    assert s.elicitations + [] == s.elicitations;
    if IsServerRequest(m) {
      RepliesSnoc(s.sent, ReplyTo(m, answer));
    }
  }

  lemma TakenOne(s: State, a: Arrival, o: Outcome, answer: Answer)
    requires s.pending != [] && s.pending[0] == a && o != Exited
    ensures Consumed(s, s.(pending := s.pending[1..]), [a], [], o, answer)
    ensures Messages([a]) == if a.Arrived? then [a.message] else []
  {
    assert s.pending == [a] + s.pending[1..];
    assert s.events + [] == s.events && s.elicitations + [] == s.elicitations;
    assert Replies(s.sent) + [] == Replies(s.sent);
  }

  lemma TakenNone(s: State, o: Outcome, answer: Answer)
    requires o != Exited
    ensures Consumed(s, s, [], [], o, answer)
  {
    assert [] + s.pending == s.pending;
    assert s.events + [] == s.events && s.elicitations + [] == s.elicitations;
    assert Replies(s.sent) + [] == Replies(s.sent);
  }

  lemma {:induction false} RequestLoopConsumes(s: State, requestId: int, answer: Answer)
      returns (taken: seq<Arrival>, logged: seq<Message>)
    ensures var (s', o) := RequestLoop(s, requestId, answer);
      && Consumed(s, s', taken, logged, o, answer)
      && Messages(taken) == logged + (if o.Returned? then [o.message] else [])
      && (o.Returned? ==> Answers(o.message, requestId))
    decreases |s.pending|
  {
    hide Consumed, Absorb;
    var (s', o) := RequestLoop(s, requestId, answer);
    taken, logged := [], [];
    if s.pending == [] {
      TakenNone(s, o, answer);
    } else {
      var s1, a := s.(pending := s.pending[1..]), s.pending[0];
      taken := [a];
      if a.Arrived? && !Answers(a.message, requestId) {
        var m := a.message;
        AbsorbConsumes(s, m, answer);
        OwedOne(m, answer);
        logged := [m];
        if !Unanswerable(s1, m) {
          AbsorbPending(s1, m, answer);
          var taken2, logged2 := RequestLoopConsumes(Absorb(s1, m, answer), requestId, answer);
          ConsumedThen(s, Absorb(s1, m, answer), s', taken, taken2, logged, logged2, TimedOut, o, answer);
          taken, logged := taken + taken2, logged + logged2;
        }
      } else {
        TakenOne(s, a, o, answer);
      }
    }
  }

  lemma AbsorbPending(s1: State, m: Message, answer: Answer)
    ensures Absorb(s1, m, answer).pending == s1.pending
  {
  }

  // What a wait logged before the notification it returned, if any, does not match,
  // except for server requests.
  ghost predicate WaitLogged(logged: seq<Message>, o: Outcome, methodName: string, test: Test) {
    && (o.Returned? ==> logged != [] && logged[|logged| - 1] == o.message)
    && (o.Returned? ==> Matches(o.message, methodName, test) && !IsServerRequest(o.message))
    && forall k :: 0 <= k < |logged| - (if o.Returned? then 1 else 0) && Matches(logged[k], methodName, test) ==>
         IsServerRequest(logged[k])
  }

  lemma {:induction false} WaitLoopConsumes(s: State, methodName: string, test: Test, answer: Answer)
      returns (taken: seq<Arrival>, logged: seq<Message>)
    ensures var (s', o) := WaitLoop(s, methodName, test, answer);
      && Consumed(s, s', taken, logged, o, answer)
      && Messages(taken) == logged
      && WaitLogged(logged, o, methodName, test)
    decreases |s.pending|
  {
    hide Consumed, Absorb, Matches;
    var (s', o) := WaitLoop(s, methodName, test, answer);
    taken, logged := [], [];
    if s.pending == [] {
      TakenNone(s, o, answer);
    } else {
      var s1, a := s.(pending := s.pending[1..]), s.pending[0];
      taken := [a];
      if !a.Arrived? {
        TakenOne(s, a, o, answer);
      } else {
        var m := a.message;
        AbsorbConsumes(s, m, answer);
        OwedOne(m, answer);
        logged := [m];
        if !Unanswerable(s1, m) {
          if !IsServerRequest(m) && Matches(m, methodName, test) {
            SameUnlessExited(s, Absorb(s1, m, answer), taken, logged, TimedOut, o, answer);
          } else {
            AbsorbPending(s1, m, answer);
            var taken2, logged2 := WaitLoopConsumes(Absorb(s1, m, answer), methodName, test, answer);
            ConsumedThen(s, Absorb(s1, m, answer), s', taken, taken2, logged, logged2, TimedOut, o, answer);
            WaitLoggedCons(m, logged2, o, methodName, test);
            taken, logged := taken + taken2, logged + logged2;
          }
        }
      }
    }
  }

  lemma WaitLoggedCons(m: Message, logged: seq<Message>, o: Outcome, methodName: string, test: Test)
    requires WaitLogged(logged, o, methodName, test) && (Matches(m, methodName, test) ==> IsServerRequest(m))
    ensures WaitLogged([m] + logged, o, methodName, test)
  {
  }

  lemma SameUnlessExited(s: State, s': State, taken: seq<Arrival>, logged: seq<Message>, o: Outcome, o': Outcome, answer: Answer)
    requires Consumed(s, s', taken, logged, o, answer) && o != Exited && o' != Exited
    ensures Consumed(s, s', taken, logged, o', answer)
  {
  }

  // ------------------------------------------------------------------- whole runs

  // The logged messages that got their reply: all but the one a process exit cut off.
  function Answered(e: Entry): seq<Message> {
    if e.outcome == Exited && e.logged != [] then e.logged[..|e.logged| - 1] else e.logged
  }

  function AllAnswered(entries: seq<Entry>): seq<Message> {
    if entries == [] then [] else AllAnswered(entries[..|entries| - 1]) + Answered(entries[|entries| - 1])
  }

  // What a call did, in terms of its entry.
  ghost predicate Accounted(s: State, s': State, taken: seq<Arrival>, e: Entry, answer: Answer) {
    && s.pending == taken + s'.pending
    && Messages(taken) == Taken(e)
    && s'.events == s.events + e.logged
    && s'.elicitations == s.elicitations + ElicitedIn(e.logged)
    && Replies(s'.sent) == Replies(s.sent) + Owed(Answered(e), answer)
  }

  lemma RequestAccounted(s: State, methodName: string, params: Option<string>, answer: Answer) returns (taken: seq<Arrival>)
    ensures var c := DoRequest(methodName, params);
      && Accounted(s, Step(s, c, answer).0, taken, EntryOf(s, c, answer), answer)
      && Step(s, c, answer).0.nextId == s.nextId + 1
      && (Step(s, c, answer).1.Returned? ==> Answers(Step(s, c, answer).1.message, s.nextId))
  {
    hide RequestLoop;
    var c := DoRequest(methodName, params);
    var s0 := s.(nextId := s.nextId + 1);
    taken := [];
    if s0.sendsLeft == 0 {
      TakenNone(s, TimedOut, answer);
      assert s.events[|s.events|..] == [];
    } else {
      var o := Request(s.nextId, methodName, params);
      RepliesSnoc(s.sent, o);
      assert Replies(s.sent) + [] == Replies(s.sent);
      var logged;
      taken, logged := RequestLoopConsumes(Write(s0, o), s.nextId, answer);
      LoopEntry(s, Write(s0, o), taken, logged, c, answer);
    }
  }

  lemma LoopEntry(s: State, s1: State, taken: seq<Arrival>, logged: seq<Message>, c: Call, answer: Answer)
    requires s1.pending == s.pending && s1.events == s.events && s1.elicitations == s.elicitations
    requires Replies(s1.sent) == Replies(s.sent)
    requires Consumed(s1, Step(s, c, answer).0, taken, logged, Step(s, c, answer).1, answer)
    requires Messages(taken) == logged + if EntryOf(s, c, answer).response.Some? then [EntryOf(s, c, answer).response.value] else []
    ensures Accounted(s, Step(s, c, answer).0, taken, EntryOf(s, c, answer), answer)
  {
    hide Step;
    assert (s.events + logged)[|s.events|..] == logged;
  }

  lemma WaitAccounted(s: State, methodName: string, test: Test, after: int, answer: Answer) returns (taken: seq<Arrival>)
    ensures var c := DoWait(methodName, test, after);
      && Accounted(s, Step(s, c, answer).0, taken, EntryOf(s, c, answer), answer)
      && Step(s, c, answer).0.nextId == s.nextId
  {
    hide WaitLoop;
    var c := DoWait(methodName, test, after);
    var i := FirstMatch(s.events, SliceStart(after, |s.events|), methodName, test);
    taken := [];
    var logged := [];
    if i < |s.events| {
      TakenNone(s, Returned(s.events[i]), answer);
    } else {
      taken, logged := WaitLoopConsumes(s, methodName, test, answer);
    }
    assert logged + [] == logged;
    LoopEntry(s, s, taken, logged, c, answer);
  }

  function CountRequests(calls: seq<Call>): nat {
    if calls == [] then 0
    else CountRequests(calls[..|calls| - 1]) + if calls[|calls| - 1].DoRequest? then 1 else 0
  }

  // Conservation: over any run on any stream, what was taken off the stream is, in
  // order, what was logged and what requests returned; the log holds each logged
  // message once; and every server request in it was answered once with its id,
  // unless the process exited under the reply.
  lemma {:induction false} RunConserves(s: State, calls: seq<Call>, answer: Answer) returns (taken: seq<Arrival>)
    ensures var (s', entries) := Run(s, calls, answer);
      && s.pending == taken + s'.pending
      && Messages(taken) == AllTaken(entries)
      && s'.events == s.events + AllLogged(entries)
      && s'.elicitations == s.elicitations + ElicitedIn(AllLogged(entries))
      && Replies(s'.sent) == Replies(s.sent) + Owed(AllAnswered(entries), answer)
      && |entries| == |calls|
      && s'.nextId == s.nextId + CountRequests(calls)
    decreases |calls|
  {
    hide Step;
    if calls == [] {
      taken := [];
      TakenNone(s, TimedOut, answer);
    } else {
      var front, c := calls[..|calls| - 1], calls[|calls| - 1];
      var taken1 := RunConserves(s, front, answer);
      var (s1, entries) := Run(s, front, answer);
      var e := EntryOf(s1, c, answer);
      var s' := Step(s1, c, answer).0;
      var taken2;
      match c {
        case DoRequest(methodName, params) =>
          taken2 := RequestAccounted(s1, methodName, params, answer);
        case DoWait(methodName, test, after) =>
          taken2 := WaitAccounted(s1, methodName, test, after, answer);
      }
      taken := taken1 + taken2;
      assert (entries + [e])[..|entries|] == entries;
      AppendEntry(s, s1, s', taken1, taken2, entries, e, answer);
    }
  }

  lemma AppendEntry(s: State, s1: State, s': State, taken1: seq<Arrival>, taken2: seq<Arrival>,
                    entries: seq<Entry>, e: Entry, answer: Answer)
    requires s.pending == taken1 + s1.pending && Messages(taken1) == AllTaken(entries)
    requires s1.events == s.events + AllLogged(entries)
    requires s1.elicitations == s.elicitations + ElicitedIn(AllLogged(entries))
    requires Replies(s1.sent) == Replies(s.sent) + Owed(AllAnswered(entries), answer)
    requires Accounted(s1, s', taken2, e, answer)
    ensures s.pending == taken1 + taken2 + s'.pending && Messages(taken1 + taken2) == AllTaken(entries) + Taken(e)
    ensures s'.events == s.events + (AllLogged(entries) + e.logged)
    ensures s'.elicitations == s.elicitations + ElicitedIn(AllLogged(entries) + e.logged)
    ensures Replies(s'.sent) == Replies(s.sent) + Owed(AllAnswered(entries) + Answered(e), answer)
  {
    Assoc(taken1, taken2, s'.pending);
    MessagesAppend(taken1, taken2);
    Assoc(s.events, AllLogged(entries), e.logged);
    OwedAppend(AllLogged(entries), e.logged, answer);
    OwedAppend(AllAnswered(entries), Answered(e), answer);
    Assoc(s.elicitations, ElicitedIn(AllLogged(entries)), ElicitedIn(e.logged));
    Assoc(Replies(s.sent), Owed(AllAnswered(entries), answer), Owed(Answered(e), answer));
  }

  lemma {:induction false} RunLength(s: State, calls: seq<Call>, answer: Answer)
    ensures |Run(s, calls, answer).1| == |calls|
    decreases |calls|
  {
    hide EntryOf, Step;
    if calls != [] {
      RunLength(s, calls[..|calls| - 1], answer);
    }
  }

  lemma {:induction false} RunEntry(s: State, calls: seq<Call>, answer: Answer, i: nat)
    requires i < |calls|
    ensures |Run(s, calls, answer).1| == |calls|
    ensures Run(s, calls, answer).1[i] == EntryOf(Run(s, calls[..i], answer).0, calls[i], answer)
    decreases |calls|
  {
    hide EntryOf, Step;
    var front := calls[..|calls| - 1];
    RunLength(s, calls, answer);
    RunLength(s, front, answer);
    if i < |calls| - 1 {
      RunEntry(s, front, answer, i);
      assert front[..i] == calls[..i];
    } else {
      assert front == calls[..i];
    }
  }

  lemma {:induction false} CountRequestsMonotone(calls: seq<Call>, i: nat, j: nat)
    requires i < j <= |calls| && calls[i].DoRequest?
    ensures CountRequests(calls[..i]) < CountRequests(calls[..j])
    decreases j
  {
    assert calls[..j][..j - 1] == calls[..j - 1];
    if i < j - 1 {
      CountRequestsMonotone(calls, i, j - 1);
    }
  }

  // Each response goes to the one request whose number it carries.
  lemma ResponsesAreOwn(s: State, calls: seq<Call>, answer: Answer, i: nat)
    requires i < |calls| && i < |Run(s, calls, answer).1| && Run(s, calls, answer).1[i].response.Some?
    ensures calls[i].DoRequest?
    ensures Answers(Run(s, calls, answer).1[i].response.value, s.nextId + CountRequests(calls[..i]))
    ensures forall j :: i < j < |calls| ==> CountRequests(calls[..i]) < CountRequests(calls[..j])
  {
    hide Step, Run;
    RunEntry(s, calls, answer, i);
    var taken := RunConserves(s, calls[..i], answer);
    var s1 := Run(s, calls[..i], answer).0;
    if calls[i].DoRequest? {
      var taken2 := RequestAccounted(s1, calls[i].methodName, calls[i].params, answer);
    }
    forall j | i < j < |calls|
      ensures CountRequests(calls[..i]) < CountRequests(calls[..j])
    {
      CountRequestsMonotone(calls, i, j);
    }
  }

  // ------------------------------------------------------------------------ waiting

  // Where in the log the notification a wait returned stands.
  ghost function ReturnedAt(s: State, methodName: string, test: Test, after: int, answer: Answer): int {
    var i := FirstMatch(s.events, SliceStart(after, |s.events|), methodName, test);
    if i < |s.events| then i else |WaitLoop(s, methodName, test, answer).0.events| - 1
  }

  // Where a wait that reads the stream stops: at the first notification that matches, or at
  // the first silence or close before one.
  function WaitEnd(pending: seq<Arrival>, methodName: string, test: Test): (e: nat)
    ensures e <= |pending|
  {
    if pending == [] || !pending[0].Arrived? then 0
    else if !IsServerRequest(pending[0].message) && Matches(pending[0].message, methodName, test) then 0
    else 1 + WaitEnd(pending[1..], methodName, test)
  }

  // How many replies the server requests among some arrivals ask for.
  function Asked(arrivals: seq<Arrival>): nat {
    if arrivals == [] then 0
    else (if arrivals[0].Arrived? && IsServerRequest(arrivals[0].message) then 1 else 0) + Asked(arrivals[1..])
  }

  ghost predicate AllArrived(arrivals: seq<Arrival>) {
    forall k :: 0 <= k < |arrivals| ==> arrivals[k].Arrived?
  }

  lemma {:induction false} MessageAt(arrivals: seq<Arrival>, k: nat)
    requires AllArrived(arrivals) && k < |arrivals|
    ensures |Messages(arrivals)| == |arrivals| && Messages(arrivals)[k] == arrivals[k].message
  {
    if |arrivals| > 1 {
      MessageAt(arrivals[1..], if k > 0 then k - 1 else 0);
    }
  }

  // The wait loop in closed form.  It returns exactly when its stop is a notification and
  // all server requests before it can be answered; it has then logged all it read.
  ghost predicate LoopClosed(s: State, s': State, o: Outcome, e: nat) {
    && (o.Returned? <==> e < |s.pending| && s.pending[e].Arrived? && Asked(s.pending[..e]) <= s.sendsLeft)
    && (o.Returned? ==> e < |s.pending| && s.pending[e] == Arrived(o.message) && AllArrived(s.pending[..e + 1]))
    && (o.Returned? ==> s'.pending == s.pending[e + 1..] && s'.events == s.events + Messages(s.pending[..e + 1]))
  }

  lemma {:induction false} WaitLoopClosed(s: State, methodName: string, test: Test, answer: Answer)
    ensures var (s', o) := WaitLoop(s, methodName, test, answer);
      LoopClosed(s, s', o, WaitEnd(s.pending, methodName, test))
    decreases |s.pending|
  {
    hide Matches, IsServerRequest, LoopClosed, Absorb;
    var (s', o) := WaitLoop(s, methodName, test, answer);
    var e := WaitEnd(s.pending, methodName, test);
    if s.pending == [] || !s.pending[0].Arrived? {
      StopsAtOnce(s, s', o);
    } else {
      var m, s1 := s.pending[0].message, s.(pending := s.pending[1..]);
      var s2 := Absorb(s1, m, answer);
      if !IsServerRequest(m) && Matches(m, methodName, test) {
        ReturnsAtOnce(s, m, answer);
      } else if Unanswerable(s1, m) {
        ExitsAtOnce(s, s', m, e);
      } else {
        AbsorbPending(s1, m, answer);
        WaitLoopClosed(s2, methodName, test, answer);
        OneMoreArrival(s, s', m, o, e - 1, answer);
      }
    }
  }

  lemma StopsAtOnce(s: State, s': State, o: Outcome)
    requires (s.pending == [] || !s.pending[0].Arrived?) && !o.Returned?
    ensures LoopClosed(s, s', o, 0)
  {
  }

  lemma ReturnsAtOnce(s: State, m: Message, answer: Answer)
    requires s.pending != [] && s.pending[0] == Arrived(m) && !IsServerRequest(m)
    ensures LoopClosed(s, Absorb(s.(pending := s.pending[1..]), m, answer), Returned(m), 0)
  {
    hide IsServerRequest;
    assert s.pending[..1] == [Arrived(m)];
    OwedOne(m, answer);
  }

  lemma ExitsAtOnce(s: State, s': State, m: Message, e: nat)
    requires s.pending != [] && s.pending[0] == Arrived(m) && 0 < e <= |s.pending|
    requires IsServerRequest(m) && s.sendsLeft == 0
    ensures LoopClosed(s, s', Exited, e)
  {
    hide IsServerRequest;
    assert s.pending[..e][0] == Arrived(m);
  }

  lemma OneMoreArrival(s: State, s': State, m: Message, o: Outcome, e: nat, answer: Answer)
    requires s.pending != [] && s.pending[0] == Arrived(m) && e < |s.pending|
    requires !Unanswerable(s.(pending := s.pending[1..]), m)
    requires LoopClosed(Absorb(s.(pending := s.pending[1..]), m, answer), s', o, e)
    ensures LoopClosed(s, s', o, e + 1)
  {
    hide IsServerRequest;
    var rest := s.pending[1..];
    assert s.pending[..e + 1][1..] == rest[..e] && s.pending[..e + 1][0] == Arrived(m);
    if o.Returned? {
      var longer := s.pending[..e + 2];
      assert longer[1..] == rest[..e + 1] && longer[0] == Arrived(m);
      assert forall k :: 0 < k < |longer| ==> longer[k] == rest[..e + 1][k - 1];
      Assoc(s.events, [m], Messages(rest[..e + 1]));
      assert rest[e + 1..] == s.pending[e + 2..];
    }
  }

  // Among the first e arrivals is a server request that the wait itself would have taken.
  ghost predicate Skips(pending: seq<Arrival>, e: nat, methodName: string, test: Test) {
    exists k :: 0 <= k < e && k < |pending| && pending[k].Arrived?
      && IsServerRequest(pending[k].message) && Matches(pending[k].message, methodName, test)
  }

  // When a wait returns, and what.  A match in the log from the slice start on is returned
  // at once, the first one.  Otherwise the wait returns exactly when it meets a matching
  // notification on the stream before a silence, a close, or a server request it cannot
  // answer; that notification is logged last, and it is the first match from the slice
  // start on exactly when no server request ahead of it on the stream matches.
  lemma WaitReturnsFirst(s: State, methodName: string, test: Test, after: int, answer: Answer)
    ensures var start := SliceStart(after, |s.events|);
      var (s', o) := WaitSpec(s, methodName, test, after, answer);
      var i, e := ReturnedAt(s, methodName, test, after, answer), WaitEnd(s.pending, methodName, test);
      if FirstMatch(s.events, start, methodName, test) < |s.events| then
        s' == s && o == Returned(s.events[i]) && i == FirstMatch(s.events, start, methodName, test)
      else
        && (o.Returned? <==> e < |s.pending| && s.pending[e].Arrived? && Asked(s.pending[..e]) <= s.sendsLeft)
        && (o.Returned? ==>
              && s.pending[e] == Arrived(o.message) && i == |s.events| + e
              && s'.events == s.events + Messages(s.pending[..e + 1]) && |s'.events| == i + 1
              && Matches(o.message, methodName, test)
              && (FirstMatch(s'.events, start, methodName, test) == i <==> !Skips(s.pending, e, methodName, test)))
  {
    hide Matches, IsServerRequest, WaitLoop, WaitEnd, Asked, Skips;
    var start := SliceStart(after, |s.events|);
    if FirstMatch(s.events, start, methodName, test) == |s.events| {
      var (s', o) := WaitLoop(s, methodName, test, answer);
      var e := WaitEnd(s.pending, methodName, test);
      WaitLoopClosed(s, methodName, test, answer);
      if o.Returned? {
        MessageAt(s.pending[..e + 1], e);
        StopMatches(s.pending, methodName, test);
        FirstAfterLog(s.events, s.pending, start, methodName, test);
      }
    }
  }

  lemma {:induction false} StopMatches(pending: seq<Arrival>, methodName: string, test: Test)
    ensures var e := WaitEnd(pending, methodName, test);
      && AllArrived(pending[..e])
      && (e < |pending| && pending[e].Arrived? ==>
            Matches(pending[e].message, methodName, test) && !IsServerRequest(pending[e].message))
      && forall k :: 0 <= k < e && Matches(pending[k].message, methodName, test) ==> IsServerRequest(pending[k].message)
  {
    hide Matches, IsServerRequest;
    if WaitEnd(pending, methodName, test) > 0 {
      var e := WaitEnd(pending[1..], methodName, test);
      StopMatches(pending[1..], methodName, test);
      forall k | 0 < k < e + 1
        ensures pending[k] == pending[1..][k - 1] == pending[1..][..e][k - 1]
      {
      }
    }
  }

  lemma FirstAfterLog(events: seq<Message>, pending: seq<Arrival>, start: nat, methodName: string, test: Test)
    requires start <= |events| && FirstMatch(events, start, methodName, test) == |events|
    requires var e := WaitEnd(pending, methodName, test);
      e < |pending| && pending[e].Arrived? && AllArrived(pending[..e + 1])
    ensures var e := WaitEnd(pending, methodName, test);
      var all := events + Messages(pending[..e + 1]);
      FirstMatch(all, start, methodName, test) == |events| + e <==> !Skips(pending, e, methodName, test)
  {
    hide Matches, IsServerRequest, WaitEnd;
    var e := WaitEnd(pending, methodName, test);
    var all := events + Messages(pending[..e + 1]);
    StopMatches(pending, methodName, test);
    forall k: nat | k <= e
      ensures |all| == |events| + e + 1 && all[|events| + k] == pending[k].message
    {
      MessageAt(pending[..e + 1], k);
    }
    assert |all| == |events| + e + 1;
    var f := FirstMatch(all, start, methodName, test);
    assert f <= |events| + e by {
      assert Matches(all[|events| + e], methodName, test);
    }
    if Skips(pending, e, methodName, test) {
      var k :| 0 <= k < e && pending[k].Arrived? && IsServerRequest(pending[k].message)
        && Matches(pending[k].message, methodName, test);
      assert Matches(all[|events| + k], methodName, test);
    } else {
      forall j | |events| <= j < |events| + e
        ensures !Matches(all[j], methodName, test)
      {
        var k := j - |events|;
        assert all[|events| + k] == pending[k].message;
      }
    }
  }

  // On a stream where no server request uses the awaited name, always the first match.
  lemma FirstUnlessAsked(s: State, methodName: string, test: Test, after: int, answer: Answer)
    requires forall k :: 0 <= k < |s.pending| && s.pending[k].Arrived? && IsServerRequest(s.pending[k].message) ==>
      s.pending[k].message.methodField != Named(methodName)
    requires WaitSpec(s, methodName, test, after, answer).1.Returned?
    ensures var (s', o) := WaitSpec(s, methodName, test, after, answer);
      && |s.events| <= |s'.events|
      && var i := FirstMatch(s'.events, SliceStart(after, |s.events|), methodName, test);
        i < |s'.events| && s'.events[i] == o.message && i == ReturnedAt(s, methodName, test, after, answer)
  {
    hide WaitLoop, WaitEnd, Asked;
    WaitReturnsFirst(s, methodName, test, after, answer);
    var e := WaitEnd(s.pending, methodName, test);
    assert !Skips(s.pending, e, methodName, test);
    if FirstMatch(s.events, SliceStart(after, |s.events|), methodName, test) == |s.events| {
      StopMatches(s.pending, methodName, test);
      MessageAt(s.pending[..e + 1], e);
    }
  }

  // A server request of the awaited name: the wait answers it and takes a later notification.
  lemma SkipsServerRequest(answer: Answer)
    ensures var asked := Message(Some(Number(7)), Named("n"), Some("{}"), "");
      var told := Message(None, Named("n"), Some("{}"), "");
      var s := State(1, [], [], [], [Arrived(asked), Arrived(told)], 1);
      && Matches(asked, "n", None)
      && WaitSpec(s, "n", None, 0, answer).0.events == [asked, told]
      && WaitSpec(s, "n", None, 0, answer).1 == Returned(told)
  {
    var asked := Message(Some(Number(7)), Named("n"), Some("{}"), "");
    var told := Message(None, Named("n"), Some("{}"), "");
    var s := State(1, [], [], [], [Arrived(asked), Arrived(told)], 1);
    var s1 := Absorb(s.(pending := s.pending[1..]), asked, answer);
    assert s1.pending == [Arrived(told)];
    assert WaitLoop(s1, "n", None, answer).1 == Returned(told);
    assert WaitLoop(s, "n", None, answer) == WaitLoop(s1, "n", None, answer);
  }

  // The index asked for is respected on every stream exactly when it is not beyond the
  // log at the time of the call: a later index is cut down to the end of the log.
  lemma AfterIndexIff(s: State, methodName: string, after: int, answer: Answer)
    ensures (forall pending: seq<Arrival> ::
              WaitSpec(s.(pending := pending), methodName, None, after, answer).1.Returned? ==>
                ReturnedAt(s.(pending := pending), methodName, None, after, answer) >= after)
      <==> after <= |s.events|
  {
    if after <= |s.events| {
      forall pending: seq<Arrival> | WaitSpec(s.(pending := pending), methodName, None, after, answer).1.Returned?
        ensures ReturnedAt(s.(pending := pending), methodName, None, after, answer) >= after
      {
        WaitReturnsFirst(s.(pending := pending), methodName, None, after, answer);
      }
    } else {
      var m := Message(None, Named(methodName), Some("{}"), "");
      var s1 := s.(pending := [Arrived(m)]);
      assert WaitSpec(s1, methodName, None, after, answer).1 == Returned(m);
      assert ReturnedAt(s1, methodName, None, after, answer) == |s.events|;
    }
  }

  // ------------------------------------------------------------- the client as a class

  class AppServerClient {
    const answer: Answer
    var nextId: int
    var events: seq<Message>
    var elicitationRequests: seq<string>
    var sent: seq<Outgoing>
    var messages: seq<Arrival>
    var sendsLeft: nat

    ghost function Model(): State
      reads this
    {
      State(nextId, events, elicitationRequests, sent, messages, sendsLeft)
    }

    constructor (stream: seq<Arrival>, sends: nat, elicitationContent: Answer)
      ensures Model() == State(1, [], [], [], stream, sends) && answer == elicitationContent
    {
      answer := elicitationContent;
      nextId, events, elicitationRequests, sent, messages, sendsLeft := 1, [], [], [], stream, sends;
    }

    method Send(message: Outgoing) returns (ok: bool)
      modifies this`sent, this`sendsLeft
      ensures ok == (old(sendsLeft) > 0)
      ensures Model() == if ok then Write(old(Model()), message) else old(Model())
    {
      ok := sendsLeft > 0;
      if ok {
        sent, sendsLeft := sent + [message], sendsLeft - 1;
      }
    }

    method HandleServerRequest(message: Message) returns (ok: bool)
      requires IsServerRequest(message)
      modifies this`events, this`elicitationRequests, this`sent, this`sendsLeft
      ensures Model() == Absorb(old(Model()), message, answer)
      ensures ok == !Unanswerable(old(Model()), message)
    {
      events := events + [message];
      if message.methodField.name == ELICITATION {
        var params := "{}";
        if message.params.Some? {
          params := message.params.value;
          elicitationRequests := elicitationRequests + [params];
        }
        var content := if answer.Some? then answer.value(params) else DEFAULT_CONTENT;
        ok := Send(Reply(message.id.value, Accepted(content)));
        return;
      }
      ok := Send(Reply(message.id.value, Unsupported(message.methodField.name)));
    }

    method Request(methodName: string, params: Option<string>) returns (outcome: Outcome)
      modifies this
      ensures (Model(), outcome) == RequestSpec(old(Model()), methodName, params, answer)
    {
      var requestId := nextId;
      nextId := nextId + 1;
      var ok := Send(Outgoing.Request(requestId, methodName, params));
      if !ok {
        return Exited;
      }
      ghost var result := RequestLoop(Model(), requestId, answer);
      while messages != []
        invariant RequestLoop(Model(), requestId, answer) == result
        decreases |messages|
      {
        var next := messages[0];
        messages := messages[1..];
        if next == Silence {
          return TimedOut;
        }
        if next == Closed {
          return StreamClosed;
        }
        var message := next.message;
        if Answers(message, requestId) {
          return Returned(message);
        }
        if IsServerRequest(message) {
          ok := HandleServerRequest(message);
          if !ok {
            return Exited;
          }
        } else {
          events := events + [message];
        }
      }
      return TimedOut;
    }

    method WaitForNotification(methodName: string, test: Test, afterEventIndex: int) returns (outcome: Outcome)
      modifies this
      ensures (Model(), outcome) == WaitSpec(old(Model()), methodName, test, afterEventIndex, answer)
    {
      var k := SliceStart(afterEventIndex, |events|);
      ghost var first := FirstMatch(events, k, methodName, test);
      while k < |events|
        invariant k <= |events| && FirstMatch(events, k, methodName, test) == first
      {
        if Matches(events[k], methodName, test) {
          return Returned(events[k]);
        }
        k := k + 1;
      }
      ghost var result := WaitLoop(Model(), methodName, test, answer);
      while messages != []
        invariant WaitLoop(Model(), methodName, test, answer) == result
        decreases |messages|
      {
        var next := messages[0];
        messages := messages[1..];
        if next == Silence {
          return TimedOut;
        }
        if next == Closed {
          return StreamClosed;
        }
        var message := next.message;
        if IsServerRequest(message) {
          var ok := HandleServerRequest(message);
          if !ok {
            return Exited;
          }
          continue;
        }
        events := events + [message];
        if Matches(message, methodName, test) {
          return Returned(message);
        }
      }
      return TimedOut;
    }
  }
}
