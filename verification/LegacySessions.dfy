/**
 The legacy session handshake of scripts/mcp_conformance/server.py: HTTP requests create,
 use and delete sessions, and each session must be initialized before it is served.

 A message is given by what the handlers test; whether a served method answers with a
 result or with an error of its own is an arbitrary flag of the request.
 */
module LegacySessions {
  import opened Results

  type SessionId = string

  // `verb` is the JSON-RPC method when it is a string.
  datatype Message = Message(
    jsonRpc2: bool, verb: Option<string>, hasId: bool, paramsAreObject: bool, protocolVersionIsText: bool,
    handlerSucceeds: bool)

  datatype Connection = Connection(initializeSeen: bool, initialized: bool)

  datatype ErrorCode = InvalidRequest | InvalidParams | MethodNotFound | HandlerError

  // The plan of a response: none, an error, or a result of the given method.
  datatype Plan = NoContent | Failed(code: ErrorCode) | Result(verb: string)

  const NEW_CONNECTION := Connection(false, false)

  // The methods answered once a session is initialized.
  const SERVED: set<string> := {
    "ping", "logging/setLevel", "tools/list", "tools/call", "resources/list", "resources/templates/list",
    "resources/read", "prompts/list", "prompts/get" }

  // Of those, the ones that always succeed.
  const ALWAYS: set<string> := { "ping", "logging/setLevel", "tools/list", "resources/templates/list", "prompts/list" }

  function HandleLegacy(m: Message, c: Connection): (Plan, Connection)
    requires m.verb.Some?
  {
    var verb := m.verb.value;
    if verb == "initialize" then
      if !m.protocolVersionIsText then (Failed(InvalidParams), c)
      else (Result(verb), c.(initializeSeen := true))
    else if verb == "server/discover" then (Failed(MethodNotFound), c)
    else if !c.initialized then (Failed(InvalidRequest), c)
    else if verb !in SERVED then (Failed(MethodNotFound), c)
    else if verb in ALWAYS || m.handlerSucceeds then (Result(verb), c)
    else (Failed(HandlerError), c)
  }

  function HandleNotification(m: Message, c: Connection): (Plan, Connection)
    requires m.verb.Some?
  {
    if m.verb.value == "notifications/initialized" && c.initializeSeen then (NoContent, c.(initialized := true))
    else (NoContent, c)
  }

  function Handle(m: Message, c: Connection): (Plan, Connection) {
    if !m.jsonRpc2 || m.verb.None? then (Failed(InvalidRequest), c)
    else if !m.paramsAreObject then (if m.hasId then Failed(InvalidParams) else NoContent, c)
    else if !m.hasId then HandleNotification(m, c)
    else HandleLegacy(m, c)
  }

  // A message that completes the first or the second step of the handshake.
  predicate IsValidInitialize(m: Message) {
    m.jsonRpc2 && m.verb == Some("initialize") && m.paramsAreObject && m.hasId && m.protocolVersionIsText
  }

  predicate IsInitializedNotification(m: Message) {
    m.jsonRpc2 && m.verb == Some("notifications/initialized") && m.paramsAreObject && !m.hasId
  }

  // -------------------------------------------------------------------- the HTTP layer

  // A POST carries a message unless it was refused before one was read; `freshId` is the
  // id a new session would get.
  datatype Request =
    | Post(message: Option<Message>, session: Option<SessionId>, freshId: SessionId)
    | Delete(session: Option<SessionId>)

  // `session` is the id the response carries.
  datatype Response =
    | Refused
    | UnknownSession
    | Planned(plan: Plan, session: Option<SessionId>)
    | Deleted(existed: bool)

  type Sessions = map<SessionId, Connection>

  function PostStep(sessions: Sessions, m: Message, session: Option<SessionId>, freshId: SessionId): (Sessions, Response) {
    if m.verb == Some("initialize") then
      var (plan, c) := Handle(m, NEW_CONNECTION);
      (sessions[freshId := c], Planned(plan, Some(freshId)))
    else if m.verb == Some("server/discover") then (sessions, Planned(Handle(m, NEW_CONNECTION).0, None))
    else if session.None? || session.value !in sessions then (sessions, UnknownSession)
    else
      var (plan, c) := Handle(m, sessions[session.value]);
      (sessions[session.value := c], Planned(plan, session))
  }

  function Step(sessions: Sessions, r: Request): (Sessions, Response) {
    match r
    case Post(message, session, freshId) =>
      if message.None? then (sessions, Refused) else PostStep(sessions, message.value, session, freshId)
    case Delete(session) =>
      if session.Some? && session.value in sessions then (sessions - {session.value}, Deleted(true))
      else (sessions, Deleted(false))
  }

  // The session a request is about.
  function Subject(r: Request): Option<SessionId> {
    match r
    case Post(message, session, freshId) =>
      if message.None? || message.value.verb == Some("server/discover") then None
      else if message.value.verb == Some("initialize") then Some(freshId) else session
    case Delete(session) => session
  }

  // A step changes no session but its own.
  lemma StepFrame(sessions: Sessions, r: Request, id: SessionId)
    requires Subject(r) != Some(id)
    ensures var after := Step(sessions, r).0;
      (id in after <==> id in sessions) && (id in sessions ==> after[id] == sessions[id])
  {
  }

  // ------------------------------------------------------------------- the server class

  class ConnectionState {
    var initializeSeen: bool
    var initialized: bool

    function Value(): Connection
      reads this
    {
      Connection(initializeSeen, initialized)
    }

    constructor ()
      ensures Value() == NEW_CONNECTION
    {
      initializeSeen, initialized := false, false;
    }
  }

  class FixtureServer {
    var sessions: map<SessionId, ConnectionState>

    // Two sessions never share a state object.
    ghost predicate Valid()
      reads this
    {
      forall a, b :: a in sessions && b in sessions && a != b ==> sessions[a] != sessions[b]
    }

    ghost function Model(): Sessions
      reads this, sessions.Values
    {
      map id | id in sessions :: sessions[id].Value()
    }

    constructor ()
      ensures Valid() && Model() == map[]
    {
      sessions := map[];
    }

    method HandleMessage(m: Message, state: ConnectionState) returns (plan: Plan)
      modifies state
      ensures (plan, state.Value()) == Handle(m, old(state.Value()))
    {
      if !m.jsonRpc2 || m.verb.None? {
        return Failed(InvalidRequest);
      }
      if !m.paramsAreObject {
        return if m.hasId then Failed(InvalidParams) else NoContent;
      }
      var verb := m.verb.value;
      if !m.hasId {
        if verb == "notifications/initialized" {
          if state.initializeSeen {
            state.initialized := true;
          }
        }
        return NoContent;
      }
      if verb == "initialize" {
        if !m.protocolVersionIsText {
          return Failed(InvalidParams);
        }
        state.initializeSeen := true;
        return Result(verb);
      }
      if verb == "server/discover" {
        return Failed(MethodNotFound);
      }
      if !state.initialized {
        return Failed(InvalidRequest);
      }
      if verb !in SERVED {
        return Failed(MethodNotFound);
      }
      plan := if verb in ALWAYS || m.handlerSucceeds then Result(verb) else Failed(HandlerError);
    }

    // The state a message is handled with and the session it belongs to; null when the
    // request names no known session.
    method LegacyState(m: Message, session: Option<SessionId>, freshId: SessionId)
        returns (state: ConnectionState?, id: Option<SessionId>)
      requires Valid()
      modifies this
      ensures Valid()
      ensures m.verb == Some("initialize") ==>
        state != null && fresh(state) && state.Value() == NEW_CONNECTION && id == Some(freshId)
        && sessions == old(sessions)[freshId := state]
      ensures m.verb != Some("initialize") ==> sessions == old(sessions)
      ensures m.verb == Some("server/discover") ==>
        state != null && fresh(state) && state.Value() == NEW_CONNECTION && id == None
      ensures m.verb != Some("initialize") && m.verb != Some("server/discover") ==> id == session
      ensures m.verb != Some("initialize") && m.verb != Some("server/discover") ==>
        if session.Some? && session.value in sessions then state == sessions[session.value] else state == null
    {
      if m.verb == Some("initialize") {
        state := new ConnectionState();
        sessions := sessions[freshId := state];
        return state, Some(freshId);
      }
      if m.verb == Some("server/discover") {
        state := new ConnectionState();
        return state, None;
      }
      id := session;
      state := if session.Some? && session.value in sessions then sessions[session.value] else null;
    }

    // Handling a message in session `id` changes that session alone.
    method HandleIn(m: Message, state: ConnectionState, id: Option<SessionId>) returns (plan: Plan)
      requires Valid()
      requires if id.Some? then id.value in sessions && sessions[id.value] == state else state !in sessions.Values
      modifies state
      ensures (plan, state.Value()) == Handle(m, old(state.Value()))
      ensures Model() == if id.Some? then old(Model())[id.value := state.Value()] else old(Model())
    {
      hide Handle;
      plan := HandleMessage(m, state);
      assert Model() == if id.Some? then old(Model())[id.value := state.Value()] else old(Model());
    }

    method DoPost(m: Message, session: Option<SessionId>, freshId: SessionId) returns (r: Response)
      requires Valid()
      modifies this, sessions.Values
      ensures Valid()
      ensures (Model(), r) == PostStep(old(Model()), m, session, freshId)
      ensures forall o :: o in sessions.Values ==> o in old(sessions.Values) || fresh(o)
    {
      hide Handle;
      var state, id := LegacyState(m, session, freshId);
      ghost var before := Model();
      assert before == if m.verb == Some("initialize") then old(Model())[freshId := NEW_CONNECTION] else old(Model());
      if state == null {
        return UnknownSession;
      }
      var plan := HandleIn(m, state, id);
      Overwritten(old(Model()), freshId, NEW_CONNECTION, state.Value());
      r := Planned(plan, id);
    }

    method DoDelete(session: Option<SessionId>) returns (r: Response)
      requires Valid()
      modifies this
      ensures Valid()
      ensures (Model(), r) == Step(old(Model()), Delete(session))
    {
      var existed := session.Some? && session.value in sessions;
      if existed {
        sessions := sessions - {session.value};
        assert Model() == old(Model()) - {session.value};
      } else {
        assert Model() == old(Model());
      }
      r := Deleted(existed);
    }
  }

  lemma Overwritten<K, V>(m: map<K, V>, k: K, v: V, w: V)
    ensures m[k := v][k := w] == m[k := w]
  {
  }

  // ---------------------------------------------------------------------- whole runs

  function Run(requests: seq<Request>): Sessions {
    if requests == [] then map[] else Step(Run(requests[..|requests| - 1]), requests[|requests| - 1]).0
  }

  function ResponseAt(requests: seq<Request>, i: nat): Response
    requires i < |requests|
  {
    Step(Run(requests[..i]), requests[i]).1
  }

  // The id a request would give a new session, if it asks for one.
  function NewId(r: Request): Option<SessionId> {
    if r.Post? && r.message.Some? && r.message.value.verb == Some("initialize") then Some(r.freshId) else None
  }

  // Request i made session `id`, and no later request made it anew or deleted it.
  ghost predicate Made(requests: seq<Request>, i: int, id: SessionId) {
    && 0 <= i < |requests| && NewId(requests[i]) == Some(id)
    && forall k :: i < k < |requests| ==> NewId(requests[k]) != Some(id) && requests[k] != Delete(Some(id))
  }

  // Request k tells session `id` that its client is initialized.
  ghost predicate Confirms(requests: seq<Request>, k: int, id: SessionId) {
    0 <= k < |requests| && requests[k].Post? && requests[k].message.Some?
    && IsInitializedNotification(requests[k].message.value) && requests[k].session == Some(id)
  }

  ghost predicate ConfirmedAfter(requests: seq<Request>, i: int, id: SessionId) {
    exists k :: i < k && Confirms(requests, k, id)
  }

  // Request i opened session `id` with a valid `initialize`.
  ghost predicate Opened(requests: seq<Request>, i: int, id: SessionId) {
    Made(requests, i, id) && IsValidInitialize(requests[i].message.value)
  }

  // What request i and those after it say about the session it made.
  ghost function Story(requests: seq<Request>, i: int, id: SessionId): Connection
    requires Made(requests, i, id)
  {
    var seen := IsValidInitialize(requests[i].message.value);
    Connection(seen, seen && ConfirmedAfter(requests, i, id))
  }

  lemma MadeSnoc(front: seq<Request>, r: Request, i: int, id: SessionId)
    requires Made(front + [r], i, id)
    ensures i < |front| ==> Made(front, i, id) && NewId(r) != Some(id) && r != Delete(Some(id))
    ensures 0 <= i <= |front| && (i == |front| ==> NewId(r) == Some(id))
  {
    var all := front + [r];
    assert all[|front|] == r;
    assert forall k :: 0 <= k < |front| ==> all[k] == front[k];
  }

  lemma MadeStays(front: seq<Request>, r: Request, i: int, id: SessionId)
    requires Made(front, i, id) && NewId(r) != Some(id) && r != Delete(Some(id))
    ensures Made(front + [r], i, id)
  {
  }

  lemma ConfirmedSnoc(front: seq<Request>, r: Request, i: int, id: SessionId)
    requires i < |front|
    ensures ConfirmedAfter(front + [r], i, id) <==> ConfirmedAfter(front, i, id) || Confirms([r], 0, id)
  {
    var all := front + [r];
    if ConfirmedAfter(front, i, id) {
      var k :| i < k && Confirms(front, k, id);
      assert Confirms(all, k, id);
    } else if Confirms([r], 0, id) {
      assert Confirms(all, |front|, id);
    } else if ConfirmedAfter(all, i, id) {
      var k :| i < k && Confirms(all, k, id);
      assert Confirms(front, k, id);
    }
  }

  // A later request in a session only ever confirms it.
  lemma LaterStep(sessions: Sessions, r: Request, id: SessionId)
    requires id in sessions && NewId(r) != Some(id) && r != Delete(Some(id))
    ensures var c, after := sessions[id], Step(sessions, r).0;
      id in after && after[id] == c.(initialized := c.initialized || (Confirms([r], 0, id) && c.initializeSeen))
  {
    if Subject(r) != Some(id) {
      StepFrame(sessions, r, id);
    }
  }

  // The session map in closed form: a session is open exactly when some request made it
  // since it was last deleted, and its flags are the story of the requests since.
  lemma {:induction false} SessionsClosedForm(requests: seq<Request>, id: SessionId, i: int)
    ensures Made(requests, i, id) ==> id in Run(requests) && Run(requests)[id] == Story(requests, i, id)
    ensures id in Run(requests) ==> exists j :: Made(requests, j, id)
    decreases |requests|
  {
    if requests != [] {
      var front, r := requests[..|requests| - 1], requests[|requests| - 1];
      assert requests == front + [r];
      SessionsClosedForm(front, id, i);
      if NewId(r) == Some(id) {
        NewSession(front, r, id);
      } else {
        OldSession(front, r, id, i);
      }
    }
  }

  lemma NewSession(front: seq<Request>, r: Request, id: SessionId)
    requires NewId(r) == Some(id)
    ensures var all := front + [r];
      && Made(all, |front|, id) && (forall i :: Made(all, i, id) ==> i == |front|)
      && id in Step(Run(front), r).0 && Step(Run(front), r).0[id] == Story(all, |front|, id)
  {
    var all := front + [r];
    assert all[|front|] == r;
    assert !ConfirmedAfter(all, |front|, id);
  }

  lemma OldSession(front: seq<Request>, r: Request, id: SessionId, i: int)
    requires NewId(r) != Some(id)
    requires Made(front, i, id) ==> id in Run(front) && Run(front)[id] == Story(front, i, id)
    requires id in Run(front) ==> exists j :: Made(front, j, id)
    ensures var all, after := front + [r], Step(Run(front), r).0;
      && (Made(all, i, id) ==> id in after && after[id] == Story(all, i, id))
      && (id in after ==> exists j :: Made(all, j, id))
  {
    hide Made;
    var all, after := front + [r], Step(Run(front), r).0;
    if Made(all, i, id) {
      MadeSnoc(front, r, i, id);
      LaterStep(Run(front), r, id);
      ConfirmedSnoc(front, r, i, id);
    }
    if id in after {
      StaysIn(Run(front), r, id);
      var j :| Made(front, j, id);
      MadeStays(front, r, j, id);
    }
  }

  lemma StaysIn(sessions: Sessions, r: Request, id: SessionId)
    requires NewId(r) != Some(id) && id in Step(sessions, r).0
    ensures id in sessions && r != Delete(Some(id))
  {
  }

  // In every session, at every point of every run: initialized only after initialize was
  // seen, and each exactly after the requests that say so.
  lemma SessionInv(requests: seq<Request>, id: SessionId)
    requires id in Run(requests)
    ensures var c := Run(requests)[id];
      && (c.initialized ==> c.initializeSeen)
      && (c.initializeSeen <==> exists i :: Opened(requests, i, id))
      && (c.initialized <==> exists i :: Opened(requests, i, id) && ConfirmedAfter(requests, i, id))
  {
    hide Run, ConfirmedAfter, IsValidInitialize;
    SessionsClosedForm(requests, id, 0);
    var j :| Made(requests, j, id);
    SessionsClosedForm(requests, id, j);
    assert Opened(requests, j, id) <==> Run(requests)[id].initializeSeen;
    forall i | Made(requests, i, id)
      ensures i == j
    {
      MadeOnce(requests, i, j, id);
    }
  }

  lemma MadeOnce(requests: seq<Request>, i: int, j: int, id: SessionId)
    requires Made(requests, i, id) && Made(requests, j, id)
    ensures i == j
  {
  }

  // A request for a served method gets its result exactly in a session that a valid
  // `initialize` opened and a later `notifications/initialized` confirmed.
  lemma ServedIff(requests: seq<Request>, n: nat, id: SessionId)
    requires n < |requests| && requests[n].Post? && requests[n].session == Some(id)
    requires requests[n].message.Some? && IsServable(requests[n].message.value)
    ensures ResponseAt(requests, n) == Planned(Result(requests[n].message.value.verb.value), Some(id)) <==>
      exists i :: Opened(requests[..n], i, id) && ConfirmedAfter(requests[..n], i, id)
  {
    hide Run, ConfirmedAfter, Opened, Made;
    var front := requests[..n];
    if id in Run(front) {
      SessionInv(front, id);
    } else {
      forall i | Opened(front, i, id)
        ensures false
      {
        OpenedIsMade(front, i, id);
        SessionsClosedForm(front, id, i);
      }
    }
  }

  lemma OpenedIsMade(requests: seq<Request>, i: int, id: SessionId)
    requires Opened(requests, i, id)
    ensures Made(requests, i, id)
  {
  }

  // A well-formed request of a served method whose handler finds nothing wrong with it.
  predicate IsServable(m: Message) {
    && m.jsonRpc2 && m.hasId && m.paramsAreObject && m.verb.Some? && m.verb.value in SERVED
    && (m.verb.value in ALWAYS || m.handlerSucceeds)
  }

  // No other request gets a result, except a valid `initialize`, in its own new session.
  lemma ResultsIff(requests: seq<Request>, n: nat)
    requires n < |requests| && ResponseAt(requests, n).Planned? && ResponseAt(requests, n).plan.Result?
    ensures var r, m := requests[n], ResponseAt(requests, n);
      && r.Post? && r.message.Some? && r.message.value.verb == Some(m.plan.verb) && Subject(r) == m.session
      && if m.plan.verb == "initialize" then IsValidInitialize(r.message.value) && m.session == NewId(r) == Some(r.freshId)
         else IsServable(r.message.value) && m.session == r.session && r.session.Some?
  {
    hide Run;
  }

  // A result of a method other than `initialize` is returned only after the handshake.
  lemma ServedOnlyAfterHandshake(requests: seq<Request>, n: nat)
    requires n < |requests|
    requires var r := ResponseAt(requests, n); r.Planned? && r.plan.Result? && r.plan.verb != "initialize"
    ensures var id := ResponseAt(requests, n).session;
      && id.Some? && Subject(requests[n]) == id
      && exists i, k :: i < k < n && Opened(requests[..n], i, id.value) && Confirms(requests[..n], k, id.value)
  {
    hide ResponseAt, IsServable, Opened, IsInitializedNotification;
    ResultsIff(requests, n);
    var id := requests[n].session.value;
    ServedIff(requests, n, id);
    var i :| Opened(requests[..n], i, id) && ConfirmedAfter(requests[..n], i, id);
    var k :| i < k && Confirms(requests[..n], k, id);
  }

  // A session whose creating `initialize` was rejected never serves anything, unless its
  // id is given to another session.
  lemma RejectedNeverServes(requests: seq<Request>, j: nat, n: nat, id: SessionId)
    requires j < n < |requests|
    requires NewId(requests[j]) == Some(id) && !IsValidInitialize(requests[j].message.value)
    requires forall k :: j < k <= n ==> NewId(requests[k]) != Some(id)
    ensures var r := ResponseAt(requests, n);
      r.Planned? && r.session == Some(id) ==> !r.plan.Result?
  {
    hide ResponseAt, IsServable, IsValidInitialize;
    var r := ResponseAt(requests, n);
    if r.Planned? && r.session == Some(id) && r.plan.Result? {
      ResultsIff(requests, n);
      ServedOnlyAfterHandshake(requests, n);
      var i, k :| i < k < n && Opened(requests[..n], i, id) && Confirms(requests[..n], k, id);
      NotMadeBefore(requests, i, j, n, id);
      assert false;
    }
  }

  lemma NotMadeBefore(requests: seq<Request>, i: int, j: nat, n: nat, id: SessionId)
    requires j < n <= |requests| && NewId(requests[j]) == Some(id) && Made(requests[..n], i, id)
    requires forall k :: j < k < n ==> NewId(requests[k]) != Some(id)
    ensures i == j
  {
    assert requests[..n][j] == requests[j] && requests[..n][i] == requests[i];
  }

  // And the handshake is enough: confirmed once, a session stays initialized until it is
  // deleted or made anew.
  lemma ConfirmedStaysInitialized(requests: seq<Request>, i: nat, k: nat, id: SessionId)
    requires i < k && Opened(requests, i, id) && Confirms(requests, k, id)
    ensures id in Run(requests) && Run(requests)[id] == Connection(true, true)
  {
    SessionsClosedForm(requests, id, i);
  }
}
