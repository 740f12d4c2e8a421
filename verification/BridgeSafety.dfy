/** What every step of the bridge keeps, and what follows for whole runs. */
module BridgeSafety {
  import opened Wrappers
  import opened ReadLoop
  import opened SequenceNumbers
  import opened Routes
  import opened Bridge

  // ---------- the invariant ----------

  /** A session that was accepted and is not live any more. */
  ghost predicate Dead(sys: System, id: SessionId) {
    1 <= id <= sys.nextSessionId && (id in sys.sessions ==> IsZombie(sys, id))
  }

  /** The zombie set is exactly the zombies in the table, ids are never ahead of the counter, and
      the manager has heard exactly once of every session that left its live states. */
  ghost predicate TableInv(sys: System) {
    && (forall id :: id in sys.sessions ==> 1 <= id <= sys.nextSessionId)
    && (forall id :: id in sys.zombies <==> IsZombie(sys, id))
    && (forall id :: id in sys.logouts <==> Dead(sys, id))
    && (forall i, j :: 0 <= i < j < |sys.logouts| ==> sys.logouts[i] != sys.logouts[j])
  }

  /** The attempts of a session are numbered 1, 2, 3, ... and name one counterparty. */
  ghost predicate Numbered(s: SessionState) {
    && s.outbound == |s.sent| % U64
    && (forall i :: 0 <= i < |s.sent| ==> s.sent[i].number == (i + 1) % U64)
    && (forall i :: 0 <= i < |s.sent| ==> s.sent[i].target == "" || s.sent[i].target == s.compId)
  }

  function Payloads(sent: seq<Sent>): seq<Payload> {
    seq(|sent|, i requires 0 <= i < |sent| => sent[i].payload)
  }

  /** What a call asks session `id` to send. */
  function Asks(c: Call, id: SessionId): seq<Payload> {
    match c
    case To(session, content) => if session == id then [FromBridge(content)] else []
    case All(content) => [FromBridge(content)]
    case Own(session, payload) => if session == id then [payload] else []
  }

  function Addressed(calls: seq<Call>, id: SessionId): seq<Payload> {
    if calls == [] then [] else Addressed(calls[..|calls| - 1], id) + Asks(calls[|calls| - 1], id)
  }

  /** The session attempted to send exactly what it was asked to since it was created, in order. */
  ghost predicate Projected(sys: System, id: SessionId)
    requires id in sys.sessions
  {
    var s := sys.sessions[id];
    s.born <= |sys.calls| && Payloads(s.sent) == Addressed(sys.calls[s.born..], id)
  }

  ghost predicate SendsAsAsked(sys: System, id: SessionId)
    requires id in sys.sessions
  {
    Numbered(sys.sessions[id]) && Projected(sys, id)
  }

  ghost predicate SendInv(sys: System) {
    forall id {:trigger SendsAsAsked(sys, id)} :: id in sys.sessions ==> SendsAsAsked(sys, id)
  }

  /** The numbers of the messages that session `id` has handled, in order. */
  function NumbersOf(handled: seq<Handled>, id: SessionId): seq<Seq64> {
    if handled == [] then []
    else
      var last := handled[|handled| - 1];
      NumbersOf(handled[..|handled| - 1], id) + if last.session == id then [last.message.number] else []
  }

  /** The inbound counter is that of the numbers handled, and nobody handled a message before it
      was accepted. */
  ghost predicate InboundInv(sys: System) {
    && (forall id {:trigger NumbersOf(sys.handled, id)} ::
          id in sys.sessions ==> sys.sessions[id].inbound == Inbound(NumbersOf(sys.handled, id)))
    && (forall id {:trigger NumbersOf(sys.handled, id)} ::
          id > sys.nextSessionId ==> NumbersOf(sys.handled, id) == [])
  }

  ghost predicate Inv(sys: System) {
    TableInv(sys) && SendInv(sys) && InboundInv(sys) && Inverse(sys.routes)
  }

  /** No session is READY; nothing in the code ever makes one so. */
  ghost predicate NoneReady(sys: System) {
    forall id :: id in sys.sessions ==> !sys.sessions[id].state.Ready?
  }

  /** The strategy table that a listener to the sessions' own UserResponses would build: a route
      is added on LOGGED_IN, removed on NOT_LOGGED_IN, and any other status is ignored. */
  function ReplayResponses(calls: seq<Call>): map<StrategyId, SessionId> {
    if calls == [] then map[]
    else
      var before := ReplayResponses(calls[..|calls| - 1]);
      match calls[|calls| - 1]
      case Own(session, UserResponse(strategy, LoggedIn)) => before[strategy := session]
      case Own(_, UserResponse(strategy, NotLoggedIn)) => before - {strategy}
      case _ => before
  }

  ghost predicate Reconstructed(sys: System) {
    sys.routes.owner == ReplayResponses(sys.calls)
  }

  // ---------- what holds between two states of one event ----------

  ghost predicate LaterSession(s: SessionState, t: SessionState) {
    && (s.state.Zombie? ==> t.state.Zombie?)
    && (t.state.Ready? ==> s.state.Ready?)
    && s.sent <= t.sent
  }

  /** `b` comes after `a`, and only the sessions in `movers` may have handled messages, and so may
      have given up routes. */
  ghost predicate Later(a: System, b: System, movers: set<SessionId>) {
    && b.sessions.Keys == a.sessions.Keys
    && b.nextSessionId == a.nextSessionId && b.nextCleanup == a.nextCleanup
    && a.logouts <= b.logouts && a.calls <= b.calls && a.handled <= b.handled
    && (forall id :: id in a.sessions ==> LaterSession(a.sessions[id], b.sessions[id]))
    && (movers == {} ==> b.handled == a.handled)
    && (Inv(a) ==> Inv(b))
    && (NoneReady(a) ==> KeepsRoutes(a, b, movers))
    && (NoneReady(a) && Reconstructed(a) ==> Reconstructed(b))
  }

  ghost predicate KeepsRoutes(a: System, b: System, movers: set<SessionId>) {
    forall k, s :: OwnerIn(a.routes, k) == Some(s) && s !in movers ==> OwnerIn(b.routes, k) == Some(s)
  }

  lemma LaterTransitive(a: System, b: System, c: System, movers: set<SessionId>)
    requires Later(a, b, movers) && Later(b, c, movers)
    ensures Later(a, c, movers)
  {
  }

  lemma LaterWidens(a: System, b: System, id: SessionId)
    requires Later(a, b, {})
    ensures Later(a, b, {id})
  {
  }

  lemma LaterFollows(a: System, b: System, c: System, id: SessionId)
    requires Later(a, b, {id}) && Later(b, c, {})
    ensures Later(a, c, {id})
  {
  }

  lemma AddressedStep(calls: seq<Call>, c: Call, born: nat, id: SessionId)
    requires born <= |calls|
    ensures Addressed((calls + [c])[born..], id) == Addressed(calls[born..], id) + Asks(c, id)
  {
    assert (calls + [c])[born..] == calls[born..] + [c];
  }

  lemma AttemptKeepsNumbered(s: SessionState, payload: Payload)
    requires Numbered(s)
    ensures Numbered(Attempt(s, payload))
    ensures Payloads(Attempt(s, payload).sent) == Payloads(s.sent) + [payload]
  {
  }

  lemma CallsPrefix(calls: seq<Call>, c: Call)
    ensures (calls + [c])[..|calls|] == calls
  {
  }

  /** Each session sends the one payload, or is not asked to. */
  ghost predicate Sends(a: System, b: System, c: Call, payload: Payload) {
    && b.sessions.Keys == a.sessions.Keys
    && b.calls == a.calls + [c]
    && forall id :: id in a.sessions ==>
      || (Asks(c, id) == [] && b.sessions[id] == a.sessions[id])
      || (Asks(c, id) == [payload] && b.sessions[id] == Attempt(a.sessions[id], payload))
  }

  lemma SendingKeepsSendInv(a: System, b: System, c: Call, payload: Payload)
    requires Sends(a, b, c, payload) && SendInv(a)
    ensures SendInv(b)
  {
    forall id | id in b.sessions ensures SendsAsAsked(b, id) {
      assert SendsAsAsked(a, id);
      AddressedStep(a.calls, c, a.sessions[id].born, id);
      AttemptKeepsNumbered(a.sessions[id], payload);
    }
  }

  /** The table invariant does not depend on what the sessions send. */
  lemma SameStatesKeepTableInv(a: System, b: System)
    requires b.sessions.Keys == a.sessions.Keys
    requires forall id :: id in a.sessions ==> b.sessions[id].state == a.sessions[id].state
    requires b.nextSessionId == a.nextSessionId && b.zombies == a.zombies && b.logouts == a.logouts
    requires TableInv(a)
    ensures TableInv(b)
  {
  }

  lemma SameInboundKeepsInv(a: System, b: System)
    requires b.sessions.Keys == a.sessions.Keys
    requires forall id :: id in a.sessions ==> b.sessions[id].inbound == a.sessions[id].inbound
    requires b.nextSessionId == a.nextSessionId && b.handled == a.handled
    requires InboundInv(a)
    ensures InboundInv(b)
  {
  }

  /** Sending is a `Later` step, unless it answers a user request. */
  lemma SendingIsLater(a: System, b: System, c: Call, payload: Payload)
    requires Sends(a, b, c, payload)
    requires b == a.(sessions := b.sessions, calls := b.calls)
    requires c.Own? ==> !c.payload.UserResponse? || c.payload.status.Other?
    ensures Later(a, b, {})
  {
    assert ReplayResponses(b.calls) == ReplayResponses(a.calls) by { CallsPrefix(a.calls, c); }
    forall id | id in a.sessions
      ensures LaterSession(a.sessions[id], b.sessions[id]) && b.sessions[id].state == a.sessions[id].state
    {
    }
    if Inv(a) {
      SendingKeepsSendInv(a, b, c, payload);
      SameStatesKeepTableInv(a, b);
      SameInboundKeepsInv(a, b);
    }
  }

  lemma MakeZombieKeepsTableInv(a: System, id: SessionId)
    requires id in a.sessions && TableInv(a)
    ensures TableInv(MakeZombie(a, id))
  {
    var b := MakeZombie(a, id);
    if !a.sessions[id].state.Zombie? {
      assert !Dead(a, id);
      forall x ensures Dead(b, x) <==> Dead(a, x) || x == id {}
      forall x ensures IsZombie(b, x) <==> IsZombie(a, x) || x == id {}
    }
  }

  lemma MakeZombieKeepsSendInv(a: System, id: SessionId)
    requires id in a.sessions && SendInv(a)
    ensures SendInv(MakeZombie(a, id))
  {
    var b := MakeZombie(a, id);
    forall x | x in b.sessions ensures SendsAsAsked(b, x) {
      assert SendsAsAsked(a, x);
    }
  }

  lemma MakeZombieIsLater(a: System, id: SessionId)
    requires id in a.sessions
    ensures Later(a, MakeZombie(a, id), {})
  {
    if Inv(a) {
      MakeZombieKeepsTableInv(a, id);
      MakeZombieKeepsSendInv(a, id);
      SameInboundKeepsInv(a, MakeZombie(a, id));
      ApplyRefinesCells(a.routes, RemoveAll(id));
    }
  }

  lemma {:induction false} CloseIsLater(a: System, id: SessionId, onClose: seq<Command>)
    requires id in a.sessions
    ensures Later(a, Close(a, id, onClose), {})
    decreases onClose, 1
  {
    if !IsZombie(a, id) {
      var b := ExecAll(a, onClose);
      ExecAllIsLater(a, onClose);
      MakeZombieIsLater(b, id);
      LaterTransitive(a, b, MakeZombie(b, id), {});
    }
  }

  /** Whatever the environment does, however deeply nested, is a `Later` step. */
  lemma {:induction false} ExecIsLater(a: System, c: Command)
    ensures Later(a, Exec(a, c), {})
    decreases c
  {
    match c {
      case Deliver(id, content) =>
        SendingIsLater(a, Exec(a, c), To(id, content), FromBridge(content));
      case Broadcast(content) =>
        SendingIsLater(a, Exec(a, c), All(content), FromBridge(content));
      case Disconnect(id, onClose) =>
        if id in a.sessions {
          CloseIsLater(a, id, onClose);
        }
      case Disconnected(id, reaction) =>
        if id in a.sessions {
          var b := MakeZombie(a, id);
          MakeZombieIsLater(a, id);
          ExecAllIsLater(b, reaction);
          LaterTransitive(a, b, ExecAll(b, reaction), {});
        }
    }
  }

  lemma {:induction false} ExecAllIsLater(a: System, cs: seq<Command>)
    ensures Later(a, ExecAll(a, cs), {})
    decreases cs, 0
  {
    if cs != [] {
      var b := Exec(a, cs[0]);
      ExecIsLater(a, cs[0]);
      ExecAllIsLater(b, cs[1..]);
      LaterTransitive(a, b, ExecAll(b, cs[1..]), {});
    }
  }

  lemma CheckHeaderKeepsInv(a: System, id: SessionId, m: Message)
    requires id in a.sessions && Inv(a)
    ensures Inv(CheckHeader(LogReceived(a, id, m), id, m))
  {
    var b := CheckHeader(LogReceived(a, id, m), id, m);
    SameStatesKeepTableInv(a, b);
    forall x | x in b.sessions ensures SendsAsAsked(b, x) {
      assert SendsAsAsked(a, x);
    }
    CheckHeaderKeepsInbound(a, id, m);
  }

  lemma CheckHeaderKeepsInbound(a: System, id: SessionId, m: Message)
    requires id in a.sessions && InboundInv(a) && id <= a.nextSessionId
    ensures InboundInv(CheckHeader(LogReceived(a, id, m), id, m))
  {
    var b := CheckHeader(LogReceived(a, id, m), id, m);
    assert b.handled[..|a.handled|] == a.handled;
    forall x ensures NumbersOf(b.handled, x) == NumbersOf(a.handled, x) + if x == id then [m.number] else [] {}
  }

  lemma CheckHeaderIsLater(a: System, id: SessionId, m: Message)
    requires id in a.sessions
    ensures Later(a, CheckHeader(LogReceived(a, id, m), id, m), {id})
  {
    if Inv(a) {
      CheckHeaderKeepsInv(a, id, m);
    }
  }

  lemma SendOwnSends(a: System, id: SessionId, payload: Payload)
    requires id in a.sessions
    ensures Sends(a, SendOwn(a, id, payload), Own(id, payload), payload)
  {
  }

  /** From `a` to `b`, session `id` changes at most the route of `strategy` and answers with
      `status`: logged in iff it gained the route, not logged in iff it gave it up. */
  ghost predicate Answers(a: System, b: System, id: SessionId, strategy: StrategyId, status: UserStatus) {
    && Sends(a, b, Own(id, UserResponse(strategy, status)), UserResponse(strategy, status))
    && b == a.(sessions := b.sessions, calls := b.calls, routes := b.routes)
    && match status
       case LoggedIn => AddRoute(a.routes, id, strategy) == (b.routes, true)
       case NotLoggedIn => RemoveRoute(a.routes, id, strategy) == (b.routes, true)
       case Other => b.routes == a.routes
  }

  /** A user request appends one response of the session to the call log, whose status tells what
      happened to the route. */
  lemma UserRequestRoutes(a: System, id: SessionId, kind: RequestType, strategy: StrategyId)
    requires id in a.sessions
    ensures var b := HandleUserRequest(a, id, kind, strategy);
      exists status :: Answers(a, b, id, strategy, status)
  {
    var b := HandleUserRequest(a, id, kind, strategy);
    var status := b.calls[|a.calls|].payload.status;
    SendOwnSends(a.(routes := b.routes), id, UserResponse(strategy, status));
    assert Answers(a, b, id, strategy, status);
  }

  lemma RoutingIsLater(a: System, b: System, id: SessionId, strategy: StrategyId, status: UserStatus)
    requires Answers(a, b, id, strategy, status)
    ensures Later(a, b, {id})
  {
    forall x | x in a.sessions
      ensures LaterSession(a.sessions[x], b.sessions[x]) && b.sessions[x].state == a.sessions[x].state
    {
    }
    assert Reconstructed(a) ==> Reconstructed(b) by {
      CallsPrefix(a.calls, Own(id, UserResponse(strategy, status)));
    }
    if Inv(a) {
      SendingKeepsSendInv(a, b, Own(id, UserResponse(strategy, status)), UserResponse(strategy, status));
      SameStatesKeepTableInv(a, b);
      SameInboundKeepsInv(a, b);
      ApplyRefinesCells(a.routes, Add(id, strategy));
      ApplyRefinesCells(a.routes, Remove(id, strategy));
    }
  }

  /** Only the session that makes the request can gain or lose a route by it. */
  lemma UserRequestIsLater(a: System, id: SessionId, kind: RequestType, strategy: StrategyId)
    requires id in a.sessions
    ensures Later(a, HandleUserRequest(a, id, kind, strategy), {id})
  {
    UserRequestRoutes(a, id, kind, strategy);
    var b := HandleUserRequest(a, id, kind, strategy);
    var status :| Answers(a, b, id, strategy, status);
    RoutingIsLater(a, b, id, strategy, status);
  }

  lemma ParseIsLater(env: Environment, a: System, id: SessionId, m: Message)
    requires id in a.sessions
    ensures Later(a, Parse(env, a, id, m).0, {id})
  {
    if m.body.Unsupported? {
      var payload := UnsupportedMessage(m.number);
      SendOwnSends(a, id, payload);
      SendingIsLater(a, SendOwn(a, id, payload), Own(id, payload), payload);
      LaterWidens(a, SendOwn(a, id, payload), id);
    } else {
      var reaction := env.react(a.handled);
      var b := ExecAll(a, reaction.commands);
      ExecAllIsLater(a, reaction.commands);
      LaterWidens(a, b, id);
      if reaction.throws {
        CloseIsLater(b, id, reaction.onClose);
        LaterFollows(a, b, Close(b, id, reaction.onClose), id);
      } else if m.body.UserRequest? {
        UserRequestIsLater(b, id, m.body.kind, m.body.strategy);
        LaterTransitive(a, b, HandleUserRequest(b, id, m.body.kind, m.body.strategy), {id});
      }
    }
  }

  lemma HandleMessageIsLater(env: Environment, a: System, id: SessionId, m: Message)
    requires id in a.sessions
    ensures Later(a, HandleMessage(env, a, id, m).0, {id})
  {
    var b := CheckHeader(LogReceived(a, id, m), id, m);
    CheckHeaderIsLater(a, id, m);
    ParseIsLater(env, b, id, m);
    LaterTransitive(a, b, Parse(env, b, id, m).0, {id});
  }

  /** An exception, or an error in the framing, always ends with the session closed. */
  lemma LoopCloses(env: Environment, id: SessionId)
    ensures Closes(LoopOf(env, id))
  {
    var h := LoopOf(env, id);
    forall sys: System ensures h.dead(h.fail(sys)) {
      if id in sys.sessions {
        assert h.fail(sys) == Close(sys, id, env.onFramingError(id, sys.handled));
      }
    }
  }

  lemma {:induction false} ConsumeIsLater(env: Environment, a: System, id: SessionId, buffer: seq<Byte>)
    requires Sound(env.framer) && id in a.sessions
    ensures Later(a, Consume(LoopOf(env, id), a, buffer).world, {id})
    decreases |buffer|
  {
    var h := LoopOf(env, id);
    if buffer != [] {
      match env.framer(buffer) {
        case Incomplete =>
        case Invalid =>
          CloseIsLater(a, id, env.onFramingError(id, a.handled));
          LaterWidens(a, Close(a, id, env.onFramingError(id, a.handled)), id);
        case Complete(size, m) =>
          var (b, thrown) := HandleMessage(env, a, id, m);
          assert h.step(a, m) == (b, thrown);
          HandleMessageIsLater(env, a, id, m);
          if !thrown && !h.dead(b) {
            var tail := buffer[size..];
            ConsumeIsLater(env, b, id, tail);
            LaterTransitive(a, b, Consume(h, b, tail).world, {id});
          }
      }
    }
  }

  // ---------- whole runs ----------

  /** Buffers exist exactly for the sessions in the table. */
  ghost predicate WorldInv(w: World) {
    Inv(w.sys) && w.buffers.Keys == w.sys.sessions.Keys
  }

  /** The routes that dead sessions still hold. */
  ghost predicate KeepsDeadRoutes(a: System, b: System) {
    forall k, s :: OwnerIn(a.routes, k) == Some(s) && Dead(a, s) ==> OwnerIn(b.routes, k) == Some(s)
  }

  /** `b` comes after `a` in a run. */
  ghost predicate After(a: System, b: System) {
    && a.nextSessionId <= b.nextSessionId
    && a.logouts <= b.logouts && a.calls <= b.calls && a.handled <= b.handled
    && (forall id :: Dead(a, id) ==> Dead(b, id))
    && (NoneReady(a) ==> NoneReady(b) && KeepsDeadRoutes(a, b))
    && (NoneReady(a) && Reconstructed(a) ==> Reconstructed(b))
  }

  lemma LaterIsAfter(a: System, b: System, movers: set<SessionId>)
    requires Later(a, b, movers)
    requires forall id :: id in movers ==> !Dead(a, id)
    ensures After(a, b)
  {
  }

  lemma AfterTransitive(a: System, b: System, c: System)
    requires After(a, b) && After(b, c)
    ensures After(a, c)
  {
  }

  lemma AcceptKeepsInv(a: System)
    requires Inv(a)
    ensures var id, b := a.nextSessionId + 1, Accepted(a);
      id !in a.sessions && b.sessions == a.sessions[id := FreshSession(|a.calls|)] && Inv(b) && After(a, b)
  {
    var id, b := a.nextSessionId + 1, Accepted(a);
    forall x ensures IsZombie(b, x) <==> IsZombie(a, x) {}
    forall x ensures Dead(b, x) <==> Dead(a, x) {}
    forall x | x in b.sessions ensures SendsAsAsked(b, x) {
      if x == id {
        assert b.calls[b.sessions[x].born..] == [];
      } else {
        assert SendsAsAsked(a, x);
      }
    }
  }

  lemma CleanupKeepsInv(a: System, next: int)
    requires Inv(a)
    ensures var b := RemoveZombies(a.(nextCleanup := next));
      && Inv(b) && After(a, b)
      && (forall id :: id in b.sessions <==> id in a.sessions && !IsZombie(a, id))
  {
    var b := RemoveZombies(a.(nextCleanup := next));
    forall x ensures Dead(b, x) <==> Dead(a, x) {}
    forall x | x in b.sessions ensures SendsAsAsked(b, x) {
      assert SendsAsAsked(a, x);
    }
  }

  lemma ExecAllIsAfter(a: System, cs: seq<Command>)
    requires Inv(a)
    ensures Inv(ExecAll(a, cs)) && After(a, ExecAll(a, cs))
  {
    ExecAllIsLater(a, cs);
    LaterIsAfter(a, ExecAll(a, cs), {});
  }

  lemma AcceptIsAfter(env: Environment, w: World, reaction: seq<Command>)
    requires Sound(env.framer) && WorldInv(w)
    ensures var r := Step(env, w, Accept(reaction)); WorldInv(r) && After(w.sys, r.sys)
  {
    var b := Accepted(w.sys);
    AcceptKeepsInv(w.sys);
    ExecAllIsAfter(b, reaction);
    AfterTransitive(w.sys, b, ExecAll(b, reaction));
  }

  lemma TickIsAfter(env: Environment, w: World, now: int)
    requires Sound(env.framer) && WorldInv(w)
    ensures var r := Step(env, w, Tick(now)); WorldInv(r) && After(w.sys, r.sys)
  {
    CleanupKeepsInv(w.sys, now + CLEANUP_FREQUENCY);
  }

  lemma ReadIsAfter(env: Environment, w: World, id: SessionId, chunk: seq<Byte>)
    requires Sound(env.framer) && WorldInv(w)
    ensures var r := Step(env, w, Read(id, chunk)); WorldInv(r) && After(w.sys, r.sys)
  {
    if id in w.buffers && !IsZombie(w.sys, id) {
      var h, buffer := LoopOf(env, id), w.buffers[id] + chunk;
      ConsumeIsLater(env, w.sys, id, buffer);
      var b := Consume(h, w.sys, buffer).world;
      LaterIsAfter(w.sys, b, {id});
      assert Step(env, w, Read(id, chunk)).sys == b;
    } else {
      assert Step(env, w, Read(id, chunk)).sys == w.sys;
    }
  }

  lemma StepIsAfter(env: Environment, w: World, e: Event)
    requires Sound(env.framer) && WorldInv(w)
    ensures WorldInv(Step(env, w, e)) && After(w.sys, Step(env, w, e).sys)
  {
    match e {
      case Accept(reaction) =>
        AcceptIsAfter(env, w, reaction);
      case Read(id, chunk) =>
        ReadIsAfter(env, w, id, chunk);
      case Tick(now) =>
        TickIsAfter(env, w, now);
      case Emit(commands) =>
        ExecAllIsAfter(w.sys, commands);
    }
  }

  /** The whole-run invariant, for any environment and any interleaving of events. */
  lemma {:induction false} RunIsAfter(env: Environment, w: World, events: seq<Event>)
    requires Sound(env.framer) && WorldInv(w)
    ensures WorldInv(Run(env, w, events)) && After(w.sys, Run(env, w, events).sys)
    decreases |events|
  {
    if events != [] {
      var next := Step(env, w, events[0]);
      StepIsAfter(env, w, events[0]);
      RunIsAfter(env, next, events[1..]);
      AfterTransitive(w.sys, next.sys, Run(env, next, events[1..]).sys);
    }
  }
}
