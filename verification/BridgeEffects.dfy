/** What each call, message and event does, field by field and for every session. */
module BridgeEffects {
  import opened Wrappers
  import opened ReadLoop
  import opened SequenceNumbers
  import opened Routes
  import opened Bridge
  import opened BridgeSafety
  import opened BridgeTheorems
  import opened BridgeTeardown

  // ---------- delivery ----------

  /** From `s` to `t` a session made one attempt, and nothing else happened to it. */
  ghost predicate AttemptedOnce(s: SessionState, t: SessionState, payload: Payload) {
    && |t.sent| == |s.sent| + 1 && s.sent <= t.sent
    && t.sent[|s.sent|] == Sent((s.outbound + 1) % U64, s.compId, payload)
    && t.outbound == (s.outbound + 1) % U64
    && t.state == s.state && t.compId == s.compId && t.inbound == s.inbound && t.born == s.born
  }

  /** Nothing but the sessions and the call log differs. */
  ghost predicate OnlyDelivers(a: System, b: System) {
    && b.sessions.Keys == a.sessions.Keys && b.nextSessionId == a.nextSessionId && b.zombies == a.zombies
    && b.nextCleanup == a.nextCleanup && b.routes == a.routes && b.handled == a.handled && b.logouts == a.logouts
  }

  /** A message for one session reaches that session, once, and no other. */
  lemma DeliverReachesOne(sys: System, id: SessionId, content: seq<Byte>)
    requires id in sys.sessions
    ensures var r := Exec(sys, Deliver(id, content));
      && OnlyDelivers(sys, r) && r.calls == sys.calls + [To(id, content)]
      && AttemptedOnce(sys.sessions[id], r.sessions[id], FromBridge(content))
      && forall x :: x in sys.sessions && x != id ==> r.sessions[x] == sys.sessions[x]
  {
  }

  /** A broadcast reaches every session in the table, once. */
  lemma BroadcastReachesAll(sys: System, content: seq<Byte>)
    ensures var r := Exec(sys, Broadcast(content));
      && OnlyDelivers(sys, r) && r.calls == sys.calls + [All(content)]
      && forall x :: x in sys.sessions ==> AttemptedOnce(sys.sessions[x], r.sessions[x], FromBridge(content))
  {
  }

  // ---------- disconnects and closes ----------

  /** From `a` to `b` one session died if it was live; it lost its routes if it was READY. */
  ghost predicate OnlyDies(a: System, b: System, id: SessionId)
    requires id in a.sessions
  {
    var dies := !a.sessions[id].state.Zombie?;
    && b.sessions.Keys == a.sessions.Keys
    && (forall x :: x in a.sessions && x != id ==> b.sessions[x] == a.sessions[x])
    && b.sessions[id] == a.sessions[id].(state := Zombie)
    && b.zombies == (if dies then a.zombies + {id} else a.zombies)
    && b.logouts == (if dies then a.logouts + [id] else a.logouts)
    && (a.sessions[id].state.Ready? ==>
          forall k :: OwnerIn(b.routes, k) == if Owns(a, id, k) then None else OwnerIn(a.routes, k))
    && (!a.sessions[id].state.Ready? ==> b.routes == a.routes)
    && b.nextSessionId == a.nextSessionId && b.nextCleanup == a.nextCleanup
    && b.calls == a.calls && b.handled == a.handled
  }

  /** A disconnect kills the session, and nothing else; then the bridge is told, and whatever it does
      in reaction is done. */
  lemma DisconnectedKillsThenReacts(sys: System, id: SessionId, reaction: seq<Command>)
    requires id in sys.sessions && Inverse(sys.routes)
    ensures Exec(sys, Disconnected(id, reaction)) == ExecAll(Exec(sys, Disconnected(id, [])), reaction)
    ensures OnlyDies(sys, Exec(sys, Disconnected(id, [])), id)
  {
    assert Exec(sys, Disconnected(id, [])) == MakeZombie(sys, id);
    if sys.sessions[id].state.Ready? {
      ReadyTeardown(sys, id);
    }
  }

  /** A close of a live session does whatever happens inside the connection's close, and leaves what a
      disconnect leaves after that; a close of a zombie does nothing. */
  lemma CloseThenKills(sys: System, id: SessionId, onClose: seq<Command>)
    requires id in sys.sessions
    ensures Exec(sys, Disconnect(id, onClose)) ==
            if IsZombie(sys, id) then sys else Exec(ExecAll(sys, onClose), Disconnected(id, []))
  {
    if !IsZombie(sys, id) {
      var b := ExecAll(sys, onClose);
      assert Exec(b, Disconnected(id, [])) == MakeZombie(b, id);
    }
  }

  // ---------- messages ----------

  /** From `a` to `b` the session has logged the message and checked its header. */
  ghost predicate OnlyChecks(a: System, b: System, id: SessionId, m: Message)
    requires id in a.sessions
  {
    var s := a.sessions[id];
    && b.sessions.Keys == a.sessions.Keys
    && (forall x :: x in a.sessions && x != id ==> b.sessions[x] == a.sessions[x])
    && b.sessions[id] == s.(inbound := m.number, compId := b.sessions[id].compId)
    && (s.compId != "" ==> b.sessions[id].compId == s.compId)
    && (s.compId == "" ==> b.sessions[id].compId == m.sender)
    && b == a.(sessions := b.sessions, handled := b.handled)
    && |b.handled| == |a.handled| + 1 && a.handled <= b.handled && b.handled[|a.handled|] == Handled(id, m)
  }

  /** From `a` to `b` the session answered once, and at most the strategy it asked about moved. */
  ghost predicate OnlyAnswers(a: System, b: System, id: SessionId, kind: RequestType, strategy: StrategyId)
    requires id in a.sessions && id in b.sessions
  {
    var free, own := OwnerIn(a.routes, strategy).None?, Owns(a, id, strategy);
    var status := if IsLogOn(kind) && free then LoggedIn else if kind.LogOffUser? && own then NotLoggedIn else Other;
    && b.sessions.Keys == a.sessions.Keys
    && (forall x :: x in a.sessions && x != id ==> b.sessions[x] == a.sessions[x])
    && AttemptedOnce(a.sessions[id], b.sessions[id], UserResponse(strategy, status))
    && (forall k :: k != strategy ==> OwnerIn(b.routes, k) == OwnerIn(a.routes, k))
    && OwnerIn(b.routes, strategy) == (match status
       case LoggedIn => Some(id)
       case NotLoggedIn => None
       case Other => OwnerIn(a.routes, strategy))
    && b == a.(sessions := b.sessions, routes := b.routes, calls := b.calls)
  }

  lemma HeaderIsChecked(sys: System, id: SessionId, m: Message)
    requires id in sys.sessions
    ensures OnlyChecks(sys, CheckHeader(LogReceived(sys, id, m), id, m), id, m)
  {
  }

  lemma RequestIsAnswered(sys: System, id: SessionId, kind: RequestType, strategy: StrategyId)
    requires id in sys.sessions
    ensures OnlyAnswers(sys, HandleUserRequest(sys, id, kind, strategy), id, kind, strategy)
  {
  }

  /** What a message comes to, once its header is checked. The bridge is told of every message whose
      type it knows, and all that it does in reaction is done. If it throws, the session is closed, and
      the caller learns of it. If not, a user request is carried out, and any other message is done. A
      message of unknown type is answered, and the bridge does not hear of it. */
  lemma MessageReachesBridge(env: Environment, sys: System, id: SessionId, m: Message)
    requires id in sys.sessions
    ensures var checked := CheckHeader(LogReceived(sys, id, m), id, m);
      var (r, thrown) := HandleMessage(env, sys, id, m);
      var reaction := env.react(sys.handled + [Handled(id, m)]);
      var reacted := ExecAll(checked, reaction.commands);
      && OnlyChecks(sys, checked, id, m)
      && (thrown <==> !m.body.Unsupported? && reaction.throws)
      && (thrown ==> IsZombie(r, id) && r == Exec(reacted, Disconnect(id, reaction.onClose)))
      && (!thrown && m.body.Supported? ==> r == reacted)
      && (!thrown && m.body.UserRequest? ==> OnlyAnswers(reacted, r, id, m.body.kind, m.body.strategy))
      && (m.body.Unsupported? ==>
            && OnlyDelivers(checked, r)
            && AttemptedOnce(checked.sessions[id], r.sessions[id], UnsupportedMessage(m.number))
            && forall x :: x in sys.sessions && x != id ==> r.sessions[x] == checked.sessions[x])
  {
    var checked := CheckHeader(LogReceived(sys, id, m), id, m);
    HeaderIsChecked(sys, id, m);
    if m.body.UserRequest? {
      RequestIsAnswered(Reacted(env, sys, id, m), id, m.body.kind, m.body.strategy);
    }
    assert checked.handled == sys.handled + [Handled(id, m)];
  }

  // ---------- events ----------

  /** A connection is entered under the next id, as a fresh session, and nothing else changes; then the
      bridge is told, and whatever it does in reaction is done. */
  lemma AcceptEntersThenReacts(env: Environment, w: World, reaction: seq<Command>)
    requires Sound(env.framer) && WorldInv(w)
    ensures Step(env, w, Accept(reaction)) == Step(env, Step(env, w, Accept([])), Emit(reaction))
    ensures var r, id := Step(env, w, Accept([])), w.sys.nextSessionId + 1;
      && id !in w.sys.sessions
      && r.buffers == w.buffers[id := []]
      && r.sys == w.sys.(nextSessionId := id, sessions := r.sys.sessions)
      && r.sys.sessions == w.sys.sessions[id := SessionState(WaitingLogon, "", 0, 0, [], |w.sys.calls|)]
  {
    AcceptKeepsInv(w.sys);
    assert ExecAll(Accepted(w.sys), []) == Accepted(w.sys);
  }

  /** What the environment does by itself is done, call by call and in order; no buffer changes. */
  lemma EmitIsInOrder(env: Environment, w: World, c: Command, rest: seq<Command>)
    requires Sound(env.framer)
    ensures Step(env, w, Emit([])) == w
    ensures Step(env, w, Emit([c] + rest)) == Step(env, World(Exec(w.sys, c), w.buffers), Emit(rest))
  {
    assert ([c] + rest)[0] == c && ([c] + rest)[1..] == rest;
  }
}
