/** Which strategies a session still owns once it is dead.

    `make_zombie` removes routes only for a READY session, and a user request is carried out after
    the bridge has reacted to it, even if the reaction has already closed the session. */
module BridgeTeardown {
  import opened Wrappers
  import opened ReadLoop
  import opened Routes
  import opened Bridge
  import opened BridgeSafety
  import opened BridgeTheorems

  predicate Live(sys: System, id: SessionId) {
    id in sys.sessions && !sys.sessions[id].state.Zombie?
  }

  ghost predicate Owns(sys: System, id: SessionId, strategy: StrategyId) {
    OwnerIn(sys.routes, strategy) == Some(id)
  }

  ghost predicate OwnsNothing(sys: System, id: SessionId) {
    forall k :: !Owns(sys, id, k)
  }

  predicate IsReady(sys: System, id: SessionId) {
    id in sys.sessions && sys.sessions[id].state.Ready?
  }

  // ---------- calls of the environment ----------

  /** From `a` to `b` sessions change state only by dying, and exactly the sessions that died in
      the state READY have lost their routes. */
  ghost predicate Torn(a: System, b: System) {
    && b.sessions.Keys == a.sessions.Keys
    && Inverse(b.routes)
    && (forall id :: id in a.sessions ==> b.sessions[id].state in {a.sessions[id].state, Zombie})
    && (forall id, k :: Owns(b, id, k) <==> Owns(a, id, k) && !(IsReady(a, id) && IsZombie(b, id)))
  }

  lemma TornTransitive(a: System, b: System, c: System)
    requires Torn(a, b) && Torn(b, c)
    ensures Torn(a, c)
  {
  }

  lemma MakeZombieIsTorn(a: System, id: SessionId)
    requires id in a.sessions && Inverse(a.routes)
    ensures Torn(a, MakeZombie(a, id))
  {
    ApplyRefinesCells(a.routes, RemoveAll(id));
    if IsReady(a, id) {
      ReadyTeardown(a, id);
    }
  }

  lemma {:induction false} CloseIsTorn(a: System, id: SessionId, onClose: seq<Command>)
    requires id in a.sessions && Inverse(a.routes)
    ensures Torn(a, Close(a, id, onClose))
    decreases onClose, 1
  {
    if !IsZombie(a, id) {
      var b := ExecAll(a, onClose);
      ExecAllIsTorn(a, onClose);
      MakeZombieIsTorn(b, id);
      TornTransitive(a, b, MakeZombie(b, id));
    }
  }

  /** Whatever the environment does, however deeply nested: the routes that are lost are exactly
      those of the sessions that it kills in the state READY, and none is gained. */
  lemma {:induction false} ExecIsTorn(a: System, c: Command)
    requires Inverse(a.routes)
    ensures Torn(a, Exec(a, c))
    decreases c
  {
    match c {
      case Deliver(id, content) =>
      case Broadcast(content) =>
      case Disconnect(id, onClose) =>
        if id in a.sessions {
          CloseIsTorn(a, id, onClose);
        }
      case Disconnected(id, reaction) =>
        if id in a.sessions {
          var b := MakeZombie(a, id);
          MakeZombieIsTorn(a, id);
          ExecAllIsTorn(b, reaction);
          TornTransitive(a, b, ExecAll(b, reaction));
        }
    }
  }

  lemma {:induction false} ExecAllIsTorn(a: System, cs: seq<Command>)
    requires Inverse(a.routes)
    ensures Torn(a, ExecAll(a, cs))
    decreases cs, 0
  {
    if cs != [] {
      var b := Exec(a, cs[0]);
      ExecIsTorn(a, cs[0]);
      ExecAllIsTorn(b, cs[1..]);
      TornTransitive(a, b, ExecAll(b, cs[1..]));
    }
  }

  /** When a call of the environment kills a session, the session owns nothing afterwards iff it was
      READY or owned nothing before. */
  lemma ExecTeardownIff(a: System, c: Command, id: SessionId)
    requires Inverse(a.routes) && Live(a, id) && IsZombie(Exec(a, c), id)
    ensures OwnsNothing(Exec(a, c), id) <==> IsReady(a, id) || OwnsNothing(a, id)
  {
    var b := Exec(a, c);
    ExecIsTorn(a, c);
    if k :| Owns(a, id, k) && !IsReady(a, id) {
      assert Owns(b, id, k);
    }
  }

  // ---------- a whole message ----------

  /** The user request in a message is carried out, unless the bridge throws on the message. */
  predicate CarriedOut(env: Environment, sys: System, id: SessionId, m: Message) {
    m.body.UserRequest? && !env.react(sys.handled + [Handled(id, m)]).throws
  }

  predicate IsLogOn(kind: RequestType) { kind.Undefined? || kind.Unknown? || kind.LogOnUser? }

  /** The request asks for the strategy, or gives it back. */
  predicate AsksFor(body: Body, strategy: StrategyId) {
    body.UserRequest? && IsLogOn(body.kind) && body.strategy == strategy
  }

  predicate GivesBack(body: Body, strategy: StrategyId) {
    body.UserRequest? && body.kind.LogOffUser? && body.strategy == strategy
  }

  /** The system after the bridge has reacted to a message, before a user request is carried out. */
  function Reacted(env: Environment, sys: System, id: SessionId, m: Message): System
    requires id in sys.sessions
  {
    var checked := CheckHeader(LogReceived(sys, id, m), id, m);
    ExecAll(checked, env.react(checked.handled).commands)
  }

  /** Session `s` must own the strategy after session `id` has handled the message, with `died`
      telling whether `s` is a zombie by then. */
  ghost predicate OwnsAfter(
      env: Environment, sys: System, id: SessionId, m: Message, s: SessionId, died: bool, strategy: StrategyId)
    requires id in sys.sessions
  {
    var kept := Owns(sys, s, strategy) && !(IsReady(sys, s) && died);
    if s != id || !CarriedOut(env, sys, id, m) then
      kept
    else if AsksFor(m.body, strategy) then
      kept || OwnerIn(Reacted(env, sys, id, m).routes, strategy).None?
    else
      kept && !GivesBack(m.body, strategy)
  }

  lemma RequestRoutes(a: System, id: SessionId, kind: RequestType, strategy: StrategyId)
    requires id in a.sessions && Inverse(a.routes)
    ensures var b := HandleUserRequest(a, id, kind, strategy);
      && Inverse(b.routes) && b.sessions.Keys == a.sessions.Keys
      && (forall s :: s in a.sessions ==> b.sessions[s].state == a.sessions[s].state)
      && forall s, k :: Owns(b, s, k) <==>
           if s == id && IsLogOn(kind) && k == strategy then Owns(a, s, k) || OwnerIn(a.routes, k).None?
           else Owns(a, s, k) && !(s == id && kind.LogOffUser? && k == strategy)
  {
    ApplyRefinesCells(a.routes, Add(id, strategy));
    ApplyRefinesCells(a.routes, Remove(id, strategy));
  }

  /** The exact routes after a whole message, for every session and strategy: the sessions that died
      in the state READY have lost theirs, and a carried out request of `id` adds or removes its own
      strategy, whether or not `id` is still live by then. */
  lemma MessageRoutes(env: Environment, sys: System, id: SessionId, m: Message)
    requires id in sys.sessions && Inverse(sys.routes)
    ensures var r := HandleMessage(env, sys, id, m).0;
      && Inverse(r.routes)
      && forall s, k :: Owns(r, s, k) <==> OwnsAfter(env, sys, id, m, s, IsZombie(r, s), k)
  {
    var a := CheckHeader(LogReceived(sys, id, m), id, m);
    assert forall s, k :: Owns(a, s, k) <==> Owns(sys, s, k);
    assert forall s :: IsReady(a, s) <==> IsReady(sys, s);
    assert forall s :: IsZombie(a, s) <==> IsZombie(sys, s);
    if !m.body.Unsupported? {
      var reaction := env.react(a.handled);
      var b := ExecAll(a, reaction.commands);
      ExecAllIsTorn(a, reaction.commands);
      if reaction.throws {
        CloseIsTorn(b, id, reaction.onClose);
        TornTransitive(a, b, Close(b, id, reaction.onClose));
      } else if m.body.UserRequest? {
        RequestRoutes(b, id, m.body.kind, m.body.strategy);
      }
    }
  }

  /** The exact condition under which a session that dies while it handles a message owns nothing
      after it: it was READY or owned at most the strategy that the carried out request gives back,
      and no carried out request asks for a strategy that is free once the bridge has reacted. */
  lemma MessageTeardownIff(env: Environment, sys: System, id: SessionId, m: Message)
    requires Inverse(sys.routes) && Live(sys, id) && IsZombie(HandleMessage(env, sys, id, m).0, id)
    ensures OwnsNothing(HandleMessage(env, sys, id, m).0, id) <==>
      && (|| IsReady(sys, id)
          || forall k :: Owns(sys, id, k) ==> CarriedOut(env, sys, id, m) && GivesBack(m.body, k))
      && !(CarriedOut(env, sys, id, m) && IsLogOn(m.body.kind) &&
           OwnerIn(Reacted(env, sys, id, m).routes, m.body.strategy).None?)
  {
    var r := HandleMessage(env, sys, id, m).0;
    MessageRoutes(env, sys, id, m);
    if OwnsNothing(r, id) {
      forall k | Owns(sys, id, k) && !IsReady(sys, id)
        ensures CarriedOut(env, sys, id, m) && GivesBack(m.body, k)
      {
        assert !Owns(r, id, k);
      }
      if CarriedOut(env, sys, id, m) && IsLogOn(m.body.kind) {
        assert !Owns(r, id, m.body.strategy);
      }
    } else {
      var k :| Owns(r, id, k);
      assert OwnsAfter(env, sys, id, m, id, true, k);
    }
  }

  /** A bridge that disconnects client 1 in reaction to every message. */
  function DisconnectingEnvironment(): Environment {
    LogOnEnvironment().(react := (_: seq<Handled>) => Reaction([Disconnect(1, [])], false, []))
  }

  function OneSession(state: State): System {
    ONE_SESSION.(sessions := map[1 := FreshSession(0).(state := state)])
  }

  /** An input at which a session without routes is granted one after its death, although it owned
      nothing, or was READY, when it died. */
  lemma GrantedAfterDeath(ready: bool)
    ensures var sys := OneSession(if ready then Ready else WaitingLogon);
      var r := HandleMessage(DisconnectingEnvironment(), sys, 1, LogOnMessage()).0;
      OwnsNothing(sys, 1) && IsZombie(r, 1) && r.routes.owner == map[7 := 1]
  {
    var sys := OneSession(if ready then Ready else WaitingLogon);
    var a := CheckHeader(LogReceived(sys, 1, LogOnMessage()), 1, LogOnMessage());
    var onClose: seq<Command> := [];
    var cs := [Disconnect(1, onClose)];
    assert ExecAll(a, onClose) == a;
    assert Exec(a, cs[0]) == MakeZombie(a, 1);
    assert ExecAll(a, cs) == ExecAll(Exec(a, cs[0]), cs[1..]);
    assert ExecAll(a, cs) == MakeZombie(a, 1);
  }

  // ---------- whole runs ----------

  ghost predicate SameRoutes(a: System, b: System, id: SessionId) {
    forall k :: Owns(b, id, k) <==> Owns(a, id, k)
  }

  /** What holds between two messages of a reachable state. */
  ghost predicate Calm(sys: System) {
    NoneReady(sys) && Inverse(sys.routes)
  }

  lemma ExecAllKeepsRoutes(a: System, cs: seq<Command>)
    requires Calm(a)
    ensures Calm(ExecAll(a, cs)) && forall s :: SameRoutes(a, ExecAll(a, cs), s)
  {
    ExecAllIsTorn(a, cs);
  }

  lemma CloseKeepsRoutes(a: System, id: SessionId, onClose: seq<Command>)
    requires Calm(a) && id in a.sessions
    ensures Calm(Close(a, id, onClose)) && forall s :: SameRoutes(a, Close(a, id, onClose), s)
  {
    CloseIsTorn(a, id, onClose);
  }

  lemma MessageKeepsOtherRoutes(env: Environment, sys: System, id: SessionId, m: Message)
    requires Calm(sys) && id in sys.sessions
    ensures var r := HandleMessage(env, sys, id, m).0;
      Calm(r) && r.sessions.Keys == sys.sessions.Keys && forall s :: s != id ==> SameRoutes(sys, r, s)
  {
    MessageRoutes(env, sys, id, m);
    HandleMessageIsLater(env, sys, id, m);
  }

  lemma {:induction false} HandleAllKeepsOtherRoutes(env: Environment, sys: System, id: SessionId, messages: seq<Message>)
    requires Calm(sys) && id in sys.sessions
    ensures var r := HandleAll(LoopOf(env, id), sys, messages);
      Calm(r) && r.sessions.Keys == sys.sessions.Keys && forall s :: s != id ==> SameRoutes(sys, r, s)
    decreases |messages|
  {
    var h := LoopOf(env, id);
    if messages != [] && !h.dead(sys) {
      var next := HandleMessage(env, sys, id, messages[0]).0;
      assert h.step(sys, messages[0]).0 == next;
      MessageKeepsOtherRoutes(env, sys, id, messages[0]);
      HandleAllKeepsOtherRoutes(env, next, id, messages[1..]);
      forall s | s != id ensures SameRoutes(sys, HandleAll(h, next, messages[1..]), s) {
        assert SameRoutes(sys, next, s) && SameRoutes(next, HandleAll(h, next, messages[1..]), s);
      }
    }
  }

  /** The framing that a Read of a live session works on. */
  ghost function FramingAt(env: Environment, w: World, id: SessionId, chunk: seq<Byte>): Framing<Message>
    requires Sound(env.framer) && id in w.buffers
  {
    FramingOf(env.framer, w.buffers[id] + chunk)
  }

  lemma ReadIsReference(env: Environment, w: World, id: SessionId, chunk: seq<Byte>)
    requires Sound(env.framer) && Live(w.sys, id) && id in w.buffers
    ensures var f := FramingAt(env, w, id, chunk);
      var handled := HandleAll(LoopOf(env, id), w.sys, f.messages);
      && id in handled.sessions
      && Step(env, w, Read(id, chunk)).sys ==
         if f.invalid && Live(handled, id) then Close(handled, id, env.onFramingError(id, handled.handled)) else handled
  {
    LoopCloses(env, id);
    ConsumeIsReference(LoopOf(env, id), w.sys, w.buffers[id] + chunk);
    HandleAllLogs(env, w.sys, id, FramingAt(env, w, id, chunk).messages);
  }

  /** An event leaves the routes of every session as they are, but for a Read of a live session. */
  lemma StepKeepsRoutes(env: Environment, w: World, e: Event, s: SessionId)
    requires Sound(env.framer) && WorldInv(w) && NoneReady(w.sys)
    requires e.Read? && e.session == s ==> !Live(w.sys, s)
    ensures SameRoutes(w.sys, Step(env, w, e).sys, s)
  {
    match e {
      case Accept(reaction) =>
        AcceptKeepsInv(w.sys);
        ExecAllKeepsRoutes(Accepted(w.sys), reaction);
        assert SameRoutes(Accepted(w.sys), Step(env, w, e).sys, s);
      case Read(id, chunk) =>
        if Live(w.sys, id) {
          var f := FramingAt(env, w, id, chunk);
          var handled := HandleAll(LoopOf(env, id), w.sys, f.messages);
          HandleAllKeepsOtherRoutes(env, w.sys, id, f.messages);
          ReadIsReference(env, w, id, chunk);
          assert SameRoutes(w.sys, handled, s);
          if f.invalid && Live(handled, id) {
            CloseKeepsRoutes(handled, id, env.onFramingError(id, handled.handled));
            assert SameRoutes(handled, Step(env, w, e).sys, s);
          }
        }
      case Tick(_) =>
      case Emit(commands) =>
        ExecAllKeepsRoutes(w.sys, commands);
    }
  }

  /** The routes of a dead session are fixed: it neither loses nor gains any. */
  lemma {:induction false} DeadRoutesAreFixed(env: Environment, w: World, events: seq<Event>, id: SessionId)
    requires Sound(env.framer) && WorldInv(w) && NoneReady(w.sys) && Dead(w.sys, id)
    ensures SameRoutes(w.sys, Run(env, w, events).sys, id)
    decreases |events|
  {
    if events != [] {
      var next := Step(env, w, events[0]);
      StepIsAfter(env, w, events[0]);
      StepKeepsRoutes(env, w, events[0], id);
      DeadRoutesAreFixed(env, next, events[1..], id);
    }
  }

  /** The message that leaves the session dead, and the system before it. */
  lemma {:induction false} CutIsLast(h: Handler<System, Message>, sys: System, messages: seq<Message>)
    requires !h.dead(sys) && h.dead(HandleAll(h, sys, messages))
    ensures var n := Cut(h, sys, messages);
      && 0 < n <= |messages|
      && var s := HandleAll(h, sys, messages[..n - 1]);
         !h.dead(s) && HandleAll(h, sys, messages) == h.step(s, messages[n - 1]).0
    decreases |messages|
  {
    var next := h.step(sys, messages[0]).0;
    if h.dead(next) {
      assert Cut(h, next, messages[1..]) == 0;
      assert HandleAll(h, next, messages[1..]) == next;
      assert messages[..0] == [];
    } else {
      CutIsLast(h, next, messages[1..]);
      var n := Cut(h, next, messages[1..]);
      assert messages[..n][0] == messages[0] && messages[..n][1..] == messages[1..][..n - 1];
    }
  }

  /** Session `id` owned the strategy when it died by the event `e`, or was granted it by the request
      during which it died. */
  ghost predicate OwnsAtDeath(env: Environment, w: World, e: Event, id: SessionId, strategy: StrategyId)
    requires Sound(env.framer) && Live(w.sys, id) && id in w.buffers
  {
    if !e.Read? || e.session != id then
      Owns(w.sys, id, strategy)
    else
      var h, messages := LoopOf(env, id), FramingAt(env, w, id, e.chunk).messages;
      var handled := HandleAll(h, w.sys, messages);
      var n := Cut(h, w.sys, messages);
      if !h.dead(handled) then
        Owns(handled, id, strategy)
      else
        CutIsLast(h, w.sys, messages);
        OwnsAfterLast(env, HandleAll(h, w.sys, messages[..n - 1]), id, messages[n - 1], strategy)
  }

  /** The strategies of a session after the message by which it died, from the state before it. */
  ghost predicate OwnsAfterLast(env: Environment, sys: System, id: SessionId, m: Message, strategy: StrategyId) {
    if !CarriedOut(env, sys, id, m) then Owns(sys, id, strategy)
    else if AsksFor(m.body, strategy) then OwnerIn(sys.routes, strategy) in {None, Some(id)}
    else Owns(sys, id, strategy) && !GivesBack(m.body, strategy)
  }

  lemma SameOwner(a: System, b: System, strategy: StrategyId)
    requires forall s :: SameRoutes(a, b, s)
    ensures OwnerIn(b.routes, strategy) == OwnerIn(a.routes, strategy)
  {
    if OwnerIn(a.routes, strategy).Some? {
      var s := OwnerIn(a.routes, strategy).value;
      assert SameRoutes(a, b, s) && Owns(a, s, strategy);
    }
    if OwnerIn(b.routes, strategy).Some? {
      var s := OwnerIn(b.routes, strategy).value;
      assert SameRoutes(a, b, s) && Owns(b, s, strategy);
    }
  }

  lemma LastMessageRoutes(env: Environment, sys: System, id: SessionId, m: Message, strategy: StrategyId)
    requires Calm(sys) && id in sys.sessions
    ensures Owns(HandleMessage(env, sys, id, m).0, id, strategy) <==> OwnsAfterLast(env, sys, id, m, strategy)
  {
    MessageRoutes(env, sys, id, m);
    var checked := CheckHeader(LogReceived(sys, id, m), id, m);
    ExecAllKeepsRoutes(checked, env.react(checked.handled).commands);
    SameOwner(checked, Reacted(env, sys, id, m), strategy);
  }

  lemma DeathRoutes(env: Environment, w: World, e: Event, id: SessionId, strategy: StrategyId)
    requires Sound(env.framer) && WorldInv(w) && NoneReady(w.sys)
    requires Live(w.sys, id) && Dead(Step(env, w, e).sys, id)
    ensures Owns(Step(env, w, e).sys, id, strategy) <==> OwnsAtDeath(env, w, e, id, strategy)
  {
    if !e.Read? || e.session != id {
      StepKeepsRoutes(env, w, e, id);
    } else {
      var h, f := LoopOf(env, id), FramingAt(env, w, id, e.chunk);
      var handled := HandleAll(h, w.sys, f.messages);
      ReadIsReference(env, w, id, e.chunk);
      if h.dead(handled) {
        CutIsLast(h, w.sys, f.messages);
        var n := Cut(h, w.sys, f.messages);
        var s := HandleAll(h, w.sys, f.messages[..n - 1]);
        HandleAllKeepsOtherRoutes(env, w.sys, id, f.messages[..n - 1]);
        LastMessageRoutes(env, s, id, f.messages[n - 1], strategy);
      } else {
        HandleAllKeepsOtherRoutes(env, w.sys, id, f.messages);
        CloseKeepsRoutes(handled, id, env.onFramingError(id, handled.handled));
        assert SameRoutes(handled, Step(env, w, e).sys, id);
      }
    }
  }

  lemma BufferedIfLive(env: Environment, events: seq<Event>, id: SessionId)
    requires Sound(env.framer)
    ensures Live(Reached(env, events).sys, id) ==> id in Reached(env, events).buffers
  {
    ReachedIsAfterStart(env, events);
  }

  /** A session that has not been accepted yet owns nothing. */
  lemma {:induction false} UnacceptedOwnNothing(env: Environment, events: seq<Event>, id: SessionId)
    requires Sound(env.framer) && id > Reached(env, events).sys.nextSessionId
    ensures OwnsNothing(Reached(env, events).sys, id)
    decreases |events|
  {
    if events != [] {
      var init, e := events[..|events| - 1], events[|events| - 1];
      var w := Reached(env, init);
      ReachedIsAfterStart(env, init);
      ReachedStep(env, events);
      StepIsAfter(env, w, e);
      UnacceptedOwnNothing(env, init, id);
      StepKeepsRoutes(env, w, e, id);
    }
  }

  /** Every dead session died by some event of the run. */
  lemma {:induction false} DeathHappens(env: Environment, events: seq<Event>, id: SessionId)
    requires Sound(env.framer) && Dead(Reached(env, events).sys, id)
    ensures exists n: nat :: DiesAt(env, events, n, id)
    decreases |events|
  {
    if events != [] {
      var init := events[..|events| - 1];
      if Dead(Reached(env, init).sys, id) {
        DeathHappens(env, init, id);
        var n: nat :| DiesAt(env, init, n, id);
        assert init[..n] == events[..n] && init[..n + 1] == events[..n + 1];
        assert DiesAt(env, events, n, id);
      } else {
        assert events[..|events|] == events;
        assert DiesAt(env, events, |events| - 1, id);
      }
    }
  }

  ghost predicate DiesAt(env: Environment, events: seq<Event>, n: nat, id: SessionId)
    requires Sound(env.framer)
  {
    n < |events| && !Dead(Reached(env, events[..n]).sys, id) && Dead(Reached(env, events[..n + 1]).sys, id)
  }

  lemma DeadAtOnceOwnsNothing(env: Environment, before: seq<Event>, e: Event, id: SessionId)
    requires Sound(env.framer)
    requires !Dead(Reached(env, before).sys, id) && !Live(Reached(env, before).sys, id)
    requires Dead(Step(env, Reached(env, before), e).sys, id)
    ensures OwnsNothing(Step(env, Reached(env, before), e).sys, id)
  {
    ReachedIsAfterStart(env, before);
    UnacceptedOwnNothing(env, before, id);
    StepKeepsRoutes(env, Reached(env, before), e, id);
  }

  /** Which strategies a session that died by the event `e` holds, at any time after its death. If it
      was live before `e`: exactly those it owned when it died, plus the one that it was granted, and
      less the one it gave back, by the request during which it died. If it was accepted by `e`, and
      closed in reaction to that: none. */
  lemma DeadSessionsOwnExactly(
      env: Environment, before: seq<Event>, e: Event, after: seq<Event>, id: SessionId, strategy: StrategyId)
    requires Sound(env.framer)
    requires !Dead(Reached(env, before).sys, id) && Dead(Reached(env, before + [e]).sys, id)
    ensures Live(Reached(env, before).sys, id) ==> id in Reached(env, before).buffers
    ensures Owns(Reached(env, before + [e] + after).sys, id, strategy) <==>
            Live(Reached(env, before).sys, id) && OwnsAtDeath(env, Reached(env, before), e, id, strategy)
  {
    var w := Reached(env, before);
    ReachedIsAfterStart(env, before);
    BufferedIfLive(env, before, id);
    RunAppend(env, START, before, [e]);
    RunAppend(env, START, before + [e], after);
    var next := Step(env, w, e);
    assert Run(env, w, [e]) == next;
    StepIsAfter(env, w, e);
    if Live(w.sys, id) {
      DeathRoutes(env, w, e, id, strategy);
    } else {
      DeadAtOnceOwnsNothing(env, before, e, id);
      assert !Owns(next.sys, id, strategy);
    }
    DeadRoutesAreFixed(env, next, after, id);
  }
}
