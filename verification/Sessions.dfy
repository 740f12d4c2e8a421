/** `Session` and `SessionManager`: the objects behind the state machine, updated in place.

    Every method is tied to the function of module `Bridge` that specifies it, through `View`.
    Sessions and their manager call each other, and the environment calls back into both, so the
    methods are mutually recursive in the commands still to be executed. */
module Sessions {
  import opened Wrappers
  import opened ReadLoop
  import opened SequenceNumbers
  import opened Routes
  import opened Bridge
  import opened BridgeSafety
  import opened SharedState

  /** All sessions but those in `rest` have attempted to send. */
  ghost function SendToOthers(sys: System, rest: set<SessionId>, payload: Payload): System {
    sys.(sessions := map id | id in sys.sessions ::
      if id in rest then sys.sessions[id] else Attempt(sys.sessions[id], payload))
  }

  lemma SendToOthersStep(sys: System, rest: set<SessionId>, id: SessionId, payload: Payload)
    requires id in rest && id in sys.sessions
    ensures Send(SendToOthers(sys, rest, payload), id, payload) == SendToOthers(sys, rest - {id}, payload)
  {
  }

  lemma SendToOthersEnds(sys: System, payload: Payload)
    ensures SendToOthers(sys, sys.sessions.Keys, payload) == sys
    ensures SendToOthers(sys, {}, payload) == SendAll(sys, payload)
  {
  }

  /** The loop's progress once `totalBytes` have been consumed before it; nothing is drained when
      an exception ends the loop. */
  function Drained(totalBytes: nat, r: Progress<System>): Progress<System> {
    if r.thrown then r.(consumed := 0) else r.(consumed := totalBytes + r.consumed)
  }

  lemma ConsumeUnfolds(env: Environment, sys: System, id: SessionId, buffer: seq<Byte>)
    requires Sound(env.framer) && id in sys.sessions && buffer != []
    ensures var frame, r := env.framer(buffer), Consume(LoopOf(env, id), sys, buffer);
      && (frame.Incomplete? ==> r == Progress(sys, 0, false))
      && (frame.Invalid? ==> r == Progress(Bridge.Close(sys, id, env.onFramingError(id, sys.handled)), 0, true))
      && (frame.Complete? ==>
            var handled := Bridge.HandleMessage(env, sys, id, frame.message);
            r == if handled.1 then Progress(handled.0, 0, true)
                 else if IsZombie(handled.0, id) then Progress(handled.0, frame.size, false)
                 else Drained(frame.size, Consume(LoopOf(env, id), handled.0, buffer[frame.size..])))
  {
  }

  ghost predicate Unfold(b: bool) { true }

  /** `h` is the read loop of session `id`; what it does with a message is only looked up by a proof
      that mentions `Unfold`. */
  ghost predicate Drives(h: Handler<System, Message>, env: Environment, id: SessionId) {
    h.framer == env.framer && forall b {:trigger Unfold(b)} :: Unfold(b) ==> h == LoopOf(env, id)
  }

  /** How one turn of the loop ends: with an exception, with the last bytes to drain, or not yet. */
  datatype Turn = Threw | Stop(size: nat) | Next(size: nat)

  ghost function Continued(h: Handler<System, Message>, sys: System, rest: seq<Byte>, turn: Turn): Progress<System>
    requires Sound(h.framer) && (turn.Next? ==> turn.size <= |rest|)
  {
    match turn
    case Threw => Progress(sys, 0, true)
    case Stop(size) => Progress(sys, size, false)
    case Next(size) => Drained(size, Consume(h, sys, rest[size..]))
  }

  lemma Overwrite<K, V>(m: map<K, V>, k: K, v: V, u: V)
    ensures m[k := v][k := u] == m[k := u]
  {
  }

  lemma ReadUnfolds(env: Environment, w: World, id: SessionId, chunk: seq<Byte>)
    requires Sound(env.framer) && id in w.buffers && id in w.sys.sessions
    ensures Step(env, w, Read(id, chunk)) ==
      if IsZombie(w.sys, id) then w
      else
        var r := Consume(LoopOf(env, id), w.sys, w.buffers[id] + chunk);
        World(r.world, w.buffers[id := (w.buffers[id] + chunk)[r.consumed..]])
  {
  }

  class Session {
    const manager: SessionManager
    const shared: Shared
    const sessionId: SessionId
    ghost const born: nat
    var state: State
    var compId: string
    var inbound: Seq64
    var outbound: Seq64
    var buffer: seq<Byte>
    /** What has been handed to the connection. */
    var sent: seq<Sent>

    ghost function View(): SessionState
      reads this
    {
      SessionState(state, compId, inbound, outbound, sent, born)
    }

    /** The session is in its manager's table. */
    ghost predicate Registered()
      reads manager
    {
      manager.Linked() && sessionId in manager.sessions && manager.sessions[sessionId] == this
    }

    /** What the manager sees when this is the only session that has changed. */
    twostate lemma OnlyThisChanged()
      requires old(Registered()) && unchanged(manager`sessions)
      requires forall id :: id in manager.sessions && id != sessionId ==> unchanged(manager.sessions[id])
      ensures Registered()
      ensures manager.View().sessions == old(manager.View()).sessions[sessionId := View()]
      ensures manager.Buffers() == old(manager.Buffers())[sessionId := buffer]
      ensures old(manager.View()).sessions[sessionId] == old(View())
      ensures old(manager.Buffers())[sessionId] == old(buffer)
    {
      forall id | id in manager.sessions && id != sessionId
        ensures manager.View().sessions[id] == old(manager.View()).sessions[id]
        ensures manager.Buffers()[id] == old(manager.Buffers())[id]
      {
        assert unchanged(manager.sessions[id]);
      }
    }

    constructor (manager: SessionManager, sessionId: SessionId, shared: Shared)
      ensures this.manager == manager && this.sessionId == sessionId && this.shared == shared
      ensures View() == FreshSession(|shared.calls|) && buffer == []
    {
      this.manager, this.sessionId, this.shared := manager, sessionId, shared;
      born := |shared.calls|;
      state, compId, inbound, outbound, buffer, sent := WaitingLogon, "", 0, 0, [], [];
    }

    // ---------- sending ----------

    /** Uses up a sequence number whether or not the connection accepts the message. */
    method SendHelper(payload: Payload)
      requires Registered()
      modifies this
      ensures View() == Attempt(old(View()), payload) && buffer == old(buffer)
    {
      outbound := Inc(outbound);
      sent := sent + [Sent(outbound, compId, payload)];
    }

    method SendOwnMessage(payload: Payload)
      requires Registered()
      modifies this, shared`calls
      ensures Registered()
      ensures manager.View() == SendOwn(old(manager.View()), sessionId, payload)
      ensures manager.Buffers() == old(manager.Buffers())
    {
      shared.calls := shared.calls + [Own(sessionId, payload)];
      SendHelper(payload);
      OnlyThisChanged();
    }

    // ---------- closing ----------

    method MakeZombie()
      requires Registered()
      modifies this`state, shared, manager`zombies
      ensures Registered()
      ensures manager.View() == Bridge.MakeZombie(old(manager.View()), sessionId)
      ensures manager.Buffers() == old(manager.Buffers())
    {
      if state == Ready {
        shared.RemoveAllRoutes(sessionId);
      }
      if state != Zombie {
        state := Zombie;
        manager.OnDisconnect(sessionId);
      }
      OnlyThisChanged();
    }

    /** `onClose` is what the environment does while the connection is being closed. */
    method Close(onClose: seq<Command>)
      requires Registered()
      modifies manager, shared, manager.sessions.Values
      ensures manager.sessions == old(manager.sessions) && Registered()
      ensures manager.View() == Bridge.Close(old(manager.View()), sessionId, onClose)
      ensures manager.Buffers() == old(manager.Buffers())
      decreases onClose, 1
    {
      if state != Zombie {
        manager.ExecuteAll(onClose);
        MakeZombie();
      }
    }

    /** The connection reports that it is gone; the bridge is told after the session is a zombie. */
    method OnDisconnected(reaction: seq<Command>)
      requires Registered()
      modifies manager, shared, manager.sessions.Values
      ensures manager.sessions == old(manager.sessions) && Registered()
      ensures manager.View() == Exec(old(manager.View()), Disconnected(sessionId, reaction))
      ensures manager.Buffers() == old(manager.Buffers())
      decreases reaction, 1
    {
      MakeZombie();
      manager.ExecuteAll(reaction);
    }

    // ---------- receiving ----------

    /** Reports a gap or a replay, and follows the sender's number. */
    method CheckHeader(m: Message) returns (warning: Option<Warning>)
      requires Registered()
      modifies this`compId, this`inbound
      ensures Registered()
      ensures warning == SequenceNumbers.Check(old(inbound), m.number)
      ensures manager.View() == Bridge.CheckHeader(old(manager.View()), sessionId, m)
      ensures manager.Buffers() == old(manager.Buffers())
    {
      warning := CompareNumbers(m.number);
      compId := if compId == "" then m.sender else compId;
      inbound := m.number;
      OnlyThisChanged();
    }

    method CompareNumbers(current: Seq64) returns (warning: Option<Warning>)
      ensures warning == SequenceNumbers.Check(inbound, current)
    {
      var expected := Inc(inbound);
      if current != expected {
        if expected < current {
          return Some(Gap(Sub(current, inbound)));
        } else {
          return Some(Replay(Sub(inbound, current)));
        }
      }
      return None;
    }

    method Route(kind: RequestType, strategy: StrategyId) returns (status: UserStatus)
      modifies shared`strategyIdToSessionId, shared`sessionIdToStrategyId
      ensures (shared.RouteTable(), status) == Routed(old(shared.RouteTable()), sessionId, kind, strategy)
    {
      match kind {
        case Undefined | Unknown | LogOnUser =>
          var success := shared.AddRoute(sessionId, strategy);
          return if success then LoggedIn else Other;
        case LogOffUser =>
          var success := shared.RemoveRoute(sessionId, strategy);
          return if success then NotLoggedIn else Other;
        case ChangePassword | IndividualStatus =>
          return Other;
      }
    }

    method HandleUserRequest(kind: RequestType, strategy: StrategyId)
      requires Registered()
      modifies this, shared
      ensures Registered()
      ensures manager.View() == Bridge.HandleUserRequest(old(manager.View()), sessionId, kind, strategy)
      ensures manager.Buffers() == old(manager.Buffers())
    {
      var status := Route(kind, strategy);
      OnlyThisChanged();
      assert manager.View() == old(manager.View()).(routes := shared.RouteTable());
      SendOwnMessage(UserResponse(strategy, status));
    }

    /** The bridge reacts first, then a user request is carried out; an exception closes the
        session. */
    method Parse(m: Message) returns (thrown: bool)
      requires Registered()
      modifies manager, shared, manager.sessions.Values
      ensures manager.sessions == old(manager.sessions) && Registered()
      ensures (manager.View(), thrown) == Bridge.Parse(shared.env, old(manager.View()), sessionId, m)
      ensures manager.Buffers() == old(manager.Buffers())
    {
      if m.body.Unsupported? {
        SendOwnMessage(UnsupportedMessage(m.number));
        return false;
      }
      var reaction := shared.env.react(shared.handled);
      manager.ExecuteAll(reaction.commands);
      if reaction.throws {
        Close(reaction.onClose);
        return true;
      }
      if m.body.UserRequest? {
        HandleUserRequest(m.body.kind, m.body.strategy);
      }
      return false;
    }

    method LogReceived(m: Message)
      requires Registered()
      modifies shared`handled
      ensures Registered()
      ensures manager.View() == Bridge.LogReceived(old(manager.View()), sessionId, m)
      ensures manager.Buffers() == old(manager.Buffers())
    {
      shared.handled := shared.handled + [Handled(sessionId, m)];
      OnlyThisChanged();
    }

    method HandleMessage(m: Message) returns (thrown: bool)
      requires Registered()
      modifies manager, shared, manager.sessions.Values
      ensures manager.sessions == old(manager.sessions) && Registered()
      ensures (manager.View(), thrown) == Bridge.HandleMessage(shared.env, old(manager.View()), sessionId, m)
      ensures manager.Buffers() == old(manager.Buffers())
    {
      LogReceived(m);
      var _ := CheckHeader(m);
      thrown := Parse(m);
    }

    /** One turn of the read loop on a non-empty rest of the buffer. */
    method HandleFrame(rest: seq<Byte>, ghost h: Handler<System, Message>) returns (turn: Turn)
      requires Registered() && Drives(h, shared.env, sessionId) && Sound(h.framer) && rest != []
      modifies manager, shared, manager.sessions.Values
      ensures manager.sessions == old(manager.sessions) && Registered()
      ensures manager.Buffers() == old(manager.Buffers()) && buffer == old(buffer)
      ensures turn.Next? ==> 0 < turn.size <= |rest|
      ensures Consume(h, old(manager.View()), rest) == Continued(h, manager.View(), rest, turn)
    {
      assert Unfold(true);
      ConsumeUnfolds(shared.env, manager.View(), sessionId, rest);
      var frame := shared.env.framer(rest);
      match frame {
        case Incomplete =>
          return Stop(0);
        case Invalid =>
          Close(shared.env.onFramingError(sessionId, shared.handled));
          assert buffer == manager.Buffers()[sessionId];
          return Threw;
        case Complete(size, message) =>
          var thrown := HandleMessage(message);
          assert buffer == manager.Buffers()[sessionId];
          return if thrown then Threw else if state == Zombie then Stop(size) else Next(size);
      }
    }

    /** The loop over the buffer: how many bytes to drain, and whether an exception ended it. */
    method ConsumeBuffer(ghost h: Handler<System, Message>) returns (totalBytes: nat, thrown: bool)
      requires Registered() && Drives(h, shared.env, sessionId) && Sound(h.framer)
      modifies manager, shared, manager.sessions.Values
      ensures manager.sessions == old(manager.sessions) && Registered()
      ensures manager.Buffers() == old(manager.Buffers()) && buffer == old(buffer)
      ensures Consume(h, old(manager.View()), old(buffer)) == Progress(manager.View(), totalBytes, thrown)
    {
      ghost var goal := Consume(h, manager.View(), buffer);
      var rest := buffer;
      totalBytes, thrown := 0, false;
      while rest != []
        invariant manager.sessions == old(manager.sessions) && Registered()
        invariant manager.Buffers() == old(manager.Buffers()) && buffer == old(buffer)
        invariant totalBytes + |rest| == |buffer| && !thrown
        invariant goal == Drained(totalBytes, Consume(h, manager.View(), rest))
        decreases |rest|
      {
        var turn := HandleFrame(rest, h);
        if turn.Next? {
          totalBytes, rest := totalBytes + turn.size, rest[turn.size..];
        } else {
          totalBytes, thrown := if turn.Threw? then 0 else totalBytes + turn.size, turn.Threw?;
          assert goal == Progress(manager.View(), totalBytes, thrown);
          break;
        }
      }
    }

    /** Append, frame and handle, then drain; nothing is drained after an exception. */
    method ReadLive(chunk: seq<Byte>, ghost h: Handler<System, Message>)
      requires Registered() && Drives(h, shared.env, sessionId) && Sound(h.framer)
      modifies manager, shared, manager.sessions.Values
      ensures manager.sessions == old(manager.sessions) && Registered()
      ensures var all := old(buffer) + chunk;
        var r := Consume(h, old(manager.View()), all);
        && manager.View() == r.world
        && manager.Buffers() == old(manager.Buffers())[sessionId := all[r.consumed..]]
    {
      ghost var buffers := manager.Buffers();
      AppendToBuffer(chunk);
      ghost var all := buffer;
      var totalBytes, _ := ConsumeBuffer(h);
      DrainBuffer(totalBytes);
      Overwrite(buffers, sessionId, all, buffer);
    }

    /** A Read event. */
    method OnRead(chunk: seq<Byte>)
      requires Registered() && Sound(shared.env.framer)
      modifies manager, shared, manager.sessions.Values
      ensures manager.sessions == old(manager.sessions) && Registered()
      ensures World(manager.View(), manager.Buffers()) ==
              Step(shared.env, old(World(manager.View(), manager.Buffers())), Read(sessionId, chunk))
    {
      ghost var w := World(manager.View(), manager.Buffers());
      ReadUnfolds(shared.env, w, sessionId, chunk);
      assert w.buffers[sessionId] == buffer && IsZombie(w.sys, sessionId) == state.Zombie?;
      if state != Zombie {
        ReadLive(chunk, LoopOf(shared.env, sessionId));
      }
    }

    method AppendToBuffer(chunk: seq<Byte>)
      requires Registered()
      modifies this`buffer
      ensures Registered() && buffer == old(buffer) + chunk
      ensures manager.View() == old(manager.View())
      ensures manager.Buffers() == old(manager.Buffers())[sessionId := buffer]
    {
      buffer := buffer + chunk;
      OnlyThisChanged();
    }

    method DrainBuffer(totalBytes: nat)
      requires Registered() && totalBytes <= |buffer|
      modifies this`buffer
      ensures Registered() && buffer == old(buffer)[totalBytes..]
      ensures manager.View() == old(manager.View())
      ensures manager.Buffers() == old(manager.Buffers())[sessionId := buffer]
    {
      buffer := buffer[totalBytes..];
      OnlyThisChanged();
    }
  }

  class SessionManager {
    const shared: Shared
    var nextSessionId: nat
    var sessions: map<SessionId, Session>
    var nextCleanup: int
    var zombies: set<SessionId>

    /** Every session in the table knows its id, its manager, and the shared state. */
    ghost predicate Linked()
      reads this
    {
      forall id :: id in sessions ==>
        sessions[id].sessionId == id && sessions[id].manager == this && sessions[id].shared == shared
    }

    ghost function View(): System
      reads this, shared, sessions.Values
    {
      System(
        map id | id in sessions :: sessions[id].View(),
        nextSessionId, zombies, nextCleanup,
        shared.RouteTable(), shared.handled, shared.calls, shared.logouts)
    }

    ghost function Buffers(): map<SessionId, seq<Byte>>
      reads this, sessions.Values
    {
      map id | id in sessions :: sessions[id].buffer
    }

    constructor (shared: Shared)
      requires shared.RouteTable() == NO_ROUTES
      requires shared.handled == [] && shared.calls == [] && shared.logouts == []
      ensures this.shared == shared && Linked()
      ensures World(View(), Buffers()) == START
    {
      this.shared := shared;
      nextSessionId, sessions, nextCleanup, zombies := 0, map[], 0, {};
    }

    /** `Session::Handler`: hears of each zombie. */
    method OnDisconnect(id: SessionId)
      modifies `zombies, shared`logouts
      ensures zombies == old(zombies) + {id}
      ensures shared.logouts == old(shared.logouts) + [id]
    {
      shared.logouts := shared.logouts + [id];
      zombies := zombies + {id};
    }

    method SendTo(id: SessionId, payload: Payload)
      requires Linked() && id in sessions
      modifies sessions[id]
      ensures Linked()
      ensures View() == Send(old(View()), id, payload)
      ensures Buffers() == old(Buffers())
    {
      sessions[id].SendHelper(payload);
      assert Buffers() == old(Buffers());
    }

    /** All sessions in turn, in the unspecified order of the table. */
    method SendToAll(payload: Payload)
      requires Linked()
      modifies sessions.Values
      ensures Linked()
      ensures View() == SendAll(old(View()), payload)
      ensures Buffers() == old(Buffers())
    {
      ghost var before := View();
      var rest := sessions.Keys;
      SendToOthersEnds(before, payload);
      while rest != {}
        invariant rest <= sessions.Keys
        invariant Buffers() == old(Buffers())
        invariant View() == SendToOthers(before, rest, payload)
        decreases rest
      {
        var id :| id in rest;
        SendToOthersStep(before, rest, id, payload);
        SendTo(id, payload);
        rest := rest - {id};
      }
    }

    method DeliverTo(id: SessionId, content: seq<Byte>)
      requires Linked()
      modifies shared`calls, sessions.Values
      ensures Linked()
      ensures View() == Exec(old(View()), Deliver(id, content))
      ensures Buffers() == old(Buffers())
    {
      shared.calls := shared.calls + [To(id, content)];
      assert View() == old(View()).(calls := shared.calls);
      assert Buffers() == old(Buffers());
      if id in sessions {
        SendTo(id, FromBridge(content));
      }
    }

    method BroadcastToAll(content: seq<Byte>)
      requires Linked()
      modifies shared`calls, sessions.Values
      ensures Linked()
      ensures View() == Exec(old(View()), Broadcast(content))
      ensures Buffers() == old(Buffers())
    {
      shared.calls := shared.calls + [All(content)];
      assert View() == old(View()).(calls := shared.calls);
      assert Buffers() == old(Buffers());
      SendToAll(FromBridge(content));
    }

    /** One call into the controller, which routes it to the session, or to all of them. */
    method Execute(c: Command)
      requires Linked()
      modifies this, shared, sessions.Values
      ensures sessions == old(sessions) && Linked()
      ensures View() == Exec(old(View()), c)
      ensures Buffers() == old(Buffers())
      decreases c
    {
      match c {
        case Deliver(id, content) =>
          DeliverTo(id, content);
        case Broadcast(content) =>
          BroadcastToAll(content);
        case Disconnect(id, onClose) =>
          if id in sessions {
            sessions[id].Close(onClose);
          }
        case Disconnected(id, reaction) =>
          if id in sessions {
            sessions[id].OnDisconnected(reaction);
          }
      }
    }

    method ExecuteAll(cs: seq<Command>)
      requires Linked()
      modifies this, shared, sessions.Values
      ensures sessions == old(sessions) && Linked()
      ensures View() == ExecAll(old(View()), cs)
      ensures Buffers() == old(Buffers())
      decreases cs, 0
    {
      if cs != [] {
        Execute(cs[0]);
        ExecuteAll(cs[1..]);
      }
    }

    // ---------- the table ----------

    method AddSession(session: Session)
      requires Linked() && session.sessionId !in sessions
      requires session.manager == this && session.shared == shared
      modifies `sessions
      ensures Linked()
      ensures sessions == old(sessions)[session.sessionId := session]
    {
      sessions := sessions[session.sessionId := session];
    }

    method RemoveSession(id: SessionId)
      requires Linked() && id in sessions
      modifies `sessions
      ensures Linked()
      ensures sessions == old(sessions) - {id}
    {
      sessions := sessions - {id};
    }

    method RemoveZombies()
      requires Linked() && zombies <= sessions.Keys
      modifies `sessions, `zombies
      ensures Linked()
      ensures View() == Bridge.RemoveZombies(old(View()))
      ensures Buffers() == old(Buffers()) - old(zombies)
    {
      if zombies != {} {
        var rest := zombies;
        while rest != {}
          invariant rest <= zombies == old(zombies) && Linked()
          invariant sessions == old(sessions) - (zombies - rest)
          decreases rest
        {
          var id :| id in rest;
          RemoveSession(id);
          rest := rest - {id};
        }
        assert zombies - {} == zombies;
        zombies := {};
      } else {
        assert sessions - {} == sessions;
      }
      assert View().sessions == old(View()).sessions - old(zombies);
      assert Buffers() == old(Buffers()) - old(zombies);
    }

    // ---------- events ----------

    /** What holds between any two events. */
    ghost predicate Valid()
      reads this, shared, sessions.Values
    {
      Linked() && WorldInv(World(View(), Buffers())) && Sound(shared.env.framer)
    }

    /** The timer: cleans up when the last cleanup is long enough ago. Every zombie must still be
        in the table. */
    method OnTimer(now: int)
      requires Linked() && zombies <= sessions.Keys && Sound(shared.env.framer)
      modifies `sessions, `zombies, `nextCleanup
      ensures Linked()
      ensures World(View(), Buffers()) == Step(shared.env, old(World(View(), Buffers())), Tick(now))
    {
      if nextCleanup < now {
        nextCleanup := now + CLEANUP_FREQUENCY;
        assert View() == old(View()).(nextCleanup := nextCleanup) && Buffers() == old(Buffers());
        RemoveZombies();
      }
    }

    /** A new connection: a fresh session in the table, then the bridge is told. The next id must
        be free. */
    method OnAccept(reaction: seq<Command>)
      requires Linked() && nextSessionId + 1 !in sessions && Sound(shared.env.framer)
      modifies this, shared, sessions.Values
      ensures Linked()
      ensures World(View(), Buffers()) == Step(shared.env, old(World(View(), Buffers())), Accept(reaction))
    {
      EnterTable();
      ExecuteAll(reaction);
    }

    method EnterTable()
      requires Linked() && nextSessionId + 1 !in sessions
      modifies `nextSessionId, `sessions
      ensures Linked() && fresh(sessions.Values - old(sessions.Values))
      ensures View() == Accepted(old(View()))
      ensures Buffers() == old(Buffers())[old(nextSessionId) + 1 := []]
    {
      nextSessionId := nextSessionId + 1;
      var session := new Session(this, nextSessionId, shared);
      AddSession(session);
      assert View().sessions == Accepted(old(View())).sessions;
    }

    /** One turn of the event loop, whatever the event: the objects do what the state machine does,
        and so every theorem about its runs holds of them. */
    method HandleEvent(e: Event)
      requires Valid()
      modifies this, shared, sessions.Values
      ensures Valid()
      ensures World(View(), Buffers()) == Step(shared.env, old(World(View(), Buffers())), e)
    {
      StepIsAfter(shared.env, World(View(), Buffers()), e);
      assert zombies <= sessions.Keys && nextSessionId + 1 !in sessions by {
        assert forall id :: id in zombies ==> IsZombie(View(), id);
        assert nextSessionId + 1 !in View().sessions;
      }
      match e {
        case Accept(reaction) =>
          OnAccept(reaction);
        case Read(id, chunk) =>
          if id in sessions {
            sessions[id].OnRead(chunk);
          }
        case Tick(now) =>
          OnTimer(now);
        case Emit(commands) =>
          ExecuteAll(commands);
      }
    }
  }
}
