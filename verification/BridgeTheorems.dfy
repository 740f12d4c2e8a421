/** Theorems about whole runs of the bridge, for every environment. */
module BridgeTheorems {
  import opened Wrappers
  import opened ReadLoop
  import opened SequenceNumbers
  import opened Routes
  import opened Bridge
  import opened BridgeSafety

  ghost function Reached(env: Environment, events: seq<Event>): World
    requires Sound(env.framer)
  {
    Run(env, START, events)
  }

  lemma ReachedIsAfterStart(env: Environment, events: seq<Event>)
    requires Sound(env.framer)
    ensures WorldInv(Reached(env, events)) && After(INITIAL, Reached(env, events).sys)
  {
    RunIsAfter(env, START, events);
  }

  lemma {:induction false} RunAppend(env: Environment, w: World, a: seq<Event>, b: seq<Event>)
    requires Sound(env.framer)
    ensures Run(env, w, a + b) == Run(env, Run(env, w, a), b)
    decreases |a|
  {
    if a == [] {
      assert a + b == b;
    } else {
      assert (a + b)[1..] == a[1..] + b;
      RunAppend(env, Step(env, w, a[0]), a[1..], b);
    }
  }

  lemma ReachedStep(env: Environment, events: seq<Event>)
    requires Sound(env.framer) && events != []
    ensures var init, e := events[..|events| - 1], events[|events| - 1];
      Reached(env, events) == Step(env, Reached(env, init), e)
  {
    var init, e := events[..|events| - 1], events[|events| - 1];
    assert events == init + [e];
    RunAppend(env, START, init, [e]);
    assert Run(env, Reached(env, init), [e]) == Step(env, Reached(env, init), e);
  }

  // ---------- the session table ----------

  /** In every reachable state the zombie set is exactly the zombies in the table, the next id is
      free (the assert in `add_session` holds), every zombie is in the table (the assert in
      `remove_session` holds), and a cleanup leaves exactly the sessions that are not zombies. */
  lemma ZombiesMatchTable(env: Environment, events: seq<Event>)
    requires Sound(env.framer)
    ensures var sys := Reached(env, events).sys;
      && (forall id :: id in sys.zombies <==> IsZombie(sys, id))
      && (forall id :: id in sys.sessions ==> 1 <= id <= sys.nextSessionId)
      && sys.nextSessionId + 1 !in sys.sessions
      && sys.zombies <= sys.sessions.Keys
      && (forall id :: id in RemoveZombies(sys).sessions <==> id in sys.sessions && !IsZombie(sys, id))
  {
    ReachedIsAfterStart(env, events);
  }

  /** Exactly once: whatever interleaving of closes and disconnects has happened, nested inside
      each other or not, the manager was told once of every accepted session that left its live
      states, and of no other. */
  lemma NotifiedExactlyOnce(env: Environment, events: seq<Event>)
    requires Sound(env.framer)
    ensures var sys := Reached(env, events).sys;
      && (forall id :: multiset(sys.logouts)[id] == if Dead(sys, id) then 1 else 0)
  {
    ReachedIsAfterStart(env, events);
    var sys := Reached(env, events).sys;
    forall id ensures multiset(sys.logouts)[id] == if Dead(sys, id) then 1 else 0 {
      assert id in sys.logouts <==> Dead(sys, id);
      DistinctCount(sys.logouts, id);
    }
  }

  lemma {:induction false} DistinctCount(s: seq<SessionId>, x: SessionId)
    requires forall i, j :: 0 <= i < j < |s| ==> s[i] != s[j]
    ensures multiset(s)[x] == if x in s then 1 else 0
  {
    if s != [] {
      var n := |s| - 1;
      DistinctCount(s[..n], x);
      assert s == s[..n] + [s[n]];
    }
  }

  /** ZOMBIE is absorbing: a dead session is dead in every continuation of the run. */
  lemma DeadForever(env: Environment, before: seq<Event>, after: seq<Event>, id: SessionId)
    requires Sound(env.framer) && Dead(Reached(env, before).sys, id)
    ensures Dead(Reached(env, before + after).sys, id)
  {
    ReachedIsAfterStart(env, before);
    RunIsAfter(env, Reached(env, before), after);
    RunAppend(env, START, before, after);
  }

  lemma {:induction false} ExecAllAppend(sys: System, a: seq<Command>, b: seq<Command>)
    ensures ExecAll(sys, a + b) == ExecAll(ExecAll(sys, a), b)
    decreases |a|
  {
    if a == [] {
      assert a + b == b;
    } else {
      assert (a + b)[0] == a[0] && (a + b)[1..] == a[1..] + b;
      ExecAllAppend(Exec(sys, a[0]), a[1..], b);
    }
  }

  lemma ZombieStays(sys: System, id: SessionId, cs: seq<Command>)
    requires IsZombie(sys, id)
    ensures IsZombie(ExecAll(sys, cs), id)
  {
    ExecAllIsLater(sys, cs);
    assert LaterSession(sys.sessions[id], ExecAll(sys, cs).sessions[id]);
  }

  lemma ZombieIgnoresClose(sys: System, id: SessionId, pre: seq<Command>, onClose: seq<Command>, post: seq<Command>)
    requires IsZombie(sys, id)
    ensures ExecAll(sys, pre + ([Disconnect(id, onClose)] + post)) == ExecAll(sys, pre + post)
  {
    var b, cs := ExecAll(sys, pre), [Disconnect(id, onClose)] + post;
    ZombieStays(sys, id, pre);
    ExecAllAppend(sys, pre, cs);
    ExecAllAppend(sys, pre, post);
    assert cs[0] == Disconnect(id, onClose) && cs[1..] == post;
    assert Exec(b, cs[0]) == b;
  }

  /** The bridge hears of a disconnect only after the session is a zombie: closing the session
      anywhere in the reaction to it does nothing, whatever would have happened inside the close. */
  lemma {:induction false} ReactionFindsZombie(
      sys: System, id: SessionId, pre: seq<Command>, onClose: seq<Command>, post: seq<Command>)
    requires id in sys.sessions
    ensures Exec(sys, Disconnected(id, pre + ([Disconnect(id, onClose)] + post))) ==
            Exec(sys, Disconnected(id, pre + post))
  {
    ZombieIgnoresClose(MakeZombie(sys, id), id, pre, onClose, post);
  }

  lemma DisconnectedLeavesZombie(
      sys: System, id: SessionId, pre: seq<Command>, reaction: seq<Command>, post: seq<Command>)
    requires id in sys.sessions
    ensures IsZombie(ExecAll(sys, pre + ([Disconnected(id, reaction)] + post)), id)
  {
    var b, cs := ExecAll(sys, pre), [Disconnected(id, reaction)] + post;
    ExecAllAppend(sys, pre, cs);
    assert cs[0] == Disconnected(id, reaction) && cs[1..] == post;
    ZombieStays(MakeZombie(b, id), id, reaction);
    ZombieStays(Exec(b, cs[0]), id, post);
  }

  /** When the connection reports Disconnected from inside its own close, at any point of whatever
      else happens there, the close has nothing left to do. */
  lemma {:induction false} SynchronousDisconnect(
      sys: System, id: SessionId, pre: seq<Command>, reaction: seq<Command>, post: seq<Command>)
    requires id in sys.sessions && !IsZombie(sys, id)
    ensures var inside := pre + ([Disconnected(id, reaction)] + post);
      Exec(sys, Disconnect(id, inside)) == ExecAll(sys, inside)
  {
    DisconnectedLeavesZombie(sys, id, pre, reaction, post);
  }

  // ---------- what a session sends ----------

  /** Projection: in any interleaved run over many sessions, a session has attempted to send
      exactly what it was asked to since its creation (addressed to it, broadcast, or produced by
      its own parsing), in order, numbered 1, 2, 3, ... modulo 2^64. */
  lemma SessionProjection(env: Environment, events: seq<Event>, id: SessionId)
    requires Sound(env.framer) && id in Reached(env, events).sys.sessions
    ensures var sys := Reached(env, events).sys;
      var s := sys.sessions[id];
      && s.born <= |sys.calls|
      && Payloads(s.sent) == Addressed(sys.calls[s.born..], id)
      && (forall i :: 0 <= i < |s.sent| ==> s.sent[i].number == (i + 1) % U64)
      && (forall i :: 0 <= i < |s.sent| ==> s.sent[i].target in {"", s.compId})
  {
    ReachedIsAfterStart(env, events);
    var sys := Reached(env, events).sys;
    assert SendsAsAsked(sys, id);
  }

  /** Calls for an id that is not in the table change nothing but the log of the call itself. */
  lemma AbsentIdsAreIgnored(sys: System, c: Command)
    requires !c.Broadcast? && c.session !in sys.sessions
    ensures Exec(sys, c).(calls := sys.calls) == sys
    ensures !c.Deliver? ==> Exec(sys, c) == sys
  {
  }

  // ---------- routes ----------

  /** Replaying the statuses the sessions themselves sent yields exactly the strategy table. */
  lemma ResponsesReconstructRoutes(env: Environment, events: seq<Event>)
    requires Sound(env.framer)
    ensures var sys := Reached(env, events).sys;
      sys.routes.owner == ReplayResponses(sys.calls) && Inverse(sys.routes)
  {
    ReachedIsAfterStart(env, events);
    assert Reconstructed(INITIAL);
  }

  /** A session that enters `make_zombie` from READY ends with no strategy, and the strategies of
      every other session stay where they are. */
  lemma ReadyTeardown(sys: System, id: SessionId)
    requires Inverse(sys.routes) && id in sys.sessions && sys.sessions[id].state.Ready?
    ensures var r := MakeZombie(sys, id).routes;
      forall k :: OwnerIn(r, k) == if OwnerIn(sys.routes, k) == Some(id) then None else OwnerIn(sys.routes, k)
  {
    RemoveAllIsExact(sys.routes, id);
  }

  /** The exact condition under which `make_zombie` itself leaves a session without routes: it was
      READY, or it had none. (A request that is still being handled may grant one afterwards.) */
  lemma TeardownIff(sys: System, id: SessionId)
    requires Inverse(sys.routes) && id in sys.sessions && !IsZombie(sys, id)
    ensures (forall k :: OwnerIn(MakeZombie(sys, id).routes, k) != Some(id)) <==>
            sys.sessions[id].state.Ready? || (forall k :: OwnerIn(sys.routes, k) != Some(id))
  {
    if sys.sessions[id].state.Ready? {
      ReadyTeardown(sys, id);
    } else {
      assert MakeZombie(sys, id).routes == sys.routes;
    }
  }

  /** No session ever is READY, so the teardown never runs: the strategies of a session that is
      gone stay with it in every continuation of the run, and nobody else is ever granted them. */
  lemma DeadSessionsKeepTheirRoutes(
      env: Environment, before: seq<Event>, after: seq<Event>, id: SessionId, strategy: StrategyId)
    requires Sound(env.framer)
    requires Dead(Reached(env, before).sys, id)
    requires OwnerIn(Reached(env, before).sys.routes, strategy) == Some(id)
    ensures NoneReady(Reached(env, before + after).sys)
    ensures OwnerIn(Reached(env, before + after).sys.routes, strategy) == Some(id)
    ensures forall other :: AddRoute(Reached(env, before + after).sys.routes, other, strategy).1 == false
  {
    ReachedIsAfterStart(env, before);
    RunIsAfter(env, Reached(env, before), after);
    RunAppend(env, START, before, after);
  }

  /** An environment in which every byte is a request to be routed for strategy 7. */
  function LogOnEnvironment(): Environment {
    Environment(
      (b: seq<Byte>) => if b == [] then Incomplete else Complete(1, Message("A", 1, UserRequest(LogOnUser, 7))),
      (_: seq<Handled>) => Reaction([], false, []),
      (_: SessionId, _: seq<Handled>) => [])
  }

  function LogOnMessage(): Message { Message("A", 1, UserRequest(LogOnUser, 7)) }

  const ONE_SESSION := INITIAL.(nextSessionId := 1, sessions := map[1 := FreshSession(0)])

  lemma FirstAccept()
    ensures Sound(LogOnEnvironment().framer)
    ensures Step(LogOnEnvironment(), START, Accept([])) == World(ONE_SESSION, map[1 := []])
  {
  }

  lemma FirstMessage()
    ensures var (r, thrown) := HandleMessage(LogOnEnvironment(), ONE_SESSION, 1, LogOnMessage());
      && !thrown && r.sessions.Keys == {1} && r.sessions[1].state == WaitingLogon
      && r.routes.owner == map[7 := 1]
      && r.logouts == [] && r.zombies == {} && r.nextCleanup == 0
  {
  }

  lemma FirstRead()
    ensures Sound(LogOnEnvironment().framer)
    ensures Step(LogOnEnvironment(), World(ONE_SESSION, map[1 := []]), Read(1, [0])).sys ==
            HandleMessage(LogOnEnvironment(), ONE_SESSION, 1, LogOnMessage()).0
  {
    var h := LoopOf(LogOnEnvironment(), 1);
    FirstMessage();
    assert [] + [0] == [0];
    assert h.step(ONE_SESSION, LogOnMessage()) == HandleMessage(LogOnEnvironment(), ONE_SESSION, 1, LogOnMessage());
    assert Consume(h, ONE_SESSION, [0]).world == h.step(ONE_SESSION, LogOnMessage()).0;
  }

  /** A first byte from client 1 gets strategy 7 routed to it. */
  lemma LogOnIsRouted()
    ensures Sound(LogOnEnvironment().framer)
    ensures var sys := Run(LogOnEnvironment(), START, [Accept([]), Read(1, [0])]).sys;
      && sys.sessions.Keys == {1} && sys.sessions[1].state == WaitingLogon
      && sys.routes.owner == map[7 := 1]
      && sys.logouts == [] && sys.zombies == {} && sys.nextCleanup == 0
  {
    FirstAccept();
    FirstMessage();
    FirstRead();
    var env, w := LogOnEnvironment(), World(ONE_SESSION, map[1 := []]);
    assert [Accept([]), Read(1, [0])][1..] == [Read(1, [0])];
    assert Run(env, w, [Read(1, [0])]) == Step(env, w, Read(1, [0]));
  }

  /** The documented intent, that the route is removed when the client disconnects, fails: here the
      client logs on, disconnects and is cleaned up, and the route is still there. */
  lemma DisconnectLeavesRoute()
    ensures Sound(LogOnEnvironment().framer)
    ensures var events := [Accept([]), Read(1, [0])] + [Emit([Disconnected(1, [])]), Tick(1)];
      var sys := Reached(LogOnEnvironment(), events).sys;
      sys.sessions == map[] && sys.logouts == [1] && sys.routes.owner == map[7 := 1]
  {
    var env := LogOnEnvironment();
    LogOnIsRouted();
    var w := Run(env, START, [Accept([]), Read(1, [0])]);
    var e1, e2 := Emit([Disconnected(1, [])]), Tick(1);
    RunAppend(env, START, [Accept([]), Read(1, [0])], [e1, e2]);
    var w1 := Step(env, w, e1);
    assert ExecAll(w.sys, [Disconnected(1, [])]) == MakeZombie(w.sys, 1);
    assert [e1, e2][1..] == [e2];
    assert Run(env, w1, [e2]) == Step(env, w1, e2);
    assert Step(env, w1, e2).sys.sessions == map[];
  }

  // ---------- reading ----------

  ghost function Reads(id: SessionId, chunks: seq<seq<Byte>>): seq<Event> {
    seq(|chunks|, i requires 0 <= i < |chunks| => Read(id, chunks[i]))
  }

  lemma {:induction false} ReadsAreFeeds(env: Environment, w: World, id: SessionId, chunks: seq<seq<Byte>>)
    requires Sound(env.framer) && id in w.buffers
    ensures var link := FeedAll(LoopOf(env, id), Link(w.sys, w.buffers[id]), chunks);
      Run(env, w, Reads(id, chunks)) == World(link.world, w.buffers[id := link.buffer])
    decreases |chunks|
  {
    if chunks == [] {
      assert w.buffers == w.buffers[id := w.buffers[id]];
    } else {
      var next := Step(env, w, Read(id, chunks[0]));
      var link := Feed(LoopOf(env, id), Link(w.sys, w.buffers[id]), chunks[0]);
      assert next == World(link.world, w.buffers[id := link.buffer]);
      assert Reads(id, chunks)[1..] == Reads(id, chunks[1..]);
      ReadsAreFeeds(env, next, id, chunks[1..]);
      var last := FeedAll(LoopOf(env, id), link, chunks[1..]);
      assert next.buffers[id := last.buffer] == w.buffers[id := last.buffer];
    }
  }

  /** How many of the messages are handled: up to and with the first that leaves the session dead. */
  ghost function Cut(h: Handler<System, Message>, sys: System, messages: seq<Message>): nat
    decreases |messages|
  {
    if h.dead(sys) || messages == [] then 0 else 1 + Cut(h, h.step(sys, messages[0]).0, messages[1..])
  }

  function LogOf(id: SessionId, messages: seq<Message>): seq<Handled> {
    seq(|messages|, i requires 0 <= i < |messages| => Handled(id, messages[i]))
  }

  lemma HandleMessageLogs(env: Environment, sys: System, id: SessionId, m: Message)
    requires id in sys.sessions
    ensures HandleMessage(env, sys, id, m).0.handled == sys.handled + [Handled(id, m)]
  {
    var a := CheckHeader(LogReceived(sys, id, m), id, m);
    if !m.body.Unsupported? {
      var reaction := env.react(a.handled);
      var b := ExecAll(a, reaction.commands);
      ExecAllIsLater(a, reaction.commands);
      if reaction.throws {
        CloseIsLater(b, id, reaction.onClose);
      }
    }
  }

  lemma LogOfStep(id: SessionId, messages: seq<Message>, n: nat)
    requires n < |messages|
    ensures LogOf(id, messages[..n + 1]) == [Handled(id, messages[0])] + LogOf(id, messages[1..][..n])
  {
  }

  lemma {:induction false} HandleAllLogs(env: Environment, sys: System, id: SessionId, messages: seq<Message>)
    requires id in sys.sessions
    ensures var h, n := LoopOf(env, id), Cut(LoopOf(env, id), sys, messages);
      var r := HandleAll(h, sys, messages);
      && id in r.sessions
      && n <= |messages|
      && r.handled == sys.handled + LogOf(id, messages[..n])
      && (n < |messages| ==> h.dead(r))
    decreases |messages|
  {
    var h := LoopOf(env, id);
    if messages != [] && !h.dead(sys) {
      var next := HandleMessage(env, sys, id, messages[0]).0;
      assert h.step(sys, messages[0]).0 == next;
      HandleMessageLogs(env, sys, id, messages[0]);
      HandleAllLogs(env, next, id, messages[1..]);
      LogOfStep(id, messages, Cut(h, next, messages[1..]));
    }
  }

  /** Inbound conservation over a whole run: for the numbers a session has handled so far, what
      `check` reported accounts for its inbound counter, up to the turns of the counter. */
  lemma InboundConservedInRuns(env: Environment, events: seq<Event>, id: SessionId)
    requires Sound(env.framer) && id in Reached(env, events).sys.sessions
    ensures var sys := Reached(env, events).sys;
      var numbers := NumbersOf(sys.handled, id);
      Accounted(numbers) == sys.sessions[id].inbound + U64 * Wraps(numbers)
  {
    ReachedIsAfterStart(env, events);
    InboundConserved(NumbersOf(Reached(env, events).sys.handled, id));
  }

  // ---------- cleanup ----------

  /** Timer ticks never go back and are at most `d` apart, counting from `last`. */
  ghost predicate Paced(events: seq<Event>, last: int, d: int)
    decreases |events|
  {
    events != [] ==>
      match events[0]
      case Tick(now) => last <= now <= last + d && Paced(events[1..], now, d)
      case _ => Paced(events[1..], last, d)
  }

  ghost function LastTick(events: seq<Event>, last: int): int
    decreases |events|
  {
    if events == [] then last
    else LastTick(events[1..], if events[0].Tick? then events[0].now else last)
  }

  lemma NonTickKeepsTable(env: Environment, w: World, e: Event)
    requires Sound(env.framer) && WorldInv(w) && !e.Tick?
    ensures Step(env, w, e).sys.nextCleanup == w.sys.nextCleanup
    ensures w.sys.sessions.Keys <= Step(env, w, e).sys.sessions.Keys
  {
    match e {
      case Accept(reaction) =>
        AcceptKeepsInv(w.sys);
        ExecAllIsLater(Accepted(w.sys), reaction);
      case Read(id, chunk) =>
        if id in w.buffers && !IsZombie(w.sys, id) {
          ConsumeIsLater(env, w.sys, id, w.buffers[id] + chunk);
        }
      case Emit(commands) =>
        ExecAllIsLater(w.sys, commands);
      case Tick(_) =>
    }
  }

  /** The event at position `i` is a tick no later than `deadline`, and `id` is out of the table
      after it. */
  ghost predicate RemovedAt(env: Environment, w: World, events: seq<Event>, i: nat, deadline: int, id: SessionId)
    requires Sound(env.framer)
  {
    && i < |events| && events[i].Tick? && events[i].now <= deadline
    && id !in Run(env, w, events[..i + 1]).sys.sessions
  }

  ghost predicate RemovedBy(env: Environment, w: World, events: seq<Event>, limit: int, id: SessionId)
    requires Sound(env.framer)
  {
    exists i :: RemovedAt(env, w, events, i, limit, id)
  }

  lemma RemovedNow(env: Environment, w: World, events: seq<Event>, limit: int, id: SessionId)
    requires Sound(env.framer) && WorldInv(w) && IsZombie(w.sys, id)
    requires events != [] && events[0].Tick? && w.sys.nextCleanup < events[0].now <= limit
    ensures RemovedAt(env, w, events, 0, limit, id)
  {
  }

  lemma RemovedLater(env: Environment, w: World, events: seq<Event>, i: nat, limit: int, id: SessionId)
    requires Sound(env.framer) && events != []
    requires RemovedAt(env, Step(env, w, events[0]), events[1..], i, limit, id)
    ensures RemovedAt(env, w, events, i + 1, limit, id)
  {
    assert events[..i + 2][1..] == events[1..][..i + 1];
  }

  lemma {:induction false} RemovedByDeadline(
      env: Environment, w: World, events: seq<Event>, last: int, deadline: int, d: int, limit: int, id: SessionId)
    requires Sound(env.framer) && WorldInv(w) && IsZombie(w.sys, id)
    requires w.sys.nextCleanup <= deadline && last <= deadline && limit == deadline + d
    requires Paced(events, last, d) && deadline < LastTick(events, last)
    ensures RemovedBy(env, w, events, limit, id)
    decreases |events|
  {
    var e := events[0];
    var next := Step(env, w, e);
    StepIsAfter(env, w, e);
    assert Dead(w.sys, id) && Dead(next.sys, id);
    if e.Tick? && w.sys.nextCleanup < e.now {
      RemovedNow(env, w, events, limit, id);
    } else {
      if !e.Tick? {
        NonTickKeepsTable(env, w, e);
      }
      RemovedByDeadline(env, next, events[1..], if e.Tick? then e.now else last, deadline, d, limit, id);
      var i :| RemovedAt(env, next, events[1..], i, limit, id);
      RemovedLater(env, w, events, i, limit, id);
    }
  }

  lemma {:induction false} CleanupIsScheduled(env: Environment, w: World, events: seq<Event>, last: int, d: int)
    requires Sound(env.framer) && WorldInv(w)
    requires w.sys.nextCleanup <= last + CLEANUP_FREQUENCY && Paced(events, last, d)
    ensures Run(env, w, events).sys.nextCleanup <= LastTick(events, last) + CLEANUP_FREQUENCY
    decreases |events|
  {
    if events != [] {
      StepIsAfter(env, w, events[0]);
      if !events[0].Tick? {
        NonTickKeepsTable(env, w, events[0]);
      }
      CleanupIsScheduled(env, Step(env, w, events[0]), events[1..],
        if events[0].Tick? then events[0].now else last, d);
    }
  }

  lemma {:induction false} PacedSplit(a: seq<Event>, b: seq<Event>, last: int, d: int)
    requires Paced(a + b, last, d)
    ensures Paced(a, last, d) && Paced(b, LastTick(a, last), d)
    decreases |a|
  {
    if a == [] {
      assert a + b == b;
    } else {
      assert (a + b)[1..] == a[1..] + b;
      PacedSplit(a[1..], b, if a[0].Tick? then a[0].now else last, d);
    }
  }

  /** Cleanup timing: take any instant `start` from which ticks never go back and are at most `d`
      apart; the time of the first tick itself will do. A session that is a zombie after `before`
      (so it was registered no earlier than the last tick of `before`) is out of the table at a tick
      at most CLEANUP_FREQUENCY + d later, if ticks go on that long. The clock is only assumed to
      read no earlier than one CLEANUP_FREQUENCY before zero, where the first cleanup is due. */
  lemma ZombiesAreRemovedInTime(
      env: Environment, before: seq<Event>, after: seq<Event>, start: int, d: int, id: SessionId)
    requires Sound(env.framer) && 0 <= start + CLEANUP_FREQUENCY && Paced(before + after, start, d)
    requires IsZombie(Reached(env, before).sys, id)
    requires LastTick(before, start) + CLEANUP_FREQUENCY < LastTick(after, LastTick(before, start))
    ensures RemovedBy(env, Reached(env, before), after, LastTick(before, start) + CLEANUP_FREQUENCY + d, id)
  {
    var now := LastTick(before, start);
    ReachedIsAfterStart(env, before);
    PacedSplit(before, after, start, d);
    CleanupIsScheduled(env, START, before, start, d);
    RemovedByDeadline(env, Reached(env, before), after, now, now + CLEANUP_FREQUENCY, d,
      now + CLEANUP_FREQUENCY + d, id);
  }

  /** The times of the ticks that cleaned up. */
  ghost function CleanupTimes(env: Environment, w: World, events: seq<Event>): seq<int>
    requires Sound(env.framer)
    decreases |events|
  {
    if events == [] then []
    else
      var rest := CleanupTimes(env, Step(env, w, events[0]), events[1..]);
      if events[0].Tick? && w.sys.nextCleanup < events[0].now then [events[0].now] + rest else rest
  }

  /** Consecutive cleanups are strictly more than CLEANUP_FREQUENCY apart, whatever the ticks. */
  lemma {:induction false} CleanupsAreSpaced(env: Environment, w: World, events: seq<Event>)
    requires Sound(env.framer) && WorldInv(w)
    ensures var times := CleanupTimes(env, w, events);
      && (times != [] ==> w.sys.nextCleanup < times[0])
      && (forall i :: 0 < i < |times| ==> times[i - 1] + CLEANUP_FREQUENCY < times[i])
    decreases |events|
  {
    if events != [] {
      StepIsAfter(env, w, events[0]);
      if !events[0].Tick? {
        NonTickKeepsTable(env, w, events[0]);
      }
      CleanupsAreSpaced(env, Step(env, w, events[0]), events[1..]);
    }
  }
}
