/** The session side of the bridge as one state machine: the session table, its zombies, the
    routes, and everything the sessions attempt to send.

    The FIX bridge library, the sockets and the listener are the environment. It may make any
    call, from the top of the event loop or from inside a call that the sessions make: what it
    does inside `Connection::close` or in reaction to an event is a tree of commands. */
module Bridge {
  import opened ReadLoop
  import opened SequenceNumbers
  import opened Routes

  /** One second, in nanoseconds. */
  const CLEANUP_FREQUENCY := 1_000_000_000

  // ---------- messages ----------

  datatype RequestType =
    | Undefined | Unknown | LogOnUser | LogOffUser | ChangePassword | IndividualStatus

  datatype UserStatus = LoggedIn | NotLoggedIn | Other

  datatype Body =
    | UserRequest(kind: RequestType, strategy: StrategyId)
    | Supported(content: seq<Byte>)
    | Unsupported

  /** An inbound message: the two header fields that are looked at, and what it asks for. */
  datatype Message = Message(sender: string, number: Seq64, body: Body)

  datatype Payload =
    | FromBridge(content: seq<Byte>)
    | UserResponse(strategy: StrategyId, status: UserStatus)
    | UnsupportedMessage(number: Seq64)

  /** One attempt to send; the number is used up whether or not the connection accepts it. */
  datatype Sent = Sent(number: Seq64, target: string, payload: Payload)

  // ---------- state ----------

  datatype State = WaitingLogon | Ready | Zombie

  /** `born` is the length of the call log when the session was created. */
  datatype SessionState = SessionState(
    state: State, compId: string, inbound: Seq64, outbound: Seq64, sent: seq<Sent>, born: nat)

  datatype Handled = Handled(session: SessionId, message: Message)

  /** A message handed over for sending: by the bridge to one session or to all, or by a session. */
  datatype Call =
    | To(session: SessionId, content: seq<Byte>)
    | All(content: seq<Byte>)
    | Own(session: SessionId, payload: Payload)

  datatype System = System(
    sessions: map<SessionId, SessionState>,
    nextSessionId: nat,
    zombies: set<SessionId>,
    nextCleanup: int,
    routes: Table,
    handled: seq<Handled>,
    calls: seq<Call>,
    logouts: seq<SessionId>)

  const INITIAL := System(map[], 0, {}, 0, NO_ROUTES, [], [], [])

  // ---------- the environment ----------

  /** A call made by the bridge or by a connection. `onClose` is what happens while the session is
      inside `Connection::close`; it may contain the connection's own Disconnected. */
  datatype Command =
    | Deliver(session: SessionId, content: seq<Byte>)
    | Broadcast(content: seq<Byte>)
    | Disconnect(session: SessionId, onClose: seq<Command>)
    | Disconnected(session: SessionId, reaction: seq<Command>)

  /** What the bridge does with a message; an exception leads to a close of the session. */
  datatype Reaction = Reaction(commands: seq<Command>, throws: bool, onClose: seq<Command>)

  /** The bridge has its own state: it may react to a message in the light of all before it. */
  datatype Environment = Environment(
    framer: seq<Byte> -> Frame<Message>,
    react: seq<Handled> -> Reaction,
    onFramingError: (SessionId, seq<Handled>) -> seq<Command>)

  // ---------- sending ----------

  function Attempt(s: SessionState, payload: Payload): SessionState {
    var number := Inc(s.outbound);
    s.(outbound := number, sent := s.sent + [Sent(number, s.compId, payload)])
  }

  function Send(sys: System, id: SessionId, payload: Payload): System
    requires id in sys.sessions
  {
    sys.(sessions := sys.sessions[id := Attempt(sys.sessions[id], payload)])
  }

  function SendAll(sys: System, payload: Payload): System {
    sys.(sessions := map id | id in sys.sessions :: Attempt(sys.sessions[id], payload))
  }

  /** A message the session itself produces. */
  function SendOwn(sys: System, id: SessionId, payload: Payload): System
    requires id in sys.sessions
  {
    Send(sys.(calls := sys.calls + [Own(id, payload)]), id, payload)
  }

  // ---------- closing ----------

  predicate IsZombie(sys: System, id: SessionId) {
    id in sys.sessions && sys.sessions[id].state.Zombie?
  }

  /** `SessionManager` hears of a session that became a zombie. */
  function Notify(sys: System, id: SessionId): System {
    sys.(zombies := sys.zombies + {id}, logouts := sys.logouts + [id])
  }

  function MakeZombie(sys: System, id: SessionId): (r: System)
    requires id in sys.sessions
    ensures r.sessions.Keys == sys.sessions.Keys && IsZombie(r, id)
  {
    var s := sys.sessions[id];
    var torn := if s.state.Ready? then sys.(routes := RemoveAllRoutes(sys.routes, id)) else sys;
    if s.state.Zombie? then
      torn
    else
      Notify(torn.(sessions := torn.sessions[id := s.(state := Zombie)]), id)
  }

  function Close(sys: System, id: SessionId, onClose: seq<Command>): (r: System)
    requires id in sys.sessions
    ensures r.sessions.Keys == sys.sessions.Keys && IsZombie(r, id)
    decreases onClose, 1
  {
    if IsZombie(sys, id) then sys else MakeZombie(ExecAll(sys, onClose), id)
  }

  /** The controller executes one call; calls for a session that is not in the table do nothing. */
  function Exec(sys: System, c: Command): (r: System)
    ensures r.sessions.Keys == sys.sessions.Keys
    decreases c
  {
    match c
    case Deliver(id, content) =>
      var logged := sys.(calls := sys.calls + [To(id, content)]);
      if id in sys.sessions then Send(logged, id, FromBridge(content)) else logged
    case Broadcast(content) =>
      SendAll(sys.(calls := sys.calls + [All(content)]), FromBridge(content))
    case Disconnect(id, onClose) =>
      if id in sys.sessions then Close(sys, id, onClose) else sys
    case Disconnected(id, reaction) =>
      if id in sys.sessions then ExecAll(MakeZombie(sys, id), reaction) else sys
  }

  function ExecAll(sys: System, cs: seq<Command>): (r: System)
    ensures r.sessions.Keys == sys.sessions.Keys
    decreases cs, 0
  {
    if cs == [] then sys else ExecAll(Exec(sys, cs[0]), cs[1..])
  }

  // ---------- handling a message ----------

  /** The header check: the first sender names the counterparty, the inbound counter follows. */
  function CheckHeader(sys: System, id: SessionId, m: Message): System
    requires id in sys.sessions
  {
    var s := sys.sessions[id];
    sys.(sessions := sys.sessions[id := s.(compId := if s.compId == "" then m.sender else s.compId, inbound := m.number)])
  }

  /** Routing by strategy: the new routes, and the status that answers the client. */
  function Routed(routes: Table, id: SessionId, kind: RequestType, strategy: StrategyId): (Table, UserStatus) {
    match kind
    case Undefined | Unknown | LogOnUser =>
      var (added, success) := AddRoute(routes, id, strategy);
      (added, if success then LoggedIn else Other)
    case LogOffUser =>
      var (removed, success) := RemoveRoute(routes, id, strategy);
      (removed, if success then NotLoggedIn else Other)
    case ChangePassword | IndividualStatus =>
      (routes, Other)
  }

  function HandleUserRequest(sys: System, id: SessionId, kind: RequestType, strategy: StrategyId): System
    requires id in sys.sessions
  {
    var (routes, status) := Routed(sys.routes, id, kind, strategy);
    SendOwn(sys.(routes := routes), id, UserResponse(strategy, status))
  }

  /** A checked message: the bridge reacts first, then a user request is carried out. An exception
      closes the session. */
  function Parse(env: Environment, sys: System, id: SessionId, m: Message): (r: (System, bool))
    requires id in sys.sessions
    ensures r.0.sessions.Keys == sys.sessions.Keys
    ensures r.1 ==> IsZombie(r.0, id)
  {
    if m.body.Unsupported? then
      (SendOwn(sys, id, UnsupportedMessage(m.number)), false)
    else
      var reaction := env.react(sys.handled);
      var reacted := ExecAll(sys, reaction.commands);
      if reaction.throws then
        (Close(reacted, id, reaction.onClose), true)
      else if m.body.UserRequest? then
        (HandleUserRequest(reacted, id, m.body.kind, m.body.strategy), false)
      else
        (reacted, false)
  }

  function LogReceived(sys: System, id: SessionId, m: Message): System {
    sys.(handled := sys.handled + [Handled(id, m)])
  }

  /** One framed message; the flag tells whether an exception escaped, which closes the session. */
  function HandleMessage(env: Environment, sys: System, id: SessionId, m: Message): (r: (System, bool))
    requires id in sys.sessions
    ensures r.0.sessions.Keys == sys.sessions.Keys
    ensures r.1 ==> IsZombie(r.0, id)
  {
    Parse(env, CheckHeader(LogReceived(sys, id, m), id, m), id, m)
  }

  /** The read loop of session `id`, over the state of the whole system. */
  function LoopOf(env: Environment, id: SessionId): Handler<System, Message> {
    Handler(
      env.framer,
      (sys: System, m: Message) => if id in sys.sessions then HandleMessage(env, sys, id, m) else (sys, false),
      (sys: System) => if id in sys.sessions then Close(sys, id, env.onFramingError(id, sys.handled)) else sys,
      (sys: System) => id !in sys.sessions || IsZombie(sys, id))
  }

  // ---------- events ----------

  /** The system together with the bytes each session has buffered. */
  datatype World = World(sys: System, buffers: map<SessionId, seq<Byte>>)

  const START := World(INITIAL, map[])

  datatype Event =
    | Accept(reaction: seq<Command>)
    | Read(session: SessionId, chunk: seq<Byte>)
    | Tick(now: int)
    | Emit(commands: seq<Command>)

  function FreshSession(calls: nat): SessionState {
    SessionState(WaitingLogon, "", 0, 0, [], calls)
  }

  /** `emplace`: an id that is already taken would be left alone. */
  function AddSession(sys: System, id: SessionId): System {
    if id in sys.sessions then sys
    else sys.(sessions := sys.sessions[id := FreshSession(|sys.calls|)])
  }

  /** A new connection gets the next id and a table entry of its own. */
  function Accepted(sys: System): System {
    AddSession(sys.(nextSessionId := sys.nextSessionId + 1), sys.nextSessionId + 1)
  }

  function RemoveZombies(sys: System): System {
    sys.(sessions := sys.sessions - sys.zombies, zombies := {})
  }

  ghost function Step(env: Environment, w: World, e: Event): World
    requires Sound(env.framer)
  {
    match e
    case Accept(reaction) =>
      var id := w.sys.nextSessionId + 1;
      World(ExecAll(Accepted(w.sys), reaction), if id in w.buffers then w.buffers else w.buffers[id := []])
    case Read(id, chunk) =>
      if id in w.buffers then
        var link := Feed(LoopOf(env, id), Link(w.sys, w.buffers[id]), chunk);
        World(link.world, w.buffers[id := link.buffer])
      else
        w
    case Tick(now) =>
      if w.sys.nextCleanup < now then
        World(RemoveZombies(w.sys.(nextCleanup := now + CLEANUP_FREQUENCY)), w.buffers - w.sys.zombies)
      else
        w
    case Emit(commands) =>
      World(ExecAll(w.sys, commands), w.buffers)
  }

  ghost function Run(env: Environment, w: World, events: seq<Event>): World
    requires Sound(env.framer)
    decreases |events|
  {
    if events == [] then w else Run(env, Step(env, w, events[0]), events[1..])
  }
}
