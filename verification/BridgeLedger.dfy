/** A reference for whole runs that knows nothing of the sessions' own fields: who is in the table,
    who is live, who owns which strategy, and a journal of what happened in the order in which it
    happened. Everything a session holds is a projection of the journal. */
module BridgeLedger {
  import opened ReadLoop
  import opened SequenceNumbers
  import opened Routes
  import opened Bridge
  import opened BridgeSafety
  import opened BridgeTheorems
  import opened BridgeTeardown
  import opened BridgeStreams

  /** A session was accepted, received a message, answered one, or died; or the environment executed a
      command to deliver to one session or to all. */
  datatype Entry =
    | Born(session: SessionId)
    | Received(session: SessionId, message: Message)
    | Answered(session: SessionId, payload: Payload)
    | Died(session: SessionId)
    | Delivered(recipient: SessionId, content: seq<Byte>)
    | Broadcasted(content: seq<Byte>)

  datatype Ledger = Ledger(
    accepted: nat,
    table: set<SessionId>,
    live: set<SessionId>,
    due: int,
    owner: map<StrategyId, SessionId>,
    journal: seq<Entry>)

  const BLANK := Ledger(0, {}, {}, 0, map[], [])

  // ---------- what happens ----------

  function Note(l: Ledger, e: Entry): Ledger {
    l.(journal := l.journal + [e])
  }

  /** The next session enters the table. */
  function Birth(l: Ledger): Ledger {
    var id := l.accepted + 1;
    Note(l.(accepted := id, table := l.table + {id}, live := l.live + {id}), Born(id))
  }

  /** A session dies once. */
  function Bury(l: Ledger, id: SessionId): Ledger {
    if id in l.live then Note(l.(live := l.live - {id}), Died(id)) else l
  }

  /** A close is for the living: what happens inside it comes first. */
  function Kill(l: Ledger, id: SessionId, onClose: seq<Command>): Ledger
    decreases onClose, 1
  {
    if id in l.live then Bury(DoAll(l, onClose), id) else l
  }

  /** A command that is executed: a message is handed over whatever becomes of it, a close is as
      above, and a disconnect buries the session before the bridge reacts to it. */
  function Do(l: Ledger, c: Command): Ledger
    decreases c
  {
    match c
    case Deliver(id, content) => Note(l, Delivered(id, content))
    case Broadcast(content) => Note(l, Broadcasted(content))
    case Disconnect(id, onClose) => Kill(l, id, onClose)
    case Disconnected(id, reaction) => if id in l.table then DoAll(Bury(l, id), reaction) else l
  }

  function DoAll(l: Ledger, cs: seq<Command>): Ledger
    decreases cs, 0
  {
    if cs == [] then l else DoAll(Do(l, cs[0]), cs[1..])
  }

  function Respond(l: Ledger, id: SessionId, strategy: StrategyId, status: UserStatus): Ledger {
    Note(l, Answered(id, UserResponse(strategy, status)))
  }

  /** A log-on takes a free strategy, a log-off gives up an own one; the response says which. */
  function Request(l: Ledger, id: SessionId, kind: RequestType, strategy: StrategyId): Ledger {
    if IsLogOn(kind) && strategy !in l.owner then
      Respond(l.(owner := l.owner[strategy := id]), id, strategy, LoggedIn)
    else if kind.LogOffUser? && strategy in l.owner && l.owner[strategy] == id then
      Respond(l.(owner := l.owner - {strategy}), id, strategy, NotLoggedIn)
    else
      Respond(l, id, strategy, Other)
  }

  /** A message is received; one of unknown type is rejected by its number; any other is reacted to by
      the bridge, and then kills the session if the bridge throws, or is answered if it is a request. */
  function DoMessage(env: Environment, l: Ledger, id: SessionId, m: Message): Ledger {
    var got := Note(l, Received(id, m));
    if m.body.Unsupported? then
      Note(got, Answered(id, UnsupportedMessage(m.number)))
    else
      var reaction := env.react(MessagesIn(got.journal));
      var reacted := DoAll(got, reaction.commands);
      if reaction.throws then Kill(reacted, id, reaction.onClose)
      else if m.body.UserRequest? then Request(reacted, id, m.body.kind, m.body.strategy)
      else reacted
  }

  /** Messages are received as long as the session lives. */
  function DoMessages(env: Environment, l: Ledger, id: SessionId, messages: seq<Message>): Ledger
    decreases |messages|
  {
    if id !in l.live || messages == [] then l else DoMessages(env, DoMessage(env, l, id, messages[0]), id, messages[1..])
  }

  /** The messages that `chunk` completes in a stream. */
  ghost function Completed(framer: seq<Byte> -> Frame<Message>, stream: seq<Byte>, chunk: seq<Byte>): seq<Message>
    requires Sound(framer)
  {
    FramingExtends(framer, stream, chunk);
    FramingOf(framer, stream + chunk).messages[|FramingOf(framer, stream).messages|..]
  }

  /** `stream` is all that the session has received before the chunk. */
  ghost function DoRead(env: Environment, l: Ledger, id: SessionId, stream: seq<Byte>, chunk: seq<Byte>): Ledger
    requires Sound(env.framer)
  {
    if id !in l.live then l
    else
      var done := DoMessages(env, l, id, Completed(env.framer, stream, chunk));
      if FramingOf(env.framer, stream + chunk).invalid then
        Kill(done, id, env.onFramingError(id, MessagesIn(done.journal)))
      else
        done
  }

  ghost function DoEvent(env: Environment, l: Ledger, before: seq<Event>, e: Event): Ledger
    requires Sound(env.framer)
  {
    match e
    case Accept(reaction) =>
      DoAll(Birth(l), reaction)
    case Read(id, chunk) =>
      DoRead(env, l, id, BytesTo(before, id), chunk)
    case Tick(now) =>
      if l.due < now then l.(table := l.live, due := now + 1_000_000_000) else l
    case Emit(commands) =>
      DoAll(l, commands)
  }

  ghost function Story(env: Environment, events: seq<Event>): Ledger
    requires Sound(env.framer)
    decreases |events|
  {
    if events == [] then BLANK
    else
      var init := events[..|events| - 1];
      DoEvent(env, Story(env, init), init, events[|events| - 1])
  }

  // ---------- projections of the journal ----------

  /** The entry hands a message over for sending. */
  predicate HandsOver(e: Entry) { e.Answered? || e.Delivered? || e.Broadcasted? }

  /** What the entry hands over to session `id`. */
  function HandedTo(e: Entry, id: SessionId): seq<Payload> {
    match e
    case Answered(session, payload) => if session == id then [payload] else []
    case Delivered(recipient, content) => if recipient == id then [FromBridge(content)] else []
    case Broadcasted(content) => [FromBridge(content)]
    case _ => []
  }

  function CallOf(e: Entry): Call
    requires HandsOver(e)
  {
    match e
    case Answered(session, payload) => Own(session, payload)
    case Delivered(recipient, content) => To(recipient, content)
    case Broadcasted(content) => All(content)
  }

  function CallsIn(journal: seq<Entry>): seq<Call> {
    if journal == [] then []
    else
      var init, last := journal[..|journal| - 1], journal[|journal| - 1];
      if HandsOver(last) then CallsIn(init) + [CallOf(last)] else CallsIn(init)
  }

  function MessagesIn(journal: seq<Entry>): seq<Handled> {
    if journal == [] then []
    else
      var init, last := journal[..|journal| - 1], journal[|journal| - 1];
      if last.Received? then MessagesIn(init) + [Handled(last.session, last.message)] else MessagesIn(init)
  }

  function DeathsIn(journal: seq<Entry>): seq<SessionId> {
    if journal == [] then []
    else
      var init, last := journal[..|journal| - 1], journal[|journal| - 1];
      if last.Died? then DeathsIn(init) + [last.session] else DeathsIn(init)
  }

  /** The first sender that is not empty; "" if there is none. */
  function FirstSender(messages: seq<Message>): string {
    if messages == [] then ""
    else if messages[0].sender != "" then messages[0].sender
    else FirstSender(messages[1..])
  }

  /** The counterparty of a session: the first sender that it has heard from. */
  function Counterparty(journal: seq<Entry>, id: SessionId): string {
    FirstSender(MessagesOf(MessagesIn(journal), id))
  }

  /** The attempts of a session: one for every message it was handed since its birth, each numbered by
      its position and addressed to the counterparty known by then. */
  function SentBy(journal: seq<Entry>, id: SessionId): seq<Sent> {
    if journal == [] then []
    else
      var init, last := journal[..|journal| - 1], journal[|journal| - 1];
      var sent := SentBy(init, id);
      if Born(id) in init && HandedTo(last, id) != [] then
        sent + [Sent((|sent| + 1) % U64, Counterparty(init, id), HandedTo(last, id)[0])]
      else
        sent
  }

  /** The length of the call log at the birth of the session. */
  function CallsAtBirth(journal: seq<Entry>, id: SessionId): nat {
    if journal == [] then 0
    else if journal[|journal| - 1] == Born(id) then |CallsIn(journal[..|journal| - 1])|
    else CallsAtBirth(journal[..|journal| - 1], id)
  }

  function SessionIn(journal: seq<Entry>, id: SessionId): SessionState {
    SessionState(
      if Died(id) in journal then Zombie else WaitingLogon,
      Counterparty(journal, id),
      Inbound(NumbersOf(MessagesIn(journal), id)),
      |SentBy(journal, id)| % U64,
      SentBy(journal, id),
      CallsAtBirth(journal, id))
  }

  lemma FirstSenderStep(messages: seq<Message>, m: Message)
    ensures FirstSender(messages + [m]) == if FirstSender(messages) == "" then m.sender else FirstSender(messages)
  {
    if messages != [] {
      assert (messages + [m])[1..] == messages[1..] + [m];
      FirstSenderStep(messages[1..], m);
    }
  }

  lemma Appended(journal: seq<Entry>, e: Entry)
    ensures (journal + [e])[..|journal|] == journal
    ensures CallsIn(journal + [e]) == if HandsOver(e) then CallsIn(journal) + [CallOf(e)] else CallsIn(journal)
    ensures MessagesIn(journal + [e]) ==
            if e.Received? then MessagesIn(journal) + [Handled(e.session, e.message)] else MessagesIn(journal)
    ensures DeathsIn(journal + [e]) == if e.Died? then DeathsIn(journal) + [e.session] else DeathsIn(journal)
    ensures forall x :: Died(x) in journal + [e] <==> Died(x) in journal || e == Died(x)
    ensures forall x :: Born(x) in journal + [e] <==> Born(x) in journal || e == Born(x)
  {
    assert (journal + [e])[..|journal|] == journal;
  }

  lemma HeardStep(handled: seq<Handled>, h: Handled, x: SessionId)
    ensures MessagesOf(handled + [h], x) ==
            if h.session == x then MessagesOf(handled, x) + [h.message] else MessagesOf(handled, x)
    ensures NumbersOf(handled + [h], x) ==
            if h.session == x then NumbersOf(handled, x) + [h.message.number] else NumbersOf(handled, x)
  {
    assert (handled + [h])[..|handled|] == handled;
  }

  lemma CounterpartyStep(journal: seq<Entry>, e: Entry, x: SessionId)
    ensures Counterparty(journal + [e], x) ==
            if e.Received? && e.session == x && Counterparty(journal, x) == "" then e.message.sender
            else Counterparty(journal, x)
  {
    Appended(journal, e);
    if e.Received? {
      HeardStep(MessagesIn(journal), Handled(e.session, e.message), x);
      FirstSenderStep(MessagesOf(MessagesIn(journal), x), e.message);
    }
  }

  lemma NumbersStep(journal: seq<Entry>, e: Entry, x: SessionId)
    ensures Inbound(NumbersOf(MessagesIn(journal + [e]), x)) ==
            if e.Received? && e.session == x then e.message.number else Inbound(NumbersOf(MessagesIn(journal), x))
  {
    Appended(journal, e);
    if e.Received? {
      HeardStep(MessagesIn(journal), Handled(e.session, e.message), x);
    }
  }

  lemma SentStep(journal: seq<Entry>, e: Entry, x: SessionId)
    ensures var sent := SentBy(journal, x);
      && SentBy(journal + [e], x) ==
         (if Born(x) in journal && HandedTo(e, x) != [] then
            sent + [Sent((|sent| + 1) % U64, Counterparty(journal, x), HandedTo(e, x)[0])]
          else sent)
      && CallsAtBirth(journal + [e], x) == if e == Born(x) then |CallsIn(journal)| else CallsAtBirth(journal, x)
  {
    assert (journal + [e])[..|journal|] == journal;
  }

  ghost predicate Look(b: bool) { true }

  /** `s` is the session `id` of the journal; which one that is, is only looked up by a proof that
      mentions `Look`. */
  ghost predicate IsSession(s: SessionState, journal: seq<Entry>, id: SessionId) {
    forall b {:trigger Look(b)} :: Look(b) ==> s == SessionIn(journal, id)
  }

  /** What one more entry means for the session `x`. */
  function Advanced(s: SessionState, e: Entry, x: SessionId): SessionState {
    match e
    case Born(_) => s
    case Died(id) => if x == id then s.(state := Zombie) else s
    case Received(id, m) =>
      if x == id then s.(compId := if s.compId == "" then m.sender else s.compId, inbound := m.number) else s
    case _ =>
      if HandedTo(e, x) == [] then s
      else s.(outbound := (|s.sent| + 1) % U64,
              sent := s.sent + [Sent((|s.sent| + 1) % U64, s.compId, HandedTo(e, x)[0])])
  }

  lemma SessionStep(journal: seq<Entry>, e: Entry, x: SessionId, s: SessionState)
    requires e != Born(x) && (HandsOver(e) ==> Born(x) in journal) && IsSession(s, journal, x)
    ensures IsSession(Advanced(s, e, x), journal + [e], x)
  {
    assert Look(true);
    Appended(journal, e);
    CounterpartyStep(journal, e, x);
    NumbersStep(journal, e, x);
    SentStep(journal, e, x);
  }

  ghost predicate Unborn(journal: seq<Entry>, id: SessionId) {
    && Born(id) !in journal && Died(id) !in journal
    && forall i :: 0 <= i < |journal| && journal[i].Received? ==> journal[i].session != id
  }

  lemma {:induction false} UnbornIsBlank(journal: seq<Entry>, id: SessionId)
    requires Unborn(journal, id)
    ensures MessagesOf(MessagesIn(journal), id) == [] && NumbersOf(MessagesIn(journal), id) == []
    ensures SentBy(journal, id) == []
  {
    if journal != [] {
      var init, last := journal[..|journal| - 1], journal[|journal| - 1];
      UnbornIsBlank(init, id);
      assert journal == init + [last];
      Appended(init, last);
      if last.Received? {
        HeardStep(MessagesIn(init), Handled(last.session, last.message), id);
      }
    }
  }

  lemma BornStep(journal: seq<Entry>, id: SessionId)
    requires Unborn(journal, id)
    ensures IsSession(FreshSession(|CallsIn(journal)|), journal + [Born(id)], id)
  {
    Appended(journal, Born(id));
    UnbornIsBlank(journal, id);
    SentStep(journal, Born(id), id);
  }

  // ---------- the system tells the same story ----------

  ghost predicate SessionTells(sys: System, l: Ledger, id: SessionId)
    requires id in sys.sessions
  {
    && 1 <= id <= l.accepted && Born(id) in l.journal
    && IsSession(sys.sessions[id], l.journal, id)
    && !sys.sessions[id].state.Ready? && (id in l.live <==> !sys.sessions[id].state.Zombie?)
    && sys.sessions[id].outbound == |sys.sessions[id].sent| % U64
  }

  ghost predicate Tells(sys: System, l: Ledger) {
    && sys.nextSessionId == l.accepted
    && sys.sessions.Keys == l.table
    && l.live <= l.table && sys.zombies == l.table - l.live
    && sys.nextCleanup == l.due
    && sys.routes.owner == l.owner
    && sys.handled == MessagesIn(l.journal) && sys.calls == CallsIn(l.journal) && sys.logouts == DeathsIn(l.journal)
    && (forall id {:trigger SessionTells(sys, l, id)} :: id in sys.sessions ==> SessionTells(sys, l, id))
    && (forall id {:trigger Unborn(l.journal, id)} :: id > l.accepted ==> Unborn(l.journal, id))
  }

  lemma UnbornStays(journal: seq<Entry>, e: Entry, accepted: nat)
    requires forall id {:trigger Unborn(journal, id)} :: id > accepted ==> Unborn(journal, id)
    requires e.Born? || e.Received? || e.Died? ==> e.session <= accepted
    ensures forall id {:trigger Unborn(journal + [e], id)} :: id > accepted ==> Unborn(journal + [e], id)
  {
    forall id | id > accepted ensures Unborn(journal + [e], id) {
      assert Unborn(journal, id);
    }
  }

  lemma AttemptIsAdvance(s: SessionState, t: SessionState, e: Entry, payload: Payload, id: SessionId)
    requires HandsOver(e) && s.outbound == |s.sent| % U64
    requires (Asks(CallOf(e), id) == [] && t == s) || (Asks(CallOf(e), id) == [payload] && t == Attempt(s, payload))
    ensures t == Advanced(s, e, id) && t.outbound == |t.sent| % U64
  {
    assert HandedTo(e, id) == Asks(CallOf(e), id);
    CountsUp(|s.sent|);
  }

  lemma AttemptTells(a: System, l: Ledger, b: System, e: Entry, payload: Payload, id: SessionId)
    requires HandsOver(e) && Sends(a, b, CallOf(e), payload) && id in a.sessions && SessionTells(a, l, id)
    ensures SessionTells(b, Note(l, e), id)
  {
    AttemptIsAdvance(a.sessions[id], b.sessions[id], e, payload, id);
    SessionStep(l.journal, e, id, a.sessions[id]);
  }

  lemma CallTells(a: System, l: Ledger, b: System, e: Entry, payload: Payload)
    requires Tells(a, l) && HandsOver(e) && Sends(a, b, CallOf(e), payload)
    requires b == a.(sessions := b.sessions, calls := b.calls)
    ensures Tells(b, Note(l, e))
  {
    Appended(l.journal, e);
    UnbornStays(l.journal, e, l.accepted);
    forall id | id in b.sessions ensures SessionTells(b, Note(l, e), id) {
      assert SessionTells(a, l, id);
      AttemptTells(a, l, b, e, payload, id);
    }
  }

  lemma DeathTells(a: System, l: Ledger, id: SessionId, x: SessionId)
    requires id in a.sessions && x in a.sessions && SessionTells(a, l, id) && SessionTells(a, l, x) && id in l.live
    ensures SessionTells(MakeZombie(a, id), Bury(l, id), x)
  {
    Appended(l.journal, Died(id));
    SessionStep(l.journal, Died(id), x, a.sessions[x]);
  }

  lemma BuryTells(a: System, l: Ledger, id: SessionId)
    requires Tells(a, l) && id in a.sessions
    ensures Tells(MakeZombie(a, id), Bury(l, id))
  {
    assert SessionTells(a, l, id);
    if id in l.live {
      var b, r := MakeZombie(a, id), Bury(l, id);
      Appended(l.journal, Died(id));
      UnbornStays(l.journal, Died(id), l.accepted);
      forall x | x in b.sessions ensures SessionTells(b, r, x) {
        assert SessionTells(a, l, x);
        DeathTells(a, l, id, x);
      }
    }
  }

  lemma MessageTells(a: System, l: Ledger, id: SessionId, m: Message)
    requires Tells(a, l) && id in a.sessions
    ensures Tells(CheckHeader(LogReceived(a, id, m), id, m), Note(l, Received(id, m)))
  {
    assert SessionTells(a, l, id);
    var b, r := CheckHeader(LogReceived(a, id, m), id, m), Note(l, Received(id, m));
    Appended(l.journal, Received(id, m));
    UnbornStays(l.journal, Received(id, m), l.accepted);
    forall x | x in b.sessions ensures SessionTells(b, r, x) {
      assert SessionTells(a, l, x);
      SessionStep(l.journal, Received(id, m), x, a.sessions[x]);
    }
  }

  lemma {:induction false} KillTells(a: System, l: Ledger, id: SessionId, onClose: seq<Command>)
    requires Tells(a, l) && id in a.sessions
    ensures Tells(Close(a, id, onClose), Kill(l, id, onClose))
    decreases onClose, 1
  {
    assert SessionTells(a, l, id);
    if id in l.live {
      ExecAllTells(a, l, onClose);
      BuryTells(ExecAll(a, onClose), DoAll(l, onClose), id);
    }
  }

  /** Every command, however nested, does to the system what it does to the ledger. */
  lemma {:induction false} ExecTells(a: System, l: Ledger, c: Command)
    requires Tells(a, l)
    ensures Tells(Exec(a, c), Do(l, c))
    decreases c
  {
    match c {
      case Deliver(id, content) =>
        CallTells(a, l, Exec(a, c), Delivered(id, content), FromBridge(content));
      case Broadcast(content) =>
        CallTells(a, l, Exec(a, c), Broadcasted(content), FromBridge(content));
      case Disconnect(id, onClose) =>
        if id in a.sessions {
          KillTells(a, l, id, onClose);
        }
      case Disconnected(id, reaction) =>
        if id in a.sessions {
          BuryTells(a, l, id);
          ExecAllTells(MakeZombie(a, id), Bury(l, id), reaction);
        }
    }
  }

  lemma {:induction false} ExecAllTells(a: System, l: Ledger, cs: seq<Command>)
    requires Tells(a, l)
    ensures Tells(ExecAll(a, cs), DoAll(l, cs))
    decreases cs, 0
  {
    if cs != [] {
      ExecTells(a, l, cs[0]);
      ExecAllTells(Exec(a, cs[0]), Do(l, cs[0]), cs[1..]);
    }
  }

  lemma RequestTells(a: System, l: Ledger, id: SessionId, kind: RequestType, strategy: StrategyId)
    requires Tells(a, l) && id in a.sessions
    ensures Tells(HandleUserRequest(a, id, kind, strategy), Request(l, id, kind, strategy))
  {
    var b, r := HandleUserRequest(a, id, kind, strategy), Request(l, id, kind, strategy);
    var routed := a.(routes := b.routes);
    var payload := r.journal[|l.journal|].payload;
    assert Tells(routed, l.(owner := r.owner)) by {
      forall x | x in a.sessions ensures SessionTells(routed, l.(owner := r.owner), x) {
        assert SessionTells(a, l, x);
      }
    }
    SendOwnSends(routed, id, payload);
    CallTells(routed, l.(owner := r.owner), b, Answered(id, payload), payload);
  }

  lemma HandleTells(env: Environment, a: System, l: Ledger, id: SessionId, m: Message)
    requires Tells(a, l) && id in a.sessions
    ensures Tells(HandleMessage(env, a, id, m).0, DoMessage(env, l, id, m))
  {
    var b, got := CheckHeader(LogReceived(a, id, m), id, m), Note(l, Received(id, m));
    MessageTells(a, l, id, m);
    if m.body.Unsupported? {
      var payload := UnsupportedMessage(m.number);
      SendOwnSends(b, id, payload);
      CallTells(b, got, SendOwn(b, id, payload), Answered(id, payload), payload);
    } else {
      var reaction := env.react(b.handled);
      ExecAllTells(b, got, reaction.commands);
      var reacted, done := ExecAll(b, reaction.commands), DoAll(got, reaction.commands);
      if reaction.throws {
        KillTells(reacted, done, id, reaction.onClose);
      } else if m.body.UserRequest? {
        RequestTells(reacted, done, id, m.body.kind, m.body.strategy);
      }
    }
  }

  lemma {:induction false} HandleAllTells(
      env: Environment, a: System, l: Ledger, id: SessionId, messages: seq<Message>)
    requires Tells(a, l) && id in a.sessions
    ensures var r := HandleAll(LoopOf(env, id), a, messages);
      Tells(r, DoMessages(env, l, id, messages)) && id in r.sessions
    decreases |messages|
  {
    assert SessionTells(a, l, id);
    if id in l.live && messages != [] {
      var next := HandleMessage(env, a, id, messages[0]).0;
      assert LoopOf(env, id).step(a, messages[0]).0 == next;
      HandleTells(env, a, l, id, messages[0]);
      HandleAllTells(env, next, DoMessage(env, l, id, messages[0]), id, messages[1..]);
    }
  }

  lemma ReadTells(env: Environment, w: World, l: Ledger, id: SessionId, stream: seq<Byte>, chunk: seq<Byte>)
    requires Sound(env.framer) && WorldInv(w) && Tells(w.sys, l) && InStep(env, w, id, stream)
    ensures Tells(Step(env, w, Read(id, chunk)).sys, DoRead(env, l, id, stream, chunk))
  {
    if id in w.sys.sessions {
      assert SessionTells(w.sys, l, id);
    }
    if id in l.live {
      var f, messages := FramingAt(env, w, id, chunk), Completed(env.framer, stream, chunk);
      FramingExtends(env.framer, stream, chunk);
      assert f.messages == messages && f.invalid == FramingOf(env.framer, stream + chunk).invalid;
      ReadIsReference(env, w, id, chunk);
      HandleAllTells(env, w.sys, l, id, messages);
      var handled, done := HandleAll(LoopOf(env, id), w.sys, messages), DoMessages(env, l, id, messages);
      assert SessionTells(handled, done, id);
      if f.invalid && id in done.live {
        KillTells(handled, done, id, env.onFramingError(id, handled.handled));
      }
    } else {
      assert Step(env, w, Read(id, chunk)).sys == w.sys;
    }
  }

  lemma SessionSurvivesBirth(a: System, b: System, l: Ledger, x: SessionId)
    requires x in a.sessions && x in b.sessions && b.sessions[x] == a.sessions[x] && SessionTells(a, l, x)
    ensures SessionTells(b, Birth(l), x)
  {
    Appended(l.journal, Born(l.accepted + 1));
    SessionStep(l.journal, Born(l.accepted + 1), x, a.sessions[x]);
  }

  lemma BirthTells(a: System, l: Ledger)
    requires Inv(a) && Tells(a, l)
    ensures Tells(Accepted(a), Birth(l))
  {
    var id, b, r := l.accepted + 1, Accepted(a), Birth(l);
    AcceptKeepsInv(a);
    assert Unborn(l.journal, id);
    Appended(l.journal, Born(id));
    UnbornStays(l.journal, Born(id), id);
    forall x | x in b.sessions ensures SessionTells(b, r, x) {
      if x == id {
        BornStep(l.journal, id);
      } else {
        assert SessionTells(a, l, x);
        SessionSurvivesBirth(a, b, l, x);
      }
    }
  }

  lemma TickTells(env: Environment, w: World, l: Ledger, now: int, before: seq<Event>)
    requires Sound(env.framer) && WorldInv(w) && Tells(w.sys, l)
    ensures Tells(Step(env, w, Tick(now)).sys, DoEvent(env, l, before, Tick(now)))
  {
    var b, r := Step(env, w, Tick(now)).sys, DoEvent(env, l, before, Tick(now));
    forall x | x in b.sessions ensures SessionTells(b, r, x) {
      assert SessionTells(w.sys, l, x);
    }
  }

  /** In every reachable state, the system is the one that the ledger tells of: the table, the zombies,
      the due time, the owners, the logs, and every field of every session. */
  lemma {:induction false} ReachedTells(env: Environment, events: seq<Event>)
    requires Sound(env.framer)
    ensures Tells(Reached(env, events).sys, Story(env, events))
    decreases |events|
  {
    if events != [] {
      var init, e := events[..|events| - 1], events[|events| - 1];
      var w, l := Reached(env, init), Story(env, init);
      ReachedTells(env, init);
      ReachedIsAfterStart(env, init);
      ReachedStep(env, events);
      match e {
        case Accept(reaction) =>
          BirthTells(w.sys, l);
          ExecAllTells(Accepted(w.sys), Birth(l), reaction);
        case Read(id, chunk) =>
          StreamsAreInStep(env, init, id);
          ReadTells(env, w, l, id, BytesTo(init, id), chunk);
        case Tick(now) =>
          TickTells(env, w, l, now, init);
        case Emit(commands) =>
          ExecAllTells(w.sys, l, commands);
      }
    }
  }

  // ---------- what it says ----------

  /** The call log is exactly the messages that the executed commands and the answers handed over, in
      that order, and every session holds exactly the projection of the journal to itself. */
  lemma SessionsAreProjections(env: Environment, events: seq<Event>)
    requires Sound(env.framer)
    ensures var sys, journal := Reached(env, events).sys, Story(env, events).journal;
      && sys.calls == CallsIn(journal) && sys.handled == MessagesIn(journal) && sys.logouts == DeathsIn(journal)
      && forall id :: id in sys.sessions ==> sys.sessions[id] == SessionIn(journal, id)
  {
    ReachedTells(env, events);
    var sys, l := Reached(env, events).sys, Story(env, events);
    forall id | id in sys.sessions ensures sys.sessions[id] == SessionIn(l.journal, id) {
      assert SessionTells(sys, l, id) && Look(true);
    }
  }

  lemma FieldsAreProjections(env: Environment, events: seq<Event>, id: SessionId)
    requires Sound(env.framer) && id in Reached(env, events).sys.sessions
    ensures var s, journal := Reached(env, events).sys.sessions[id], Story(env, events).journal;
      s.compId == Counterparty(journal, id) && s.sent == SentBy(journal, id)
    ensures Reached(env, events).sys.handled == MessagesIn(Story(env, events).journal)
  {
    ReachedTells(env, events);
    assert SessionTells(Reached(env, events).sys, Story(env, events), id) && Look(true);
  }

  /** Message `i` is the first that names a sender. */
  ghost predicate FirstToName(messages: seq<Message>, i: nat) {
    i < |messages| && messages[i].sender != "" && forall j :: 0 <= j < i ==> messages[j].sender == ""
  }

  lemma {:induction false} FirstSenderIsFirst(messages: seq<Message>)
    ensures FirstSender(messages) == "" <==> forall i :: 0 <= i < |messages| ==> messages[i].sender == ""
    ensures forall i: nat :: FirstToName(messages, i) ==> FirstSender(messages) == messages[i].sender
  {
    if messages != [] && messages[0].sender == "" {
      var rest := messages[1..];
      FirstSenderIsFirst(rest);
      assert forall i :: 0 < i < |messages| ==> messages[i] == rest[i - 1];
      forall i: nat | FirstToName(messages, i) ensures FirstSender(messages) == messages[i].sender {
        assert forall j :: 0 <= j < i - 1 ==> rest[j] == messages[j + 1];
        assert FirstToName(rest, i - 1);
      }
    }
  }

  /** The counterparty of a session is the sender of the first message it has handled that names one. */
  lemma CounterpartyIsFirstSender(env: Environment, events: seq<Event>, id: SessionId)
    requires Sound(env.framer) && id in Reached(env, events).sys.sessions
    ensures var sys := Reached(env, events).sys;
      var messages := MessagesOf(sys.handled, id);
      && (sys.sessions[id].compId == "" <==> forall i :: 0 <= i < |messages| ==> messages[i].sender == "")
      && (forall i: nat :: FirstToName(messages, i) ==> sys.sessions[id].compId == messages[i].sender)
  {
    FieldsAreProjections(env, events, id);
    FirstSenderIsFirst(MessagesOf(Reached(env, events).sys.handled, id));
  }

  /** The attempt that hands over the entry, after all in the journal. */
  function AttemptFor(journal: seq<Entry>, e: Entry, id: SessionId): Sent
    requires HandedTo(e, id) != []
  {
    Sent((|SentBy(journal, id)| + 1) % U64, Counterparty(journal, id), HandedTo(e, id)[0])
  }

  predicate IsAt(sent: seq<Sent>, k: nat, attempt: Sent) {
    k < |sent| && sent[k] == attempt
  }

  lemma {:induction false} SentByGrows(journal: seq<Entry>, more: seq<Entry>, id: SessionId, k: nat, attempt: Sent)
    requires IsAt(SentBy(journal, id), k, attempt)
    ensures IsAt(SentBy(journal + more, id), k, attempt)
    decreases |more|
  {
    if more == [] {
      assert journal + more == journal;
    } else {
      var n := |more| - 1;
      assert journal + more == journal + more[..n] + [more[n]];
      SentByGrows(journal, more[..n], id, k, attempt);
      SentStep(journal + more[..n], more[n], id);
    }
  }

  lemma EntryIsSent(journal: seq<Entry>, e: Entry, more: seq<Entry>, id: SessionId)
    requires Born(id) in journal && HandedTo(e, id) != []
    ensures IsAt(SentBy(journal + [e] + more, id), |SentBy(journal, id)|, AttemptFor(journal, e, id))
  {
    SentStep(journal, e, id);
    SentByGrows(journal + [e], more, id, |SentBy(journal, id)|, AttemptFor(journal, e, id));
  }

  /** Every message that is handed over to a session in the table, after its birth, is attempted once:
      in the order of the journal, under the number of its position, and addressed to the counterparty
      of that moment. */
  lemma HandedOverIsSent(
      env: Environment, events: seq<Event>, before: seq<Entry>, e: Entry, after: seq<Entry>, id: SessionId)
    requires Sound(env.framer) && id in Reached(env, events).sys.sessions
    requires Story(env, events).journal == before + [e] + after
    requires Born(id) in before && HandedTo(e, id) != []
    ensures IsAt(Reached(env, events).sys.sessions[id].sent, |SentBy(before, id)|, AttemptFor(before, e, id))
  {
    FieldsAreProjections(env, events, id);
    EntryIsSent(before, e, after, id);
  }

  lemma HandsOverStill(journal: seq<Entry>, e: Entry, n: nat, id: SessionId, k: nat, payload: Payload)
    requires HandsOverAs(journal, n, id, k, payload)
    ensures HandsOverAs(journal + [e], n, id, k, payload)
  {
    assert (journal + [e])[..n] == journal[..n];
  }

  /** Conversely, every attempt of a session was handed over to it by an entry of the journal. */
  lemma {:induction false} SentWasHandedOver(journal: seq<Entry>, id: SessionId, k: nat)
    requires k < |SentBy(journal, id)|
    ensures exists n: nat :: HandsOverAs(journal, n, id, k, SentBy(journal, id)[k].payload)
    decreases |journal|
  {
    var init, last := journal[..|journal| - 1], journal[|journal| - 1];
    assert journal == init + [last];
    SentStep(init, last, id);
    if k < |SentBy(init, id)| {
      SentWasHandedOver(init, id, k);
      var n: nat :| HandsOverAs(init, n, id, k, SentBy(init, id)[k].payload);
      HandsOverStill(init, last, n, id, k, SentBy(init, id)[k].payload);
    } else {
      assert journal[..|init|] == init;
      assert HandsOverAs(journal, |init|, id, k, SentBy(journal, id)[k].payload);
    }
  }

  ghost predicate HandsOverAs(journal: seq<Entry>, n: nat, id: SessionId, k: nat, payload: Payload) {
    && n < |journal| && Born(id) in journal[..n]
    && HandedTo(journal[n], id) == [payload] && |SentBy(journal[..n], id)| == k
  }

  /** Every attempt of a session in the table was handed over to it after its birth. */
  lemma AttemptsWereHandedOver(env: Environment, events: seq<Event>, id: SessionId, k: nat)
    requires Sound(env.framer) && id in Reached(env, events).sys.sessions
    requires k < |Reached(env, events).sys.sessions[id].sent|
    ensures exists n: nat ::
      HandsOverAs(Story(env, events).journal, n, id, k, Reached(env, events).sys.sessions[id].sent[k].payload)
  {
    FieldsAreProjections(env, events, id);
    SentWasHandedOver(Story(env, events).journal, id, k);
  }

  lemma {:induction false} CounterpartyStays(journal: seq<Entry>, more: seq<Entry>, id: SessionId)
    requires Counterparty(journal, id) != ""
    ensures Counterparty(journal + more, id) == Counterparty(journal, id)
    decreases |more|
  {
    if more == [] {
      assert journal + more == journal;
    } else {
      var n := |more| - 1;
      assert journal + more == journal + more[..n] + [more[n]];
      CounterpartyStays(journal, more[..n], id);
      CounterpartyStep(journal + more[..n], more[n], id);
    }
  }

  /** The first `named` attempts name nobody, and the others name `name`. */
  ghost predicate Targets(sent: seq<Sent>, named: nat, name: string) {
    named <= |sent| && forall k :: 0 <= k < |sent| ==> sent[k].target == if k < named then "" else name
  }

  lemma {:induction false} TargetsGrow(journal: seq<Entry>, more: seq<Entry>, id: SessionId, named: nat, name: string)
    requires Targets(SentBy(journal, id), named, name) && Counterparty(journal, id) == name != ""
    ensures Targets(SentBy(journal + more, id), named, name)
    decreases |more|
  {
    if more == [] {
      assert journal + more == journal;
    } else {
      var n := |more| - 1;
      assert journal + more == journal + more[..n] + [more[n]];
      TargetsGrow(journal, more[..n], id, named, name);
      CounterpartyStays(journal, more[..n], id);
      SentStep(journal + more[..n], more[n], id);
    }
  }

  lemma {:induction false} UnnamedTargets(journal: seq<Entry>, id: SessionId)
    requires Counterparty(journal, id) == ""
    ensures forall k :: 0 <= k < |SentBy(journal, id)| ==> SentBy(journal, id)[k].target == ""
  {
    if journal != [] {
      var init, last := journal[..|journal| - 1], journal[|journal| - 1];
      assert journal == init + [last];
      CounterpartyStep(init, last, id);
      SentStep(init, last, id);
      UnnamedTargets(init, id);
    }
  }

  /** Once a session has received the first message that names a sender, every attempt it makes from
      then on names that sender, and every attempt before names nobody. */
  lemma AttemptsNameCounterparty(
      env: Environment, events: seq<Event>, before: seq<Entry>, m: Message, after: seq<Entry>, id: SessionId)
    requires Sound(env.framer) && id in Reached(env, events).sys.sessions
    requires Story(env, events).journal == before + [Received(id, m)] + after
    requires Counterparty(before, id) == "" && m.sender != ""
    ensures var s := Reached(env, events).sys.sessions[id];
      s.compId == m.sender && Targets(s.sent, |SentBy(before, id)|, m.sender)
  {
    FieldsAreProjections(env, events, id);
    var named := before + [Received(id, m)];
    UnnamedTargets(before, id);
    CounterpartyStep(before, Received(id, m), id);
    SentStep(before, Received(id, m), id);
    CounterpartyStays(named, after, id);
    TargetsGrow(named, after, id, |SentBy(before, id)|, m.sender);
  }
}
