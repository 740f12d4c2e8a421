/** What the sessions themselves say: one answer to every message that is due one. */
module BridgeAnswers {
  import opened ReadLoop
  import opened SequenceNumbers
  import opened Routes
  import opened Bridge
  import opened BridgeSafety

  /** An answer, without the status that a user request turned out to have. */
  datatype Answer =
    | Rejected(session: SessionId, number: Seq64)
    | Responded(session: SessionId, strategy: StrategyId)

  /** The answers in the call log, in order. */
  function Given(calls: seq<Call>): seq<Answer> {
    if calls == [] then []
    else
      Given(calls[..|calls| - 1]) +
      match calls[|calls| - 1]
      case Own(session, UnsupportedMessage(number)) => [Rejected(session, number)]
      case Own(session, UserResponse(strategy, _)) => [Responded(session, strategy)]
      case _ => []
  }

  /** The answers due for the messages handled: a message of unknown type is rejected by its
      number, and a user request is responded to unless the bridge throws while it reacts. */
  function Due(env: Environment, handled: seq<Handled>): seq<Answer> {
    if handled == [] then []
    else
      var last := handled[|handled| - 1];
      Due(env, handled[..|handled| - 1]) +
      match last.message.body
      case Unsupported => [Rejected(last.session, last.message.number)]
      case UserRequest(_, strategy) => if env.react(handled).throws then [] else [Responded(last.session, strategy)]
      case Supported(_) => []
  }

  ghost predicate Answered(env: Environment, sys: System) {
    Given(sys.calls) == Due(env, sys.handled)
  }

  lemma GivenStep(calls: seq<Call>, c: Call)
    ensures !c.Own? || c.payload.FromBridge? ==> Given(calls + [c]) == Given(calls)
    ensures forall session, number :: c == Own(session, UnsupportedMessage(number)) ==>
              Given(calls + [c]) == Given(calls) + [Rejected(session, number)]
    ensures forall session, strategy, status :: c == Own(session, UserResponse(strategy, status)) ==>
              Given(calls + [c]) == Given(calls) + [Responded(session, strategy)]
  {
  }

  lemma {:induction false} CloseGivesNone(sys: System, id: SessionId, onClose: seq<Command>)
    requires id in sys.sessions
    ensures Given(Close(sys, id, onClose).calls) == Given(sys.calls)
    decreases onClose, 1
  {
    if !IsZombie(sys, id) {
      ExecAllGivesNone(sys, onClose);
    }
  }

  lemma {:induction false} ExecGivesNone(sys: System, c: Command)
    ensures Given(Exec(sys, c).calls) == Given(sys.calls)
    decreases c
  {
    match c {
      case Deliver(id, content) =>
        GivenStep(sys.calls, To(id, content));
      case Broadcast(content) =>
        GivenStep(sys.calls, All(content));
      case Disconnect(id, onClose) =>
        if id in sys.sessions {
          CloseGivesNone(sys, id, onClose);
        }
      case Disconnected(id, reaction) =>
        if id in sys.sessions {
          ExecAllGivesNone(MakeZombie(sys, id), reaction);
        }
    }
  }

  lemma {:induction false} ExecAllGivesNone(sys: System, cs: seq<Command>)
    ensures Given(ExecAll(sys, cs).calls) == Given(sys.calls)
    decreases cs, 0
  {
    if cs != [] {
      ExecGivesNone(sys, cs[0]);
      ExecAllGivesNone(Exec(sys, cs[0]), cs[1..]);
    }
  }

  lemma ExecAllKeepsAnswered(env: Environment, sys: System, cs: seq<Command>)
    requires Answered(env, sys)
    ensures Answered(env, ExecAll(sys, cs))
  {
    ExecAllIsLater(sys, cs);
    ExecAllGivesNone(sys, cs);
  }

  lemma CloseKeepsAnswered(env: Environment, sys: System, id: SessionId, onClose: seq<Command>)
    requires id in sys.sessions && Answered(env, sys)
    ensures Answered(env, Close(sys, id, onClose))
  {
    CloseIsLater(sys, id, onClose);
    CloseGivesNone(sys, id, onClose);
  }

  lemma RequestGivesOne(sys: System, id: SessionId, kind: RequestType, strategy: StrategyId)
    requires id in sys.sessions
    ensures var r := HandleUserRequest(sys, id, kind, strategy);
      r.handled == sys.handled && Given(r.calls) == Given(sys.calls) + [Responded(id, strategy)]
  {
    var (_, status) := Routed(sys.routes, id, kind, strategy);
    GivenStep(sys.calls, Own(id, UserResponse(strategy, status)));
  }

  lemma DueStep(env: Environment, handled: seq<Handled>, id: SessionId, m: Message)
    ensures var all := handled + [Handled(id, m)];
      Due(env, all) == Due(env, handled) +
        match m.body
        case Unsupported => [Rejected(id, m.number)]
        case UserRequest(_, strategy) => if env.react(all).throws then [] else [Responded(id, strategy)]
        case Supported(_) => []
  {
    assert (handled + [Handled(id, m)])[..|handled|] == handled;
  }

  lemma HandlingKeepsAnswered(env: Environment, sys: System, id: SessionId, m: Message)
    requires id in sys.sessions && Answered(env, sys)
    ensures Answered(env, HandleMessage(env, sys, id, m).0)
  {
    var a := CheckHeader(LogReceived(sys, id, m), id, m);
    DueStep(env, sys.handled, id, m);
    if m.body.Unsupported? {
      GivenStep(a.calls, Own(id, UnsupportedMessage(m.number)));
    } else {
      var reaction := env.react(a.handled);
      var b := ExecAll(a, reaction.commands);
      ExecAllIsLater(a, reaction.commands);
      ExecAllGivesNone(a, reaction.commands);
      if reaction.throws {
        CloseIsLater(b, id, reaction.onClose);
        CloseGivesNone(b, id, reaction.onClose);
      } else if m.body.UserRequest? {
        RequestGivesOne(b, id, m.body.kind, m.body.strategy);
      }
    }
  }

  lemma {:induction false} ConsumingKeepsAnswered(env: Environment, sys: System, id: SessionId, buffer: seq<Byte>)
    requires Sound(env.framer) && id in sys.sessions && Answered(env, sys)
    ensures Answered(env, Consume(LoopOf(env, id), sys, buffer).world)
    decreases |buffer|
  {
    var h := LoopOf(env, id);
    if buffer != [] {
      match env.framer(buffer) {
        case Incomplete =>
        case Invalid =>
          CloseKeepsAnswered(env, sys, id, env.onFramingError(id, sys.handled));
        case Complete(size, m) =>
          var (next, thrown) := HandleMessage(env, sys, id, m);
          assert h.step(sys, m) == (next, thrown);
          HandlingKeepsAnswered(env, sys, id, m);
          if !thrown && !h.dead(next) {
            ConsumingKeepsAnswered(env, next, id, buffer[size..]);
          }
      }
    }
  }

  lemma {:induction false} StepKeepsAnswered(env: Environment, w: World, e: Event)
    requires Sound(env.framer) && WorldInv(w) && Answered(env, w.sys)
    ensures Answered(env, Step(env, w, e).sys)
  {
    match e {
      case Accept(reaction) =>
        ExecAllKeepsAnswered(env, Accepted(w.sys), reaction);
      case Read(id, chunk) =>
        if id in w.buffers && !IsZombie(w.sys, id) {
          ConsumingKeepsAnswered(env, w.sys, id, w.buffers[id] + chunk);
        }
      case Tick(now) =>
      case Emit(commands) =>
        ExecAllKeepsAnswered(env, w.sys, commands);
    }
  }

  lemma {:induction false} RunKeepsAnswered(env: Environment, w: World, events: seq<Event>)
    requires Sound(env.framer) && WorldInv(w) && Answered(env, w.sys)
    ensures Answered(env, Run(env, w, events).sys)
    decreases |events|
  {
    if events != [] {
      StepIsAfter(env, w, events[0]);
      StepKeepsAnswered(env, w, events[0]);
      RunKeepsAnswered(env, Step(env, w, events[0]), events[1..]);
    }
  }

  /** Over any run, the answers that the sessions produced are exactly the answers due for the
      messages handled, one each and in the order of the messages. */
  lemma AnsweredExactlyOnce(env: Environment, events: seq<Event>)
    requires Sound(env.framer)
    ensures var sys := Run(env, START, events).sys; Given(sys.calls) == Due(env, sys.handled)
  {
    RunKeepsAnswered(env, START, events);
  }
}
