/** What a session handles, in terms of all the bytes it has received, in any interleaving with
    the rest of the system. */
module BridgeStreams {
  import opened ReadLoop
  import opened Routes
  import opened Bridge
  import opened BridgeSafety
  import opened BridgeTheorems
  import opened BridgeTeardown
  import FixFraming

  /** How many connections were accepted; their ids are 1, 2, 3, ... */
  function Accepts(events: seq<Event>): nat {
    if events == [] then 0
    else Accepts(events[..|events| - 1]) + if events[|events| - 1].Accept? then 1 else 0
  }

  /** All bytes that were read for session `id` since it was accepted. */
  function BytesTo(events: seq<Event>, id: SessionId): seq<Byte> {
    if events == [] then []
    else
      var init, e := events[..|events| - 1], events[|events| - 1];
      BytesTo(init, id) + if e.Read? && e.session == id && 1 <= id <= Accepts(init) then e.chunk else []
  }

  /** The messages that session `id` has handled, in order. */
  function MessagesOf(handled: seq<Handled>, id: SessionId): seq<Message> {
    if handled == [] then []
    else
      var last := handled[|handled| - 1];
      MessagesOf(handled[..|handled| - 1], id) + if last.session == id then [last.message] else []
  }

  lemma {:induction false} MessagesOfLog(handled: seq<Handled>, x: SessionId, messages: seq<Message>, id: SessionId)
    ensures MessagesOf(handled + LogOf(x, messages), id) ==
            MessagesOf(handled, id) + if x == id then messages else []
    decreases |messages|
  {
    var all := handled + LogOf(x, messages);
    if messages == [] {
      assert all == handled;
    } else {
      var n := |messages| - 1;
      MessagesOfLog(handled, x, messages[..n], id);
      assert all[..|all| - 1] == handled + LogOf(x, messages[..n]);
      assert messages == messages[..n] + [messages[n]];
    }
  }

  lemma StepCountsAccepts(env: Environment, w: World, e: Event)
    requires Sound(env.framer) && WorldInv(w)
    ensures Step(env, w, e).sys.nextSessionId == w.sys.nextSessionId + if e.Accept? then 1 else 0
  {
    match e {
      case Accept(reaction) =>
        ExecAllIsLater(Accepted(w.sys), reaction);
      case Read(id, chunk) =>
        if id in w.buffers && !IsZombie(w.sys, id) {
          ConsumeIsLater(env, w.sys, id, w.buffers[id] + chunk);
        }
      case Emit(commands) =>
        ExecAllIsLater(w.sys, commands);
      case Tick(_) =>
    }
  }

  lemma {:induction false} AcceptsIsCounter(env: Environment, events: seq<Event>)
    requires Sound(env.framer)
    ensures Reached(env, events).sys.nextSessionId == Accepts(events)
    decreases |events|
  {
    if events != [] {
      var init := events[..|events| - 1];
      AcceptsIsCounter(env, init);
      ReachedIsAfterStart(env, init);
      ReachedStep(env, events);
      StepCountsAccepts(env, Reached(env, init), events[|events| - 1]);
    }
  }

  /** `w` is what session `id` must be like after it has received `stream`. */
  ghost predicate InStep(env: Environment, w: World, id: SessionId, stream: seq<Byte>)
    requires Sound(env.framer)
  {
    var f := FramingOf(env.framer, stream);
    && MessagesOf(w.sys.handled, id) <= f.messages
    && (Live(w.sys, id) ==>
          && id in w.buffers && w.buffers[id] == f.rest
          && MessagesOf(w.sys.handled, id) == f.messages && !f.invalid)
  }

  /** One Read of a live session, whatever its buffer holds. */
  lemma ReadLogs(env: Environment, w: World, id: SessionId, chunk: seq<Byte>)
    requires Sound(env.framer) && Live(w.sys, id) && id in w.buffers
    ensures var f, r := FramingAt(env, w, id, chunk), Step(env, w, Read(id, chunk));
      var n := Cut(LoopOf(env, id), w.sys, f.messages);
      && n <= |f.messages| && id in r.buffers
      && r.sys.handled == w.sys.handled + LogOf(id, f.messages[..n])
      && (Live(r.sys, id) ==> n == |f.messages| && !f.invalid && r.buffers[id] == f.rest)
  {
    var h, f := LoopOf(env, id), FramingAt(env, w, id, chunk);
    ReadIsReference(env, w, id, chunk);
    HandleAllLogs(env, w.sys, id, f.messages);
    LoopCloses(env, id);
    ConsumeLeavesRest(h, w.sys, w.buffers[id] + chunk);
    var handled := HandleAll(h, w.sys, f.messages);
    if f.invalid && !h.dead(handled) {
      CloseIsLater(handled, id, env.onFramingError(id, handled.handled));
    }
  }

  lemma ReadKeepsInStep(env: Environment, w: World, id: SessionId, chunk: seq<Byte>, stream: seq<Byte>)
    requires Sound(env.framer) && WorldInv(w) && InStep(env, w, id, stream)
    ensures InStep(env, Step(env, w, Read(id, chunk)), id, stream + chunk)
  {
    FramingExtends(env.framer, stream, chunk);
    if Live(w.sys, id) {
      var f := FramingAt(env, w, id, chunk);
      ReadLogs(env, w, id, chunk);
      MessagesOfLog(w.sys.handled, id, f.messages[..Cut(LoopOf(env, id), w.sys, f.messages)], id);
    } else {
      assert Step(env, w, Read(id, chunk)).sys == w.sys;
    }
  }

  /** An event in which nothing is handled leaves the session's buffer, or accepts it. */
  lemma NothingHandledKeepsInStep(env: Environment, w: World, next: World, id: SessionId, stream: seq<Byte>)
    requires Sound(env.framer) && InStep(env, w, id, stream) && next.sys.handled == w.sys.handled
    requires Live(next.sys, id) ==> id in next.buffers
    requires Live(next.sys, id) ==>
      if Live(w.sys, id) then next.buffers[id] == w.buffers[id] else next.buffers[id] == [] && stream == []
    ensures InStep(env, next, id, stream)
  {
  }

  lemma AcceptAddsOne(env: Environment, w: World, reaction: seq<Command>, id: SessionId)
    requires Sound(env.framer) && WorldInv(w)
    ensures var next := Step(env, w, Accept(reaction));
      && next.sys.handled == w.sys.handled
      && (Live(next.sys, id) ==> id in next.buffers)
      && (Live(next.sys, id) && Live(w.sys, id) ==> next.buffers[id] == w.buffers[id])
      && (Live(next.sys, id) && !Live(w.sys, id) ==> id == w.sys.nextSessionId + 1 && next.buffers[id] == [])
  {
    var next := Step(env, w, Accept(reaction));
    AcceptKeepsInv(w.sys);
    ExecAllIsLater(Accepted(w.sys), reaction);
    if Live(next.sys, id) && !Live(w.sys, id) {
      assert LaterSession(Accepted(w.sys).sessions[id], next.sys.sessions[id]);
    }
  }

  lemma AcceptKeepsInStep(env: Environment, w: World, reaction: seq<Command>, id: SessionId, stream: seq<Byte>)
    requires Sound(env.framer) && WorldInv(w) && InStep(env, w, id, stream)
    requires id > w.sys.nextSessionId ==> stream == []
    ensures InStep(env, Step(env, w, Accept(reaction)), id, stream)
  {
    AcceptAddsOne(env, w, reaction, id);
    NothingHandledKeepsInStep(env, w, Step(env, w, Accept(reaction)), id, stream);
  }

  lemma ForeignReadKeepsInStep(
      env: Environment, w: World, x: SessionId, chunk: seq<Byte>, id: SessionId, stream: seq<Byte>)
    requires Sound(env.framer) && WorldInv(w) && InStep(env, w, id, stream) && x != id
    ensures InStep(env, Step(env, w, Read(x, chunk)), id, stream)
  {
    if Live(w.sys, x) {
      var f := FramingAt(env, w, x, chunk);
      ReadLogs(env, w, x, chunk);
      MessagesOfLog(w.sys.handled, x, f.messages[..Cut(LoopOf(env, x), w.sys, f.messages)], id);
      ConsumeIsLater(env, w.sys, x, w.buffers[x] + chunk);
    } else {
      assert Step(env, w, Read(x, chunk)).sys == w.sys;
    }
  }

  /** Events other than a Read of `id` leave what `id` has handled, and its buffer while it lives. */
  lemma OtherEventsKeepInStep(env: Environment, w: World, e: Event, id: SessionId, stream: seq<Byte>)
    requires Sound(env.framer) && WorldInv(w) && InStep(env, w, id, stream)
    requires !(e.Read? && e.session == id)
    requires id > w.sys.nextSessionId ==> stream == []
    ensures InStep(env, Step(env, w, e), id, stream)
  {
    match e {
      case Accept(reaction) =>
        AcceptKeepsInStep(env, w, reaction, id, stream);
      case Read(x, chunk) =>
        ForeignReadKeepsInStep(env, w, x, chunk, id, stream);
      case Tick(_) =>
      case Emit(commands) =>
        ExecAllIsLater(w.sys, commands);
    }
  }

  /** `r` is what a live session and the rest must come to by reading the stream. */
  ghost predicate Reaches(env: Environment, w: World, id: SessionId, stream: seq<Byte>, r: World)
    requires Sound(env.framer) && id in w.buffers
  {
    var f := FramingOf(env.framer, w.buffers[id] + stream);
    && r.sys == HandleFraming(LoopOf(env, id), w.sys, f)
    && id in r.buffers && r.buffers == w.buffers[id := r.buffers[id]]
    && (Live(r.sys, id) ==> r.buffers[id] == f.rest)
  }

  lemma ReadsReach(env: Environment, w: World, id: SessionId, chunks: seq<seq<Byte>>)
    requires Sound(env.framer) && Live(w.sys, id) && id in w.buffers && Settled(env.framer, w.buffers[id])
    ensures Reaches(env, w, id, Concat(chunks), Run(env, w, Reads(id, chunks)))
  {
    LoopCloses(env, id);
    ReadsAreFeeds(env, w, id, chunks);
    FeedAllIsReference(LoopOf(env, id), Link(w.sys, w.buffers[id]), chunks);
  }

  /** The messages a live session handles from a stream are those of the framing of what it has
      buffered and the stream, in order, all of them unless one leaves the session dead; a session
      that is still live has handled them all and the stream held no framing error. */
  lemma {:induction false} HandledMessages(env: Environment, w: World, id: SessionId, chunks: seq<seq<Byte>>)
    requires Sound(env.framer)
    requires Live(w.sys, id) && id in w.buffers && Settled(env.framer, w.buffers[id])
    ensures var f := FramingOf(env.framer, w.buffers[id] + Concat(chunks));
      var n := Cut(LoopOf(env, id), w.sys, f.messages);
      var r := Run(env, w, Reads(id, chunks));
      && n <= |f.messages| && id in r.buffers
      && r.sys.handled == w.sys.handled + LogOf(id, f.messages[..n])
      && (Live(r.sys, id) ==> n == |f.messages| && !f.invalid && r.buffers[id] == f.rest)
  {
    var h, f := LoopOf(env, id), FramingOf(env.framer, w.buffers[id] + Concat(chunks));
    ReadsReach(env, w, id, chunks);
    HandleAllLogs(env, w.sys, id, f.messages);
    var handled := HandleAll(h, w.sys, f.messages);
    if f.invalid && !h.dead(handled) {
      CloseIsLater(handled, id, env.onFramingError(id, handled.handled));
    }
  }

  /** In every reachable state, however the events are interleaved: a live session has handled
      exactly the messages in the bytes it received, in order, there was no framing error among them,
      and its buffer is what they leave over; a session that is dead handled a prefix of them. */
  lemma {:induction false} HandledAreFramed(env: Environment, events: seq<Event>, id: SessionId)
    requires Sound(env.framer)
    ensures var w, f := Reached(env, events), FramingOf(env.framer, BytesTo(events, id));
      && MessagesOf(w.sys.handled, id) <= f.messages
      && (Live(w.sys, id) ==>
            && id in w.buffers && w.buffers[id] == f.rest && Settled(env.framer, w.buffers[id])
            && MessagesOf(w.sys.handled, id) == f.messages && !f.invalid)
    decreases |events|
  {
    RestIsSettled(env.framer, BytesTo(events, id));
    StreamsAreInStep(env, events, id);
  }

  lemma {:induction false} NobodyReadsUnaccepted(events: seq<Event>, id: SessionId)
    requires id > Accepts(events)
    ensures BytesTo(events, id) == []
    decreases |events|
  {
    if events != [] {
      NobodyReadsUnaccepted(events[..|events| - 1], id);
    }
  }

  lemma BytesToStep(init: seq<Event>, e: Event, id: SessionId)
    ensures BytesTo(init + [e], id) ==
            if e.Read? && e.session == id && 1 <= id <= Accepts(init) then BytesTo(init, id) + e.chunk
            else BytesTo(init, id)
  {
    assert (init + [e])[..|init|] == init;
  }

  lemma EventKeepsInStep(env: Environment, init: seq<Event>, w: World, e: Event, id: SessionId)
    requires Sound(env.framer) && WorldInv(w) && w.sys.nextSessionId == Accepts(init)
    requires InStep(env, w, id, BytesTo(init, id))
    ensures InStep(env, Step(env, w, e), id, BytesTo(init + [e], id))
  {
    BytesToStep(init, e, id);
    if !(e.Read? && e.session == id) {
      if id > Accepts(init) {
        NobodyReadsUnaccepted(init, id);
      }
      OtherEventsKeepInStep(env, w, e, id, BytesTo(init, id));
    } else if 1 <= id <= Accepts(init) {
      ReadKeepsInStep(env, w, id, e.chunk, BytesTo(init, id));
    } else {
      assert id !in w.buffers;
    }
  }

  lemma {:induction false} StreamsAreInStep(env: Environment, events: seq<Event>, id: SessionId)
    requires Sound(env.framer)
    ensures InStep(env, Reached(env, events), id, BytesTo(events, id))
    decreases |events|
  {
    if events != [] {
      var init, e := events[..|events| - 1], events[|events| - 1];
      StreamsAreInStep(env, init, id);
      ReachedIsAfterStart(env, init);
      AcceptsIsCounter(env, init);
      ReachedStep(env, events);
      EventKeepsInStep(env, init, Reached(env, init), e, id);
      assert init + [e] == events;
    }
  }

  /** With the FIX framer and any codec: a session whose bytes so far are the encodings of some
      messages has handled exactly those messages if it is live, with nothing left in its buffer, and
      the first few of them if it is dead; whatever happened in between, and in whatever chunks. */
  lemma EncodedMessagesAreLogged(
      env: Environment, events: seq<Event>, id: SessionId, decode: seq<Byte> -> Message, bodies: seq<seq<Byte>>)
    requires env.framer == FixFraming.Decoding(decode)
    requires FixFraming.Encodable(bodies) && BytesTo(events, id) == FixFraming.EncodeAll(bodies)
    ensures Sound(env.framer)
    ensures var w, messages := Reached(env, events), FixFraming.DecodeAll(decode, bodies);
      && MessagesOf(w.sys.handled, id) <= messages
      && (Live(w.sys, id) ==>
            MessagesOf(w.sys.handled, id) == messages && id in w.buffers && w.buffers[id] == [])
  {
    FixFraming.DecodingIsSound(decode);
    FixFraming.StreamFramesBack(decode, bodies);
    HandledAreFramed(env, events, id);
  }

  // ---------- chunking ----------

  /** Two worlds that differ at most in the bytes that session `id`, being dead, has left over. */
  ghost predicate Alike(a: World, b: World, id: SessionId) {
    && a.sys == b.sys && a.buffers.Keys == b.buffers.Keys
    && forall x :: x in a.buffers && (x != id || Live(a.sys, id)) ==> a.buffers[x] == b.buffers[x]
  }

  lemma ReachedAreAlike(env: Environment, w: World, id: SessionId, stream: seq<Byte>, a: World, b: World)
    requires Sound(env.framer) && id in w.buffers
    requires Reaches(env, w, id, stream, a) && Reaches(env, w, id, stream, b)
    ensures Alike(a, b, id)
  {
  }

  lemma DeadStaysDead(env: Environment, w: World, e: Event, id: SessionId)
    requires Sound(env.framer) && WorldInv(w) && id in w.buffers
    ensures Live(Step(env, w, e).sys, id) ==> Live(w.sys, id)
  {
    StepIsAfter(env, w, e);
    assert !Live(w.sys, id) ==> Dead(w.sys, id);
  }

  lemma StepKeepsAlike(env: Environment, a: World, b: World, e: Event, id: SessionId)
    requires Sound(env.framer) && WorldInv(a) && Alike(a, b, id)
    ensures Alike(Step(env, a, e), Step(env, b, e), id)
  {
    if id in a.buffers {
      DeadStaysDead(env, a, e, id);
    }
  }

  lemma {:induction false} RunKeepsAlike(env: Environment, a: World, b: World, events: seq<Event>, id: SessionId)
    requires Sound(env.framer) && WorldInv(a) && Alike(a, b, id)
    ensures Alike(Run(env, a, events), Run(env, b, events), id)
    decreases |events|
  {
    if events != [] {
      StepIsAfter(env, a, events[0]);
      StepKeepsAlike(env, a, b, events[0], id);
      RunKeepsAlike(env, Step(env, a, events[0]), Step(env, b, events[0]), events[1..], id);
    }
  }

  lemma {:induction false} DeadIgnoresReads(env: Environment, w: World, id: SessionId, chunks: seq<seq<Byte>>)
    requires Sound(env.framer) && WorldInv(w) && !Live(w.sys, id)
    ensures Run(env, w, Reads(id, chunks)) == w
    decreases |chunks|
  {
    if chunks != [] {
      assert Reads(id, chunks)[1..] == Reads(id, chunks[1..]);
      assert id in w.buffers ==> w.buffers[id := w.buffers[id]] == w.buffers;
      assert Step(env, w, Read(id, chunks[0])) == w;
      DeadIgnoresReads(env, w, id, chunks[1..]);
    }
  }

  /** Chunking independence in any run: however the bytes read for a session between two other events
      are split, the whole system reaches the same state, then and ever after; and so do all buffers,
      but for what a dead session has left over. */
  lemma {:induction false} SystemIgnoresChunking(
      env: Environment, before: seq<Event>, id: SessionId, a: seq<seq<Byte>>, b: seq<seq<Byte>>, after: seq<Event>)
    requires Sound(env.framer) && Concat(a) == Concat(b)
    ensures Alike(Reached(env, before + Reads(id, a) + after), Reached(env, before + Reads(id, b) + after), id)
  {
    var w := Reached(env, before);
    var wa, wb := Run(env, w, Reads(id, a)), Run(env, w, Reads(id, b));
    ReachedIsAfterStart(env, before);
    RunAppend(env, START, before, Reads(id, a));
    RunAppend(env, START, before, Reads(id, b));
    RunAppend(env, START, before + Reads(id, a), after);
    RunAppend(env, START, before + Reads(id, b), after);
    RunIsAfter(env, w, Reads(id, a));
    assert Alike(wa, wb, id) by {
      if Live(w.sys, id) {
        HandledAreFramed(env, before, id);
        ReadsReach(env, w, id, a);
        ReadsReach(env, w, id, b);
        ReachedAreAlike(env, w, id, Concat(a), wa, wb);
      } else {
        DeadIgnoresReads(env, w, id, a);
        DeadIgnoresReads(env, w, id, b);
      }
    }
    RunKeepsAlike(env, wa, wb, after, id);
  }
}
