/** The read loop of a session: frames a growing byte buffer, handles each message, and stops at
    the first incomplete frame or once the session is dead.

    The loop is stated over an arbitrary world `W` (everything a handled message may change, the
    other sessions included) and an arbitrary framer that meets the contract `Sound`. */
module ReadLoop {
  type Byte = b: int | 0 <= b < 256

  datatype Frame<+M> = Incomplete | Complete(size: nat, message: M) | Invalid

  /** `step` handles one message and tells whether an exception escaped (the session is then
      already closed); `fail` closes the session after the framer itself has thrown. */
  datatype Handler<!W, !M> = Handler(
    framer: seq<Byte> -> Frame<M>,
    step: (W, M) -> (W, bool),
    fail: W -> W,
    dead: W -> bool)

  /** The framer's contract: a frame is a non-empty part of the buffer, and once a frame (or an
      error) is seen, later bytes do not change it. */
  ghost predicate Sound<M(!new)>(framer: seq<Byte> -> Frame<M>) {
    && (forall b :: framer(b).Complete? ==> 0 < framer(b).size <= |b|)
    && (forall b, more :: !framer(b).Incomplete? ==> framer(b + more) == framer(b))
  }

  /** An exception always ends with the session closed. */
  ghost predicate Closes<W(!new), M(!new)>(h: Handler<W, M>) {
    && (forall w, m :: h.step(w, m).1 ==> h.dead(h.step(w, m).0))
    && (forall w :: h.dead(h.fail(w)))
  }

  // ---------- the loop ----------

  /** `consumed` is what the handler drains from the buffer; nothing is drained after a throw. */
  datatype Progress<+W> = Progress(world: W, consumed: nat, thrown: bool)

  ghost function Consume<W, M(!new)>(h: Handler<W, M>, w: W, buffer: seq<Byte>): (r: Progress<W>)
    requires Sound(h.framer)
    ensures r.consumed <= |buffer|
    decreases |buffer|
  {
    if buffer == [] then
      Progress(w, 0, false)
    else
      match h.framer(buffer)
      case Incomplete => Progress(w, 0, false)
      case Invalid => Progress(h.fail(w), 0, true)
      case Complete(size, message) =>
        var (w1, thrown) := h.step(w, message);
        if thrown then
          Progress(w1, 0, true)
        else if h.dead(w1) then
          Progress(w1, size, false)
        else
          var r := Consume(h, w1, buffer[size..]);
          if r.thrown then r.(consumed := 0) else r.(consumed := size + r.consumed)
  }

  datatype Link<+W> = Link(world: W, buffer: seq<Byte>)

  /** One Read event: ignored by a dead session, otherwise append, frame, handle, drain. */
  ghost function Feed<W, M(!new)>(h: Handler<W, M>, link: Link<W>, chunk: seq<Byte>): Link<W>
    requires Sound(h.framer)
  {
    if h.dead(link.world) then
      link
    else
      var buffer := link.buffer + chunk;
      var r := Consume(h, link.world, buffer);
      Link(r.world, buffer[r.consumed..])
  }

  ghost function FeedAll<W, M(!new)>(h: Handler<W, M>, link: Link<W>, chunks: seq<seq<Byte>>): Link<W>
    requires Sound(h.framer)
    decreases |chunks|
  {
    if chunks == [] then link else FeedAll(h, Feed(h, link, chunks[0]), chunks[1..])
  }

  function Concat(chunks: seq<seq<Byte>>): seq<Byte> {
    if chunks == [] then [] else chunks[0] + Concat(chunks[1..])
  }

  // ---------- the reference: frame the whole stream first, then handle ----------

  datatype Framing<+M> = Framing(messages: seq<M>, rest: seq<Byte>, invalid: bool)

  ghost function FramingOf<M(!new)>(framer: seq<Byte> -> Frame<M>, stream: seq<Byte>): Framing<M>
    requires Sound(framer)
    decreases |stream|
  {
    if stream == [] then
      Framing([], [], false)
    else
      match framer(stream)
      case Incomplete => Framing([], stream, false)
      case Invalid => Framing([], stream, true)
      case Complete(size, message) =>
        var f := FramingOf(framer, stream[size..]);
        f.(messages := [message] + f.messages)
  }

  /** Handles the messages in order, cut after the first one that leaves the session dead. */
  ghost function HandleAll<W, M>(h: Handler<W, M>, w: W, messages: seq<M>): W
    decreases |messages|
  {
    if h.dead(w) || messages == [] then w else HandleAll(h, h.step(w, messages[0]).0, messages[1..])
  }

  ghost function HandleFraming<W, M>(h: Handler<W, M>, w: W, framing: Framing<M>): W {
    var w1 := HandleAll(h, w, framing.messages);
    if framing.invalid && !h.dead(w1) then h.fail(w1) else w1
  }

  // ---------- proofs ----------

  lemma HandleFramingStep<W, M>(h: Handler<W, M>, w: W, message: M, f: Framing<M>)
    requires !h.dead(w)
    ensures HandleFraming(h, w, f.(messages := [message] + f.messages)) ==
            HandleFraming(h, h.step(w, message).0, f)
  {
  }

  lemma {:induction false} ConsumeIsReference<W(!new), M(!new)>(h: Handler<W, M>, w: W, buffer: seq<Byte>)
    requires Sound(h.framer) && Closes(h) && !h.dead(w)
    ensures Consume(h, w, buffer).world == HandleFraming(h, w, FramingOf(h.framer, buffer))
    decreases |buffer|
  {
    if buffer != [] {
      match h.framer(buffer) {
        case Incomplete =>
        case Invalid =>
        case Complete(size, message) =>
          var (w1, thrown) := h.step(w, message);
          var tail := buffer[size..];
          HandleFramingStep(h, w, message, FramingOf(h.framer, tail));
          if !thrown && !h.dead(w1) {
            ConsumeIsReference(h, w1, tail);
          }
      }
    }
  }

  lemma {:induction false} ConsumeLeavesRest<W(!new), M(!new)>(h: Handler<W, M>, w: W, buffer: seq<Byte>)
    requires Sound(h.framer) && Closes(h)
    ensures Consume(h, w, buffer).thrown ==> h.dead(Consume(h, w, buffer).world)
    ensures h.dead(Consume(h, w, buffer).world) ||
            (!FramingOf(h.framer, buffer).invalid &&
             buffer[Consume(h, w, buffer).consumed..] == FramingOf(h.framer, buffer).rest)
    decreases |buffer|
  {
    if buffer != [] {
      var frame := h.framer(buffer);
      if frame.Complete? {
        var (w1, thrown) := h.step(w, frame.message);
        var tail := buffer[frame.size..];
        if !thrown && !h.dead(w1) {
          ConsumeLeavesRest(h, w1, tail);
          var inner := Consume(h, w1, tail);
          assert tail[inner.consumed..] == buffer[frame.size + inner.consumed..];
        }
      }
    }
  }

  function Prepend<M>(messages: seq<M>, f: Framing<M>): Framing<M> {
    f.(messages := messages + f.messages)
  }

  lemma PrependTwice<M>(a: seq<M>, b: seq<M>, f: Framing<M>)
    ensures Prepend(a, Prepend(b, f)) == Prepend(a + b, f)
  {
  }

  lemma FramingStep<M(!new)>(framer: seq<Byte> -> Frame<M>, stream: seq<Byte>, more: seq<Byte>)
    requires Sound(framer) && framer(stream).Complete?
    ensures var head, tail := [framer(stream).message], stream[framer(stream).size..];
      && FramingOf(framer, stream) == Prepend(head, FramingOf(framer, tail))
      && FramingOf(framer, stream + more) == Prepend(head, FramingOf(framer, tail + more))
  {
    assert framer(stream + more) == framer(stream);
    assert (stream + more)[framer(stream).size..] == stream[framer(stream).size..] + more;
  }

  /** Framing a prefix first and its rest with the later bytes afterwards changes nothing. */
  lemma {:induction false} FramingExtends<M(!new)>(framer: seq<Byte> -> Frame<M>, stream: seq<Byte>, more: seq<Byte>)
    requires Sound(framer)
    ensures var f, all := FramingOf(framer, stream), FramingOf(framer, stream + more);
      if f.invalid then all.invalid && all.messages == f.messages
      else all == Prepend(f.messages, FramingOf(framer, f.rest + more))
    decreases |stream|
  {
    if stream == [] {
      assert stream + more == more;
    } else if framer(stream).Invalid? {
      assert framer(stream + more) == framer(stream);
    } else if framer(stream).Complete? {
      var tail := stream[framer(stream).size..];
      var inner := FramingOf(framer, tail);
      FramingStep(framer, stream, more);
      FramingExtends(framer, tail, more);
      PrependTwice([framer(stream).message], inner.messages, FramingOf(framer, inner.rest + more));
    }
  }

  lemma {:induction false} HandleAllAppend<W, M>(h: Handler<W, M>, w: W, a: seq<M>, b: seq<M>)
    ensures HandleAll(h, w, a + b) == HandleAll(h, HandleAll(h, w, a), b)
    decreases |a|
  {
    if a == [] {
      assert a + b == b;
    } else if !h.dead(w) {
      assert (a + b)[1..] == a[1..] + b;
      HandleAllAppend(h, h.step(w, a[0]).0, a[1..], b);
    }
  }

  /** A part that frames to `message` whatever bytes follow it. */
  ghost predicate FramesTo<M(!new)>(framer: seq<Byte> -> Frame<M>, part: seq<Byte>, message: M) {
    forall tail :: framer(part + tail) == Complete(|part|, message)
  }

  /** A stream of such parts frames to their messages. */
  lemma {:induction false} PartsFrame<M(!new)>(framer: seq<Byte> -> Frame<M>, parts: seq<seq<Byte>>, messages: seq<M>)
    requires Sound(framer) && |parts| == |messages|
    requires forall i :: 0 <= i < |parts| ==> FramesTo(framer, parts[i], messages[i])
    ensures FramingOf(framer, Concat(parts)) == Framing(messages, [], false)
    decreases |parts|
  {
    if parts != [] {
      var first, tail := parts[0], Concat(parts[1..]);
      assert FramesTo(framer, first, messages[0]);
      assert framer(first + tail) == Complete(|first|, messages[0]);
      assert (first + tail)[|first|..] == tail;
      PartsFrame(framer, parts[1..], messages[1..]);
      assert [messages[0]] + messages[1..] == messages;
    }
  }

  /** Whatever is left in the buffer of a live session holds no complete frame. */
  ghost predicate Settled<M(!new)>(framer: seq<Byte> -> Frame<M>, buffer: seq<Byte>) {
    buffer == [] || framer(buffer).Incomplete?
  }

  lemma {:induction false} RestIsSettled<M(!new)>(framer: seq<Byte> -> Frame<M>, stream: seq<Byte>)
    requires Sound(framer)
    ensures !FramingOf(framer, stream).invalid ==> Settled(framer, FramingOf(framer, stream).rest)
    ensures var rest := FramingOf(framer, stream).rest;
      |rest| <= |stream| && stream[|stream| - |rest|..] == rest
    decreases |stream|
  {
    if stream != [] && framer(stream).Complete? {
      RestIsSettled(framer, stream[framer(stream).size..]);
    }
  }

  lemma {:induction false} FeedAllIsReference<W(!new), M(!new)>(h: Handler<W, M>, link: Link<W>, chunks: seq<seq<Byte>>)
    requires Sound(h.framer) && Closes(h) && !h.dead(link.world) && Settled(h.framer, link.buffer)
    ensures var f, r := FramingOf(h.framer, link.buffer + Concat(chunks)), FeedAll(h, link, chunks);
      && r.world == HandleFraming(h, link.world, f)
      && (!h.dead(r.world) ==> r.buffer == f.rest && Settled(h.framer, r.buffer))
    decreases |chunks|
  {
    if chunks == [] {
      assert link.buffer + Concat(chunks) == link.buffer;
    } else {
      var buffer, tail := link.buffer + chunks[0], Concat(chunks[1..]);
      assert link.buffer + Concat(chunks) == buffer + tail;
      var next := Feed(h, link, chunks[0]);
      var f := FramingOf(h.framer, buffer);
      ConsumeIsReference(h, link.world, buffer);
      ConsumeLeavesRest(h, link.world, buffer);
      FramingExtends(h.framer, buffer, tail);
      RestIsSettled(h.framer, buffer);
      if !f.invalid {
        HandleAllAppend(h, link.world, f.messages, FramingOf(h.framer, f.rest + tail).messages);
      }
      if h.dead(next.world) {
        DeadIgnores(h, next, chunks[1..]);
      } else {
        FeedAllIsReference(h, next, chunks[1..]);
      }
    }
  }

  lemma {:induction false} DeadIgnores<W, M(!new)>(h: Handler<W, M>, link: Link<W>, chunks: seq<seq<Byte>>)
    requires Sound(h.framer) && h.dead(link.world)
    ensures FeedAll(h, link, chunks) == link
    decreases |chunks|
  {
    if chunks != [] {
      DeadIgnores(h, link, chunks[1..]);
    }
  }

  /** Chunking independence: however a byte stream is split into Read events, the world reached
      is that of framing the whole stream and handling its messages in order, cut after the first
      one that closes the session or throws; a live session has buffered exactly the bytes after
      the last complete frame, and they hold no complete frame. */
  lemma ChunkingIndependence<W(!new), M(!new)>(h: Handler<W, M>, w: W, chunks: seq<seq<Byte>>)
    requires Sound(h.framer) && Closes(h) && !h.dead(w)
    ensures var f, r := FramingOf(h.framer, Concat(chunks)), FeedAll(h, Link(w, []), chunks);
      && r.world == HandleFraming(h, w, f)
      && (!h.dead(r.world) ==> r.buffer == f.rest && Settled(h.framer, r.buffer))
  {
    assert [] + Concat(chunks) == Concat(chunks);
    FeedAllIsReference(h, Link(w, []), chunks);
  }

  /** Two splits of one stream cannot be told apart by anything the session does. */
  lemma SplitsAgree<W(!new), M(!new)>(h: Handler<W, M>, w: W, a: seq<seq<Byte>>, b: seq<seq<Byte>>)
    requires Sound(h.framer) && Closes(h) && !h.dead(w) && Concat(a) == Concat(b)
    ensures var ra, rb := FeedAll(h, Link(w, []), a), FeedAll(h, Link(w, []), b);
      ra.world == rb.world && (!h.dead(ra.world) ==> ra.buffer == rb.buffer)
  {
    ChunkingIndependence(h, w, a);
    ChunkingIndependence(h, w, b);
  }

  /** The number of bytes that the complete frames at the front of a stream take up. */
  ghost function FramedSize<M(!new)>(framer: seq<Byte> -> Frame<M>, stream: seq<Byte>): nat
    requires Sound(framer)
    decreases |stream|
  {
    if stream == [] || !framer(stream).Complete? then 0
    else framer(stream).size + FramedSize(framer, stream[framer(stream).size..])
  }

  lemma {:induction false} FramedSizeAndRest<M(!new)>(framer: seq<Byte> -> Frame<M>, stream: seq<Byte>)
    requires Sound(framer)
    ensures FramedSize(framer, stream) + |FramingOf(framer, stream).rest| == |stream|
    decreases |stream|
  {
    if stream != [] && framer(stream).Complete? {
      FramedSizeAndRest(framer, stream[framer(stream).size..]);
    }
  }

  /** The number of bytes that the Read handlers drain from the buffer, one after the other. */
  ghost function DrainedBy<W, M(!new)>(h: Handler<W, M>, link: Link<W>, chunks: seq<seq<Byte>>): nat
    requires Sound(h.framer)
    decreases |chunks|
  {
    if chunks == [] || h.dead(link.world) then 0
    else
      Consume(h, link.world, link.buffer + chunks[0]).consumed +
      DrainedBy(h, Feed(h, link, chunks[0]), chunks[1..])
  }

  /** The buffer is what is left of the received bytes after the drained ones. */
  ghost predicate Leaves(received: seq<Byte>, drained: nat, buffer: seq<Byte>) {
    drained + |buffer| == |received| && received[drained..] == buffer
  }

  /** One Read event drains `first` bytes; the later ones drain `later` bytes of what it left. */
  lemma DrainedTwice(received: seq<Byte>, all: seq<Byte>, tail: seq<Byte>, first: nat, later: nat, buffer: seq<Byte>)
    requires received == all + tail && first <= |all| && Leaves(all[first..] + tail, later, buffer)
    ensures Leaves(received, first + later, buffer)
  {
  }

  lemma {:induction false} DrainedAndBuffered<W(!new), M(!new)>(h: Handler<W, M>, link: Link<W>, chunks: seq<seq<Byte>>)
    requires Sound(h.framer) && !h.dead(FeedAll(h, link, chunks).world)
    ensures Leaves(link.buffer + Concat(chunks), DrainedBy(h, link, chunks), FeedAll(h, link, chunks).buffer)
    decreases |chunks|
  {
    var received := link.buffer + Concat(chunks);
    if h.dead(link.world) {
      DeadIgnores(h, link, chunks);
    } else if chunks == [] {
      assert received == link.buffer;
    } else {
      var all, tail, next := link.buffer + chunks[0], Concat(chunks[1..]), Feed(h, link, chunks[0]);
      var first, later := Consume(h, link.world, all).consumed, DrainedBy(h, next, chunks[1..]);
      DrainedAndBuffered(h, next, chunks[1..]);
      assert received == all + tail;
      DrainedTwice(received, all, tail, first, later, FeedAll(h, next, chunks[1..]).buffer);
    }
  }

  /** Byte conservation: as long as the session lives, the bytes its Read handlers drain plus the
      bytes buffered are the bytes received, the buffer is the tail of the stream, and what is
      drained is exactly the complete frames of the stream. */
  lemma BytesConserved<W(!new), M(!new)>(h: Handler<W, M>, w: W, chunks: seq<seq<Byte>>)
    requires Sound(h.framer) && Closes(h) && !h.dead(w)
    requires !h.dead(FeedAll(h, Link(w, []), chunks).world)
    ensures var stream, buffer := Concat(chunks), FeedAll(h, Link(w, []), chunks).buffer;
      var drained := DrainedBy(h, Link(w, []), chunks);
      && Leaves(stream, drained, buffer)
      && drained == FramedSize(h.framer, stream)
  {
    ChunkingIndependence(h, w, chunks);
    DrainedAndBuffered(h, Link(w, []), chunks);
    assert [] + Concat(chunks) == Concat(chunks);
    FramedSizeAndRest(h.framer, Concat(chunks));
  }
}
