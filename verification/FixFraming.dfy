/** A concrete framer for the FIX 4.4 wire format: BeginString, BodyLength, body, CheckSum.

    It shows that the contract the read loop relies on can be met, and that streams of encoded
    messages are framed back into exactly those messages. */
module FixFraming {
  import opened ReadLoop

  const SOH: Byte := 1
  /** "8=FIX.4.4" SOH "9=" */
  const HEAD: seq<Byte> := [56, 61, 70, 73, 88, 46, 52, 46, 52, 1, 57, 61]
  /** "10=" */
  const TRAILER: seq<Byte> := [49, 48, 61]
  /** "10=", three digits, SOH */
  const TRAILER_SIZE := 7
  /** Width of the BodyLength field as the bridge encodes it, as in "9=0000115". */
  const LENGTH_DIGITS := 7

  predicate IsDigit(b: Byte) { 48 <= b <= 57 }

  predicate AllDigits(s: seq<Byte>) { forall i :: 0 <= i < |s| ==> IsDigit(s[i]) }

  function Number(s: seq<Byte>): nat
    requires AllDigits(s)
  {
    if s == [] then 0 else 10 * Number(s[..|s| - 1]) + (s[|s| - 1] - 48)
  }

  function Digits(n: nat, width: nat): (s: seq<Byte>)
    ensures |s| == width && AllDigits(s)
  {
    if width == 0 then [] else Digits(n / 10, width - 1) + [48 + n % 10]
  }

  /** The checksum of a message: the sum of its bytes modulo 256. */
  function Sum(s: seq<Byte>): nat {
    if s == [] then 0 else Sum(s[..|s| - 1]) + s[|s| - 1]
  }

  function Trailer(covered: seq<Byte>): seq<Byte> {
    TRAILER + Digits(Sum(covered) % 256, 3) + [SOH]
  }

  function Encode(body: seq<Byte>): seq<Byte> {
    var covered := HEAD + Digits(|body|, LENGTH_DIGITS) + [SOH] + body;
    covered + Trailer(covered)
  }

  /** The first separator at or after `i`, or the end of the buffer. */
  function FindSeparator(b: seq<Byte>, i: nat): (r: nat)
    requires i <= |b|
    ensures i <= r <= |b|
    ensures forall j :: i <= j < r ==> b[j] != SOH
    ensures r < |b| ==> b[r] == SOH
    decreases |b| - i
  {
    if i == |b| || b[i] == SOH then i else FindSeparator(b, i + 1)
  }

  function FrameMessage(b: seq<Byte>): (r: Frame<seq<Byte>>)
    ensures r.Complete? ==> |r.message| < r.size <= |b|
  {
    if |b| < |HEAD| then
      if b <= HEAD then Incomplete else Invalid
    else if b[..|HEAD|] != HEAD then
      Invalid
    else
      var sep := FindSeparator(b, |HEAD|);
      if sep == |b| then
        Incomplete
      else if sep == |HEAD| || !AllDigits(b[|HEAD|..sep]) then
        Invalid
      else
        var end := sep + 1 + Number(b[|HEAD|..sep]);
        if |b| < end + TRAILER_SIZE then
          Incomplete
        else if b[end..end + TRAILER_SIZE] == Trailer(b[..end]) then
          Complete(end + TRAILER_SIZE, b[sep + 1..end])
        else
          Invalid
  }

  lemma SeparatorIsStable(b: seq<Byte>, more: seq<Byte>)
    requires |HEAD| <= |b| && FindSeparator(b, |HEAD|) < |b|
    ensures FindSeparator(b + more, |HEAD|) == FindSeparator(b, |HEAD|)
  {
    var r, s := FindSeparator(b, |HEAD|), FindSeparator(b + more, |HEAD|);
    assert (b + more)[r] == b[r];
    assert s <= r;
    assert (b + more)[s] == b[s];
  }

  lemma HeadedIsStable(b: seq<Byte>, more: seq<Byte>)
    requires |HEAD| <= |b| && b[..|HEAD|] == HEAD && !FrameMessage(b).Incomplete?
    ensures FrameMessage(b + more) == FrameMessage(b)
  {
    var all := b + more;
    SeparatorIsStable(b, more);
    var sep := FindSeparator(b, |HEAD|);
    assert all[..|HEAD|] == b[..|HEAD|];
    assert all[|HEAD|..sep] == b[|HEAD|..sep];
    if AllDigits(b[|HEAD|..sep]) && sep != |HEAD| {
      var end := sep + 1 + Number(b[|HEAD|..sep]);
      assert all[..end] == b[..end];
      assert all[sep + 1..end] == b[sep + 1..end];
      assert all[end..end + TRAILER_SIZE] == b[end..end + TRAILER_SIZE];
    }
  }

  lemma FrameIsStable(b: seq<Byte>, more: seq<Byte>)
    requires !FrameMessage(b).Incomplete?
    ensures FrameMessage(b + more) == FrameMessage(b)
  {
    var all := b + more;
    if |b| < |HEAD| {
      var i :| 0 <= i < |b| && b[i] != HEAD[i];
      assert all[i] != HEAD[i];
    } else if b[..|HEAD|] != HEAD {
      assert all[..|HEAD|] == b[..|HEAD|];
    } else {
      HeadedIsStable(b, more);
    }
  }

  // ---------- round trip ----------

  function Power10(width: nat): nat {
    if width == 0 then 1 else 10 * Power10(width - 1)
  }

  lemma {:induction false} NumberOfDigits(n: nat, width: nat)
    requires n < Power10(width)
    ensures Number(Digits(n, width)) == n
  {
    if width > 0 {
      NumberOfDigits(n / 10, width - 1);
      var s := Digits(n, width);
      assert s[..|s| - 1] == Digits(n / 10, width - 1);
    }
  }

  /** What the encoder writes, followed by anything at all, frames back to the body. */
  lemma EncodedFramesBack(body: seq<Byte>, rest: seq<Byte>)
    requires |body| < Power10(LENGTH_DIGITS)
    ensures FrameMessage(Encode(body) + rest) == Complete(|Encode(body)|, body)
  {
    var digits := Digits(|body|, LENGTH_DIGITS);
    var covered := HEAD + digits + [SOH] + body;
    var b := Encode(body) + rest;
    assert b == HEAD + digits + [SOH] + body + Trailer(covered) + rest;
    var sep := |HEAD| + LENGTH_DIGITS;
    assert b[..|HEAD|] == HEAD;
    assert b[|HEAD|..sep] == digits;
    assert b[sep] == SOH;
    forall j | |HEAD| <= j < sep ensures b[j] != SOH { assert b[j] == digits[j - |HEAD|]; }
    assert FindSeparator(b, |HEAD|) == sep;
    NumberOfDigits(|body|, LENGTH_DIGITS);
    var end := sep + 1 + |body|;
    assert b[..end] == covered;
    assert b[sep + 1..end] == body;
    assert b[end..end + TRAILER_SIZE] == Trailer(covered);
  }

  /** An encoded message, field by field: the length that is written is that of the body, and the
      checksum that is written is the sum of all bytes before it modulo 256. */
  lemma EncodingIsOnTheWire(body: seq<Byte>)
    requires |body| < Power10(LENGTH_DIGITS)
    ensures var e, start := Encode(body), |HEAD| + LENGTH_DIGITS + 1;
      var end := start + |body|;
      && |e| == end + TRAILER_SIZE
      && e[..|HEAD|] == HEAD
      && AllDigits(e[|HEAD|..start - 1]) && Number(e[|HEAD|..start - 1]) == |body| && e[start - 1] == SOH
      && e[start..end] == body
      && e[end..end + 3] == TRAILER
      && AllDigits(e[end + 3..end + 6]) && Number(e[end + 3..end + 6]) == Sum(e[..end]) % 256
      && e[end + 6] == SOH
  {
    var covered := HEAD + Digits(|body|, LENGTH_DIGITS) + [SOH] + body;
    var e, start := Encode(body), |HEAD| + LENGTH_DIGITS + 1;
    var end := start + |body|;
    assert e[..end] == covered;
    assert e[|HEAD|..start - 1] == Digits(|body|, LENGTH_DIGITS);
    NumberOfDigits(|body|, LENGTH_DIGITS);
    assert e[end + 3..end + 6] == Digits(Sum(covered) % 256, 3);
    assert Power10(3) == 1000;
    NumberOfDigits(Sum(covered) % 256, 3);
  }

  function EncodeAll(bodies: seq<seq<Byte>>): seq<Byte> {
    Concat(Encodings(bodies))
  }

  function Encodings(bodies: seq<seq<Byte>>): seq<seq<Byte>> {
    seq(|bodies|, i requires 0 <= i < |bodies| => Encode(bodies[i]))
  }

  ghost predicate Encodable(bodies: seq<seq<Byte>>) {
    forall i :: 0 <= i < |bodies| ==> |bodies[i]| < Power10(LENGTH_DIGITS)
  }

  // ---------- framing for decoded messages ----------

  /** The framer of a session that decodes each body, whatever the codec. */
  function Decoding<M>(decode: seq<Byte> -> M): seq<Byte> -> Frame<M> {
    (b: seq<Byte>) =>
      match FrameMessage(b)
      case Incomplete => Incomplete
      case Invalid => Invalid
      case Complete(size, body) => Complete(size, decode(body))
  }

  /** The contract of the read loop is met for every codec, so the theorems about it apply. */
  lemma DecodingIsSound<M(!new)>(decode: seq<Byte> -> M)
    ensures Sound(Decoding(decode))
  {
    forall b, more | !FrameMessage(b).Incomplete? ensures FrameMessage(b + more) == FrameMessage(b) {
      FrameIsStable(b, more);
    }
    forall b | Decoding(decode)(b).Complete? ensures 0 < Decoding(decode)(b).size <= |b| {
      assert FrameMessage(b).Complete?;
    }
  }

  function DecodeAll<M>(decode: seq<Byte> -> M, bodies: seq<seq<Byte>>): seq<M> {
    seq(|bodies|, i requires 0 <= i < |bodies| => decode(bodies[i]))
  }

  lemma EncodingFramesTo<M(!new)>(decode: seq<Byte> -> M, body: seq<Byte>)
    requires |body| < Power10(LENGTH_DIGITS)
    ensures FramesTo(Decoding(decode), Encode(body), decode(body))
  {
    forall tail ensures Decoding(decode)(Encode(body) + tail) == Complete(|Encode(body)|, decode(body)) {
      EncodedFramesBack(body, tail);
    }
  }

  /** Round trip of whole streams: the encodings of some messages frame back to those messages. */
  lemma {:induction false} StreamFramesBack<M(!new)>(decode: seq<Byte> -> M, bodies: seq<seq<Byte>>)
    requires Encodable(bodies) && Sound(Decoding(decode))
    ensures FramingOf(Decoding(decode), EncodeAll(bodies)) == Framing(DecodeAll(decode, bodies), [], false)
  {
    forall i | 0 <= i < |bodies| ensures FramesTo(Decoding(decode), Encodings(bodies)[i], DecodeAll(decode, bodies)[i]) {
      EncodingFramesTo(decode, bodies[i]);
    }
    PartsFrame(Decoding(decode), Encodings(bodies), DecodeAll(decode, bodies));
  }

  /** End to end: a session that is sent encoded messages handles exactly those messages, in
      order, cut after one that closes it, whatever the chunks they arrive in. */
  lemma {:induction false} EncodedMessagesAreHandled<W(!new), M(!new)>(
      h: Handler<W, M>, w: W, decode: seq<Byte> -> M, bodies: seq<seq<Byte>>, chunks: seq<seq<Byte>>)
    requires h.framer == Decoding(decode) && Closes(h) && !h.dead(w)
    requires Encodable(bodies) && Concat(chunks) == EncodeAll(bodies)
    ensures Sound(h.framer)
    ensures FeedAll(h, Link(w, []), chunks).world == HandleAll(h, w, DecodeAll(decode, bodies))
  {
    DecodingIsSound(decode);
    StreamFramesBack(decode, bodies);
    ChunkingIndependence(h, w, chunks);
  }
}
