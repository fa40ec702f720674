/** The codec as a stream: what was framed comes out again, however the bytes are cut into chunks. */
module Framing {
  import opened ByteStrings
  import opened PeerMessages

  /** Decoding the frame of a message, whatever follows it, gives the message and what follows. */
  lemma {:induction false} DecodeInvertsEncode(m: Message, rest: Bytes)
    requires Sendable(m)
    ensures DecodeOnce(Frame(m) + rest) == (Decoded(m), rest)
  {
    var src, n := Frame(m) + rest, |Body(m)|;
    assert src == U32Bytes(n) + (Body(m) + rest);
    U32RoundTrip(n, Body(m) + rest);
    if n > 0 {
      assert src[4] == Body(m)[0];
      assert src[5..] == Body(m)[1..] + rest;
      PayloadRoundTrip(m, rest);
      assert src[5 + (n - 1)..] == rest;
    } else {
      assert src[4..] == rest;
    }
  }

  lemma PayloadRoundTrip(m: Message, rest: Bytes)
    requires Sendable(m) && m != KeepAlive
    ensures var body := Body(m);
            DecodePayload(body[0], |body|, body[1..] + rest) == (Decoded(m), |body| - 1)
  {
    var body := Body(m);
    var src := body[1..] + rest;
    match m
    case Have(i) =>
      assert src == U32Bytes(i) + rest;
      U32RoundTrip(i, rest);
    case Bitfield(v) =>
      assert src[..|body| - 1] == v;
    case Request(i, b, l) =>
      ThreeNumbers(src, i, b, l, rest);
    case Cancel(i, b, l) =>
      ThreeNumbers(src, i, b, l, rest);
    case Piece(i, b, block) =>
      assert src == U32Bytes(i) + (U32Bytes(b) + (block + rest));
      U32RoundTrip(i, U32Bytes(b) + (block + rest));
      U32RoundTrip(b, block + rest);
      assert src[8..|body| - 1] == block;
    case _ =>
  }

  lemma ThreeNumbers(src: Bytes, i: nat, b: nat, l: nat, rest: Bytes)
    requires i < U32 && b < U32 && l < U32
    requires src == U32Bytes(i) + U32Bytes(b) + U32Bytes(l) + rest
    ensures |src| >= 12 && U32Of(src) == i && U32Of(src[4..]) == b && U32Of(src[8..]) == l
  {
    assert src == U32Bytes(i) + (U32Bytes(b) + (U32Bytes(l) + rest));
    U32RoundTrip(i, U32Bytes(b) + (U32Bytes(l) + rest));
    U32RoundTrip(b, U32Bytes(l) + rest);
    assert src[8..] == U32Bytes(l) + rest;
    U32RoundTrip(l, rest);
  }

  /**
   * A decoded message always takes its own frame off the buffer exactly when the length prefix is
   * the one the encoder would write; otherwise the decoder is out of step with the sender.
   */
  lemma {:induction false} InStepIffCanonicalLength(src: Bytes)
    requires DecodeOnce(src).0.Decoded?
    ensures var (d, rest) := DecodeOnce(src);
            && Sendable(d.message)
            && (|src| - |rest| == 4 + U32Of(src) <==> U32Of(src) == |Body(d.message)|)
            && (|src| - |rest| == 4 + U32Of(src) <==> src == Frame(d.message) + rest)
  {
    var (d, rest) := DecodeOnce(src);
    DecodedTakesItsBody(src);
    if U32Of(src) == |Body(d.message)| {
      U32RoundTripBack(src);
      assert src == src[..4] + src[4..];
    }
    if src == Frame(d.message) + rest {
      assert |src| - |rest| == 4 + |Body(d.message)|;
      FrameStartsWithLength(d.message, rest);
    }
  }

  lemma FrameStartsWithLength(m: Message, rest: Bytes)
    requires Sendable(m)
    ensures U32Of(Frame(m) + rest) == |Body(m)|
  {
    assert Frame(m) + rest == U32Bytes(|Body(m)|) + (Body(m) + rest);
    U32RoundTrip(|Body(m)|, Body(m) + rest);
  }

  /** Whatever the length prefix says, a decoded message takes its prefix and its own body. */
  lemma DecodedTakesItsBody(src: Bytes)
    requires DecodeOnce(src).0.Decoded?
    ensures var (d, rest) := DecodeOnce(src);
            && Sendable(d.message) && src[4..] == Body(d.message) + rest
  {
    if U32Of(src) > 0 {
      PayloadIsBody(src[4], U32Of(src), src[5..]);
      assert src[4..] == [src[4]] + src[5..];
    }
  }

  lemma PayloadIsBody(typ: byte, n: nat, src: Bytes)
    requires 1 <= n < U32 && n <= |src| + 1 && DecodePayload(typ, n, src).0.Decoded?
    ensures var (d, used) := DecodePayload(typ, n, src);
            && Sendable(d.message) && used <= |src|
            && Body(d.message) == [typ] + src[..used]
  {
    match typ
    case 4 => U32RoundTripBack(src);
    case 6 => ThreeNumbersBack(src);
    case 8 => ThreeNumbersBack(src);
    case 7 => BlockBack(src, n - 1);
    case _ =>
  }

  lemma ThreeNumbersBack(src: Bytes)
    requires |src| >= 12
    ensures U32Bytes(U32Of(src)) + U32Bytes(U32Of(src[4..])) + U32Bytes(U32Of(src[8..])) == src[..12]
  {
    U32RoundTripBack(src);
    U32RoundTripBack(src[4..]);
    U32RoundTripBack(src[8..]);
  }

  lemma BlockBack(src: Bytes, n: nat)
    requires 8 <= n <= |src|
    ensures U32Bytes(U32Of(src)) + U32Bytes(U32Of(src[4..])) + src[8..n] == src[..n]
  {
    U32RoundTripBack(src);
    U32RoundTripBack(src[4..]);
  }

  /** A frame that has not arrived in full is left in the buffer. */
  lemma PartOfAFrameWaits(m: Message, data: Bytes, tail: Bytes)
    requires Sendable(m) && data + tail == Frame(m) && tail != []
    ensures DecodeOnce(data) == (Incomplete, data)
  {
    if |data| >= 4 {
      assert data[..4] == (data + tail)[..4] == U32Bytes(|Body(m)|);
      U32RoundTrip(|Body(m)|, data[4..]);
      assert data == U32Bytes(|Body(m)|) + data[4..];
    }
  }

  // ---- The receiving loop ----

  /** Decoding until no message comes out. */
  function Drain(src: Bytes): (seq<Message>, Bytes)
    decreases |src|
  {
    var (d, rest) := DecodeOnce(src);
    if d.Decoded? then
      var (ms, left) := Drain(rest);
      ([d.message] + ms, left)
    else ([], src)
  }

  /** Chunks arrive one by one, and the buffer is drained after each. */
  function Receive(buffer: Bytes, chunks: seq<Bytes>): (seq<Message>, Bytes)
    decreases |chunks|
  {
    if chunks == [] then ([], buffer)
    else
      var (ms, left) := Drain(buffer + chunks[0]);
      var (more, last) := Receive(left, chunks[1..]);
      (ms + more, last)
  }

  function FrameAll(ms: seq<Message>): Bytes {
    if ms == [] then [] else Frame(ms[0]) + FrameAll(ms[1..])
  }

  function Flatten(chunks: seq<Bytes>): Bytes {
    if chunks == [] then [] else chunks[0] + Flatten(chunks[1..])
  }

  lemma CutFirst(first: Bytes, others: Bytes, data: Bytes, tail: Bytes)
    requires data + tail == first + others
    ensures |data| < |first| ==> data + first[|data|..] == first
    ensures |data| >= |first| ==> data == first + data[|first|..] && data[|first|..] + tail == others
  {
    assert (data + tail)[..|first|] == first;
    assert (data + tail)[|first|..] == others;
  }

  lemma {:induction false} DrainedStaysDrained(data: Bytes)
    ensures Drain(Drain(data).1) == ([], Drain(data).1)
    decreases |data|
  {
    if DecodeOnce(data).0.Decoded? {
      DrainedStaysDrained(DecodeOnce(data).1);
    }
  }

  lemma PartIsKept(m: Message, data: Bytes, missing: Bytes)
    requires Sendable(m) && data + missing == Frame(m) && missing != []
    ensures Drain(data) == ([], data)
  {
    PartOfAFrameWaits(m, data, missing);
  }

  lemma OneMoreTaken(ms: seq<Message>, k: nat)
    requires ms != [] && k <= |ms[1..]|
    ensures ms[..k + 1] == [ms[0]] + ms[1..][..k] && ms[k + 1..] == ms[1..][k..]
  {
  }

  lemma DrainFirst(m: Message, rest: Bytes)
    requires Sendable(m)
    ensures Drain(Frame(m) + rest) == ([m] + Drain(rest).0, Drain(rest).1)
  {
    DecodeInvertsEncode(m, rest);
  }

  /** Draining the beginning of a stream yields the messages it holds in full and keeps the rest. */
  lemma {:induction false} DrainBeginning(ms: seq<Message>, data: Bytes, tail: Bytes) returns (k: nat)
    requires (forall m <- ms :: Sendable(m)) && data + tail == FrameAll(ms)
    ensures k <= |ms| && Drain(data).0 == ms[..k]
    ensures Drain(data).1 + tail == FrameAll(ms[k..])
  {
    if ms == [] {
      assert data == [];
      k := 0;
    } else {
      var first := Frame(ms[0]);
      assert ms[0] in ms;
      CutFirst(first, FrameAll(ms[1..]), data, tail);
      if |data| < |first| {
        PartIsKept(ms[0], data, first[|data|..]);
        k := 0;
      } else {
        var data' := data[|first|..];
        DrainFirst(ms[0], data');
        k := DrainBeginning(ms[1..], data', tail);
        OneMoreTaken(ms, k);
        k := k + 1;
      }
    }
  }

  lemma {:induction false} ReceiveFrom(ms: seq<Message>, buffer: Bytes, chunks: seq<Bytes>)
    requires (forall m <- ms :: Sendable(m)) && buffer + Flatten(chunks) == FrameAll(ms)
    requires Drain(buffer) == ([], buffer)
    ensures Receive(buffer, chunks) == (ms, [])
    decreases |chunks|
  {
    if chunks == [] {
      if ms != [] {
        assert ms[0] in ms;
        assert buffer == buffer + Flatten(chunks);
        DecodeInvertsEncode(ms[0], FrameAll(ms[1..]));
      }
    } else {
      var data := buffer + chunks[0];
      assert data + Flatten(chunks[1..]) == FrameAll(ms) by {
        assert data + Flatten(chunks[1..]) == buffer + (chunks[0] + Flatten(chunks[1..]));
      }
      var k := DrainBeginning(ms, data, Flatten(chunks[1..]));
      DrainedStaysDrained(data);
      ReceiveFrom(ms[k..], Drain(data).1, chunks[1..]);
      assert ms == ms[..k] + ms[k..];
    }
  }

  /**
   * Any list of messages, framed and cut into chunks anywhere, is received as that list, in order,
   * and the buffer ends empty.
   */
  lemma {:induction false} ChunkingDoesNotMatter(ms: seq<Message>, chunks: seq<Bytes>)
    requires (forall m <- ms :: Sendable(m)) && Flatten(chunks) == FrameAll(ms)
    ensures Receive([], chunks) == (ms, [])
  {
    assert [] + Flatten(chunks) == Flatten(chunks);
    ReceiveFrom(ms, [], chunks);
  }
}
