/**
 Length-prefixed framing and its streaming decoder. The decoder copies whole chunks; its
 specification consumes one byte at a time, and the two are proved equal.
 */
module Framing {
  import opened Prelude

  const HEADER_SIZE: nat := 4
  const MAX_MESSAGE_SIZE: nat := 65536

  // ---- frames ----------------------------------------------------------------------------

  function Header(n: Uint32): Bytes {
    [n / 0x100_0000 % 256, n / 0x1_0000 % 256, n / 0x100 % 256, n % 256]
  }

  function ReadLength(header: Bytes): Uint32
    requires |header| == HEADER_SIZE
  {
    header[0] as int * 0x100_0000 + header[1] as int * 0x1_0000 + header[2] as int * 0x100 + header[3]
  }

  lemma {:induction false} LastDigit(q: int, b: int)
    requires 0 <= b < 256
    ensures (q * 256 + b) / 256 == q && (q * 256 + b) % 256 == b
  {
  }

  lemma {:induction false} Shifts(n: nat)
    ensures n / 0x1_0000 == n / 0x100 / 0x100
    ensures n / 0x100_0000 == n / 0x1_0000 / 0x100
  {
  }

  /** The header and the length determine each other. */
  lemma {:induction false} LengthRoundTrip(n: Uint32, header: Bytes)
    requires |header| == HEADER_SIZE
    ensures ReadLength(header) == n <==> header == Header(n)
  {
    Shifts(n);
    if ReadLength(header) == n {
      var h0, h1, h2, h3 := header[0] as int, header[1] as int, header[2] as int, header[3] as int;
      LastDigit((h0 * 256 + h1) * 256 + h2, h3);
      LastDigit(h0 * 256 + h1, h2);
      LastDigit(h0, h1);
      assert n / 0x100 == (h0 * 256 + h1) * 256 + h2;
      assert n / 0x1_0000 == h0 * 256 + h1;
      assert n / 0x100_0000 == h0;
    } else {
      HeaderValue(n);
    }
  }

  lemma {:induction false} HeaderValue(n: Uint32)
    ensures ReadLength(Header(n)) == n
  {
    Shifts(n);
    var a := n / 0x100;
    var b := a / 0x100;
    var c := b / 0x100;
    assert c < 256;
  }

  /** `encode_raw`; an oversized payload throws. */
  function EncodeRaw(payload: Bytes): Option<Bytes> {
    if |payload| > MAX_MESSAGE_SIZE then None else Some(Header(|payload|) + payload)
  }

  /**
   The JSON library: which texts parse to which message, and how a message is printed. What is
   printed parses back, and the empty text is not JSON.
   */
  datatype Json<!M> = Json(parse: imap<Bytes, M>, dump: imap<M, Bytes>) {
    ghost predicate Lawful() {
      && [] !in parse
      && forall m | m in dump :: dump[m] in parse && parse[dump[m]] == m
    }

    function Encode(m: M): Option<Bytes>
      requires m in dump
    {
      EncodeRaw(dump[m])
    }
  }

  // ---- one byte at a time ----------------------------------------------------------------

  datatype State = ReadingHeader | ReadingPayload

  /** `buffer` is the header or the payload read so far, according to the state. */
  datatype Decoding = Decoding(state: State, needed: nat, buffer: Bytes)

  const IDLE := Decoding(ReadingHeader, HEADER_SIZE, [])

  datatype Outcome<M> = Outcome(d: Decoding, out: seq<M>, ok: bool)

  function Failed<M>(d: Decoding): Outcome<M> {
    Outcome(d, [], false)
  }

  /** Nothing is missing any more: act on the length, or parse the payload. */
  function Complete<M>(json: Json<M>, d: Decoding): Outcome<M>
    requires d.state == ReadingHeader ==> |d.buffer| == HEADER_SIZE
  {
    match d.state
    case ReadingHeader =>
      var n := ReadLength(d.buffer);
      if n > MAX_MESSAGE_SIZE then Failed(d)
      else Outcome(Decoding(ReadingPayload, n, []), [], true)
    case ReadingPayload =>
      if d.buffer in json.parse then Outcome(IDLE, [json.parse[d.buffer]], true)
      else Failed(d)
  }

  predicate Valid(d: Decoding) {
    match d.state
    case ReadingHeader =>
      && |d.buffer| + d.needed == HEADER_SIZE
      && (d.needed == 0 ==> ReadLength(d.buffer) > MAX_MESSAGE_SIZE) // stuck after "Frame too large"
    case ReadingPayload => |d.buffer| + d.needed <= MAX_MESSAGE_SIZE
  }

  /** Take in `chunk`, which is not longer than what is needed. */
  function Absorb<M>(json: Json<M>, d: Decoding, chunk: Bytes): Outcome<M>
    requires Valid(d) && |chunk| <= d.needed
  {
    var d' := Decoding(d.state, d.needed - |chunk|, d.buffer + chunk);
    if d'.needed == 0 then Complete(json, d') else Outcome(d', [], true)
  }

  function Then<M>(a: Outcome<M>, b: Outcome<M>): Outcome<M> {
    if a.ok then Outcome(b.d, a.out + b.out, b.ok) else a
  }

  /** An empty payload is parsed only when the byte after its header arrives. */
  function OnByte<M>(json: Json<M>, d: Decoding, b: Byte): Outcome<M>
    requires Valid(d)
  {
    if d.needed > 0 then Absorb(json, d, [b])
    else
      var flushed := Complete(json, d);
      if !flushed.ok then flushed
      else Then(flushed, Absorb(json, flushed.d, [b]))
  }

  function Run<M>(json: Json<M>, d: Decoding, bytes: Bytes): (r: Outcome<M>)
    requires Valid(d)
    ensures Valid(r.d)
    decreases |bytes|
  {
    if bytes == [] then Outcome(d, [], true)
    else
      var r := OnByte(json, d, bytes[0]);
      if r.ok then Then(r, Run(json, r.d, bytes[1..])) else r
  }

  /** Feeding a stream in two parts is feeding it at once. */
  lemma {:induction false} RunSplit<M>(json: Json<M>, d: Decoding, a: Bytes, b: Bytes)
    requires Valid(d)
    ensures Run(json, d, a + b) == Then(Run(json, d, a), Run(json, Run(json, d, a).d, b))
    decreases |a|
  {
    hide OnByte;
    if a == [] {
      assert a + b == b;
    } else {
      OnByteValid(json, d, a[0]);
      var r := OnByte(json, d, a[0]);
      assert (a + b)[1..] == a[1..] + b && (a + b)[0] == a[0];
      if r.ok {
        RunSplit(json, r.d, a[1..], b);
        var x, y := Run(json, r.d, a[1..]), Run(json, Run(json, r.d, a[1..]).d, b);
        assert r.out + x.out + y.out == r.out + (x.out + y.out);
      }
    }
  }

  lemma {:induction false} OnByteValid<M>(json: Json<M>, d: Decoding, b: Byte)
    requires Valid(d)
    ensures Valid(OnByte(json, d, b).d)
  {
  }

  /** A chunk that does not exceed what is needed can be copied as a whole. */
  lemma {:induction false} RunChunk<M>(json: Json<M>, d: Decoding, chunk: Bytes)
    requires Valid(d) && 0 < |chunk| <= d.needed
    ensures Run(json, d, chunk) == Absorb(json, d, chunk)
    decreases |chunk|
  {
    hide Complete;
    var r := OnByte(json, d, chunk[0]);
    if |chunk| == 1 {
      assert chunk == [chunk[0]];
    } else {
      var rest := chunk[1..];
      assert d.buffer + [chunk[0]] + rest == d.buffer + chunk;
      RunChunk(json, r.d, rest);
    }
  }

  lemma {:induction false} RunAbsorbs<M>(json: Json<M>, d: Decoding, bytes: Bytes, n: nat)
    requires Valid(d) && 0 < n <= d.needed && n <= |bytes|
    ensures Valid(Absorb(json, d, bytes[..n]).d)
    ensures Run(json, d, bytes)
         == Then(Absorb(json, d, bytes[..n]), Run(json, Absorb(json, d, bytes[..n]).d, bytes[n..]))
  {
    hide Run, Absorb;
    RunChunk(json, d, bytes[..n]);
    RunSplit(json, d, bytes[..n], bytes[n..]);
    assert bytes[..n] + bytes[n..] == bytes;
  }

  /** With nothing missing, the pending completion happens before the next byte is read. */
  lemma {:induction false} RunFlushes<M>(json: Json<M>, d: Decoding, bytes: Bytes)
    requires Valid(d) && d.needed == 0 && bytes != []
    ensures Valid(Complete(json, d).d)
    ensures Run(json, d, bytes) == Then(Complete(json, d), Run(json, Complete(json, d).d, bytes))
  {
    var f := Complete(json, d);
    if f.ok {
      assert f.d == IDLE;
      var next := Absorb(json, IDLE, [bytes[0]]);
      assert OnByte(json, IDLE, bytes[0]) == next;
      var rest := Run(json, next.d, bytes[1..]);
      assert f.out + next.out + rest.out == f.out + (next.out + rest.out);
    }
  }

  // ---- the decoder -----------------------------------------------------------------------

  class Decoder {
    var state: State
    var bytesNeeded: nat
    var payloadLength: nat
    var headerBuffer: Bytes
    var payloadBuffer: Bytes

    function Current(): Decoding
      reads this
    {
      Decoding(state, bytesNeeded, if state == ReadingHeader then headerBuffer else payloadBuffer)
    }

    ghost predicate Ready()
      reads this
    {
      Valid(Current()) && (state == ReadingPayload ==> headerBuffer == [])
    }

    constructor ()
      ensures Ready() && Current() == IDLE
    {
      state, bytesNeeded, payloadLength := ReadingHeader, HEADER_SIZE, 0;
      headerBuffer, payloadBuffer := [], [];
    }

    /**
     One pass of the loop body: copy what is available and needed, then complete if nothing is
     missing. The result is absent when it throws.
     */
    method Pass<M>(json: Json<M>, chunk: Bytes) returns (got: Option<seq<M>>)
      requires Ready() && |chunk| <= bytesNeeded
      modifies this
      ensures var r := Absorb(json, old(Current()), chunk);
        && Current() == r.d && got == (if r.ok then Some(r.out) else None)
        && (r.ok ==> Ready()) && (state == ReadingPayload ==> headerBuffer == [])
    {
      if state == ReadingHeader {
        headerBuffer := headerBuffer + chunk;
        bytesNeeded := bytesNeeded - |chunk|;
        if bytesNeeded == 0 {
          payloadLength := ReadLength(headerBuffer);
          if payloadLength > MAX_MESSAGE_SIZE {
            return None;
          }
          headerBuffer, payloadBuffer := [], [];
          bytesNeeded := payloadLength;
          state := ReadingPayload;
        }
        return Some([]);
      } else {
        payloadBuffer := payloadBuffer + chunk;
        bytesNeeded := bytesNeeded - |chunk|;
        if bytesNeeded == 0 {
          if payloadBuffer !in json.parse {
            return None;
          }
          got := Some([json.parse[payloadBuffer]]);
          payloadBuffer := [];
          bytesNeeded := HEADER_SIZE;
          state := ReadingHeader;
          return;
        }
        return Some([]);
      }
    }

    /** `feed`: absent when it throws, and then the messages of this call are lost. */
    method Feed<M>(json: Json<M>, data: Bytes) returns (got: Option<seq<M>>)
      requires Ready()
      modifies this
      ensures Ready()
      ensures var r := Run(json, old(Current()), data);
        Current() == r.d && got == if r.ok then Some(r.out) else None
    {
      hide Run, Absorb, Prefixed, Valid;
      var messages: seq<M> := [];
      var offset := 0;
      ghost var d0 := Current();
      StartLoop(json, d0, data);
      while offset < |data|
        invariant 0 <= offset <= |data| && Ready()
        invariant Remaining(json, d0, data, offset, messages, Current())
        decreases |data| - offset, if state == ReadingPayload then 1 else 0
      {
        ghost var before := Current();
        var n := if bytesNeeded < |data| - offset then bytesNeeded else |data| - offset;
        LoopPass(json, d0, data, offset, messages, before, n);
        var more := Pass(json, data[offset..offset + n]);
        offset := offset + n;
        if more.None? {
          return None;
        }
        messages := messages + more.value;
      }
      EndLoop(json, d0, data, messages, Current());
      return Some(messages);
    }

    method Reset()
      modifies this
      ensures Ready() && Current() == IDLE
    {
      state, bytesNeeded := ReadingHeader, HEADER_SIZE;
      headerBuffer, payloadBuffer := [], [];
    }
  }

  function Prefixed<M>(messages: seq<M>, r: Outcome<M>): Outcome<M> {
    r.(out := messages + r.out)
  }

  lemma {:induction false} RunNothing<M>(json: Json<M>, d: Decoding)
    requires Valid(d)
    ensures Run(json, d, []) == Outcome(d, [], true)
  {
  }

  /** What the loop has still to do, together with what it has done, is the whole feed. */
  ghost predicate Remaining<M>(json: Json<M>, d0: Decoding, data: Bytes, offset: nat, messages: seq<M>, d: Decoding) {
    && Valid(d0) && Valid(d) && offset <= |data|
    && Run(json, d0, data) == Prefixed(messages, Run(json, d, data[offset..]))
  }

  lemma {:induction false} StartLoop<M>(json: Json<M>, d0: Decoding, data: Bytes)
    requires Valid(d0)
    ensures Remaining(json, d0, data, 0, [], d0)
  {
    hide Run;
    assert data[0..] == data;
    var r := Run(json, d0, data);
    assert [] + r.out == r.out;
  }

  lemma {:induction false} EndLoop<M>(json: Json<M>, d0: Decoding, data: Bytes, messages: seq<M>, d: Decoding)
    requires Remaining(json, d0, data, |data|, messages, d)
    ensures Run(json, d0, data) == Outcome(d, messages, true)
  {
    RunNothing(json, d);
    assert data[|data|..] == [] && messages + [] == messages;
  }

  /** One pass of the loop: it throws exactly when the feed fails here, and otherwise makes progress. */
  lemma {:induction false} LoopPass<M>(json: Json<M>, d0: Decoding, data: Bytes, offset: nat, messages: seq<M>,
                                       d: Decoding, n: nat)
    requires Remaining(json, d0, data, offset, messages, d) && offset < |data|
    requires n == if d.needed < |data| - offset then d.needed else |data| - offset
    ensures var r := Absorb(json, d, data[offset..offset + n]);
      && Valid(r.d)
      && (r.ok ==> Remaining(json, d0, data, offset + n, messages + r.out, r.d))
      && (!r.ok ==> Run(json, d0, data).d == r.d && !Run(json, d0, data).ok)
      && (n == 0 && r.ok ==> d.state == ReadingPayload && r.d.state == ReadingHeader)
  {
    hide Run, Absorb;
    var rest := data[offset..];
    PassIsRun(json, d, rest, n);
    assert rest[..n] == data[offset..offset + n] && rest[n..] == data[offset + n..];
    var r := Absorb(json, d, rest[..n]);
    if r.ok {
      var more := Run(json, r.d, rest[n..]).out;
      assert messages + (r.out + more) == messages + r.out + more;
    }
  }

  /** What one pass of the loop contributes to the rest of the stream. */
  lemma {:induction false} PassIsRun<M>(json: Json<M>, d: Decoding, rest: Bytes, n: nat)
    requires Valid(d) && rest != [] && n == (if d.needed < |rest| then d.needed else |rest|)
    ensures var r := Absorb(json, d, rest[..n]);
      && Valid(r.d)
      && Run(json, d, rest) == (if r.ok then Prefixed(r.out, Run(json, r.d, rest[n..])) else r)
      && (n == 0 && r.ok ==> d.state == ReadingPayload && r.d.state == ReadingHeader)
  {
    hide Run;
    if n == 0 {
      assert d.buffer + rest[..0] == d.buffer && rest[0..] == rest;
      RunFlushes(json, d, rest);
    } else {
      RunAbsorbs(json, d, rest, n);
    }
  }

  // ---- chunking --------------------------------------------------------------------------

  function Concat(chunks: seq<Bytes>): Bytes {
    if chunks == [] then [] else Concat(chunks[..|chunks| - 1]) + chunks[|chunks| - 1]
  }

  /** A sequence of `feed` calls up to the first that throws; `out` is what the calls returned. */
  function FeedAll<M>(json: Json<M>, d: Decoding, chunks: seq<Bytes>): (r: Outcome<M>)
    requires Valid(d)
    ensures Valid(r.d)
  {
    if chunks == [] then Outcome(d, [], true)
    else
      var before := FeedAll(json, d, chunks[..|chunks| - 1]);
      if !before.ok then before
      else
        var r := Run(json, before.d, chunks[|chunks| - 1]);
        if r.ok then Then(before, r) else Outcome(r.d, before.out, false)
  }

  /**
   However a stream is cut, the same state is reached and the same calls succeed or fail as for
   one feed of the whole. Without an error the messages are the same; with one, the cut stream has
   delivered a prefix of what precedes the error, and the single feed loses all of it.
   */
  lemma {:induction false} ChunkingInvariance<M>(json: Json<M>, d: Decoding, chunks: seq<Bytes>)
    requires Valid(d)
    ensures var cut := FeedAll(json, d, chunks); var whole := Run(json, d, Concat(chunks));
      && cut.d == whole.d && cut.ok == whole.ok
      && cut.out <= whole.out && (whole.ok ==> cut.out == whole.out)
  {
    hide Run;
    if chunks == [] {
      RunNothing(json, d);
    } else {
      var n := |chunks| - 1;
      ChunkingInvariance(json, d, chunks[..n]);
      RunSplit(json, d, Concat(chunks[..n]), chunks[n]);
    }
  }

  // ---- errors ----------------------------------------------------------------------------

  /** Once a feed has thrown, every later non-empty feed throws and changes nothing. */
  lemma {:induction false} ErrorSticks<M>(json: Json<M>, d: Decoding, bytes: Bytes, more: Bytes)
    requires Valid(d) && !Run(json, d, bytes).ok && more != []
    ensures Run(json, Run(json, d, bytes).d, more) == Failed(Run(json, d, bytes).d)
  {
    var d' := Run(json, d, bytes).d;
    RunStopsStuck(json, d, bytes);
    assert OnByte(json, d', more[0]) == Failed(d');
  }

  /** Nothing is missing and the completion fails. */
  predicate Stuck<M>(json: Json<M>, d: Decoding) {
    Valid(d) && d.needed == 0 && !Complete(json, d).ok
  }

  lemma {:induction false} RunStopsStuck<M>(json: Json<M>, d: Decoding, bytes: Bytes)
    requires Valid(d) && !Run(json, d, bytes).ok
    ensures Stuck(json, Run(json, d, bytes).d)
    decreases |bytes|
  {
    hide OnByte;
    OnByteValid(json, d, bytes[0]);
    OnByteStuck(json, d, bytes[0]);
    var r := OnByte(json, d, bytes[0]);
    if r.ok {
      RunStopsStuck(json, r.d, bytes[1..]);
    }
  }

  lemma {:induction false} OnByteStuck<M>(json: Json<M>, d: Decoding, b: Byte)
    requires Valid(d)
    ensures OnByte(json, d, b).ok || Stuck(json, OnByte(json, d, b).d)
  {
  }

  // ---- round trips -----------------------------------------------------------------------

  /** Payloads that parse and fit. */
  ghost predicate Sendable<M>(json: Json<M>, payloads: seq<Bytes>) {
    forall i | 0 <= i < |payloads| :: payloads[i] in json.parse && |payloads[i]| <= MAX_MESSAGE_SIZE
  }

  function Frames(payloads: seq<Bytes>): Bytes
    requires forall i | 0 <= i < |payloads| :: |payloads[i]| <= MAX_MESSAGE_SIZE
  {
    if payloads == [] then []
    else EncodeRaw(payloads[0]).value + Frames(payloads[1..])
  }

  function ParseAll<M>(json: Json<M>, payloads: seq<Bytes>): seq<M>
    requires forall i | 0 <= i < |payloads| :: payloads[i] in json.parse
  {
    seq(|payloads|, i requires 0 <= i < |payloads| => json.parse[payloads[i]])
  }

  /** A header followed by its payload, from an idle decoder. */
  lemma {:induction false} HeaderThenPayload<M>(json: Json<M>, header: Bytes, rest: Bytes)
    requires |header| == HEADER_SIZE
    ensures var n := ReadLength(header);
      Run(json, IDLE, header + rest)
      == if n > MAX_MESSAGE_SIZE then Failed(Decoding(ReadingHeader, 0, header))
         else Run(json, Decoding(ReadingPayload, n, []), rest)
  {
    hide Run;
    var n := ReadLength(header);
    RunAbsorbs(json, IDLE, header + rest, HEADER_SIZE);
    assert (header + rest)[..HEADER_SIZE] == header && (header + rest)[HEADER_SIZE..] == rest;
    assert IDLE.buffer + header == header;
    if n <= MAX_MESSAGE_SIZE {
      var r := Run(json, Decoding(ReadingPayload, n, []), rest);
      assert [] + r.out == r.out;
    }
  }

  lemma {:induction false} PayloadThenIdle<M>(json: Json<M>, payload: Bytes, rest: Bytes)
    requires 0 < |payload| <= MAX_MESSAGE_SIZE
    ensures Run(json, Decoding(ReadingPayload, |payload|, []), payload + rest)
         == if payload in json.parse then Prefixed([json.parse[payload]], Run(json, IDLE, rest))
            else Failed(Decoding(ReadingPayload, 0, payload))
  {
    hide Run;
    RunAbsorbs(json, Decoding(ReadingPayload, |payload|, []), payload + rest, |payload|);
    assert (payload + rest)[..|payload|] == payload && (payload + rest)[|payload|..] == rest;
    assert [] + payload == payload;
  }

  lemma {:induction false} FrameDecodes<M>(json: Json<M>, p: Bytes, rest: Bytes)
    requires 0 < |p| <= MAX_MESSAGE_SIZE && p in json.parse
    ensures Run(json, IDLE, EncodeRaw(p).value + rest) == Prefixed([json.parse[p]], Run(json, IDLE, rest))
  {
    hide Run, ReadLength, Prefixed;
    LengthRoundTrip(|p|, Header(|p|));
    HeaderThenPayload(json, Header(|p|), p + rest);
    PayloadThenIdle(json, p, rest);
    assert Header(|p|) + p + rest == Header(|p|) + (p + rest);
  }

  /** Encoded payloads decode back in order, and leave the decoder idle. */
  lemma {:induction false} FramesDecode<M>(json: Json<M>, payloads: seq<Bytes>)
    requires [] !in json.parse && Sendable(json, payloads)
    ensures Run(json, IDLE, Frames(payloads)) == Outcome(IDLE, ParseAll(json, payloads), true)
    decreases |payloads|
  {
    hide Run, Header, EncodeRaw;
    if payloads == [] {
      RunNothing(json, IDLE);
    } else {
      var p, tail := payloads[0], payloads[1..];
      FramesDecode(json, tail);
      FrameDecodes(json, p, Frames(tail));
      assert [json.parse[p]] + ParseAll(json, tail) == ParseAll(json, payloads);
    }
  }

  /** Conversely, a stream that is accepted and ends idle is the encoding of what it delivered. */
  lemma {:induction false} DecodedIsFrames<M>(json: Json<M>, bytes: Bytes) returns (payloads: seq<Bytes>)
    requires [] !in json.parse
    requires Run(json, IDLE, bytes).ok && Run(json, IDLE, bytes).d == IDLE
    ensures Sendable(json, payloads)
    ensures bytes == Frames(payloads) && Run(json, IDLE, bytes).out == ParseAll(json, payloads)
    decreases |bytes|
  {
    hide Run;
    if bytes == [] {
      payloads := [];
      RunNothing(json, IDLE);
    } else {
      var p, rest := FirstFrame(json, bytes);
      var tail := DecodedIsFrames(json, rest);
      payloads := [p] + tail;
      assert payloads[1..] == tail;
      assert bytes == Frames(payloads);
      assert [json.parse[p]] + ParseAll(json, tail) == ParseAll(json, payloads);
    }
  }

  lemma {:induction false} FirstFrame<M>(json: Json<M>, bytes: Bytes) returns (p: Bytes, rest: Bytes)
    requires [] !in json.parse && bytes != []
    requires Run(json, IDLE, bytes).ok && Run(json, IDLE, bytes).d == IDLE
    ensures p in json.parse && |p| <= MAX_MESSAGE_SIZE && |rest| < |bytes|
    ensures bytes == EncodeRaw(p).value + rest
    ensures Run(json, IDLE, bytes) == Prefixed([json.parse[p]], Run(json, IDLE, rest))
  {
    hide Run;
    if |bytes| < HEADER_SIZE {
      RunChunk(json, IDLE, bytes);
    }
    var header, after := bytes[..HEADER_SIZE], bytes[HEADER_SIZE..];
    assert header + after == bytes;
    HeaderThenPayload(json, header, after);
    var n := ReadLength(header);
    LengthRoundTrip(n, header);
    EnoughPayload(json, n, after);
    p, rest := after[..n], after[n..];
    assert p + rest == after;
    PayloadThenIdle(json, p, rest);
    assert bytes == Header(n) + p + rest;
  }

  /** A decoder that waits for `n` bytes gets idle again only if they come, and `n` is not zero. */
  lemma {:induction false} EnoughPayload<M>(json: Json<M>, n: nat, after: Bytes)
    requires [] !in json.parse && n <= MAX_MESSAGE_SIZE
    requires var r := Run(json, Decoding(ReadingPayload, n, []), after); r.ok && r.d == IDLE
    ensures 0 < n <= |after|
  {
    hide Run;
    var d := Decoding(ReadingPayload, n, []);
    if after == [] {
      RunNothing(json, d);
    } else if n == 0 {
      RunFlushes(json, d, after);
    } else if |after| < n {
      RunChunk(json, d, after);
    }
  }

  /** Messages that can be encoded come back in order, however the stream is cut. */
  lemma {:induction false} MessagesRoundTrip<M>(json: Json<M>, messages: seq<M>, chunks: seq<Bytes>)
    requires json.Lawful() && forall m | m in messages :: m in json.dump && json.Encode(m).Some?
    requires Concat(chunks) == Stream(json, messages)
    ensures FeedAll(json, IDLE, chunks) == Outcome(IDLE, messages, true)
  {
    hide Run, FeedAll, Frames, Concat;
    var payloads := seq(|messages|, i requires 0 <= i < |messages| => json.dump[messages[i]]);
    StreamIsFrames(json, messages, payloads);
    FramesDecode(json, payloads);
    ChunkingInvariance(json, IDLE, chunks);
    assert ParseAll(json, payloads) == messages;
  }

  /** The concatenated frames of some messages. */
  ghost function Stream<M>(json: Json<M>, messages: seq<M>): Bytes
    requires forall m | m in messages :: m in json.dump && json.Encode(m).Some?
  {
    if messages == [] then []
    else json.Encode(messages[0]).value + Stream(json, messages[1..])
  }

  lemma {:induction false} StreamIsFrames<M>(json: Json<M>, messages: seq<M>, payloads: seq<Bytes>)
    requires json.Lawful() && forall m | m in messages :: m in json.dump && json.Encode(m).Some?
    requires |payloads| == |messages| && forall i | 0 <= i < |messages| :: payloads[i] == json.dump[messages[i]]
    ensures Sendable(json, payloads)
    ensures Stream(json, messages) == Frames(payloads)
    decreases |messages|
  {
    forall i | 0 <= i < |payloads| ensures payloads[i] in json.parse && |payloads[i]| <= MAX_MESSAGE_SIZE {
      assert messages[i] in messages;
    }
    if messages != [] {
      StreamIsFrames(json, messages[1..], payloads[1..]);
    }
  }

  /** An empty frame is taken silently, and makes the feed that brings the next byte throw. */
  lemma {:induction false} EmptyFrameFailsLate<M>(json: Json<M>, more: Bytes)
    requires [] !in json.parse
    ensures Run(json, IDLE, EncodeRaw([]).value + more).ok <==> more == []
    ensures Run(json, IDLE, EncodeRaw([]).value + more).out == []
  {
    hide Run;
    LengthRoundTrip(0, Header(0));
    assert Header(0) + [] == Header(0);
    HeaderThenPayload(json, Header(0), more);
    var waiting := Decoding(ReadingPayload, 0, []);
    if more == [] {
      RunNothing(json, waiting);
    } else {
      RunFlushes(json, waiting, more);
    }
  }

  /** A payload can be encoded exactly when its size would pass the decoder's test of the header. */
  lemma {:induction false} EncodableExactly<M>(json: Json<M>, payload: Bytes)
    requires |payload| < TWO_32
    ensures EncodeRaw(payload).Some? <==> |payload| <= 65536
    ensures EncodeRaw(payload).Some? <==> Run(json, IDLE, Header(|payload|)).ok
    ensures EncodeRaw(payload).Some? ==> EncodeRaw(payload).value == Header(|payload|) + payload
  {
    hide Run;
    LengthRoundTrip(|payload|, Header(|payload|));
    HeaderThenPayload(json, Header(|payload|), []);
    assert Header(|payload|) + [] == Header(|payload|);
    if |payload| <= 65536 {
      RunNothing(json, Decoding(ReadingPayload, |payload|, []));
    }
  }
}
