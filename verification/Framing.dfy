/** The 16-byte header and the framing codec (protocol/header.go, protocol/codec.go), and reading one
    message into a bounded buffer (server/reader.go). */
module Framing {
  import opened Basics

  const HEADER_SIZE := 16

  datatype Header = Header(msgType: byte, control: byte, parameter: uint32, length: uint64)

  const ZERO_HEADER := Header(0, 0, 0, 0)

  // ---------------------------------------------------------------- big-endian numbers

  function Pow256(n: nat): (p: nat)
    ensures p > 0
  {
    if n == 0 then 1 else 256 * Pow256(n - 1)
  }

  /** The low n bytes of v, most significant first. */
  function BigEndian(v: nat, n: nat): (s: seq<byte>)
    ensures |s| == n
  {
    if n == 0 then [] else BigEndian(v / 256, n - 1) + [v % 256]
  }

  function FromBigEndian(s: seq<byte>): (v: nat)
    ensures v < Pow256(|s|)
  {
    if s == [] then 0 else FromBigEndian(s[..|s| - 1]) * 256 + s[|s| - 1]
  }

  lemma {:induction false} BigEndianRoundTrip(v: nat, n: nat)
    requires v < Pow256(n)
    ensures FromBigEndian(BigEndian(v, n)) == v
  {
    if n > 0 {
      BigEndianRoundTrip(v / 256, n - 1);
      assert BigEndian(v, n)[..n - 1] == BigEndian(v / 256, n - 1);
    }
  }

  lemma LowByte(v: nat, b: byte)
    ensures (v * 256 + b) / 256 == v && (v * 256 + b) % 256 == b
  {
  }

  lemma {:induction false} FromBigEndianRoundTrip(s: seq<byte>)
    ensures BigEndian(FromBigEndian(s), |s|) == s
  {
    if s != [] {
      var init, last := s[..|s| - 1], s[|s| - 1];
      FromBigEndianRoundTrip(init);
      LowByte(FromBigEndian(init), last);
      assert s == init + [last];
    }
  }

  lemma WordSizes()
    ensures Pow256(4) == 0x1_0000_0000 && Pow256(8) == 0x1_0000_0000_0000_0000
  {
    assert Pow256(2) == 0x1_0000;
    assert Pow256(6) == 0x1_0000 * Pow256(4);
  }

  /** The decoding loop of an AsyncMaximumMessageSize payload; a short payload gives zero. */
  method DecodeMaxSize(payload: seq<byte>) returns (v: uint64)
    ensures v == if |payload| < 8 then 0 else FromBigEndian(payload[..8])
  {
    if |payload| < 8 {
      return 0;
    }
    WordSizes();
    v := 0;
    for i := 0 to 8
      invariant v == FromBigEndian(payload[..i])
    {
      assert payload[..i + 1][..i] == payload[..i];
      assert FromBigEndian(payload[..i + 1]) < Pow256(i + 1);
      Pow256Monotone(i + 1, 8);
      v := v * 256 + payload[i];
    }
  }

  lemma {:induction false} Pow256Monotone(a: nat, b: nat)
    requires a <= b
    ensures Pow256(a) <= Pow256(b)
  {
    if a < b {
      Pow256Monotone(a, b - 1);
    }
  }

  /** The encoding loop, least significant byte first from the end of an 8-byte buffer. */
  method PutUint64(b: array<byte>, v: uint64)
    requires b.Length == 8
    modifies b
    ensures b[..] == BigEndian(v, 8)
    ensures FromBigEndian(b[..]) == v
  {
    var rest: nat := v;
    var i := 8;
    while i > 0
      invariant 0 <= i <= 8
      invariant BigEndian(rest, i) + b[i..] == BigEndian(v, 8)
    {
      i := i - 1;
      b[i] := rest % 256;
      assert b[i..] == [rest % 256] + b[i + 1..];
      rest := rest / 256;
    }
    assert b[0..] == b[..];
    WordSizes();
    BigEndianRoundTrip(v, 8);
  }

  // ---------------------------------------------------------------- headers

  /** The wire form of a header: "HS", type, control, parameter, length. */
  function HeaderBytes(h: Header): (s: seq<byte>)
    ensures |s| == HEADER_SIZE
  {
    [0x48, 0x53, h.msgType, h.control] + BigEndian(h.parameter, 4) + BigEndian(h.length, 8)
  }

  datatype Decoded = Decoded(header: Header) | DecodeError(error: Error)

  /** Only the prologue is checked. */
  function DecodeHeader(b: seq<byte>): Decoded {
    if |b| < HEADER_SIZE then DecodeError(ShortBuffer)
    else if b[0] != 0x48 || b[1] != 0x53 then DecodeError(InvalidPrologue)
    else
      WordSizes();
      Decoded(Header(b[2], b[3], FromBigEndian(b[4..8]), FromBigEndian(b[8..16])))
  }

  /** A header read back from its own bytes, whatever follows them. */
  lemma HeaderRoundTrip(h: Header, rest: seq<byte>)
    ensures DecodeHeader(HeaderBytes(h) + rest) == Decoded(h)
  {
    var b := HeaderBytes(h) + rest;
    WordSizes();
    BigEndianRoundTrip(h.parameter, 4);
    BigEndianRoundTrip(h.length, 8);
    assert b[4..8] == BigEndian(h.parameter, 4);
    assert b[8..16] == BigEndian(h.length, 8);
  }

  /** Whatever decodes re-encodes to exactly the bytes it came from. */
  lemma DecodeIsExact(b: seq<byte>)
    requires DecodeHeader(b).Decoded?
    ensures HeaderBytes(DecodeHeader(b).header) == b[..16]
  {
    FromBigEndianRoundTrip(b[4..8]);
    FromBigEndianRoundTrip(b[8..16]);
    assert b[..16] == [b[0], b[1], b[2], b[3]] + b[4..8] + b[8..16];
  }

  /** Four bytes as a number, most significant first. */
  function Word(a: byte, b: byte, c: byte, d: byte): nat { 0x100_0000 * a + 0x1_0000 * b + 0x100 * c + d }

  lemma NextByte(s: seq<byte>, k: nat)
    requires k < |s|
    ensures FromBigEndian(s[..k + 1]) == FromBigEndian(s[..k]) * 256 + s[k]
  {
    assert s[..k + 1][..k] == s[..k];
  }

  lemma FourBytes(s: seq<byte>)
    requires |s| >= 4
    ensures FromBigEndian(s[..4]) == Word(s[0], s[1], s[2], s[3])
  {
    NextByte(s, 0);
    NextByte(s, 1);
    NextByte(s, 2);
    NextByte(s, 3);
  }

  lemma EightBytes(s: seq<byte>)
    requires |s| == 8
    ensures FromBigEndian(s) == 0x1_0000_0000 * Word(s[0], s[1], s[2], s[3]) + Word(s[4], s[5], s[6], s[7])
  {
    FourBytes(s);
    NextByte(s, 4);
    NextByte(s, 5);
    NextByte(s, 6);
    NextByte(s, 7);
    assert s[..8] == s;
  }

  /** Where the fields of a header lie: "HS", the type at offset 2, the control code at 3, the parameter at 4 to 7 and
      the length at 8 to 15, most significant byte first. */
  predicate Laid(b: seq<byte>, h: Header)
    requires |b| >= 16
  {
    && b[0] == 0x48 && b[1] == 0x53 && b[2] == h.msgType && b[3] == h.control
    && h.parameter == Word(b[4], b[5], b[6], b[7])
    && h.length == 0x1_0000_0000 * Word(b[8], b[9], b[10], b[11]) + Word(b[12], b[13], b[14], b[15])
  }

  lemma DecodeLayout(b: seq<byte>)
    ensures |b| < 16 ==> DecodeHeader(b) == DecodeError(ShortBuffer)
    ensures |b| >= 16 && (b[0] != 0x48 || b[1] != 0x53) ==> DecodeHeader(b) == DecodeError(InvalidPrologue)
    ensures |b| >= 16 && b[0] == 0x48 && b[1] == 0x53 ==> DecodeHeader(b).Decoded? && Laid(b, DecodeHeader(b).header)
  {
    if |b| >= 16 && b[0] == 0x48 && b[1] == 0x53 {
      FourBytes(b[4..8]);
      EightBytes(b[8..16]);
      assert b[4..8][..4] == b[4..8];
    }
  }

  lemma HeaderLayout(h: Header)
    ensures Laid(HeaderBytes(h), h)
  {
    HeaderRoundTrip(h, []);
    var b := HeaderBytes(h);
    assert b + [] == b && b[0] == 0x48 && b[1] == 0x53;
    hide HeaderBytes, DecodeHeader, Laid;
    DecodeLayout(b);
  }

  /** Encode fills the first sixteen bytes of the caller's buffer and touches nothing else. */
  method Encode(h: Header, b: array<byte>) returns (err: Err)
    modifies b
    ensures b.Length < HEADER_SIZE ==> err == Some(ShortBuffer) && b[..] == old(b[..])
    ensures b.Length >= HEADER_SIZE ==> err == None && b[..] == HeaderBytes(h) + old(b[16..])
  {
    if b.Length < HEADER_SIZE {
      return Some(ShortBuffer);
    }
    var bytes := HeaderBytes(h);
    for i := 0 to HEADER_SIZE
      invariant b[..i] == bytes[..i]
      invariant b[i..] == old(b[i..])
    {
      b[i] := bytes[i];
    }
    assert b[..] == b[..16] + b[16..];
    err := None;
  }

  // ---------------------------------------------------------------- streams

  /** One direction of a connection each: what the peer has sent and is not read yet, and what was written. */
  class Stream {
    var input: seq<byte>
    var output: seq<byte>

    constructor (sent: seq<byte>)
      ensures input == sent && output == []
    {
      input, output := sent, [];
    }

    /** io.ReadFull into b[..n]: all the bytes, or what is left and an error. */
    method ReadFull(b: array<byte>, n: nat) returns (err: Err)
      requires n <= b.Length
      modifies this`input, b
      ensures |old(input)| >= n ==>
        err == None && b[..n] == old(input)[..n] && b[n..] == old(b[n..]) && input == old(input)[n..]
      ensures |old(input)| < n ==> err == Some(UnexpectedEOF) && input == []
    {
      var got := if |input| < n then |input| else n;
      for i := 0 to got
        invariant input == old(input)
        invariant b[..i] == input[..i]
        invariant b[i..] == old(b[i..])
      {
        b[i] := input[i];
      }
      err := if got == n then None else Some(UnexpectedEOF);
      input := input[got..];
    }

    method Write(s: seq<byte>)
      modifies this`output
      ensures output == old(output) + s
    {
      output := output + s;
    }
  }

  function CheckLength(n: uint64, max: uint64): (err: Err)
    ensures err == None <==> max == 0 || n <= max
  {
    if max != 0 && n > max then Some(MessageTooLarge) else None
  }

  /** chunks is the first part of s, done bytes of it, in pieces no larger than the scratch buffer. */
  ghost predicate Delivered(chunks: seq<seq<byte>>, s: seq<byte>, done: nat, size: nat) {
    && done <= |s|
    && Concat(chunks) == s[..done]
    && forall c | c in chunks :: 0 < |c| <= size
  }

  lemma DeliveredStep(chunks: seq<seq<byte>>, s: seq<byte>, done: nat, size: nat, n: nat)
    requires Delivered(chunks, s, done, size) && 0 < n <= size && done + n <= |s|
    ensures Delivered(chunks + [s[done..done + n]], s, done + n, size)
  {
    ConcatSnoc(chunks, s[done..done + n]);
    assert s[..done] + s[done..done + n] == s[..done + n];
  }

  lemma DeliveredLength(chunks: seq<seq<byte>>, s: seq<byte>, done: nat, size: nat)
    ensures Delivered([], s, 0, size)
    ensures Delivered(chunks, s, done, size) ==> |Concat(chunks)| == done <= |s|
  {
  }

  lemma Slices(s: seq<byte>, i: nat, n: nat)
    requires i + n <= |s|
    ensures s[i..][..n] == s[i..i + n] && s[i..][n..] == s[i + n..]
  {
  }

  /** Reads exactly n bytes through scratch. consume's k-th call succeeds when accepts(k) does; chunks
      is the list of slices it was handed. */
  method ReadPayload(r: Stream, n: uint64, scratch: array<byte>, accepts: nat -> bool)
    returns (chunks: seq<seq<byte>>, err: Err)
    modifies r`input, scratch
    ensures scratch.Length == 0 ==> err == Some(ShortBuffer) && chunks == [] && r.input == old(r.input)
    ensures |Concat(chunks)| <= n && Delivered(chunks, old(r.input), |Concat(chunks)|, scratch.Length)
    ensures err == None ==> |Concat(chunks)| == n && r.input == old(r.input)[n..]
    ensures err == None && n <= scratch.Length ==> scratch[..n] == old(r.input)[..n]
    ensures err == Some(UnexpectedEOF) ==> |old(r.input)| < n && r.input == []
    ensures err == Some(ConsumerRefused) ==> chunks != [] && !accepts(|chunks| - 1)
    ensures scratch.Length > 0 ==> err in {None, Some(UnexpectedEOF), Some(ConsumerRefused)}
  {
    hide Delivered, Concat;
    chunks := [];
    ghost var start, done := r.input, 0;
    DeliveredLength(chunks, start, 0, scratch.Length);
    if scratch.Length == 0 {
      return [], Some(ShortBuffer);
    }
    var remaining: int := n;
    err := None;
    while remaining > 0
      invariant err == None && 0 <= remaining <= n && done == n - remaining && done <= |start|
      invariant Delivered(chunks, start, done, scratch.Length)
      invariant r.input == start[done..]
      invariant n <= scratch.Length && remaining < n ==> remaining == 0 && scratch[..n] == start[..n]
    {
      DeliveredLength(chunks, start, done, scratch.Length);
      var chunk := if remaining < scratch.Length then remaining else scratch.Length;
      err := r.ReadFull(scratch, chunk);
      if err != None {
        break;
      }
      Slices(start, done, chunk);
      DeliveredStep(chunks, start, done, scratch.Length, chunk);
      chunks := chunks + [scratch[..chunk]];
      done := done + chunk;
      if !accepts(|chunks| - 1) {
        err := Some(ConsumerRefused);
        break;
      }
      remaining := remaining - chunk;
    }
    DeliveredLength(chunks, start, done, scratch.Length);
  }

  // ---------------------------------------------------------------- messages on the wire

  datatype Message = Message(header: Header, payload: Payload)

  /** What WriteMessage accepts: a length of zero is filled in, any other must agree with the payload. */
  predicate Writable(m: Message) {
    m.header.length == 0 || m.header.length == |m.payload|
  }

  /** The message as the peer sees it. */
  function Sent(m: Message): Message {
    m.(header := m.header.(length := |m.payload|))
  }

  function Wire(m: Message): seq<byte> {
    HeaderBytes(Sent(m).header) + m.payload
  }

  function WireAll(ms: seq<Message>): seq<byte> {
    if ms == [] then [] else Wire(ms[0]) + WireAll(ms[1..])
  }

  method WriteMessage(w: Stream, m: Message, buf: array<byte>) returns (err: Err)
    requires buf.Length == HEADER_SIZE
    modifies w`output, buf
    ensures err == if Writable(m) then None else Some(PayloadLength)
    ensures w.output == old(w.output) + if Writable(m) then Wire(m) else []
  {
    if m.header.length != 0 && m.header.length != |m.payload| {
      return Some(PayloadLength);
    }
    err := Encode(m.header.(length := |m.payload|), buf);
    assert buf[..] == HeaderBytes(Sent(m).header);
    w.Write(buf[..]);
    if |m.payload| > 0 {
      w.Write(m.payload);
    }
    assert w.output == old(w.output) + Wire(m);
  }

  // ---------------------------------------------------------------- reading one message

  /** A received message: the header, the payload, and why it could not be accepted. */
  datatype Received = Received(header: Header, payload: seq<byte>, err: Err)

  /** Reading one message through a buffer of limit bytes, and what is left on the stream. */
  function ReadOne(input: seq<byte>, limit: nat): (Received, seq<byte>)
    requires limit > 0
  {
    if |input| < HEADER_SIZE then
      (Received(ZERO_HEADER, [], Some(UnexpectedEOF)), [])
    else
      var body := input[HEADER_SIZE..];
      match DecodeHeader(input[..HEADER_SIZE])
      case DecodeError(e) => (Received(ZERO_HEADER, [], Some(e)), body)
      case Decoded(h) =>
        if |body| < h.length then
          (Received(h, [], Some(UnexpectedEOF)), [])
        else if h.length > limit then (Received(h, [], Some(MessageTooLarge)), body[h.length..])
        else (Received(h, body[..h.length], None), body[h.length..])
  }

  predicate Recoverable(err: Err) { err == None || err == Some(MessageTooLarge) }

  /** Everything the reader delivers from a stream: it stops after the first error it cannot recover from. */
  function ReadAll(input: seq<byte>, limit: nat): (rs: seq<Received>)
    requires limit > 0
    ensures rs != []
    decreases |input|
  {
    var (r, rest) := ReadOne(input, limit);
    if Recoverable(r.err) then [r] + ReadAll(rest, limit) else [r]
  }

  /** How a written message arrives: intact, or as its header and an error when it exceeds the buffer. */
  function Arrival(m: Message, limit: nat): Received {
    if |m.payload| > limit then Received(Sent(m).header, [], Some(MessageTooLarge))
    else Received(Sent(m).header, m.payload, None)
  }

  lemma ReadOneWire(m: Message, tail: seq<byte>, limit: nat)
    requires limit > 0
    ensures ReadOne(Wire(m) + tail, limit) == (Arrival(m, limit), tail)
  {
    var input := Wire(m) + tail;
    HeaderRoundTrip(Sent(m).header, []);
    assert input[..16] == HeaderBytes(Sent(m).header) + [];
    assert input[16..] == m.payload + tail;
  }

  function Arrivals(ms: seq<Message>, limit: nat): seq<Received> {
    seq(|ms|, i requires 0 <= i < |ms| => Arrival(ms[i], limit))
  }

  lemma ArrivalsCons(ms: seq<Message>, limit: nat, rest: seq<Received>)
    requires ms != []
    ensures [Arrival(ms[0], limit)] + (Arrivals(ms[1..], limit) + rest) == Arrivals(ms, limit) + rest
  {
    assert Arrivals(ms, limit) == [Arrival(ms[0], limit)] + Arrivals(ms[1..], limit);
  }

  lemma ReadAllWire(m: Message, tail: seq<byte>, limit: nat)
    requires limit > 0
    ensures ReadAll(Wire(m) + tail, limit) == [Arrival(m, limit)] + ReadAll(tail, limit)
  {
    ReadOneWire(m, tail, limit);
  }

  /** Any list of messages written back to back is read back as that list, an over-limit message as its
      header and an error, and whatever follows is read as if it stood alone. */
  lemma {:induction false} FramingRoundTrip(ms: seq<Message>, tail: seq<byte>, limit: nat)
    requires limit > 0
    ensures ReadAll(WireAll(ms) + tail, limit) == Arrivals(ms, limit) + ReadAll(tail, limit)
    decreases |ms|
  {
    if ms == [] {
      assert WireAll(ms) + tail == tail;
    } else {
      assert WireAll(ms) + tail == Wire(ms[0]) + (WireAll(ms[1..]) + tail);
      ReadAllWire(ms[0], WireAll(ms[1..]) + tail, limit);
      FramingRoundTrip(ms[1..], tail, limit);
      ArrivalsCons(ms, limit, ReadAll(tail, limit));
    }
  }

  /** A message cut short anywhere is the end of the stream. */
  lemma CutShort(m: Message, k: nat, limit: nat)
    requires limit > 0 && k < |Wire(m)|
    ensures ReadOne(Wire(m)[..k], limit).0.err == Some(UnexpectedEOF) && ReadOne(Wire(m)[..k], limit).1 == []
  {
    if k >= 16 {
      HeaderRoundTrip(Sent(m).header, []);
      var input := Wire(m)[..k];
      assert input[..16] == HeaderBytes(Sent(m).header) + [];
      hide HeaderBytes, DecodeHeader;
    }
  }

  /** A stream that does not stand at a header is lost there. */
  lemma LostAtBadPrologue(input: seq<byte>, limit: nat)
    requires limit > 0 && |input| >= 16 && (input[0] != 0x48 || input[1] != 0x53)
    ensures ReadAll(input, limit) == [Received(ZERO_HEADER, [], Some(InvalidPrologue))]
  {
    DecodeLayout(input[..16]);
    hide DecodeHeader;
  }

  /** Conversely an accepted message accounts for every byte consumed: the stream held its wire form. */
  lemma AcceptedIsWire(input: seq<byte>, limit: nat)
    requires limit > 0 && limit <= MAX_LENGTH && ReadOne(input, limit).0.err == None
    ensures var (r, rest) := ReadOne(input, limit);
            input == Wire(Message(r.header, r.payload)) + rest && Writable(Message(r.header, r.payload))
  {
    hide HeaderBytes, DecodeHeader;
    DecodeIsExact(input[..16]);
    var (r, rest) := ReadOne(input, limit);
    var head, body := input[..16], input[16..];
    assert head[..16] == head && input == head + body && body == r.payload + rest;
    Associate(head, r.payload, rest);
    assert Wire(Message(r.header, r.payload)) == head + r.payload;
  }

  /** readOne: the header goes through its own buffer, the payload into buf, an oversized one through buf
      as scratch. */
  method ReadMessage(stream: Stream, buf: array<byte>) returns (h: Header, n: nat, err: Err)
    requires buf.Length > 0
    modifies stream`input, buf
    ensures n <= buf.Length
    ensures ReadOne(old(stream.input), buf.Length) == (Received(h, buf[..n], err), stream.input)
  {
    ghost var input := stream.input;
    var hdrBuf := new byte[HEADER_SIZE];
    err := stream.ReadFull(hdrBuf, HEADER_SIZE);
    if err != None {
      return ZERO_HEADER, 0, err;
    }
    assert hdrBuf[..] == hdrBuf[..16] == input[..16];
    var d := DecodeHeader(hdrBuf[..]);
    if d.DecodeError? {
      return ZERO_HEADER, 0, Some(d.error);
    }
    h := d.header;
    var chunks;
    chunks, err := ReadPayload(stream, h.length, buf, _ => true);
    if h.length > buf.Length {
      return h, 0, if err != None then err else Some(MessageTooLarge);
    }
    n := if err == None then h.length else 0;
  }
}
