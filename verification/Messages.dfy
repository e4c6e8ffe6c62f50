/** Message types, the channels they are legal on, and the dispatch gate's classes
    (protocol/constants.go, server/dispatch.go), with the messages the server sends. */
module Messages {
  import opened Basics
  import opened Framing
  import opened MessageIds

  const INITIALIZE: byte := 0
  const FATAL_ERROR: byte := 2
  const ERROR: byte := 3
  const ASYNC_LOCK: byte := 4
  const ASYNC_LOCK_RESPONSE: byte := 5
  const DATA: byte := 6
  const DATA_END: byte := 7
  const DEVICE_CLEAR_COMPLETE: byte := 8
  const DEVICE_CLEAR_ACKNOWLEDGE: byte := 9
  const ASYNC_REMOTE_LOCAL_CONTROL: byte := 10
  const ASYNC_REMOTE_LOCAL_RESPONSE: byte := 11
  const TRIGGER: byte := 12
  const INTERRUPTED: byte := 13
  const ASYNC_INTERRUPTED: byte := 14
  const ASYNC_MAXIMUM_MESSAGE_SIZE: byte := 15
  const ASYNC_MAXIMUM_MESSAGE_SIZE_RESPONSE: byte := 16
  const ASYNC_INITIALIZE: byte := 17
  const ASYNC_DEVICE_CLEAR: byte := 19
  const ASYNC_SERVICE_REQUEST: byte := 20
  const ASYNC_STATUS_QUERY: byte := 21
  const ASYNC_STATUS_RESPONSE: byte := 22
  const ASYNC_DEVICE_CLEAR_ACKNOWLEDGE: byte := 23
  const ASYNC_LOCK_INFO: byte := 24
  const ASYNC_LOCK_INFO_RESPONSE: byte := 25

  datatype Channel = NoChannel | Synchronous | Asynchronous | Either

  predicate VendorSpecific(t: byte) { t >= 128 }
  predicate Reserved(t: byte) { 39 <= t < 128 }
  predicate Defined(t: byte) { t < 39 }

  function ChannelOf(t: byte): Channel {
    if VendorSpecific(t) then Either
    else if !Defined(t) then NoChannel
    else if t == FATAL_ERROR || t == ERROR || t == 26 || t == 27 then Either
    else if t <= 1 || 6 <= t <= 9 || 12 <= t <= 13 || t == 28 || t == 31 || t >= 34 then Synchronous
    else Asynchronous
  }

  predicate LegalOn(t: byte, c: Channel) {
    (c == Synchronous || c == Asynchronous) && (ChannelOf(t) == Either || ChannelOf(t) == c)
  }

  datatype Version = Version(major: byte, minor: byte)

  predicate Less(a: Version, b: Version) {
    if a.major != b.major then a.major < b.major else a.minor < b.minor
  }

  function MinVersion(t: byte): Version {
    if !Defined(t) then Version(0, 0) else if t < 26 then Version(1, 0) else Version(2, 0)
  }

  datatype Class = NoBus | PreemptAbandon | PreemptResume | Boundary | SyncOrdered | Lifecycle | Undefined

  function ClassOf(t: byte): Class {
    if t == ASYNC_LOCK || t == ASYNC_LOCK_INFO || t == ASYNC_MAXIMUM_MESSAGE_SIZE then NoBus
    else if t == ASYNC_DEVICE_CLEAR then PreemptAbandon
    else if t == ASYNC_STATUS_QUERY then PreemptResume
    else if t == ASYNC_REMOTE_LOCAL_CONTROL then Boundary
    else if t == DATA || t == DATA_END || t == TRIGGER then SyncOrdered
    else if t == INITIALIZE || t == ASYNC_INITIALIZE || t == DEVICE_CLEAR_COMPLETE || t == ERROR || t == FATAL_ERROR
    then Lifecycle
    else if VendorSpecific(t) then SyncOrdered
    else Undefined
  }

  /** Control code bit 0 of the client messages that carry it. */
  predicate RmtDelivered(h: Header) { h.control % 2 == 1 }

  type Nibble = x: int | 0 <= x < 16

  /** The status byte, bit by bit where bits matter: MAV is bit 4 and RQS is bit 6. */
  datatype StatusRegister = StatusRegister(low: Nibble, mav: bool, bit5: bool, rqs: bool, bit7: bool)

  function BitValue(up: bool, weight: nat): nat { if up then weight else 0 }

  function ToByte(r: StatusRegister): byte {
    r.low + BitValue(r.mav, 16) + BitValue(r.bit5, 32) + BitValue(r.rqs, 64) + BitValue(r.bit7, 128)
  }

  function FromByte(b: byte): StatusRegister {
    var q := b / 16;
    StatusRegister(b % 16, q % 2 == 1, q / 2 % 2 == 1, q / 4 % 2 == 1, q / 8 == 1)
  }

  /** The register is the byte: no bit is lost either way. */
  lemma RegisterRoundTrip(b: byte, r: StatusRegister)
    ensures ToByte(FromByte(b)) == b
    ensures FromByte(ToByte(r)) == r
  {
    ByteIsRegister(b);
    RegisterIsByte(r);
    hide ToByte, FromByte;
  }

  lemma RegisterIsByte(r: StatusRegister)
    ensures FromByte(ToByte(r)) == r
  {
    var q := BitValue(r.mav, 1) + BitValue(r.bit5, 2) + BitValue(r.rqs, 4) + BitValue(r.bit7, 8);
    assert ToByte(r) == 16 * q + r.low;
    Divided(q, r.low);
    assert q % 2 == BitValue(r.mav, 1) && q / 8 == BitValue(r.bit7, 1);
    assert q / 2 % 2 == BitValue(r.bit5, 1) && q / 4 % 2 == BitValue(r.rqs, 1);
  }

  lemma Divided(q: nat, low: Nibble)
    ensures (16 * q + low) / 16 == q && (16 * q + low) % 16 == low
  {
  }

  lemma ByteIsRegister(b: byte)
    ensures ToByte(FromByte(b)) == b
  {
    var q := b / 16;
    assert b == 16 * q + b % 16;
    assert q == q % 2 + 2 * (q / 2 % 2) + 4 * (q / 4 % 2) + 8 * (q / 8);
  }

  /** Which bit is which: MAV is bit 4 and RQS is bit 6 of the status byte. */
  predicate Bits(b: byte, r: StatusRegister) {
    && b % 16 == r.low
    && (b / 16 % 2 == 1 <==> r.mav) && (b / 32 % 2 == 1 <==> r.bit5)
    && (b / 64 % 2 == 1 <==> r.rqs) && (b / 128 == 1 <==> r.bit7)
  }

  lemma StatusBits(r: StatusRegister, b: byte)
    ensures Bits(ToByte(r), r) && Bits(b, FromByte(b))
  {
    RegisterRoundTrip(b, r);
    ByteBits(b);
    ByteBits(ToByte(r));
    hide ToByte, FromByte, Bits;
  }

  lemma ByteBits(b: byte)
    ensures Bits(b, FromByte(b))
  {
    Halves(b);
  }

  lemma Halves(b: byte)
    ensures b / 32 == b / 16 / 2 && b / 64 == b / 16 / 4 && b / 128 == b / 16 / 8
  {
  }

  /** The messages the handlers send. */
  datatype Msg =
    | Data(id: MessageId, payload: Payload)
    | DataEnd(id: MessageId, payload: Payload)
    | ErrorMsg(code: byte)
    | FatalErrorMsg(code: byte)
    | Interrupted(id: MessageId)
    | AsyncInterrupted(id: MessageId)
    | DeviceClearAcknowledge(features: byte)
    | AsyncDeviceClearAcknowledge(features: byte)
    | AsyncStatusResponse(stb: StatusRegister)
    | AsyncServiceRequest(stb: StatusRegister)
    | AsyncLockResponse(code: byte)
    | AsyncLockInfoResponse(exclusive: byte, holders: uint32)
    | AsyncRemoteLocalResponse
    | AsyncMaximumMessageSizeResponse(size: uint64)

  /** The header and payload of a message; error descriptions are left empty. */
  function Encoded(m: Msg): (r: Message)
    ensures Writable(r)
  {
    match m
    case Data(id, p) => Message(Header(DATA, 0, id, |p|), p)
    case DataEnd(id, p) => Message(Header(DATA_END, 0, id, |p|), p)
    case ErrorMsg(code) => Message(Header(ERROR, code, 0, 0), [])
    case FatalErrorMsg(code) => Message(Header(FATAL_ERROR, code, 0, 0), [])
    case Interrupted(id) => Message(Header(INTERRUPTED, 0, id, 0), [])
    case AsyncInterrupted(id) => Message(Header(ASYNC_INTERRUPTED, 0, id, 0), [])
    case DeviceClearAcknowledge(f) => Message(Header(DEVICE_CLEAR_ACKNOWLEDGE, f, 0, 0), [])
    case AsyncDeviceClearAcknowledge(f) => Message(Header(ASYNC_DEVICE_CLEAR_ACKNOWLEDGE, f, 0, 0), [])
    case AsyncStatusResponse(stb) => Message(Header(ASYNC_STATUS_RESPONSE, ToByte(stb), 0, 0), [])
    case AsyncServiceRequest(stb) => Message(Header(ASYNC_SERVICE_REQUEST, ToByte(stb), 0, 0), [])
    case AsyncLockResponse(code) => Message(Header(ASYNC_LOCK_RESPONSE, code, 0, 0), [])
    case AsyncLockInfoResponse(e, n) => Message(Header(ASYNC_LOCK_INFO_RESPONSE, e, n, 0), [])
    case AsyncRemoteLocalResponse => Message(Header(ASYNC_REMOTE_LOCAL_RESPONSE, 0, 0, 0), [])
    case AsyncMaximumMessageSizeResponse(n) =>
      Message(Header(ASYNC_MAXIMUM_MESSAGE_SIZE_RESPONSE, 0, 0, 8), BigEndian(n, 8))
  }

  /** The type byte, control code, parameter and payload of each message on the wire. */
  lemma EncodedExactly(m: Msg)
    ensures var Message(h, p) := Encoded(m);
            && h.length == |p|
            && match m
               case Data(id, data) => h.msgType == 6 && h.control == 0 && h.parameter == id && p == data
               case DataEnd(id, data) => h.msgType == 7 && h.control == 0 && h.parameter == id && p == data
               case ErrorMsg(code) => h.msgType == 3 && h.control == code && h.parameter == 0 && p == []
               case FatalErrorMsg(code) => h.msgType == 2 && h.control == code && h.parameter == 0 && p == []
               case Interrupted(id) => h.msgType == 13 && h.control == 0 && h.parameter == id && p == []
               case AsyncInterrupted(id) => h.msgType == 14 && h.control == 0 && h.parameter == id && p == []
               case DeviceClearAcknowledge(f) => h.msgType == 9 && h.control == f && h.parameter == 0 && p == []
               case AsyncDeviceClearAcknowledge(f) => h.msgType == 23 && h.control == f && h.parameter == 0 && p == []
               case AsyncStatusResponse(stb) => h.msgType == 22 && Bits(h.control, stb) && h.parameter == 0 && p == []
               case AsyncServiceRequest(stb) => h.msgType == 20 && Bits(h.control, stb) && h.parameter == 0 && p == []
               case AsyncLockResponse(code) => h.msgType == 5 && h.control == code && h.parameter == 0 && p == []
               case AsyncLockInfoResponse(e, n) => h.msgType == 25 && h.control == e && h.parameter == n && p == []
               case AsyncRemoteLocalResponse => h.msgType == 11 && h.control == 0 && h.parameter == 0 && p == []
               case AsyncMaximumMessageSizeResponse(n) =>
                 && h.msgType == 16 && h.control == 0 && h.parameter == 0 && |p| == 8
                 && n == 0x1_0000_0000 * Word(p[0], p[1], p[2], p[3]) + Word(p[4], p[5], p[6], p[7])
  {
    match m
    case AsyncStatusResponse(stb) => StatusBits(stb, 0);
    case AsyncServiceRequest(stb) => StatusBits(stb, 0);
    case AsyncMaximumMessageSizeResponse(n) =>
      WordSizes();
      BigEndianRoundTrip(n, 8);
      EightBytes(BigEndian(n, 8));
      hide BigEndian, FromBigEndian;
    case _ =>
  }

  predicate MsgLegalOn(m: Msg, c: Channel) { LegalOn(Encoded(m).header.msgType, c) }

  function EncodedAll(ms: seq<Msg>): seq<Message> {
    seq(|ms|, i requires 0 <= i < |ms| => Encoded(ms[i]))
  }

  lemma {:induction false} WireAppend(a: seq<Message>, m: Message)
    ensures WireAll(a + [m]) == WireAll(a) + Wire(m)
  {
    hide Wire;
    if a == [] {
      assert WireAll([m]) == Wire(m) + WireAll([]);
    } else {
      WireAppend(a[1..], m);
      assert (a + [m])[1..] == a[1..] + [m];
      Associate(Wire(a[0]), WireAll(a[1..]), Wire(m));
    }
  }

  /** What a peer with buffers of this size reads from a channel that carries these messages and nothing more: each of
      them as sent, or as its header and an error if it is larger than the buffer, and then the end of the stream. */
  lemma PeerReads(log: seq<Msg>, limit: nat)
    requires limit > 0
    ensures ReadAll(WireAll(EncodedAll(log)), limit)
         == Arrivals(EncodedAll(log), limit) + [Received(ZERO_HEADER, [], Some(UnexpectedEOF))]
  {
    hide Encoded;
    var ms := EncodedAll(log);
    FramingRoundTrip(ms, [], limit);
    assert WireAll(ms) + [] == WireAll(ms);
    assert ReadAll([], limit) == [Received(ZERO_HEADER, [], Some(UnexpectedEOF))];
  }

  /** One channel's outgoing side: it refuses a message that is not legal on its channel, and the bytes on
      the stream are the wire form of everything it accepted. */
  class MessageWriter {
    const channel: Channel
    const stream: Stream
    const buf: array<byte>
    var written: nat
    ghost var log: seq<Msg>

    ghost predicate Valid()
      reads this, stream
    {
      && buf.Length == HEADER_SIZE
      && stream.output == WireAll(EncodedAll(log))
      && written == |stream.output|
      && forall m | m in log :: MsgLegalOn(m, channel)
    }

    constructor (s: Stream, c: Channel)
      requires s.output == []
      ensures Valid() && log == [] && stream == s && channel == c && fresh(buf)
    {
      stream, channel, written, log := s, c, 0, [];
      buf := new byte[HEADER_SIZE];
    }

    method Write(m: Msg) returns (err: Err)
      requires Valid()
      modifies this, stream`output, buf
      ensures Valid()
      ensures MsgLegalOn(m, channel) ==> err == None && log == old(log) + [m]
      ensures !MsgLegalOn(m, channel) ==> err == Some(WrongChannel) && log == old(log)
    {
      if !LegalOn(Encoded(m).header.msgType, channel) {
        return Some(WrongChannel);
      }
      err := WriteMessage(stream, Encoded(m), buf);
      written := written + HEADER_SIZE + |Encoded(m).payload|;
      log := log + [m];
      WireAppend(EncodedAll(old(log)), Encoded(m));
      assert EncodedAll(log) == EncodedAll(old(log)) + [Encoded(m)];
    }
  }
}
