/** Machine-sized numbers, payloads and the error values the server and the codec return. */
module Basics {

  type byte = x: int | 0 <= x < 0x100
  type uint16 = x: int | 0 <= x < 0x1_0000
  type uint32 = x: int | 0 <= x < 0x1_0000_0000
  type uint64 = x: int | 0 <= x < 0x1_0000_0000_0000_0000

  const MAX_LENGTH: int := 0xffff_ffff_ffff_ffff

  /** Every slice the program handles has a length that fits the 64-bit length field. */
  type Payload = s: seq<byte> | |s| <= MAX_LENGTH

  datatype Option<+T> = None | Some(value: T)

  /** The sentinel errors of the protocol and server packages, and the failures the environment can cause. */
  datatype Error =
    | ShortBuffer
    | InvalidPrologue
    | UnknownMessageType
    | ReservedMessageType
    | WrongChannel
    | ProtocolVersion
    | MessageTooLarge
    | PayloadLength
    | SessionNotReady
    | InvalidSession
    | InvalidInitSequence
    | MaxClients
    | UnrecognizedControlCode
    | InvalidConfig
    | InvalidTransition
    | ClientFatal
    | UnexpectedEOF
    | ConsumerRefused
    | DeviceError

  /** A Go error result: None is nil. */
  type Err = Option<Error>

  /** The concatenation of a list of chunks. */
  function Concat<T>(chunks: seq<seq<T>>): seq<T> {
    if chunks == [] then [] else chunks[0] + Concat(chunks[1..])
  }

  lemma Associate<T>(a: seq<T>, b: seq<T>, c: seq<T>)
    ensures (a + b) + c == a + (b + c)
  {
  }

  lemma {:induction false} ConcatAppend<T>(a: seq<seq<T>>, b: seq<seq<T>>)
    ensures Concat(a + b) == Concat(a) + Concat(b)
  {
    if a == [] {
      assert a + b == b;
    } else {
      ConcatAppend(a[1..], b);
      assert (a + b)[0] == a[0] && (a + b)[1..] == a[1..] + b;
      Associate(a[0], Concat(a[1..]), Concat(b));
    }
  }

  lemma ConcatSnoc<T>(a: seq<seq<T>>, x: seq<T>)
    ensures Concat(a + [x]) == Concat(a) + x
  {
    ConcatAppend(a, [x]);
    assert Concat([x]) == x + Concat<T>([]);
  }
}
