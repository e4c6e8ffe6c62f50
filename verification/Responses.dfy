/** What SendResponse puts on the wire for every device script (server/data.go). */
module Responses {
  import opened Basics
  import opened MessageIds
  import opened Messages
  import opened Transactions
  import opened Engine

  predicate Terminal(r: ReadResult) { r.end || r.fails }

  /** The read that ends the response: the first that reports the end or an error. */
  function LastRead(script: seq<ReadResult>, size: nat): ReadResult
    decreases |script|
  {
    var r := NextRead(script, size);
    if Terminal(r) then r else LastRead(Rest(script), size)
  }

  function ReadCount(script: seq<ReadResult>, size: nat): nat
    decreases |script|
  {
    if Terminal(NextRead(script, size)) then 1 else 1 + ReadCount(Rest(script), size)
  }

  /** Every byte the device produced for this response, in order. */
  function Produced(script: seq<ReadResult>, size: nat): seq<byte>
    decreases |script|
  {
    var r := NextRead(script, size);
    if Terminal(r) then r.data else r.data + Produced(Rest(script), size)
  }

  /** The chunk that came with the terminator, if it came without an error. */
  function FinalChunk(script: seq<ReadResult>, size: nat): seq<byte> {
    var r := LastRead(script, size);
    if r.fails then [] else r.data
  }

  function Packets(script: seq<ReadResult>, size: uint64): seq<Payload>
    decreases |script|
  {
    var r := NextRead(script, size);
    var here := if |r.data| > 0 && (!r.end || r.fails) then [r.data] else [];
    if Terminal(r) then here else here + Packets(Rest(script), size)
  }

  function DataMsgs(id: MessageId, chunks: seq<Payload>): seq<Msg> {
    seq(|chunks|, i requires 0 <= i < |chunks| => Data(id, chunks[i]))
  }

  lemma DataMsgsAppend(id: MessageId, a: seq<Payload>, b: seq<Payload>)
    ensures DataMsgs(id, a + b) == DataMsgs(id, a) + DataMsgs(id, b)
  {
  }

  /** How the attempt ends: decided by the last read, whether any byte came, and the input queue. */
  function Outcome(script: seq<ReadResult>, size: nat, queued: bool, some: bool): ResponseOutcome {
    if LastRead(script, size).fails then (if some then ResponseTruncated else ResponseAbsent)
    else if queued then ResponseInterrupted
    else ResponseComplete
  }

  /** The messages that end the response on the synchronous channel. */
  function Ending(o: ResponseOutcome, id: MessageId, final: Payload): seq<Msg> {
    match o
    case ResponseComplete => [DataEnd(id, final)]
    case ResponseTruncated => [ErrorMsg(CODE_RESPONSE_TIMEOUT), DataEnd(id, [])]
    case ResponseAbsent => [ErrorMsg(CODE_RESPONSE_TIMEOUT), DataEnd(id, [])]
    case ResponseInterrupted => [Interrupted(id)]
  }

  function DevReads(n: nat): seq<DevCall> {
    if n == 0 then [] else [DevRead] + DevReads(n - 1)
  }

  /** Everything a response puts on the synchronous channel. */
  function Transcript(script: seq<ReadResult>, size: uint64, id: MessageId, o: ResponseOutcome): seq<Msg> {
    FinalChunkFits(script, size);
    DataMsgs(id, Packets(script, size)) + Ending(o, id, FinalChunk(script, size))
  }

  /** The state after a response: idle, with the transcript and the marks of a terminator if one was sent,
      and nothing else changed. */
  function Answered(x: Exchange, script: seq<ReadResult>, size: uint64, id: MessageId, o: ResponseOutcome): Exchange {
    x.(tx := RESET,
       responsePending := if o.ResponseInterrupted? then false else x.responsePending,
       sync := x.sync + Transcript(script, size, id, o),
       async := if o.ResponseInterrupted? then x.async + [AsyncInterrupted(id)] else x.async,
       rmtExpected := x.rmtExpected || !o.ResponseInterrupted?,
       lastTx := if o.ResponseInterrupted? then x.lastTx else id,
       device := x.device + DevReads(ReadCount(script, size)))
  }

  lemma {:induction false} FinalChunkFits(script: seq<ReadResult>, size: nat)
    ensures |LastRead(script, size).data| <= size
    decreases |script|
  {
    if !Terminal(NextRead(script, size)) {
      FinalChunkFits(Rest(script), size);
    }
  }

  /** The message a read that does not end the response puts on the channel. */
  function ChunkMsgs(r: ReadResult, id: MessageId): seq<Msg>
    requires |r.data| <= MAX_LENGTH
  {
    if |r.data| > 0 then [Data(id, r.data)] else []
  }

  /** The state of the loop after a read that does not end the response. */
  function AfterChunk(x: Exchange, r: ReadResult, id: MessageId): Exchange
    requires |r.data| <= MAX_LENGTH
  {
    x.(device := x.device + [DevRead],
       tx := if |r.data| > 0 then Tx(SendingResponse, x.tx.id) else x.tx,
       sync := x.sync + ChunkMsgs(r, id))
  }

  ghost predicate InLoop(x: Exchange, delivered: nat) {
    x.tx.state == if delivered > 0 then SendingResponse else ResponsePending
  }

  lemma TranscriptStep(script: seq<ReadResult>, size: uint64, id: MessageId, o: ResponseOutcome)
    requires !Terminal(NextRead(script, size))
    ensures Transcript(script, size, id, o)
         == ChunkMsgs(NextRead(script, size), id) + Transcript(Rest(script), size, id, o)
  {
    var r := NextRead(script, size);
    var here: seq<Payload> := if |r.data| > 0 then [r.data] else [];
    DataMsgsAppend(id, here, Packets(Rest(script), size));
    assert DataMsgs(id, here) == ChunkMsgs(r, id);
    FinalChunkFits(script, size);
    Associate(ChunkMsgs(r, id), DataMsgs(id, Packets(Rest(script), size)), Ending(o, id, FinalChunk(script, size)));
  }

  lemma AnsweredStep(x: Exchange, script: seq<ReadResult>, size: uint64, id: MessageId, o: ResponseOutcome)
    requires !Terminal(NextRead(script, size))
    ensures Answered(AfterChunk(x, NextRead(script, size), id), Rest(script), size, id, o)
         == Answered(x, script, size, id, o)
  {
    TranscriptStep(script, size, id, o);
    Associate(x.sync, ChunkMsgs(NextRead(script, size), id), Transcript(Rest(script), size, id, o));
    Associate(x.device, [DevRead], DevReads(ReadCount(Rest(script), size)));
  }

  /** One round of the loop that goes on. */
  lemma StreamStep(x: Exchange, script: seq<ReadResult>, size: uint64, id: MessageId, queued: bool, delivered: nat)
    requires InLoop(x, delivered) && !Terminal(NextRead(script, size))
    ensures var r := NextRead(script, size);
            && InLoop(AfterChunk(x, r, id), delivered + |r.data|)
            && Stream(x, script, size, id, queued, delivered)
            == Stream(AfterChunk(x, r, id), Rest(script), size, id, queued, delivered + |r.data|)
  {
    var r := NextRead(script, size);
    if |r.data| == 0 {
      assert x.sync + ChunkMsgs(r, id) == x.sync;
    }
  }

  /** What the transcript of a response that ends with its first read looks like. */
  lemma TranscriptOfOneRead(script: seq<ReadResult>, size: uint64, id: MessageId, o: ResponseOutcome, log: seq<Msg>)
    requires Terminal(NextRead(script, size))
    ensures var r := NextRead(script, size);
            && (r.fails && !o.ResponseInterrupted? && !o.ResponseComplete? ==>
                  log + Transcript(script, size, id, o)
                  == log + ChunkMsgs(r, id) + [ErrorMsg(CODE_RESPONSE_TIMEOUT)] + [DataEnd(id, [])])
            && (!r.fails && o.ResponseComplete? ==>
                  log + Transcript(script, size, id, o) == log + [DataEnd(id, r.data)])
            && (!r.fails && o.ResponseInterrupted? ==> log + Transcript(script, size, id, o) == log + [Interrupted(id)])
            && DevReads(ReadCount(script, size)) == [DevRead]
  {
    var r := NextRead(script, size);
    assert DataMsgs(id, Packets(script, size)) == if r.fails then ChunkMsgs(r, id) else [];
    assert DevReads(1) == [DevRead] + DevReads(0);
  }

  lemma FailedRead(x: Exchange, script: seq<ReadResult>, size: uint64, id: MessageId, queued: bool, delivered: nat)
    requires InLoop(x, delivered) && NextRead(script, size).fails
    ensures var o := if delivered + |Produced(script, size)| > 0 then ResponseTruncated else ResponseAbsent;
            Stream(x, script, size, id, queued, delivered) == (Answered(x, script, size, id, o), o, None)
  {
    var r := NextRead(script, size);
    if delivered + |r.data| > 0 {
      TranscriptOfOneRead(script, size, id, ResponseTruncated, x.sync);
      assert |r.data| == 0 ==> x.sync + ChunkMsgs(r, id) == x.sync;
    } else {
      TranscriptOfOneRead(script, size, id, ResponseAbsent, x.sync);
      assert x.sync + ChunkMsgs(r, id) == x.sync;
    }
  }

  lemma EndingRead(x: Exchange, script: seq<ReadResult>, size: uint64, id: MessageId, queued: bool, delivered: nat)
    requires InLoop(x, delivered) && NextRead(script, size).end && !NextRead(script, size).fails
    ensures var o := if queued then ResponseInterrupted else ResponseComplete;
            Stream(x, script, size, id, queued, delivered) == (Answered(x, script, size, id, o), o, None)
  {
    TranscriptOfOneRead(script, size, id, if queued then ResponseInterrupted else ResponseComplete, x.sync);
  }

  lemma {:induction false} StreamAnswers(
    x: Exchange, script: seq<ReadResult>, size: uint64, id: MessageId, queued: bool, delivered: nat)
    requires InLoop(x, delivered)
    ensures var o := Outcome(script, size, queued, delivered + |Produced(script, size)| > 0);
            Stream(x, script, size, id, queued, delivered) == (Answered(x, script, size, id, o), o, None)
    decreases |script|
  {
    var r := NextRead(script, size);
    if r.fails {
      FailedRead(x, script, size, id, queued, delivered);
    } else if r.end {
      EndingRead(x, script, size, id, queued, delivered);
    } else {
      StreamStep(x, script, size, id, queued, delivered);
      StreamAnswers(AfterChunk(x, r, id), Rest(script), size, id, queued, delivered + |r.data|);
      AnsweredStep(x, script, size, id, Outcome(script, size, queued, delivered + |Produced(script, size)| > 0));
    }
  }

  /** From a complete program message, for every device script, a response meets no invalid transition and
      leaves the session idle, having written the packets and the one ending its outcome calls for. It marks
      a terminator as delivered exactly when that ending is a DataEnd, and changes nothing else. */
  lemma ResponseIsWellFormed(w: Conn, script: seq<ReadResult>, size: uint64, id: MessageId, queued: bool)
    requires ValidateResponse(w, size) == None && w.tx.state == InputComplete
    ensures var o := Outcome(script, size, queued, |Produced(script, size)| > 0);
            && SendResponse(w, script, size, id, queued)
            == (WithExchange(w, Answered(ExchangeOf(w), script, size, id, o).(responsePending := false)), o, None)
  {
    var x := ExchangeOf(w).(tx := Tx(ResponsePending, w.tx.id), responsePending := true);
    StreamAnswers(x, script, size, id, queued, 0);
  }

  /** The packets are non-empty, fit the buffer, and together with the last chunk are exactly what the device
      produced; that chunk travels in the DataEnd, or is dropped when the response is interrupted. A failed
      read leaves nothing behind, and no packet was sent exactly when the failing device produced nothing. */
  lemma {:induction false} PayloadsAreWhatTheDeviceProduced(script: seq<ReadResult>, size: uint64)
    ensures Concat(Packets(script, size)) + FinalChunk(script, size) == Produced(script, size)
    ensures forall p | p in Packets(script, size) :: 0 < |p| <= size
    ensures |FinalChunk(script, size)| <= size
    ensures LastRead(script, size).fails ==> (Packets(script, size) == [] <==> Produced(script, size) == [])
    decreases |script|
  {
    hide Concat;
    FinalChunkFits(script, size);
    var r := NextRead(script, size);
    var here: seq<seq<byte>> := if |r.data| > 0 && (!r.end || r.fails) then [r.data] else [];
    ConcatOne(r.data, here);
    if !Terminal(r) {
      PayloadsAreWhatTheDeviceProduced(Rest(script), size);
      PacketsConcat(here, Packets(Rest(script), size), Packets(script, size));
      Associate(Concat(here), Concat(Packets(Rest(script), size)), FinalChunk(script, size));
    }
  }

  lemma ConcatOne(s: seq<byte>, here: seq<seq<byte>>)
    requires here == [] || here == [s]
    ensures Concat(here) == if here == [] then [] else s
  {
    assert here != [] ==> Concat(here) == s + Concat<byte>([]);
  }

  lemma PacketsConcat(here: seq<seq<byte>>, rest: seq<seq<byte>>, all: seq<seq<byte>>)
    requires all == here + rest
    ensures Concat(all) == Concat(here) + Concat(rest)
  {
    ConcatAppend(here, rest);
  }

  /** The identifier of a message that answers a query. */
  ghost predicate Carries(m: Msg, id: MessageId) {
    match m
    case Data(i, _) => i == id
    case DataEnd(i, _) => i == id
    case Interrupted(i) => i == id
    case ErrorMsg(code) => code == 129
    case _ => false
  }

  /** A response consists of messages that carry the query's identifier; the last one is the only DataEnd
      or Interrupted among them, and it is an Interrupted exactly when the response was interrupted. */
  lemma TranscriptCarriesQueryId(script: seq<ReadResult>, size: uint64, id: MessageId, o: ResponseOutcome)
    ensures var t := Transcript(script, size, id, o);
            && t != []
            && (forall i | 0 <= i < |t| :: Carries(t[i], id))
            && (forall i | 0 <= i < |t| - 1 :: t[i].Data? || t[i].ErrorMsg?)
            && (if o.ResponseInterrupted? then t[|t| - 1].Interrupted? else t[|t| - 1].DataEnd?)
  {
    FinalChunkFits(script, size);
    var data, ending := DataMsgs(id, Packets(script, size)), Ending(o, id, FinalChunk(script, size));
    var t := Transcript(script, size, id, o);
    assert forall i | 0 <= i < |t| :: t[i] == if i < |data| then data[i] else ending[i - |data|];
  }

  /** The bytes a client gets from these messages. */
  function Bytes(ms: seq<Msg>): seq<byte> {
    if ms == [] then []
    else (if ms[0].Data? || ms[0].DataEnd? then ms[0].payload else []) + Bytes(ms[1..])
  }

  lemma {:induction false} BytesAppend(a: seq<Msg>, b: seq<Msg>)
    ensures Bytes(a + b) == Bytes(a) + Bytes(b)
  {
    if a == [] {
      assert a + b == b;
    } else {
      BytesAppend(a[1..], b);
      assert (a + b)[1..] == a[1..] + b;
      Associate(if a[0].Data? || a[0].DataEnd? then a[0].payload else [], Bytes(a[1..]), Bytes(b));
    }
  }

  lemma {:induction false} DataBytes(id: MessageId, chunks: seq<Payload>)
    ensures Bytes(DataMsgs(id, chunks)) == Concat(chunks)
  {
    if chunks != [] {
      DataBytes(id, chunks[1..]);
      assert DataMsgs(id, chunks)[1..] == DataMsgs(id, chunks[1..]);
    }
  }

  lemma BytesOfOne(m: Msg)
    ensures Bytes([m]) == if m.Data? || m.DataEnd? then m.payload else []
  {
    assert [m][1..] == [];
  }

  lemma EndingBytes(o: ResponseOutcome, id: MessageId, final: Payload)
    ensures Bytes(Ending(o, id, final)) == if o.ResponseComplete? then final else []
  {
    match o
    case ResponseComplete => BytesOfOne(DataEnd(id, final));
    case ResponseInterrupted => BytesOfOne(Interrupted(id));
    case _ =>
      BytesOfOne(ErrorMsg(129));
      BytesOfOne(DataEnd(id, []));
      BytesAppend([ErrorMsg(129)], [DataEnd(id, [])]);
  }

  /** What the client gets of a response is what the device produced, all of it unless the response was interrupted,
      and then all but the chunk that came with the terminator. */
  lemma ClientGetsWhatTheDeviceProduced(script: seq<ReadResult>, size: uint64, id: MessageId, queued: bool)
    ensures var o := Outcome(script, size, queued, |Produced(script, size)| > 0);
            Bytes(Transcript(script, size, id, o)) + (if o.ResponseInterrupted? then FinalChunk(script, size) else [])
            == Produced(script, size)
  {
    hide Packets, LastRead, Produced, Bytes, DataMsgs, Ending, Concat;
    var o := Outcome(script, size, queued, |Produced(script, size)| > 0);
    FinalChunkFits(script, size);
    PayloadsAreWhatTheDeviceProduced(script, size);
    BytesAppend(DataMsgs(id, Packets(script, size)), Ending(o, id, FinalChunk(script, size)));
    DataBytes(id, Packets(script, size));
    EndingBytes(o, id, FinalChunk(script, size));
  }

  /** The end of a response by what the device did and whether input was queued: the last chunk in a DataEnd, an
      Interrupted in its place, or an error and an empty DataEnd; everything before is Data. */
  lemma EndsAsTheDeviceDid(script: seq<ReadResult>, size: uint64, id: MessageId, queued: bool)
    ensures var t := Transcript(script, size, id, Outcome(script, size, queued, |Produced(script, size)| > 0));
            var fails := LastRead(script, size).fails;
            && |t| >= (if fails then 2 else 1)
            && (forall i | 0 <= i < |t| - (if fails then 2 else 1) :: t[i].Data? && |t[i].payload| > 0)
            && (fails ==> t[|t| - 2..] == [ErrorMsg(129), DataEnd(id, [])])
            && (!fails && queued ==> t[|t| - 1] == Interrupted(id))
            && (!fails && !queued ==> t[|t| - 1].DataEnd? && t[|t| - 1].payload == LastRead(script, size).data)
  {
    hide Packets, LastRead, Produced, Concat, DataMsgs, AllData;
    FinalChunkFits(script, size);
    PacketsAreData(script, size, id);
    var o := Outcome(script, size, queued, |Produced(script, size)| > 0);
    TailOf(DataMsgs(id, Packets(script, size)), Ending(o, id, FinalChunk(script, size)));
  }

  ghost predicate AllData(ms: seq<Msg>) { forall i | 0 <= i < |ms| :: ms[i].Data? && |ms[i].payload| > 0 }

  lemma PacketsAreData(script: seq<ReadResult>, size: uint64, id: MessageId)
    ensures AllData(DataMsgs(id, Packets(script, size)))
  {
    PayloadsAreWhatTheDeviceProduced(script, size);
    hide Packets, Produced;
    forall i | 0 <= i < |Packets(script, size)| ensures |Packets(script, size)[i]| > 0 {
      assert Packets(script, size)[i] in Packets(script, size);
    }
  }

  lemma TailOf(data: seq<Msg>, ending: seq<Msg>)
    requires AllData(data) && 1 <= |ending| <= 2
    ensures var t := data + ending;
            && |t| == |data| + |ending| && t[|t| - 1] == ending[|ending| - 1]
            && (|ending| == 2 ==> t[|t| - 2..] == ending)
            && forall i | 0 <= i < |data| :: t[i].Data? && |t[i].payload| > 0
  {
  }

  /** What a device that never overfills the buffer produces is its script up to the first end or error, as it stands;
      one whose script runs out fails there. */
  lemma {:induction false} ProducedIsScript(script: seq<ReadResult>, size: nat)
    requires forall r | r in script :: |r.data| <= size
    ensures var n := ReadCount(script, size);
            && n <= |script| + 1
            && (forall i | 0 <= i < n - 1 :: !script[i].end && !script[i].fails)
            && (if n <= |script|
                then (script[n - 1].end || script[n - 1].fails) && LastRead(script, size) == script[n - 1]
                else LastRead(script, size) == ReadResult([], false, true))
            && Produced(script, size) == DataOf(script[..if n <= |script| then n else |script|])
    decreases |script|
  {
    if script != [] {
      var r := script[0];
      if r.end || r.fails {
        assert script[..1] == [r] && [r][1..] == [];
        assert DataOf([r]) == r.data + DataOf([]);
      } else {
        ProducedIsScript(script[1..], size);
        var n := ReadCount(script, size);
        var k := if n <= |script| then n else |script|;
        assert script[..k][1..] == script[1..][..k - 1];
      }
    }
  }

  function DataOf(script: seq<ReadResult>): seq<byte> {
    if script == [] then [] else script[0].data + DataOf(script[1..])
  }
}
