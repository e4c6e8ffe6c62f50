/** The handlers as the server runs them: objects updated in place, a scratch buffer the device fills, and two
    message writers. Each is proved to do what its function in Engine says (server/data.go, session.go,
    clear.go, async.go, initialize.go, serve.go). */
module Handlers {
  import opened Basics
  import opened Framing
  import opened MessageIds
  import opened Messages
  import opened Transactions
  import opened ScpiPolicy
  import opened SyncMode
  import A = Attribution
  import L = Locks
  import E = Engine
  import R = Runs

  /** The instrument: what it will answer, and what it has been asked. */
  class Device {
    var writeOk: bool
    var triggerOk: bool
    var clearOk: bool
    var remoteOk: bool
    var stb: Option<StatusRegister>
    var script: seq<E.ReadResult>
    ghost var calls: seq<E.DevCall>

    /** How it behaves while the next message is handled. */
    method Prepare(e: E.SyncEnv)
      modifies this`writeOk, this`triggerOk, this`clearOk, this`script
      ensures writeOk == e.writeOk && triggerOk == e.triggerOk && clearOk == e.clearOk && script == e.script
    {
      writeOk, triggerOk, clearOk, script := e.writeOk, e.triggerOk, e.clearOk, e.script;
    }

    method Write(p: seq<byte>, end: bool) returns (ok: bool)
      modifies this`calls
      ensures calls == old(calls) + [E.DevWrite(p, end)] && ok == writeOk
    {
      calls := calls + [E.DevWrite(p, end)];
      ok := writeOk;
    }

    method Trigger() returns (ok: bool)
      modifies this`calls
      ensures calls == old(calls) + [E.DevTrigger] && ok == triggerOk
    {
      calls := calls + [E.DevTrigger];
      ok := triggerOk;
    }

    method Clear() returns (ok: bool)
      modifies this`calls
      ensures calls == old(calls) + [E.DevClear] && ok == clearOk
    {
      calls := calls + [E.DevClear];
      ok := clearOk;
    }

    method ReadStatusByte() returns (r: Option<StatusRegister>)
      modifies this`calls
      ensures calls == old(calls) + [E.DevStatus] && r == stb
    {
      calls := calls + [E.DevStatus];
      r := stb;
    }

    method RemoteLocal(mode: byte) returns (ok: bool)
      modifies this`calls
      ensures calls == old(calls) + [E.DevRemoteLocal(mode)] && ok == remoteOk
    {
      calls := calls + [E.DevRemoteLocal(mode)];
      ok := remoteOk;
    }

    /** Fills the first bytes of the buffer, never more than size of them. */
    method Read(p: array<byte>, size: nat) returns (n: nat, end: bool, fails: bool)
      requires size <= p.Length
      modifies this`calls, this`script, p
      ensures calls == old(calls) + [E.DevRead] && script == E.Rest(old(script))
      ensures n <= size && E.ReadResult(p[..n], end, fails) == E.NextRead(old(script), size)
    {
      calls := calls + [E.DevRead];
      var r := E.NextRead(script, size);
      script := E.Rest(script);
      n := |r.data|;
      for i := 0 to n
        invariant p[..i] == r.data[..i]
        invariant calls == old(calls) + [E.DevRead] && script == E.Rest(old(script))
      {
        p[i] := r.data[i];
      }
      assert p[..n] == r.data;
      end, fails := r.end, r.fails;
    }
  }

  /** One session of a server, with both its channels. */
  class Connection {
    const cfg: E.Config
    const id: uint16
    const version: Version
    const tx: Transaction
    const rmt: RMT
    const status: Status
    const policy: SCPIQueryPolicy
    const locks: L.LockManager
    const syncW: MessageWriter
    const asyncW: MessageWriter
    const dev: Device
    const scratch: array<byte>
    var state: E.SessionState
    var attached: bool
    var overlap: bool
    var lastTx: MessageId
    var maxTx: uint64
    var counters: E.Counters

    ghost function Repr(): set<object> {
      {this, tx, rmt, status, policy, locks, dev, scratch, syncW, asyncW,
       syncW.stream, syncW.buf, asyncW.stream, asyncW.buf}
    }

    /** The two writers share nothing, and neither uses the scratch buffer. */
    ghost predicate Apart() {
      && syncW != asyncW && syncW.stream != asyncW.stream && syncW.buf != asyncW.buf
      && scratch != syncW.buf && scratch != asyncW.buf
      && syncW.channel == Synchronous && asyncW.channel == Asynchronous
      && scratch.Length == cfg.maxTx
    }

    ghost predicate Valid()
      reads Repr()
    {
      Apart() && syncW.Valid() && asyncW.Valid() && locks.Valid() && policy.Valid() && status.started
    }

    ghost function View(): E.Conn
      reads Repr()
    {
      E.Conn(cfg, id, version, state, attached, overlap, tx.View(), rmt.expected, status.lastReceived,
             status.responsePending, status.srqLatched, status.srqStatus, lastTx, maxTx, policy.View(), locks.View(),
             counters, syncW.log, asyncW.log, dev.calls)
    }

    /** The part of the session a response touches. */
    ghost function Part(): E.Exchange
      reads tx, status, rmt, this, syncW, asyncW, dev
    {
      E.Exchange(tx.View(), status.responsePending, rmt.expected, lastTx, syncW.log, asyncW.log, dev.calls)
    }

    /** A session as Initialize creates it: one channel, pairing, everything at its start value. */
    constructor (c: E.Config, session: uint16, v: Version, d: Device, lm: L.LockManager, first: Stream, second: Stream)
      requires lm.Valid() && first != second && first.output == second.output == []
      ensures Valid() && cfg == c && dev == d && locks == lm
      ensures View() == E.NewSession(c, session, v, lm.View()).(device := d.calls)
    {
      cfg, id, version, dev, locks := c, session, v, d, lm;
      state, attached, overlap, lastTx, maxTx := E.Pairing, false, false, NO_MESSAGE_ID, c.maxTx;
      counters := E.Counters(0, 0, 0, 0);
      tx := new Transaction();
      rmt := new RMT();
      status := new Status();
      policy := new SCPIQueryPolicy();
      syncW := new MessageWriter(first, Synchronous);
      asyncW := new MessageWriter(second, Asynchronous);
      scratch := new byte[c.maxTx];
    }

    // -------------------------------------------------------------- writing

    method Say(m: Msg)
      requires Valid() && MsgLegalOn(m, Synchronous)
      modifies syncW, syncW.stream`output, syncW.buf
      ensures Valid() && syncW.log == old(syncW.log) + [m]
    {
      var err := syncW.Write(m);
    }

    method SayAsync(m: Msg)
      requires Valid() && MsgLegalOn(m, Asynchronous)
      modifies asyncW, asyncW.stream`output, asyncW.buf
      ensures Valid() && asyncW.log == old(asyncW.log) + [m]
    {
      var err := asyncW.Write(m);
    }

    method Answer(c: Channel, m: Msg)
      requires Valid() && (c == Synchronous || c == Asynchronous) && MsgLegalOn(m, c)
      modifies syncW, syncW.stream`output, syncW.buf, asyncW, asyncW.stream`output, asyncW.buf
      ensures Valid() && View() == E.Put(old(View()), c, m)
    {
      hide MessageWriter.Valid, L.LockManager.Valid, SCPIQueryPolicy.Valid;
      if c == Synchronous {
        Say(m);
      } else {
        SayAsync(m);
      }
    }

    // -------------------------------------------------------------- responses

    method Terminate(m: MessageId, final: Payload) returns (err: Err)
      requires Valid()
      modifies syncW, syncW.stream`output, syncW.buf, rmt, this`lastTx, tx
      ensures Valid()
      ensures (Part(), err) == E.Terminate(old(Part()), m, final)
    {
      hide MessageWriter.Valid, L.LockManager.Valid, SCPIQueryPolicy.Valid;
      Say(DataEnd(m, final));
      rmt.SentDataEnd();
      lastTx := m;
      err := tx.DoComplete();
    }

    method CompleteAbsentResponse(m: MessageId) returns (err: Err)
      requires Valid()
      modifies syncW, syncW.stream`output, syncW.buf, rmt, this`lastTx, tx
      ensures Valid()
      ensures (Part(), err) == E.CompleteAbsentResponse(old(Part()), m)
    {
      hide MessageWriter.Valid, L.LockManager.Valid, SCPIQueryPolicy.Valid, E.Terminate;
      Say(ErrorMsg(E.CODE_RESPONSE_TIMEOUT));
      err := tx.To(SendingResponse);
      if err != None {
        return;
      }
      err := Terminate(m, []);
    }

    method SendInterrupted(m: MessageId) returns (err: Err)
      requires Valid()
      modifies syncW, syncW.stream`output, syncW.buf, asyncW, asyncW.stream`output, asyncW.buf
      modifies tx, status`responsePending
      ensures Valid()
      ensures (Part(), err) == E.SendInterrupted(old(Part()), m)
    {
      hide MessageWriter.Valid, L.LockManager.Valid, SCPIQueryPolicy.Valid;
      err := tx.To(TxInterrupted);
      if err != None {
        return;
      }
      status.SetResponsePending(false);
      SayAsync(AsyncInterrupted(m));
      Say(Interrupted(m));
      err := tx.DoComplete();
    }

    /** The branch of the loop for a device error. */
    method EndFailed(m: MessageId, delivered: nat) returns (outcome: E.ResponseOutcome, err: Err)
      requires Valid()
      modifies syncW, syncW.stream`output, syncW.buf, rmt, this`lastTx, tx
      ensures Valid()
      ensures (Part(), outcome, err) == E.Failed(old(Part()), m, delivered)
    {
      hide MessageWriter.Valid, L.LockManager.Valid, SCPIQueryPolicy.Valid, E.Terminate, E.CompleteAbsentResponse;
      if delivered == 0 {
        err := CompleteAbsentResponse(m);
        return E.ResponseAbsent, err;
      }
      Say(ErrorMsg(E.CODE_RESPONSE_TIMEOUT));
      err := Terminate(m, []);
      outcome := E.ResponseTruncated;
    }

    /** The branch of the loop for a response terminator. */
    method EndOffered(m: MessageId, final: Payload, queued: bool) returns (outcome: E.ResponseOutcome, err: Err)
      requires Valid()
      modifies syncW, syncW.stream`output, syncW.buf, asyncW, asyncW.stream`output, asyncW.buf
      modifies rmt, this`lastTx, tx, status`responsePending
      ensures Valid()
      ensures (Part(), outcome, err) == E.Offered(old(Part()), m, final, queued)
    {
      hide MessageWriter.Valid, L.LockManager.Valid, SCPIQueryPolicy.Valid, E.Terminate, E.SendInterrupted;
      if queued {
        err := SendInterrupted(m);
        return E.ResponseInterrupted, err;
      }
      err := tx.To(SendingResponse);
      if err != None {
        return E.ResponseAbsent, err;
      }
      err := Terminate(m, final);
      outcome := E.ResponseComplete;
    }

    /** The first half of a round of the loop: one device read, sent on unless it ends the response. */
    method ReadChunk(m: MessageId, size: uint64) returns (n: nat, end: bool, fails: bool, err: Err)
      requires Valid() && size <= scratch.Length
      modifies syncW, syncW.stream`output, syncW.buf, tx, dev`calls, dev`script, scratch
      ensures Valid() && n <= size && dev.script == E.Rest(old(dev.script))
      ensures E.ReadResult(scratch[..n], end, fails) == E.NextRead(old(dev.script), size)
      ensures (Part(), err) == E.Deliver(old(Part()), E.NextRead(old(dev.script), size), m)
    {
      hide MessageWriter.Valid, L.LockManager.Valid, SCPIQueryPolicy.Valid;
      n, end, fails := dev.Read(scratch, size);
      err := None;
      if n > 0 {
        err := tx.To(SendingResponse);
        if err != None {
          return;
        }
        if !end || fails {
          Say(Data(m, scratch[..n]));
        }
      }
    }

    /** The loop of SendResponse: every device read goes through the one scratch buffer. */
    method StreamResponse(m: MessageId, size: uint64, queued: bool) returns (outcome: E.ResponseOutcome, err: Err)
      requires Valid() && size <= scratch.Length
      modifies syncW, syncW.stream`output, syncW.buf, asyncW, asyncW.stream`output, asyncW.buf
      modifies rmt, this`lastTx, tx, status`responsePending, dev`calls, dev`script, scratch
      ensures Valid()
      ensures (Part(), outcome, err) == E.Stream(old(Part()), old(dev.script), size, m, queued, 0)
    {
      hide MessageWriter.Valid, L.LockManager.Valid, SCPIQueryPolicy.Valid, E.Failed, E.Offered,
        E.Deliver;
      ghost var goal := E.Stream(Part(), dev.script, size, m, queued, 0);
      var delivered := 0;
      while true
        invariant Valid()
        invariant E.Stream(Part(), dev.script, size, m, queued, delivered) == goal
        decreases |dev.script|
      {
        var n, end, fails, failure := ReadChunk(m, size);
        if failure != None {
          return E.ResponseAbsent, failure;
        }
        if n > 0 && (!end || fails) {
          delivered := delivered + n;
        }
        if fails {
          outcome, err := EndFailed(m, delivered);
          return;
        }
        if end {
          outcome, err := EndOffered(m, scratch[..n], queued);
          return;
        }
      }
    }

    /** The checks of Response.validate that depend on the session. */
    method Validate(size: uint64) returns (err: Err)
      requires Valid()
      ensures Valid() && View() == old(View()) && err == E.ValidateResponse(View(), size)
    {
      hide MessageWriter.Valid, L.LockManager.Valid, SCPIQueryPolicy.Valid;
      if !attached {
        return Some(InvalidConfig);
      }
      if size == 0 {
        return Some(ShortBuffer);
      }
      err := if size > maxTx then Some(MessageTooLarge) else None;
    }

    method ExpectResponse() returns (err: Err)
      requires Valid()
      modifies tx
      ensures Valid()
      ensures var (t, e) := Transactions.ExpectResponse(old(View()).tx); View() == old(View()).(tx := t) && err == e
    {
      hide MessageWriter.Valid, L.LockManager.Valid, SCPIQueryPolicy.Valid;
      err := tx.To(ResponsePending);
    }

    method SetResponsePending(pending: bool)
      requires Valid()
      modifies status`responsePending
      ensures Valid() && View() == old(View()).(responsePending := pending)
    {
      hide MessageWriter.Valid, L.LockManager.Valid, SCPIQueryPolicy.Valid;
      status.SetResponsePending(pending);
    }

    /** The loop changes its part of the session and nothing else. */
    method StreamWithin(m: MessageId, size: uint64, queued: bool) returns (outcome: E.ResponseOutcome, err: Err)
      requires Valid() && size <= scratch.Length
      modifies syncW, syncW.stream`output, syncW.buf, asyncW, asyncW.stream`output, asyncW.buf
      modifies rmt, this`lastTx, tx, status`responsePending, dev`calls, dev`script, scratch
      ensures Valid()
      ensures var (x, o, e) := E.Stream(E.ExchangeOf(old(View())), old(dev.script), size, m, queued, 0);
              View() == E.WithExchange(old(View()), x) && outcome == o && err == e
    {
      hide MessageWriter.Valid, L.LockManager.Valid, SCPIQueryPolicy.Valid, E.Stream;
      outcome, err := StreamResponse(m, size, queued);
      assert E.ExchangeOf(View()) == Part();
    }

    method SendResponse(m: MessageId, size: uint64, queued: bool) returns (outcome: E.ResponseOutcome, err: Err)
      requires Valid() && size <= scratch.Length
      modifies syncW, syncW.stream`output, syncW.buf, asyncW, asyncW.stream`output, asyncW.buf
      modifies rmt, this`lastTx, tx, status`responsePending, dev`calls, dev`script, scratch
      ensures Valid()
      ensures (View(), outcome, err) == E.SendResponse(old(View()), old(dev.script), size, m, queued)
    {
      hide Valid, View, E.Stream, E.ValidateResponse;
      err := Validate(size);
      if err != None {
        return E.ResponseAbsent, err;
      }
      err := ExpectResponse();
      if err != None {
        return E.ResponseAbsent, err;
      }
      SetResponsePending(true);
      outcome, err := StreamWithin(m, size, queued);
      SetResponsePending(false);
    }

    // -------------------------------------------------------------- program messages

    /** The RMT check and the MessageID, before anything else; a mismatch is only counted. */
    method Arrive(h: Header)
      requires Valid()
      modifies rmt, status, this`counters
      ensures Valid() && View() == E.Arrive(old(View()), h).0
    {
      hide MessageWriter.Valid, L.LockManager.Valid, SCPIQueryPolicy.Valid;
      var mismatch := rmt.ReceivedSyncMessage(RmtDelivered(h));
      status.ReceivedSyncMessage(h.parameter);
      if mismatch {
        counters := counters.(silentInterrupted := counters.silentInterrupted + 1);
      }
    }

    method ReceiveData(h: Header, payload: seq<byte>) returns (err: Err)
      requires Valid()
      modifies rmt, status, this`counters, tx, dev`calls
      ensures Valid()
      ensures (View(), err) == E.ReceiveData(old(View()), h, payload, dev.writeOk)
    {
      hide MessageWriter.Valid, L.LockManager.Valid, SCPIQueryPolicy.Valid, E.Arrive;
      Arrive(h);
      var end := h.msgType == DATA_END;
      if end {
        err := tx.DoCompleteInput(h.parameter);
      } else {
        err := tx.To(ReceivingInput);
      }
      if err != None {
        return;
      }
      var ok := dev.Write(payload, end);
      if !ok {
        err := Some(DeviceError);
      }
    }

    method Trigger(h: Header) returns (err: Err)
      requires Valid()
      modifies rmt, status, this`counters, tx, dev`calls
      ensures Valid()
      ensures (View(), err) == E.DoTrigger(old(View()), h, dev.triggerOk)
    {
      hide MessageWriter.Valid, L.LockManager.Valid, SCPIQueryPolicy.Valid, E.Arrive;
      Arrive(h);
      err := tx.DoCompleteInput(h.parameter);
      if err != None {
        return;
      }
      var ok := dev.Trigger();
      if !ok {
        return Some(DeviceError);
      }
      err := tx.DoComplete();
    }

    method FeedProgramMessage(p: seq<byte>)
      requires Valid()
      modifies policy
      ensures Valid() && View() == old(View()).(policy := Scan(old(View()).policy, p))
    {
      hide MessageWriter.Valid, L.LockManager.Valid;
      if |p| == 0 {
        return;
      }
      policy.Feed(p);
    }

    /** The classification of the message just completed; the policy starts over. */
    method ProgramDisposition() returns (d: Disposition)
      requires Valid()
      modifies policy
      ensures Valid() && View() == old(View()).(policy := FRESH)
      ensures d == ResponseExpected <==> old(View()).policy.found
    {
      hide MessageWriter.Valid, L.LockManager.Valid;
      d := policy.GetDisposition();
      policy.Reset();
    }

    method CountOutcome(o: E.ResponseOutcome)
      requires Valid()
      modifies this`counters
      ensures Valid() && View() == old(View()).(counters := E.CountOutcome(old(counters), o))
    {
      hide MessageWriter.Valid, L.LockManager.Valid, SCPIQueryPolicy.Valid;
      match o
      case ResponseComplete =>
      case ResponseTruncated => counters := counters.(truncatedResponses := counters.truncatedResponses + 1);
      case ResponseAbsent => counters := counters.(queriesWithoutAnswer := counters.queriesWithoutAnswer + 1);
      case ResponseInterrupted => counters := counters.(interruptedSent := counters.interruptedSent + 1);
    }

    // -------------------------------------------------------------- reporting

    /** Tells the client; a fatal condition is passed on. */
    method Report(c: Channel, e: Error, unidentified: byte) returns (err: Err)
      requires Valid() && (c == Synchronous || c == Asynchronous)
      modifies syncW, syncW.stream`output, syncW.buf, asyncW, asyncW.stream`output, asyncW.buf
      ensures Valid()
      ensures (View(), err) == E.Report(old(View()), c, e, unidentified)
    {
      hide Valid, View, E.Put;
      match E.FatalCode(e)
      case Some(code) =>
        Answer(c, FatalErrorMsg(code));
        err := Some(e);
      case None =>
        var code := E.NonFatalCode(e);
        Answer(c, ErrorMsg(if code == 0 then unidentified else code));
        err := None;
    }

    method CompleteTransaction() returns (err: Err)
      requires Valid()
      modifies tx
      ensures Valid()
      ensures var (t, e) := Complete(old(View()).tx); View() == old(View()).(tx := t) && err == e
    {
      hide MessageWriter.Valid, L.LockManager.Valid, SCPIQueryPolicy.Valid;
      err := tx.DoComplete();
    }

    /** A response through the scratch buffer, cut to the transmit limit in force, and its outcome counted. */
    method Respond(m: MessageId, queued: bool) returns (err: Err)
      requires Valid()
      modifies syncW, syncW.stream`output, syncW.buf, asyncW, asyncW.stream`output, asyncW.buf
      modifies rmt, this`lastTx, this`counters, tx, status`responsePending, dev`calls, dev`script, scratch
      ensures Valid()
      ensures var w := old(View());
              var (v, o, e) := E.SendResponse(w, old(dev.script), E.ScratchSize(w.cfg.maxTx, w.maxTx), m, queued);
              View() == v.(counters := E.CountOutcome(v.counters, o)) && err == e
    {
      hide MessageWriter.Valid, L.LockManager.Valid, SCPIQueryPolicy.Valid, E.SendResponse, E.CountOutcome;
      var outcome;
      outcome, err := SendResponse(m, E.ScratchSize(cfg.maxTx, maxTx), queued);
      CountOutcome(outcome);
    }

    /** The second half of handleData, for a DataEnd. */
    method EndOfMessage(h: Header, queued: bool) returns (err: Err)
      requires Valid()
      modifies syncW, syncW.stream`output, syncW.buf, asyncW, asyncW.stream`output, asyncW.buf
      modifies rmt, this`lastTx, this`counters, status`responsePending, tx, policy, dev`calls, dev`script, scratch
      ensures Valid()
      ensures (View(), err) == E.EndOfMessage(old(View()), h,
                                 E.SyncEnv(dev.writeOk, dev.triggerOk, dev.clearOk, old(dev.script), queued))
    {
      hide Valid, View, E.SendResponse, E.Report, Scan, E.CountOutcome, E.ScratchSize;
      var d := ProgramDisposition();
      if d != ResponseExpected {
        err := CompleteTransaction();
        return;
      }
      err := Respond(h.parameter, queued);
      if err != None {
        err := Report(Synchronous, err.value, E.CODE_HANDSHAKE_TIMEOUT);
      }
    }

    method HandleData(h: Header, payload: seq<byte>, queued: bool) returns (err: Err)
      requires Valid()
      modifies syncW, syncW.stream`output, syncW.buf, asyncW, asyncW.stream`output, asyncW.buf
      modifies this`lastTx, this`counters, rmt, status, tx, policy, dev`calls, dev`script, scratch
      ensures Valid()
      ensures (View(), err) == E.HandleData(old(View()), h, payload,
                                 E.SyncEnv(dev.writeOk, dev.triggerOk, dev.clearOk, old(dev.script), queued))
    {
      hide Valid, View, E.ReceiveData, E.EndOfMessage, E.Report, Scan;
      err := ReceiveData(h, payload);
      if err != None {
        err := Report(Synchronous, err.value, E.CODE_HANDSHAKE_TIMEOUT);
        return;
      }
      FeedProgramMessage(payload);
      if h.msgType != DATA_END {
        return;
      }
      err := EndOfMessage(h, queued);
    }

    // -------------------------------------------------------------- lifecycle and device clear

    method AttachAsync() returns (err: Err)
      requires Valid()
      modifies this`state, this`attached
      ensures Valid() && (View(), err) == E.Handle(old(View()), E.Attach)
    {
      hide MessageWriter.Valid, L.LockManager.Valid, SCPIQueryPolicy.Valid;
      if state != E.Pairing {
        return Some(InvalidSession);
      }
      state, attached := E.Ready, true;
      err := None;
    }

    method RequireReady() returns (err: Err)
      ensures err == E.RequireReady(View())
    {
      match state
      case Ready => err := None;
      case Clearing => err := None;
      case Closed => err := Some(InvalidSession);
      case Pairing => err := Some(SessionNotReady);
    }

    method BeginClear()
      requires Valid()
      modifies this`state
      ensures Valid()
      ensures View() == old(View()).(state := if old(state) == E.Ready then E.Clearing else old(state))
    {
      hide MessageWriter.Valid, L.LockManager.Valid, SCPIQueryPolicy.Valid;
      if state == E.Ready {
        state := E.Clearing;
      }
    }

    method BeginDeviceClear() returns (reply: Msg, err: Err)
      requires Valid()
      modifies this`state, tx, status`responsePending
      ensures Valid() && MsgLegalOn(reply, Asynchronous)
      ensures (if err == None then E.Put(View(), Asynchronous, reply) else View(), err)
           == E.BeginDeviceClear(old(View()))
    {
      hide MessageWriter.Valid, L.LockManager.Valid, SCPIQueryPolicy.Valid;
      reply := AsyncDeviceClearAcknowledge(E.FeatureBitmap(cfg, 1));
      err := RequireReady();
      if err != None {
        return;
      }
      status.SetResponsePending(false);
      err := tx.To(TxClearing);
      if err != None {
        return;
      }
      BeginClear();
    }

    /** The RMT, status and MessageID state return to session start; the response policy is left alone. */
    method CompleteClear(o: bool)
      requires Valid()
      modifies this`overlap, this`state, this`lastTx, rmt, status
      ensures Valid() && View() == E.CompleteClear(old(View()), o)
    {
      hide MessageWriter.Valid, L.LockManager.Valid, SCPIQueryPolicy.Valid;
      overlap := o;
      rmt.Reset();
      status.Reset();
      lastTx := NO_MESSAGE_ID;
      if state == E.Clearing {
        state := E.Ready;
      }
    }

    /** The protocol state is reset before the device is touched, and the acknowledgement is due either way. */
    method CompleteDeviceClear(h: Header) returns (reply: Msg, err: Err)
      requires Valid()
      modifies this`overlap, this`state, this`lastTx, rmt, status, tx, dev`calls
      ensures Valid() && MsgLegalOn(reply, Synchronous)
      ensures var agreed := E.FeatureBitmap(old(View()).cfg, h.control);
              && reply == DeviceClearAcknowledge(agreed)
              && View() == E.Call(E.CompleteClear(old(View()), agreed % 2 == 1).(tx := RESET), E.DevClear)
              && err == if dev.clearOk then None else Some(DeviceError)
    {
      hide MessageWriter.Valid, L.LockManager.Valid, SCPIQueryPolicy.Valid, E.CompleteClear, E.FeatureBitmap;
      var agreed := E.FeatureBitmap(cfg, h.control);
      CompleteClear(agreed % 2 == 1);
      tx.Reset();
      var ok := dev.Clear();
      reply := DeviceClearAcknowledge(agreed);
      err := if ok then None else Some(DeviceError);
    }

    /** removeSession: the locks go first. */
    method Close()
      requires Valid()
      modifies this`state, locks
      ensures Valid() && View() == E.Remove(old(View()))
    {
      hide MessageWriter.Valid, L.LockManager.Valid, SCPIQueryPolicy.Valid, L.DoReleaseAll;
      locks.ReleaseAll(id);
      state := E.Closed;
    }

    // -------------------------------------------------------------- the asynchronous channel

    /** MAV and RQS are decided here, at the one place where the service request latch is taken. */
    method ComposeStatus(device: StatusRegister, query: MessageId, flag: bool) returns (stb: StatusRegister)
      requires Valid()
      modifies status
      ensures Valid() && View() == old(View()).(srqLatched := false, srqStatus := E.NO_STATUS)
      ensures stb == E.StatusByte(old(View()), device, query, flag)
    {
      hide MessageWriter.Valid, L.LockManager.Valid, SCPIQueryPolicy.Valid;
      stb := status.Byte(device, query, flag);
      var latched := status.TakeServiceRequest();
      if latched {
        stb := stb.(rqs := true);
      }
    }

    /** The serial poll; the RMT flag goes down even when the poll fails. */
    method Poll(flag: bool) returns (device: Option<StatusRegister>)
      requires Valid()
      modifies rmt, dev`calls
      ensures Valid() && device == dev.stb
      ensures View() == E.Call(if flag then old(View()).(rmtExpected := false) else old(View()), E.DevStatus)
    {
      hide MessageWriter.Valid, L.LockManager.Valid, SCPIQueryPolicy.Valid;
      rmt.ReceivedStatusQuery(flag);
      device := dev.ReadStatusByte();
    }

    method StatusQuery(h: Header) returns (reply: Msg, err: Err)
      requires Valid()
      modifies rmt, status, dev`calls
      ensures Valid() && MsgLegalOn(reply, Asynchronous)
      ensures (if err == None then E.Put(View(), Asynchronous, reply) else View(), err)
           == E.StatusQuery(old(View()), h, dev.stb)
    {
      hide Valid, View, E.StatusByte;
      var flag := RmtDelivered(h);
      reply := AsyncStatusResponse(E.NO_STATUS);
      var device := Poll(flag);
      if device == None {
        return reply, Some(DeviceError);
      }
      var stb := ComposeStatus(device.value, h.parameter, flag);
      reply, err := AsyncStatusResponse(stb), None;
    }

    method ServiceRequest(event: StatusRegister) returns (reply: Msg, send: bool)
      requires Valid()
      modifies status
      ensures Valid() && MsgLegalOn(reply, Asynchronous)
      ensures (if send then E.Put(View(), Asynchronous, reply) else View(), send)
           == E.ServiceRequest(old(View()), event)
    {
      hide MessageWriter.Valid, L.LockManager.Valid, SCPIQueryPolicy.Valid;
      reply, send := AsyncServiceRequest(event), false;
      if state != E.Ready {
        return;
      }
      send := status.LatchServiceRequest(event);
    }

    method RemoteLocal(h: Header) returns (reply: Msg, err: Err)
      requires Valid()
      modifies dev`calls
      ensures Valid() && MsgLegalOn(reply, Asynchronous)
      ensures (if err == None then E.Put(View(), Asynchronous, reply) else View(), err)
           == E.DoRemoteLocal(old(View()), h, dev.remoteOk)
    {
      hide MessageWriter.Valid, L.LockManager.Valid, SCPIQueryPolicy.Valid;
      reply := AsyncRemoteLocalResponse;
      if h.control > 6 {
        return reply, Some(UnrecognizedControlCode);
      }
      var ok := dev.RemoteLocal(h.control);
      err := if ok then None else Some(DeviceError);
    }

    method Lock(h: Header, lockString: seq<byte>) returns (reply: Msg, err: Err)
      requires Valid()
      modifies locks
      ensures Valid() && MsgLegalOn(reply, Asynchronous)
      ensures (if err == None then E.Put(View(), Asynchronous, reply) else View(), err)
           == E.DoLock(old(View()), h, lockString)
    {
      hide MessageWriter.Valid, L.LockManager.Valid, SCPIQueryPolicy.Valid, L.TryExclusive, L.TryShared, L.DoRelease;
      var r := L.LockError;
      if h.control == 1 {
        r := locks.TryRequest(id, lockString);
      } else if h.control == 0 {
        r := locks.Release(id);
      } else {
        return AsyncLockResponse(0), Some(UnrecognizedControlCode);
      }
      reply, err := AsyncLockResponse(E.LockCode(r)), None;
    }

    method LockNumbers() returns (exclusive: bool, holders: nat)
      requires Valid()
      ensures Valid() && View() == old(View())
      ensures exclusive == View().locks.exclusive.Some? && holders == |E.Holders(View().locks)|
    {
      hide MessageWriter.Valid, SCPIQueryPolicy.Valid, E.Holders;
      exclusive, holders := locks.Info();
      HoldersCount(locks.View());
    }

    method LockInfo() returns (reply: Msg)
      requires Valid()
      ensures Valid() && MsgLegalOn(reply, Asynchronous)
      ensures E.Put(View(), Asynchronous, reply) == E.DoLockInfo(old(View()))
    {
      hide View, Valid, E.Holders;
      var exclusive, holders := LockNumbers();
      reply := AsyncLockInfoResponse(if exclusive then 1 else 0, holders % 0x1_0000_0000);
    }

    /** The payload is decoded by a loop of its own. */
    method SizeRequest(payload: seq<byte>) returns (reply: Msg)
      requires Valid()
      modifies this`maxTx
      ensures Valid() && MsgLegalOn(reply, Asynchronous)
      ensures E.Put(View(), Asynchronous, reply) == E.MaximumMessageSize(old(View()), E.DecodedSize(payload))
    {
      hide E.Put, E.MaximumMessageSize;
      var clientMax := DecodeMaxSize(payload);
      reply := MaximumMessageSize(clientMax);
    }

    method MaximumMessageSize(clientMax: uint64) returns (reply: Msg)
      requires Valid()
      modifies this`maxTx
      ensures Valid() && MsgLegalOn(reply, Asynchronous)
      ensures E.Put(View(), Asynchronous, reply) == E.MaximumMessageSize(old(View()), clientMax)
    {
      hide MessageWriter.Valid, L.LockManager.Valid, SCPIQueryPolicy.Valid;
      if clientMax >= E.MIN_MAXIMUM_MESSAGE_SIZE {
        maxTx := clientMax;
      }
      reply := AsyncMaximumMessageSizeResponse(cfg.maxRx);
    }

    // -------------------------------------------------------------- the two channel loops' bodies

    method Accept(h: Header, c: Channel) returns (err: Err)
      requires Valid()
      ensures Valid() && View() == old(View()) && err == E.Accept(View(), h, c)
    {
      if Reserved(h.msgType) {
        return Some(ReservedMessageType);
      }
      if !Defined(h.msgType) && !VendorSpecific(h.msgType) {
        return Some(UnknownMessageType);
      }
      if !LegalOn(h.msgType, c) {
        return Some(WrongChannel);
      }
      if Less(version, MinVersion(h.msgType)) {
        return Some(ProtocolVersion);
      }
      var class_ := ClassOf(h.msgType);
      if class_ == Undefined {
        return Some(UnknownMessageType);
      }
      err := CheckLength(h.length, cfg.maxRx);
      if err != None {
        return;
      }
      if class_ != Lifecycle {
        err := RequireReady();
      }
    }

    method DiscardDuringClear(h: Header) returns (discard: bool)
      requires Valid()
      ensures Valid() && View() == old(View()) && discard == E.DiscardDuringClear(View(), h)
    {
      if state != E.Clearing {
        return false;
      }
      discard := h.msgType != DEVICE_CLEAR_COMPLETE;
    }

    method ReportReadError(c: Channel, e: Error) returns (err: Err)
      requires Valid() && (c == Synchronous || c == Asynchronous)
      modifies syncW, syncW.stream`output, syncW.buf, asyncW, asyncW.stream`output, asyncW.buf
      ensures Valid()
      ensures (View(), err) == E.ReportRead(old(View()), c, e)
    {
      hide Valid, View;
      if e == MessageTooLarge {
        Answer(c, ErrorMsg(4));
        return None;
      }
      err := Some(e);
    }

    method ClearCompleted(h: Header) returns (err: Err)
      requires Valid()
      modifies syncW, syncW.stream`output, syncW.buf, asyncW, asyncW.stream`output, asyncW.buf
      modifies this, rmt, status, tx, dev`calls
      ensures Valid()
      ensures (View(), err) == E.CompleteDeviceClear(old(View()), h, dev.clearOk)
    {
      hide Valid, View, E.CompleteClear, E.FeatureBitmap, E.Report, E.Call;
      var reply;
      reply, err := CompleteDeviceClear(h);
      Answer(Synchronous, reply);
      if err != None {
        err := Report(Synchronous, err.value, E.CODE_HANDSHAKE_TIMEOUT);
      }
    }

    method HandleSync(m: Received, queued: bool) returns (err: Err)
      requires Valid()
      modifies syncW, syncW.stream`output, syncW.buf, asyncW, asyncW.stream`output, asyncW.buf
      modifies this, rmt, status, tx, policy, dev`calls, dev`script, scratch
      ensures Valid()
      ensures (View(), err) == E.HandleSync(old(View()), m,
                                 E.SyncEnv(dev.writeOk, dev.triggerOk, dev.clearOk, old(dev.script), queued))
    {
      hide Valid, View, E.HandleData, E.DoTrigger, E.CompleteDeviceClear, E.Report, E.ReportRead, E.Accept,
        E.DiscardDuringClear, E.Put;
      var h := m.header;
      if m.err != None {
        err := ReportReadError(Synchronous, m.err.value);
        return;
      }
      var discard := DiscardDuringClear(h);
      if discard {
        return None;
      }
      err := Accept(h, Synchronous);
      if err != None {
        err := Report(Synchronous, err.value, 0);
        return;
      }
      if h.msgType == DATA || h.msgType == DATA_END {
        err := HandleData(h, m.payload, queued);
      } else if h.msgType == TRIGGER {
        err := Trigger(h);
        if err != None {
          err := Report(Synchronous, err.value, E.CODE_HANDSHAKE_TIMEOUT);
        }
      } else if h.msgType == DEVICE_CLEAR_COMPLETE {
        err := ClearCompleted(h);
      } else if h.msgType == FATAL_ERROR {
        err := Some(ClientFatal);
      } else if h.msgType == ERROR {
        err := None;
      } else if h.msgType == INITIALIZE {
        Answer(Synchronous, FatalErrorMsg(3));
        err := Some(InvalidInitSequence);
      } else {
        Answer(Synchronous, ErrorMsg(if VendorSpecific(h.msgType) then 3 else 1));
        err := None;
      }
    }

    /** An operation's reply, or the report of its failure. */
    method Conclude(reply: Msg, failure: Err) returns (err: Err)
      requires Valid() && MsgLegalOn(reply, Asynchronous)
      modifies syncW, syncW.stream`output, syncW.buf, asyncW, asyncW.stream`output, asyncW.buf
      ensures Valid()
      ensures var w := old(View());
              (View(), err) == E.Reply((if failure == None then E.Put(w, Asynchronous, reply) else w, failure))
    {
      hide Valid, View, E.Report;
      if failure != None {
        err := Report(Asynchronous, failure.value, E.CODE_HANDSHAKE_TIMEOUT);
      } else {
        Answer(Asynchronous, reply);
        err := None;
      }
    }

    method HandleAsync(m: Received) returns (err: Err)
      requires Valid()
      modifies syncW, syncW.stream`output, syncW.buf, asyncW, asyncW.stream`output, asyncW.buf
      modifies this, rmt, status, tx, locks, dev`calls
      ensures Valid()
      ensures (View(), err) == E.HandleAsync(old(View()), m, E.AsyncEnv(dev.stb, dev.remoteOk))
    {
      hide Valid, E.BeginDeviceClear, E.StatusQuery, E.DoLock, E.DoLockInfo, E.DoRemoteLocal, E.MaximumMessageSize,
        E.DecodedSize, E.Reply, E.Report, E.ReportRead, E.Accept, E.Put;
      var h := m.header;
      var reply;
      if !attached {
        return Some(SessionNotReady);
      }
      hide View;
      if m.err != None {
        err := ReportReadError(Asynchronous, m.err.value);
        return;
      }
      err := Accept(h, Asynchronous);
      if err != None {
        err := Report(Asynchronous, err.value, 0);
        return;
      }
      if h.msgType == ASYNC_DEVICE_CLEAR {
        reply, err := BeginDeviceClear();
        err := Conclude(reply, err);
      } else if h.msgType == ASYNC_STATUS_QUERY {
        reply, err := StatusQuery(h);
        err := Conclude(reply, err);
      } else if h.msgType == ASYNC_LOCK {
        reply, err := Lock(h, m.payload);
        err := Conclude(reply, err);
      } else if h.msgType == ASYNC_LOCK_INFO {
        reply := LockInfo();
        Answer(Asynchronous, reply);
        err := None;
      } else if h.msgType == ASYNC_REMOTE_LOCAL_CONTROL {
        reply, err := RemoteLocal(h);
        err := Conclude(reply, err);
      } else if h.msgType == ASYNC_MAXIMUM_MESSAGE_SIZE {
        reply := SizeRequest(m.payload);
        Answer(Asynchronous, reply);
        err := None;
      } else if h.msgType == ASYNC_INITIALIZE {
        Answer(Asynchronous, FatalErrorMsg(3));
        err := Some(InvalidInitSequence);
      } else if h.msgType == FATAL_ERROR {
        err := Some(ClientFatal);
      } else if h.msgType == ERROR {
        err := None;
      } else {
        Answer(Asynchronous, ErrorMsg(1));
        err := None;
      }
    }

    /** One round of the synchronous channel loop: an error ends it, and the session with it. */
    method OnSync(m: Received, queued: bool)
      requires Valid()
      modifies syncW, syncW.stream`output, syncW.buf, asyncW, asyncW.stream`output, asyncW.buf
      modifies this, rmt, status, tx, policy, locks, dev`calls, dev`script, scratch
      ensures Valid()
      ensures View() == E.Step(old(View()),
                          E.SyncMsg(m, E.SyncEnv(dev.writeOk, dev.triggerOk, dev.clearOk, old(dev.script), queued)))
    {
      hide Valid, E.HandleSync, E.HandleAsync, E.Remove;
      if state == E.Closed {
        return;
      }
      hide View;
      var err := HandleSync(m, queued);
      if err != None {
        Close();
      }
    }

    method OnAsync(m: Received)
      requires Valid()
      modifies syncW, syncW.stream`output, syncW.buf, asyncW, asyncW.stream`output, asyncW.buf
      modifies this, rmt, status, tx, locks, dev`calls
      ensures Valid()
      ensures View() == E.Step(old(View()), E.AsyncMsg(m, E.AsyncEnv(dev.stb, dev.remoteOk)))
    {
      hide Valid, View, E.HandleSync, E.HandleAsync;
      var err := HandleAsync(m);
    }

    method OnInstrument(event: StatusRegister)
      requires Valid()
      modifies syncW, syncW.stream`output, syncW.buf, asyncW, asyncW.stream`output, asyncW.buf, status
      ensures Valid()
      ensures View() == E.Step(old(View()), E.InstrumentEvent(event))
    {
      hide Valid, View, E.HandleSync, E.HandleAsync, E.ServiceRequest, E.Put;
      var reply, send := ServiceRequest(event);
      if send {
        Answer(Asynchronous, reply);
      }
    }

    // -------------------------------------------------------------- the whole synchronous channel

    /** The next message of the synchronous channel, read into the buffer. */
    method NextMessage(buf: array<byte>) returns (h: Header, n: nat, err: Err)
      requires Valid() && buf.Length > 0 && buf != scratch && buf != syncW.buf && buf != asyncW.buf
      modifies syncW.stream`input, buf
      ensures Valid() && View() == old(View()) && n <= buf.Length
      ensures ReadOne(old(syncW.stream.input), buf.Length) == (Received(h, buf[..n], err), syncW.stream.input)
    {
      hide L.LockManager.Valid, SCPIQueryPolicy.Valid, ReadOne;
      h, n, err := ReadMessage(syncW.stream, buf);
    }

    method IsClosed() returns (closed: bool)
      requires Valid()
      ensures Valid() && View() == old(View()) && closed == View().state.Closed?
    {
      hide MessageWriter.Valid, L.LockManager.Valid, SCPIQueryPolicy.Valid;
      closed := state == E.Closed;
    }

    /** One message, with the device behaving as told while it is handled. */
    method OneRound(m: Received, e: E.SyncEnv)
      requires Valid()
      modifies syncW, syncW.stream`output, syncW.buf, asyncW, asyncW.stream`output, asyncW.buf
      modifies this, rmt, status, tx, policy, locks, dev, scratch
      ensures Valid() && View() == E.Step(old(View()), E.SyncMsg(m, e))
    {
      hide MessageWriter.Valid, L.LockManager.Valid, SCPIQueryPolicy.Valid, E.Step;
      dev.Prepare(e);
      assert View() == old(View());
      OnSync(m, e.queued);
    }

    lemma Output()
      requires Valid()
      ensures syncW.stream.output == WireAll(EncodedAll(View().sync))
    {
    }

    /** The synchronous channel from its first byte to its last: messages are read through one buffer and handled in
        order until the stream ends, is lost, or an error ends the session. What the session has become is the run
        over the messages of the stream, and what a peer reads from the channel is what that run has written. */
    method RunSync(buf: array<byte>, env: nat -> E.SyncEnv)
      requires Valid() && buf.Length > 0 && buf != scratch && buf != syncW.buf && buf != asyncW.buf
      modifies this, rmt, status, tx, policy, locks, dev, scratch, buf
      modifies syncW, syncW.stream, syncW.buf, asyncW, asyncW.stream`output, asyncW.buf
      ensures Valid()
      ensures View() == E.Run(old(View()), Events(ReadAll(old(syncW.stream.input), buf.Length), env))
      ensures forall limit: nat | limit > 0 ::
        ReadAll(syncW.stream.output, limit)
        == Arrivals(EncodedAll(View().sync), limit) + [Received(ZERO_HEADER, [], Some(UnexpectedEOF))]
      ensures R.Inv(old(View())) && old(View()).sync == [] ==>
        forall limit: nat | limit > 0 ::
          A.Attributed(ReadAll(syncW.stream.output, limit), ReadAll(old(syncW.stream.input), buf.Length))
    {
      hide View, Valid, ReadOne, E.Step, E.Run, Arrivals;
      ghost var start, all := View(), ReadAll(syncW.stream.input, buf.Length);
      var k, done := 0, false;
      RunNothing(start, all, env);
      assert all[0..] == all;
      while !done
        invariant Valid() && k <= |all|
        invariant View() == E.Run(start, Events(all[..k], env))
        invariant !done ==> k < |all| && ReadAll(syncW.stream.input, buf.Length) == all[k..]
        invariant done ==> k == |all| || View().state == E.Closed
        decreases |syncW.stream.input| + if done then 0 else 1
      {
        ghost var input := syncW.stream.input;
        var h, n, err := NextMessage(buf);
        var m := Received(h, buf[..n], err);
        ReadAllStep(input, buf.Length);
        assert all[k] == m;
        OneRound(m, env(k));
        RunSnoc(start, all, env, k);
        k := k + 1;
        var closed := IsClosed();
        done := closed || !Recoverable(err);
      }
      ClosedForGood(start, all, env, k);
      forall limit: nat | limit > 0
        ensures ReadAll(syncW.stream.output, limit)
             == Arrivals(EncodedAll(View().sync), limit) + [Received(ZERO_HEADER, [], Some(UnexpectedEOF))]
      {
        Output();
        PeerReads(View().sync, limit);
      }
      if R.Inv(start) && start.sync == [] {
        forall limit: nat | limit > 0 ensures A.Attributed(ReadAll(syncW.stream.output, limit), all) {
          RunIsAttributed(start, all, env, limit);
        }
      }
    }
  }

  /** The messages of a channel as events, each with the behaviour of device and queue while it is handled. */
  function Events(rs: seq<Received>, env: nat -> E.SyncEnv): seq<E.Event> {
    seq(|rs|, i requires 0 <= i < |rs| => E.SyncMsg(rs[i], env(i)))
  }

  lemma RunIsAttributed(w: E.Conn, all: seq<Received>, env: nat -> E.SyncEnv, limit: nat)
    requires R.Inv(w) && w.sync == []
    ensures A.Attributed(Arrivals(EncodedAll(E.Run(w, Events(all, env)).sync), limit)
                         + [Received(ZERO_HEADER, [], Some(UnexpectedEOF))], all)
  {
    hide R.Inv, E.Run, A.Attributed, A.AskedIn, Arrivals;
    A.EveryAnswerWasAsked(w, Events(all, env));
    A.AnswersReachPeer(E.Run(w, Events(all, env)).sync, Events(all, env), all, limit);
  }

  lemma RunNothing(w: E.Conn, all: seq<Received>, env: nat -> E.SyncEnv)
    ensures E.Run(w, Events(all[..0], env)) == w
  {
    hide E.Step;
  }

  lemma RunSnoc(w: E.Conn, all: seq<Received>, env: nat -> E.SyncEnv, k: nat)
    requires k < |all|
    ensures E.Run(w, Events(all[..k + 1], env)) == E.Step(E.Run(w, Events(all[..k], env)), E.SyncMsg(all[k], env(k)))
  {
    hide E.Step;
    var es := Events(all[..k + 1], env);
    assert es[..|es| - 1] == Events(all[..k], env);
  }

  /** A closed session handles nothing more. */
  lemma {:induction false} ClosedForGood(w: E.Conn, all: seq<Received>, env: nat -> E.SyncEnv, k: nat)
    requires k <= |all| && (k == |all| || E.Run(w, Events(all[..k], env)).state == E.Closed)
    ensures E.Run(w, Events(all, env)) == E.Run(w, Events(all[..k], env))
    decreases |all| - k
  {
    hide E.HandleSync, E.HandleAsync;
    assert all[..|all|] == all;
    if k < |all| {
      RunSnoc(w, all, env, k);
      hide E.Run;
      ClosedForGood(w, all, env, k + 1);
    }
  }

  lemma ReadAllStep(input: seq<byte>, limit: nat)
    requires limit > 0
    ensures var (r, rest) := ReadOne(input, limit);
            && ReadAll(input, limit) == [r] + (if Recoverable(r.err) then ReadAll(rest, limit) else [])
            && |rest| <= |input| && (Recoverable(r.err) ==> |rest| < |input|)
  {
  }

  /** Whoever holds the exclusive lock beside shared holders is one of them, so nobody is counted twice. */
  lemma HoldersCount(m: L.Locks)
    requires L.Inv(m)
    ensures |E.Holders(m)| == if m.shared != {} then |m.shared| else if m.exclusive.Some? then 1 else 0
  {
    if m.shared != {} {
      assert E.Holders(m) == m.shared;
    } else if m.exclusive.Some? {
      assert E.Holders(m) == {m.exclusive.value};
    } else {
      assert E.Holders(m) == {};
    }
  }
}
