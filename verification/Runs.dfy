/** What every run of a session keeps: the transaction and lifecycle states, the transmit limit, the device
    trace, the classification of program messages, device clear and service requests. */
module Runs {
  import opened Basics
  import opened Framing
  import opened Messages
  import opened Transactions
  import opened ScpiPolicy
  import opened Engine
  import opened Responses
  import L = Locks

  // ---------------------------------------------------------------- the invariant of every run

  ghost predicate Limits(w: Conn) {
    Validated(w.cfg) && w.maxTx >= HEADER_SIZE
  }

  /** Between handlers no response is pending and the transaction is idle, receiving, clearing, or left with a
      complete input by a failed device call; it is clearing exactly when the session is. */
  ghost predicate Inv(w: Conn) {
    && Limits(w)
    && !w.responsePending
    && w.tx.state in {Idle, ReceivingInput, InputComplete, TxClearing}
    && (!w.state.Closed? ==> (w.state.Clearing? <==> w.tx.state == TxClearing))
    && (w.state.Pairing? ==> w.tx.state == Idle)
    && (w.state.Ready? || w.state.Clearing? ==> w.attached)
    && WellFormed(w.policy)
  }

  /** The scratch slice of a response is never empty, never above the limit, and always passes validation. */
  lemma ScratchIsValid(w: Conn)
    requires Limits(w)
    ensures var size := ScratchSize(w.cfg.maxTx, w.maxTx);
            && 0 < size && size == (if w.maxTx < w.cfg.maxTx then w.maxTx else w.cfg.maxTx)
            && ValidateResponse(w, size) == if w.attached then None else Some(InvalidConfig)
  {
  }

  // ---------------------------------------------------------------- program messages, in closed form

  function Sized(w: Conn): uint64 { ScratchSize(w.cfg.maxTx, w.maxTx) }

  function Arrived(w: Conn, h: Header): Conn { Arrive(w, h).0 }

  /** A DataEnd that finds the previous input still complete is refused; so is a Trigger. */
  predicate Stuck(w: Conn, h: Header) {
    w.tx.state == InputComplete && h.msgType != DATA
  }

  /** The session after a Data or DataEnd whose payload reached the device. */
  function Written(w: Conn, h: Header, payload: seq<byte>): Conn {
    var end := h.msgType == DATA_END;
    Call(Arrived(w, h), DevWrite(payload, end))
      .(tx := if end then Tx(InputComplete, h.parameter) else Tx(ReceivingInput, w.tx.id))
  }

  function ResponseTo(w: Conn, h: Header, env: SyncEnv): Conn {
    var o := Outcome(env.script, Sized(w), env.queued, |Produced(env.script, Sized(w))| > 0);
    var v := WithExchange(w, Answered(ExchangeOf(w), env.script, Sized(w), h.parameter, o).(responsePending := false));
    v.(counters := CountOutcome(v.counters, o))
  }

  /** The five ways a program message chunk can end. */
  function DataResult(w: Conn, h: Header, payload: seq<byte>, env: SyncEnv): Conn {
    if Stuck(w, h) then Put(Arrived(w, h), Synchronous, ErrorMsg(CODE_HANDSHAKE_TIMEOUT))
    else
      var v := Written(w, h, payload);
      if !env.writeOk then Put(v, Synchronous, ErrorMsg(CODE_HANDSHAKE_TIMEOUT))
      else if h.msgType == DATA then v.(policy := Scan(w.policy, payload))
      else if !Scan(w.policy, payload).found then v.(policy := FRESH, tx := RESET)
      else ResponseTo(v.(policy := FRESH), h, env)
  }

  lemma HandleDataResult(w: Conn, h: Header, payload: seq<byte>, env: SyncEnv)
    requires Inv(w) && w.state.Ready? && (h.msgType == DATA || h.msgType == DATA_END)
    ensures HandleData(w, h, payload, env) == (DataResult(w, h, payload, env), None)
  {
    hide Scan, EndOfMessage, ResponseTo;
    if !Stuck(w, h) {
      var v := Written(w, h, payload);
      assert ReceiveData(w, h, payload, env.writeOk) == (v, if env.writeOk then None else Some(DeviceError));
      if env.writeOk && h.msgType == DATA_END {
        EndOfMessageResult(v.(policy := Scan(w.policy, payload)), h, env);
      }
    }
  }

  lemma EndOfMessageResult(w: Conn, h: Header, env: SyncEnv)
    requires Limits(w) && w.attached && w.tx.state == InputComplete
    ensures var v := w.(policy := FRESH);
            EndOfMessage(w, h, env) == (if w.policy.found then ResponseTo(v, h, env) else v.(tx := RESET), None)
  {
    hide SendResponse, Answered, Outcome, Produced, CountOutcome;
    if w.policy.found {
      ScratchIsValid(w);
      ResponseIsWellFormed(w.(policy := FRESH), env.script, Sized(w), h.parameter, env.queued);
    }
  }

  /** What a program message never touches. */
  lemma ProgramFrame(w: Conn, h: Header, payload: seq<byte>, env: SyncEnv)
    ensures var v := DataResult(w, h, payload, env);
            && v.cfg == w.cfg && v.sessionId == w.sessionId && v.version == w.version && v.state == w.state
            && v.attached == w.attached && v.maxTx == w.maxTx && v.locks == w.locks
            && v.srqLatched == w.srqLatched && v.srqStatus == w.srqStatus
            && v.lastReceived == h.parameter
  {
    hide Scan, ResponseTo, Written, Arrived, Put;
    var u := Written(w, h, payload);
    ArrivalFrame(w, h, payload);
    ResponseFrame(u.(policy := FRESH), h, env);
    PutIsAppend(u, ErrorMsg(CODE_HANDSHAKE_TIMEOUT));
    PutIsAppend(Arrived(w, h), ErrorMsg(CODE_HANDSHAKE_TIMEOUT));
  }

  lemma PutIsAppend(w: Conn, m: Msg)
    ensures Put(w, Synchronous, m) == w.(sync := w.sync + [m])
  {
  }

  lemma ArrivalFrame(w: Conn, h: Header, payload: seq<byte>)
    ensures var (u, v) := (Arrived(w, h), Written(w, h, payload));
            && u == w.(rmtExpected := false, lastReceived := h.parameter, counters := u.counters)
            && v == u.(tx := v.tx, device := v.device)
  {
  }

  lemma ResponseFrame(w: Conn, h: Header, env: SyncEnv)
    ensures var v := ResponseTo(w, h, env);
            v == WithExchange(w, ExchangeOf(v)).(counters := v.counters)
  {
    hide Answered, Outcome, Produced, CountOutcome;
  }

  /** A Trigger completes a transaction of its own. */
  function TriggerResult(w: Conn, h: Header, triggerOk: bool): Conn {
    if Stuck(w, h) then Put(Arrived(w, h), Synchronous, ErrorMsg(CODE_HANDSHAKE_TIMEOUT))
    else
      var v := Call(Arrived(w, h), DevTrigger);
      if triggerOk then v.(tx := RESET)
      else Put(v.(tx := Tx(InputComplete, h.parameter)), Synchronous, ErrorMsg(CODE_HANDSHAKE_TIMEOUT))
  }

  /** Which handler a synchronous message reaches. */
  predicate Accepted(w: Conn, m: Received) {
    m.err == None && !DiscardDuringClear(w, m.header) && Accept(w, m.header, Synchronous) == None
  }

  predicate IsProgram(m: Received) { m.header.msgType == DATA || m.header.msgType == DATA_END }
  predicate IsTrigger(m: Received) { m.header.msgType == TRIGGER }

  lemma HandleSyncResult(w: Conn, m: Received, env: SyncEnv)
    requires Inv(w) && !w.state.Closed? && Accepted(w, m)
    ensures IsProgram(m) ==>
      w.state.Ready? && HandleSync(w, m, env) == (DataResult(w, m.header, m.payload, env), None)
    ensures IsTrigger(m) ==>
      w.state.Ready? && HandleSync(w, m, env) == (TriggerResult(w, m.header, env.triggerOk), None)
  {
    hide HandleData, DataResult, DoTrigger, TriggerResult, Report, CompleteDeviceClear;
    if IsProgram(m) {
      HandleDataResult(w, m.header, m.payload, env);
    } else if IsTrigger(m) {
      TriggerHandler(w, m.header, env.triggerOk);
    }
  }

  lemma TriggerHandler(w: Conn, h: Header, triggerOk: bool)
    requires Inv(w) && w.state.Ready? && h.msgType == TRIGGER
    ensures var (v, err) := DoTrigger(w, h, triggerOk);
            (if err != None then ReportOperation(v, Synchronous, err.value) else (v, None))
            == (TriggerResult(w, h, triggerOk), None)
  {
  }

  /** A reply that is neither part of a response nor a status message. */
  predicate PlainReply(m: Msg) {
    && !m.Data? && !m.DataEnd? && !m.Interrupted? && !m.AsyncInterrupted?
    && !m.AsyncServiceRequest? && !m.AsyncStatusResponse?
  }

  /** At most one plain reply, legal on its channel, was added to the log. */
  ghost predicate Replies(before: seq<Msg>, after: seq<Msg>, c: Channel) {
    after == before || exists m :: after == before + [m] && PlainReply(m) && MsgLegalOn(m, c)
  }

  /** Anything else that is not a clear leaves the protocol state alone; only its answers are logged. */
  ghost predicate OnlyTalks(w: Conn, v: Conn) {
    && v == w.(sync := v.sync, async := v.async)
    && Replies(w.sync, v.sync, Synchronous) && Replies(w.async, v.async, Asynchronous)
  }

  lemma PutReplies(w: Conn, c: Channel, m: Msg)
    requires PlainReply(m) && MsgLegalOn(m, c)
    ensures OnlyTalks(w, Put(w, c, m)) && OnlyTalks(w, w)
  {
    assert Put(w, c, m).sync == w.sync + [m] || Put(w, c, m).async == w.async + [m];
  }

  lemma ReportOnlyTalks(w: Conn, c: Channel, e: Error, code: byte)
    requires c == Synchronous || c == Asynchronous
    ensures OnlyTalks(w, Report(w, c, e, code).0)
  {
    hide OnlyTalks, Put;
    match FatalCode(e)
    case Some(f) => PutReplies(w, c, FatalErrorMsg(f));
    case None => PutReplies(w, c, ErrorMsg(if NonFatalCode(e) == 0 then code else NonFatalCode(e)));
  }

  lemma OtherSyncOnlyTalks(w: Conn, m: Received, env: SyncEnv)
    requires !(Accepted(w, m) && (IsProgram(m) || IsTrigger(m) || m.header.msgType == DEVICE_CLEAR_COMPLETE))
    ensures OnlyTalks(w, HandleSync(w, m, env).0)
  {
    hide HandleData, DoTrigger, CompleteDeviceClear, Report, Accept, OnlyTalks, Put;
    var h := m.header;
    PutReplies(w, Synchronous, ErrorMsg(4));
    PutReplies(w, Synchronous, FatalErrorMsg(3));
    PutReplies(w, Synchronous, ErrorMsg(if VendorSpecific(h.msgType) then 3 else 1));
    if m.err == None && !DiscardDuringClear(w, h) && Accept(w, h, Synchronous) != None {
      ReportOnlyTalks(w, Synchronous, Accept(w, h, Synchronous).value, 0);
    }
  }

  // ---------------------------------------------------------------- the invariant is kept

  lemma ProgramInv(w: Conn, h: Header, payload: seq<byte>, env: SyncEnv)
    requires Inv(w) && w.state.Ready?
    ensures Inv(DataResult(w, h, payload, env))
  {
    hide Outcome, Produced, CountOutcome, Transcript, Scan, WellFormed, ResponseTo, Written, Arrived, Put;
    ScanWellFormed(w.policy, payload);
    FreshIsWellFormed();
    var v := Written(w, h, payload).(policy := FRESH);
    ArrivalInv(w, h, payload);
    ResponseInv(v, h, env);
    PutIsAppend(Arrived(w, h), ErrorMsg(CODE_HANDSHAKE_TIMEOUT));
    PutIsAppend(Written(w, h, payload), ErrorMsg(CODE_HANDSHAKE_TIMEOUT));
  }

  lemma FreshIsWellFormed()
    ensures WellFormed(FRESH)
  {
  }

  lemma ArrivalInv(w: Conn, h: Header, payload: seq<byte>)
    requires Inv(w) && w.state.Ready?
    ensures Inv(Arrived(w, h)) && Inv(Written(w, h, payload)) && Written(w, h, payload).state.Ready?
  {
    hide WellFormed;
  }

  lemma ResponseInv(w: Conn, h: Header, env: SyncEnv)
    requires Inv(w) && w.state.Ready?
    ensures Inv(ResponseTo(w, h, env))
  {
    hide WellFormed, Transcript, Outcome, Produced, CountOutcome, ReadCount, DevReads;
  }

  lemma ClearInv(w: Conn, h: Header, clearOk: bool)
    requires Inv(w) && !w.state.Closed?
    ensures Inv(CompleteDeviceClear(w, h, clearOk).0)
  {
  }

  lemma SyncInv(w: Conn, m: Received, env: SyncEnv)
    requires Inv(w) && !w.state.Closed?
    ensures Inv(HandleSync(w, m, env).0)
  {
    hide HandleData, DoTrigger, CompleteDeviceClear, Report, Accept;
    if Accepted(w, m) {
      HandleSyncResult(w, m, env);
      if IsProgram(m) {
        ProgramInv(w, m.header, m.payload, env);
      } else if m.header.msgType == DEVICE_CLEAR_COMPLETE {
        ClearInv(w, m.header, env.clearOk);
      } else if !IsTrigger(m) {
        OtherSyncOnlyTalks(w, m, env);
      }
    } else {
      OtherSyncOnlyTalks(w, m, env);
    }
  }

  /** Which handler an asynchronous message reaches. */
  predicate AsyncAccepted(w: Conn, m: Received) {
    w.attached && m.err == None && Accept(w, m.header, Asynchronous) == None
  }

  predicate IsClear(m: Received) { m.header.msgType == ASYNC_DEVICE_CLEAR }
  predicate IsStatusQuery(m: Received) { m.header.msgType == ASYNC_STATUS_QUERY }

  /** A device clear that finds one in progress is refused; any other moves session and transaction together. */
  function ClearResult(w: Conn): Conn {
    if w.state.Clearing? then Put(w, Asynchronous, ErrorMsg(CODE_HANDSHAKE_TIMEOUT))
    else Put(w.(tx := Tx(TxClearing, w.tx.id), state := Clearing), Asynchronous, AsyncDeviceClearAcknowledge(0))
  }

  function StatusResult(w: Conn, h: Header, stb: Option<StatusRegister>): Conn {
    var v := Call(w, DevStatus).(rmtExpected := w.rmtExpected && !RmtDelivered(h));
    match stb
    case None => Put(v, Asynchronous, ErrorMsg(CODE_HANDSHAKE_TIMEOUT))
    case Some(b) =>
      Put(v.(srqLatched := false, srqStatus := NO_STATUS), Asynchronous,
          AsyncStatusResponse(StatusByte(w, b, h.parameter, RmtDelivered(h))))
  }

  lemma ClearHandler(w: Conn)
    requires Inv(w) && (w.state.Ready? || w.state.Clearing?)
    ensures Reply(BeginDeviceClear(w)) == (ClearResult(w), None)
  {
  }

  lemma StatusHandler(w: Conn, h: Header, stb: Option<StatusRegister>)
    ensures Reply(StatusQuery(w, h, stb)) == (StatusResult(w, h, stb), None)
  {
  }

  lemma HandleAsyncResult(w: Conn, m: Received, env: AsyncEnv)
    requires Inv(w) && AsyncAccepted(w, m)
    ensures IsClear(m) ==>
      (w.state.Ready? || w.state.Clearing?) && HandleAsync(w, m, env) == (ClearResult(w), None)
    ensures IsStatusQuery(m) ==>
      (w.state.Ready? || w.state.Clearing?) && HandleAsync(w, m, env) == (StatusResult(w, m.header, env.stb), None)
  {
    hide Reply, BeginDeviceClear, StatusQuery, DoLock, DoLockInfo, DoRemoteLocal, MaximumMessageSize;
    if IsClear(m) {
      ClearHandler(w);
    }
    if IsStatusQuery(m) {
      StatusHandler(w, m.header, env.stb);
    }
  }

  /** What the other asynchronous messages may change besides the log: the locks, the transmit limit, and the
      device's remote state. */
  ghost predicate SideEffects(w: Conn, v: Conn) {
    && v == w.(async := v.async, locks := v.locks, maxTx := v.maxTx, device := v.device)
    && Replies(w.async, v.async, Asynchronous)
    && (v.maxTx == w.maxTx || v.maxTx >= MIN_MAXIMUM_MESSAGE_SIZE)
    && (v.device == w.device || exists mode :: v.device == w.device + [DevRemoteLocal(mode)])
  }

  lemma LockEffects(w: Conn, h: Header, p: seq<byte>)
    ensures SideEffects(w, Reply(DoLock(w, h, p)).0)
  {
    hide L.Apply, LockCode, L.RequestOp, ChannelOf;
    LockResponseIsLegal();
    hide MsgLegalOn;
    if h.control > 1 {
      PutReplies(w, Asynchronous, ErrorMsg(2));
    } else {
      var (locks, r) := L.Apply(w.locks, w.sessionId, if h.control == 1 then L.RequestOp(p) else L.Release);
      PutReplies(w.(locks := locks), Asynchronous, AsyncLockResponse(LockCode(r)));
    }
  }

  lemma LockResponseIsLegal()
    ensures forall code :: MsgLegalOn(AsyncLockResponse(code), Asynchronous)
    ensures forall code, c | c == Synchronous || c == Asynchronous :: MsgLegalOn(ErrorMsg(code), c)
  {
  }

  lemma InfoEffects(w: Conn)
    ensures SideEffects(w, DoLockInfo(w))
  {
    PutReplies(w, Asynchronous, AsyncLockInfoResponse(if w.locks.exclusive.Some? then 1 else 0,
                                                      |Holders(w.locks)| % 0x1_0000_0000));
    hide Holders;
  }

  lemma RemoteEffects(w: Conn, h: Header, ok: bool)
    ensures SideEffects(w, Reply(DoRemoteLocal(w, h, ok)).0)
  {
    assert h.control <= 6 ==> Call(w, DevRemoteLocal(h.control)).device == w.device + [DevRemoteLocal(h.control)];
    var v := Reply(DoRemoteLocal(w, h, ok)).0;
    assert v.async == w.async + [if h.control > 6 then ErrorMsg(2) else if ok then AsyncRemoteLocalResponse
                                 else ErrorMsg(CODE_HANDSHAKE_TIMEOUT)];
  }

  lemma SizeEffects(w: Conn, n: uint64)
    ensures SideEffects(w, MaximumMessageSize(w, n))
  {
    assert MaximumMessageSize(w, n).async == w.async + [AsyncMaximumMessageSizeResponse(w.cfg.maxRx)];
  }

  lemma TalkIsSideEffect(w: Conn, v: Conn)
    requires OnlyTalks(w, v) && v.sync == w.sync
    ensures SideEffects(w, v)
  {
    hide Replies;
  }

  lemma PutKeepsSync(w: Conn, m: Msg, e: Error, code: byte)
    ensures Put(w, Asynchronous, m).sync == w.sync && Report(w, Asynchronous, e, code).0.sync == w.sync
    ensures ReportRead(w, Asynchronous, e).0.sync == w.sync
  {
  }

  lemma ReadReportTalks(w: Conn, e: Error)
    ensures OnlyTalks(w, ReportRead(w, Asynchronous, e).0)
  {
    PutReplies(w, Asynchronous, ErrorMsg(4));
    hide OnlyTalks, Put;
  }

  lemma TalkEffects(w: Conn, m: Msg, e: Error)
    requires PlainReply(m) && MsgLegalOn(m, Asynchronous)
    ensures SideEffects(w, w) && SideEffects(w, Put(w, Asynchronous, m))
    ensures SideEffects(w, ReportRead(w, Asynchronous, e).0) && SideEffects(w, Report(w, Asynchronous, e, 0).0)
  {
    hide OnlyTalks, SideEffects, Put, Report, ReportRead;
    PutReplies(w, Asynchronous, m);
    ReadReportTalks(w, e);
    ReportOnlyTalks(w, Asynchronous, e, 0);
    PutKeepsSync(w, m, e, 0);
    TalkIsSideEffect(w, w);
    TalkIsSideEffect(w, Put(w, Asynchronous, m));
    TalkIsSideEffect(w, ReportRead(w, Asynchronous, e).0);
    TalkIsSideEffect(w, Report(w, Asynchronous, e, 0).0);
  }

  lemma OtherAsync(w: Conn, m: Received, env: AsyncEnv)
    requires !(AsyncAccepted(w, m) && (IsClear(m) || IsStatusQuery(m)))
    ensures SideEffects(w, HandleAsync(w, m, env).0)
  {
    hide SideEffects, Reply, BeginDeviceClear, StatusQuery, DoLock, DoLockInfo, DoRemoteLocal, MaximumMessageSize,
      Accept, Put, Report, ReportRead, DecodedSize;
    LockEffects(w, m.header, m.payload);
    InfoEffects(w);
    RemoteEffects(w, m.header, env.remoteOk);
    SizeEffects(w, DecodedSize(m.payload));
    TalkEffects(w, FatalErrorMsg(3), if m.err != None then m.err.value else ClientFatal);
    var refusal := Accept(w, m.header, Asynchronous);
    TalkEffects(w, ErrorMsg(1), if refusal != None then refusal.value else ClientFatal);
  }

  lemma AsyncInv(w: Conn, m: Received, env: AsyncEnv)
    requires Inv(w)
    ensures Inv(HandleAsync(w, m, env).0)
  {
    hide HandleAsync, Accept;
    if AsyncAccepted(w, m) && (IsClear(m) || IsStatusQuery(m)) {
      HandleAsyncResult(w, m, env);
    } else {
      OtherAsync(w, m, env);
    }
  }

  // ---------------------------------------------------------------- one step of a run, case by case

  predicate SyncAt(w: Conn, e: Event) { e.SyncMsg? && !w.state.Closed? && Accepted(w, e.msg) }
  predicate AsyncAt(w: Conn, e: Event) { e.AsyncMsg? && AsyncAccepted(w, e.amsg) }

  predicate ProgramAt(w: Conn, e: Event) { SyncAt(w, e) && IsProgram(e.msg) }
  predicate TriggerAt(w: Conn, e: Event) { SyncAt(w, e) && IsTrigger(e.msg) }
  predicate ClearDoneAt(w: Conn, e: Event) { SyncAt(w, e) && e.msg.header.msgType == DEVICE_CLEAR_COMPLETE }
  predicate ClearAt(w: Conn, e: Event) { AsyncAt(w, e) && IsClear(e.amsg) }
  predicate StatusAt(w: Conn, e: Event) { AsyncAt(w, e) && IsStatusQuery(e.amsg) }

  /** The session after a completed device clear: everything but the policy is as at session start. */
  function ClearedResult(w: Conn, clearOk: bool): Conn {
    var v := Put(Call(CompleteClear(w, false).(tx := RESET), DevClear), Synchronous, DeviceClearAcknowledge(0));
    if clearOk then v else Put(v, Synchronous, ErrorMsg(CODE_HANDSHAKE_TIMEOUT))
  }

  /** Any other step: it may talk, close the session, attach the second channel, and touch what is not part of
      the synchronized protocol state. */
  ghost predicate Bystander(w: Conn, v: Conn) {
    && v == w.(sync := v.sync, async := v.async, locks := v.locks, maxTx := v.maxTx, device := v.device,
               state := v.state, attached := v.attached)
    && (v.maxTx == w.maxTx || v.maxTx >= MIN_MAXIMUM_MESSAGE_SIZE)
    && (v.device == w.device || exists mode :: v.device == w.device + [DevRemoteLocal(mode)])
    && (v.state == w.state || v.state.Closed? || (w.state.Pairing? && v.state.Ready? && v.attached))
    && (w.attached ==> v.attached)
    && Replies(w.sync, v.sync, Synchronous) && Replies(w.async, v.async, Asynchronous)
  }

  lemma ClearDoneHandler(w: Conn, h: Header, clearOk: bool)
    requires Validated(w.cfg)
    ensures CompleteDeviceClear(w, h, clearOk) == (ClearedResult(w, clearOk), None)
  {
  }

  lemma SyncStep(w: Conn, m: Received, env: SyncEnv)
    requires Inv(w)
    ensures var (e, v) := (SyncMsg(m, env), Step(w, SyncMsg(m, env)));
            && (ProgramAt(w, e) ==> w.state.Ready? && v == DataResult(w, m.header, m.payload, env))
            && (TriggerAt(w, e) ==> w.state.Ready? && v == TriggerResult(w, m.header, env.triggerOk))
            && (ClearDoneAt(w, e) ==> v == ClearedResult(w, env.clearOk))
            && (!ProgramAt(w, e) && !TriggerAt(w, e) && !ClearDoneAt(w, e) ==>
                  Bystander(w, v) && v.async == w.async && v.device == w.device)
  {
    hide HandleData, DoTrigger, CompleteDeviceClear, ClearedResult, Report, DataResult, TriggerResult;
    if !w.state.Closed? {
      if Accepted(w, m) && (IsProgram(m) || IsTrigger(m)) {
        hide HandleSync, Accepted;
        HandleSyncResult(w, m, env);
      } else if Accepted(w, m) && m.header.msgType == DEVICE_CLEAR_COMPLETE {
        ClearDoneHandler(w, m.header, env.clearOk);
      } else {
        hide HandleSync, Accepted, Bystander;
        OtherSyncStep(w, m, env);
      }
    }
  }

  /** A message that reaches no handler of the protocol proper only gets an answer, or ends the session. */
  lemma OtherSyncStep(w: Conn, m: Received, env: SyncEnv)
    requires !(Accepted(w, m) && (IsProgram(m) || IsTrigger(m) || m.header.msgType == DEVICE_CLEAR_COMPLETE))
    requires !w.state.Closed?
    ensures var v := Step(w, SyncMsg(m, env)); Bystander(w, v) && v.async == w.async && v.device == w.device
  {
    hide HandleSync, Accepted;
    OtherSyncOnlyTalks(w, m, env);
    OtherSyncKeepsAsync(w, m, env);
  }

  lemma OtherSyncKeepsAsync(w: Conn, m: Received, env: SyncEnv)
    requires !(Accepted(w, m) && (IsProgram(m) || IsTrigger(m) || m.header.msgType == DEVICE_CLEAR_COMPLETE))
    ensures HandleSync(w, m, env).0.async == w.async
  {
    hide HandleData, DoTrigger, CompleteDeviceClear, Accept, Report, Put;
    var refusal := Accept(w, m.header, Synchronous);
    ReportKeepsAsync(w, if refusal != None then refusal.value else ClientFatal);
    PutKeepsAsync(w, ErrorMsg(4));
    PutKeepsAsync(w, FatalErrorMsg(3));
    PutKeepsAsync(w, ErrorMsg(if VendorSpecific(m.header.msgType) then 3 else 1));
  }

  lemma PutKeepsAsync(w: Conn, m: Msg)
    ensures Put(w, Synchronous, m).async == w.async
  {
  }

  lemma ReportKeepsAsync(w: Conn, e: Error)
    ensures Report(w, Synchronous, e, 0).0.async == w.async
  {
  }

  lemma AsyncStep(w: Conn, m: Received, env: AsyncEnv)
    requires Inv(w)
    ensures var (e, v) := (AsyncMsg(m, env), Step(w, AsyncMsg(m, env)));
            && (ClearAt(w, e) ==> (w.state.Ready? || w.state.Clearing?) && v == ClearResult(w))
            && (StatusAt(w, e) ==> (w.state.Ready? || w.state.Clearing?) && v == StatusResult(w, m.header, env.stb))
            && (!ClearAt(w, e) && !StatusAt(w, e) ==> Bystander(w, v) && v.sync == w.sync)
  {
    hide HandleAsync, Accept, ClearResult, StatusResult;
    if AsyncAccepted(w, m) && (IsClear(m) || IsStatusQuery(m)) {
      HandleAsyncResult(w, m, env);
    } else {
      OtherAsync(w, m, env);
    }
  }

  predicate SendsServiceRequest(w: Conn, e: Event) { e.InstrumentEvent? && ServiceRequest(w, e.status).1 }

  /** Every step of a run is one of these. */
  lemma StepCases(w: Conn, e: Event)
    requires Inv(w)
    ensures var v := Step(w, e);
            if ProgramAt(w, e) then w.state.Ready? && v == DataResult(w, e.msg.header, e.msg.payload, e.env)
            else if TriggerAt(w, e) then w.state.Ready? && v == TriggerResult(w, e.msg.header, e.env.triggerOk)
            else if ClearDoneAt(w, e) then v == ClearedResult(w, e.env.clearOk)
            else if ClearAt(w, e) then (w.state.Ready? || w.state.Clearing?) && v == ClearResult(w)
            else if StatusAt(w, e) then
              (w.state.Ready? || w.state.Clearing?) && v == StatusResult(w, e.amsg.header, e.aenv.stb)
            else if SendsServiceRequest(w, e) then
              w.state.Ready? && !w.srqLatched
              && v == w.(srqLatched := true, srqStatus := e.status, async := w.async + [AsyncServiceRequest(e.status)])
            else Bystander(w, v)
  {
    match e
    case SyncMsg(m, env) =>
      SyncStep(w, m, env);
      hide Step, DataResult, TriggerResult, ClearedResult, Bystander, Accepted;
    case AsyncMsg(m, env) =>
      AsyncStep(w, m, env);
      hide Step, ClearResult, StatusResult, Bystander, AsyncAccepted;
    case _ =>
      hide HandleSync, HandleAsync;
  }

  // ---------------------------------------------------------------- every run keeps the invariant

  lemma StepInv(w: Conn, e: Event)
    requires Inv(w)
    ensures Inv(Step(w, e))
  {
    hide HandleSync, HandleAsync;
    match e
    case SyncMsg(m, env) =>
      if !w.state.Closed? {
        SyncInv(w, m, env);
      }
    case AsyncMsg(m, env) => AsyncInv(w, m, env);
    case _ =>
  }

  /** A session as Initialize creates it, on a validated configuration. */
  ghost predicate Starts(w: Conn) {
    Validated(w.cfg) && w == NewSession(w.cfg, w.sessionId, w.version, w.locks)
  }

  /** In every run: between handlers no response is pending, the session is clearing exactly when its
      transaction is, and the transmit limit stays usable. */
  lemma {:induction false} RunInv(w: Conn, es: seq<Event>)
    requires Starts(w)
    ensures Inv(Run(w, es))
  {
    if es != [] {
      RunInv(w, es[..|es| - 1]);
      StepInv(Run(w, es[..|es| - 1]), es[|es| - 1]);
    }
  }
}
