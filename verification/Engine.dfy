/** What the server does with each message of a session, as functions on values: the handlers of
    server/data.go, clear.go, async.go, serve.go, dispatch.go, initialize.go and config.go. */
module Engine {
  import opened Basics
  import opened Framing
  import opened MessageIds
  import opened Messages
  import opened Transactions
  import opened ScpiPolicy
  import L = Locks

  // ---------------------------------------------------------------- configuration and limits

  const MIN_MAXIMUM_MESSAGE_SIZE := 256

  datatype Config = Config(maxRx: uint64, maxTx: uint64, maxSessions: int, maxVersion: Version, supportsOverlap: bool)

  function WithDefaults(c: Config): Config {
    Config(
      if c.maxRx == 0 then 8192 else c.maxRx,
      if c.maxTx == 0 then 8192 else c.maxTx,
      if c.maxSessions == 0 then 1 else c.maxSessions,
      if c.maxVersion == Version(0, 0) then Version(1, 0) else c.maxVersion,
      c.supportsOverlap)
  }

  /** validate returns no error. */
  predicate Validated(c: Config) {
    && c.maxSessions >= 1
    && !Less(c.maxVersion, Version(1, 0))
    && c.maxRx >= HEADER_SIZE && c.maxTx >= HEADER_SIZE
    && !c.supportsOverlap
  }

  /** The agreed feature bitmap: overlap only if supported and asked for. */
  function FeatureBitmap(c: Config, request: byte): byte {
    if c.supportsOverlap && request % 2 == 1 then 1 else 0
  }

  /** responseScratch: the configured buffer, cut to the session's current transmit limit. */
  function ScratchSize(buffer: uint64, limit: uint64): uint64 {
    if limit == 0 || limit >= buffer then buffer else limit
  }

  // ---------------------------------------------------------------- the state of a session

  datatype SessionState = Pairing | Ready | Clearing | Closed

  datatype DevCall =
    | DevWrite(data: seq<byte>, end: bool)
    | DevRead
    | DevTrigger
    | DevClear
    | DevStatus
    | DevRemoteLocal(mode: byte)

  datatype Counters = Counters(
    silentInterrupted: nat, interruptedSent: nat, queriesWithoutAnswer: nat, truncatedResponses: nat)

  /** A session with everything its handlers touch: the protocol state, what was written on the two
      channels, what was asked of the device, and the server-wide locks. */
  datatype Conn = Conn(
    cfg: Config,
    sessionId: uint16,
    version: Version,
    state: SessionState,
    attached: bool,
    overlap: bool,
    tx: Tx,
    rmtExpected: bool,
    lastReceived: MessageId,
    responsePending: bool,
    srqLatched: bool,
    srqStatus: StatusRegister,
    lastTx: MessageId,
    maxTx: uint64,
    policy: Lexer,
    locks: L.Locks,
    counters: Counters,
    sync: seq<Msg>,
    async: seq<Msg>,
    device: seq<DevCall>)

  const NO_STATUS := StatusRegister(0, false, false, false, false)

  /** A session just created by Initialize, holding the synchronous channel only. */
  function NewSession(cfg: Config, id: uint16, version: Version, locks: L.Locks): Conn {
    Conn(cfg, id, version, Pairing, false, false, Tx(Idle, 0), false, STATUS_QUERY_INITIAL_MESSAGE_ID, false, false,
         NO_STATUS, NO_MESSAGE_ID, cfg.maxTx, FRESH, locks, Counters(0, 0, 0, 0), [], [], [])
  }

  function Put(w: Conn, c: Channel, m: Msg): Conn {
    if c == Synchronous then w.(sync := w.sync + [m]) else w.(async := w.async + [m])
  }

  function Call(w: Conn, d: DevCall): Conn { w.(device := w.device + [d]) }

  function RequireReady(w: Conn): Err {
    match w.state
    case Ready => None
    case Clearing => None
    case Closed => Some(InvalidSession)
    case Pairing => Some(SessionNotReady)
  }

  // ---------------------------------------------------------------- reporting errors

  /** The code of the fatal error a condition is reported with, if it is fatal. */
  function FatalCode(e: Error): Option<byte> {
    match e
    case InvalidPrologue => Some(1)
    case ShortBuffer => Some(1)
    case ProtocolVersion => Some(3)
    case SessionNotReady => Some(2)
    case InvalidSession => Some(3)
    case InvalidInitSequence => Some(3)
    case MaxClients => Some(4)
    case _ => None
  }

  function NonFatalCode(e: Error): byte {
    match e
    case UnknownMessageType => 1
    case ReservedMessageType => 1
    case WrongChannel => 1
    case UnrecognizedControlCode => 2
    case MessageTooLarge => 4
    case _ => 0
  }

  /** Tells the client; the error is passed on, ending the channel, only when it is fatal. An unidentified
      condition is reported with the given code. */
  function Report(w: Conn, c: Channel, e: Error, unidentified: byte): (Conn, Err) {
    match FatalCode(e)
    case Some(code) => (Put(w, c, FatalErrorMsg(code)), Some(e))
    case None =>
      var code := NonFatalCode(e);
      (Put(w, c, ErrorMsg(if code == 0 then unidentified else code)), None)
  }

  const CODE_HANDSHAKE_TIMEOUT: byte := 128
  const CODE_RESPONSE_TIMEOUT: byte := 129

  function ReportOperation(w: Conn, c: Channel, e: Error): (Conn, Err) { Report(w, c, e, CODE_HANDSHAKE_TIMEOUT) }
  function ReportAccept(w: Conn, c: Channel, e: Error): (Conn, Err) { Report(w, c, e, 0) }

  function ReportRead(w: Conn, c: Channel, e: Error): (Conn, Err) {
    if e == MessageTooLarge then (Put(w, c, ErrorMsg(4)), None) else (w, Some(e))
  }

  /** The gate in front of every handler. */
  function Accept(w: Conn, h: Header, c: Channel): Err {
    if Reserved(h.msgType) then Some(ReservedMessageType)
    else if !Defined(h.msgType) && !VendorSpecific(h.msgType) then Some(UnknownMessageType)
    else if !LegalOn(h.msgType, c) then Some(WrongChannel)
    else if Less(w.version, MinVersion(h.msgType)) then Some(ProtocolVersion)
    else if ClassOf(h.msgType).Undefined? then Some(UnknownMessageType)
    else if CheckLength(h.length, w.cfg.maxRx) != None then CheckLength(h.length, w.cfg.maxRx)
    else if !ClassOf(h.msgType).Lifecycle? then RequireReady(w)
    else None
  }

  // ---------------------------------------------------------------- program messages in

  /** The arrival of a Data, DataEnd or Trigger: the RMT check and the MessageID, before anything else. */
  function Arrive(w: Conn, h: Header): (Conn, bool) {
    var mismatch := w.rmtExpected != RmtDelivered(h);
    (w.(rmtExpected := false,
        lastReceived := h.parameter,
        counters := if mismatch then w.counters.(silentInterrupted := w.counters.silentInterrupted + 1)
                    else w.counters),
     mismatch)
  }

  function ReceiveData(w: Conn, h: Header, payload: seq<byte>, writeOk: bool): (Conn, Err) {
    var w1 := Arrive(w, h).0;
    var end := h.msgType == DATA_END;
    var (tx, err) := if end then CompleteInput(w1.tx, h.parameter) else BeginInput(w1.tx);
    if err != None then (w1, err)
    else (Call(w1.(tx := tx), DevWrite(payload, end)), if writeOk then None else Some(DeviceError))
  }

  function DoTrigger(w: Conn, h: Header, triggerOk: bool): (Conn, Err) {
    var w1 := Arrive(w, h).0;
    var (tx, err) := CompleteInput(w1.tx, h.parameter);
    if err != None then (w1, err)
    else
      var w2 := Call(w1.(tx := tx), DevTrigger);
      if !triggerOk then (w2, Some(DeviceError))
      else var (tx2, err2) := Complete(w2.tx); (w2.(tx := tx2), err2)
  }

  // ---------------------------------------------------------------- responses out

  /** One result of Device.Read. */
  datatype ReadResult = ReadResult(data: seq<byte>, end: bool, fails: bool)

  datatype ResponseOutcome = ResponseComplete | ResponseTruncated | ResponseAbsent | ResponseInterrupted

  /** What the next read yields: never more than the buffer holds, and an error once the script is used up. */
  function NextRead(script: seq<ReadResult>, size: nat): ReadResult {
    if script == [] then ReadResult([], false, true)
    else if |script[0].data| <= size then script[0]
    else script[0].(data := script[0].data[..size])
  }

  function Rest(script: seq<ReadResult>): seq<ReadResult> {
    if script == [] then [] else script[1..]
  }

  /** The part of a session that a response touches. */
  datatype Exchange = Exchange(
    tx: Tx,
    responsePending: bool,
    rmtExpected: bool,
    lastTx: MessageId,
    sync: seq<Msg>,
    async: seq<Msg>,
    device: seq<DevCall>)

  function ExchangeOf(w: Conn): Exchange {
    Exchange(w.tx, w.responsePending, w.rmtExpected, w.lastTx, w.sync, w.async, w.device)
  }

  function WithExchange(w: Conn, x: Exchange): Conn {
    w.(tx := x.tx, responsePending := x.responsePending, rmtExpected := x.rmtExpected, lastTx := x.lastTx,
       sync := x.sync, async := x.async, device := x.device)
  }

  function Say(x: Exchange, m: Msg): Exchange { x.(sync := x.sync + [m]) }

  function Terminate(x: Exchange, id: MessageId, final: Payload): (Exchange, Err) {
    var y := Say(x, DataEnd(id, final)).(rmtExpected := true, lastTx := id);
    var (tx, err) := Complete(y.tx);
    (y.(tx := tx), err)
  }

  function CompleteAbsentResponse(x: Exchange, id: MessageId): (Exchange, Err) {
    var y := Say(x, ErrorMsg(CODE_RESPONSE_TIMEOUT));
    var (tx, err) := BeginResponse(y.tx);
    if err != None then (y, err) else Terminate(y.(tx := tx), id, [])
  }

  function SendInterrupted(x: Exchange, id: MessageId): (Exchange, Err) {
    var (tx, err) := Interrupt(x.tx);
    if err != None then (x, err)
    else
      var y := x.(tx := tx, responsePending := false, async := x.async + [AsyncInterrupted(id)]);
      var z := Say(y, Interrupted(id));
      var (tx2, err2) := Complete(z.tx);
      (z.(tx := tx2), err2)
  }

  /** The device failed: what arrived is closed with an error and an empty DataEnd. */
  function Failed(x: Exchange, id: MessageId, delivered: nat): (Exchange, ResponseOutcome, Err) {
    if delivered == 0 then var (y, e) := CompleteAbsentResponse(x, id); (y, ResponseAbsent, e)
    else var (y, e) := Terminate(Say(x, ErrorMsg(CODE_RESPONSE_TIMEOUT)), id, []); (y, ResponseTruncated, e)
  }

  /** The device offers the end of its response: queued input turns it into an Interrupted transaction. */
  function Offered(x: Exchange, id: MessageId, final: Payload, queued: bool): (Exchange, ResponseOutcome, Err) {
    if queued then var (y, e) := SendInterrupted(x, id); (y, ResponseInterrupted, e)
    else
      var (tx, e) := BeginResponse(x.tx);
      if e != None then (x, ResponseAbsent, e)
      else var (y, e2) := Terminate(x.(tx := tx), id, final); (y, ResponseComplete, e2)
  }

  /** A read and, unless its bytes came with the terminator, the Data message that carries them. */
  function Deliver(x: Exchange, r: ReadResult, id: MessageId): (Exchange, Err)
    requires |r.data| <= MAX_LENGTH
  {
    var x0 := x.(device := x.device + [DevRead]);
    if |r.data| == 0 then (x0, None)
    else
      var (tx, err) := BeginResponse(x0.tx);
      if err != None then (x0, err)
      else (if IsChunk(r) then Say(x0.(tx := tx), Data(id, r.data)) else x0.(tx := tx), None)
  }

  predicate IsChunk(r: ReadResult) { |r.data| > 0 && (!r.end || r.fails) }

  /** The loop of SendResponse. */
  function Stream(x: Exchange, script: seq<ReadResult>, size: uint64, id: MessageId, queued: bool, delivered: nat)
    : (Exchange, ResponseOutcome, Err)
    decreases |script|
  {
    var r := NextRead(script, size);
    var (y, err) := Deliver(x, r, id);
    if err != None then (y, ResponseAbsent, err)
    else
      var total := if IsChunk(r) then delivered + |r.data| else delivered;
      if r.fails then Failed(y, id, total)
      else if r.end then Offered(y, id, r.data, queued)
      else Stream(y, Rest(script), size, id, queued, total)
  }

  /** The checks of Response.validate that depend on the session. */
  function ValidateResponse(w: Conn, size: uint64): Err {
    if !w.attached then Some(InvalidConfig)
    else if size == 0 then Some(ShortBuffer)
    else if size > w.maxTx then Some(MessageTooLarge)
    else None
  }

  function SendResponse(w: Conn, script: seq<ReadResult>, size: uint64, id: MessageId, queued: bool)
    : (Conn, ResponseOutcome, Err)
  {
    if ValidateResponse(w, size) != None then (w, ResponseAbsent, ValidateResponse(w, size))
    else
      var (tx, err) := ExpectResponse(w.tx);
      if err != None then (w, ResponseAbsent, err)
      else
        var x := ExchangeOf(w).(tx := tx, responsePending := true);
        var (y, outcome, e) := Stream(x, script, size, id, queued, 0);
        (WithExchange(w, y.(responsePending := false)), outcome, e)
  }

  function CountOutcome(k: Counters, o: ResponseOutcome): Counters {
    match o
    case ResponseComplete => k
    case ResponseTruncated => k.(truncatedResponses := k.truncatedResponses + 1)
    case ResponseAbsent => k.(queriesWithoutAnswer := k.queriesWithoutAnswer + 1)
    case ResponseInterrupted => k.(interruptedSent := k.interruptedSent + 1)
  }

  /** How the device and the input queue behave while one synchronous message is handled. */
  datatype SyncEnv = SyncEnv(writeOk: bool, triggerOk: bool, clearOk: bool, script: seq<ReadResult>, queued: bool)

  /** What follows the last chunk of a program message: a response if its text holds a query. */
  function EndOfMessage(w: Conn, h: Header, env: SyncEnv): (Conn, Err) {
    var w1 := w.(policy := FRESH);
    if !w.policy.found then var (tx, e) := Complete(w1.tx); (w1.(tx := tx), e)
    else
      var size := ScratchSize(w1.cfg.maxTx, w1.maxTx);
      var (w2, outcome, e) := SendResponse(w1, env.script, size, h.parameter, env.queued);
      var w3 := w2.(counters := CountOutcome(w2.counters, outcome));
      if e != None then ReportOperation(w3, Synchronous, e.value) else (w3, None)
  }

  function HandleData(w: Conn, h: Header, payload: seq<byte>, env: SyncEnv): (Conn, Err) {
    var (w1, err) := ReceiveData(w, h, payload, env.writeOk);
    if err != None then ReportOperation(w1, Synchronous, err.value)
    else
      var w2 := w1.(policy := Scan(w1.policy, payload));
      if h.msgType != DATA_END then (w2, None) else EndOfMessage(w2, h, env)
  }

  // ---------------------------------------------------------------- device clear

  function BeginDeviceClear(w: Conn): (Conn, Err) {
    if RequireReady(w) != None then (w, RequireReady(w))
    else
      var w1 := w.(responsePending := false);
      var (tx, err) := Clear(w1.tx);
      if err != None then (w1, err)
      else
        var w2 := w1.(tx := tx, state := if w1.state.Ready? then Clearing else w1.state);
        (Put(w2, Asynchronous, AsyncDeviceClearAcknowledge(FeatureBitmap(w.cfg, 1))), None)
  }

  /** completeClear: the RMT, status and MessageID state returns to session start. */
  function CompleteClear(w: Conn, overlap: bool): Conn {
    w.(overlap := overlap, rmtExpected := false, lastReceived := STATUS_QUERY_INITIAL_MESSAGE_ID,
       responsePending := false, srqLatched := false, srqStatus := NO_STATUS, lastTx := NO_MESSAGE_ID,
       state := if w.state.Clearing? then Ready else w.state)
  }

  function CompleteDeviceClear(w: Conn, h: Header, clearOk: bool): (Conn, Err) {
    var agreed := FeatureBitmap(w.cfg, h.control);
    var w1 := Call(CompleteClear(w, agreed % 2 == 1).(tx := RESET), DevClear);
    var w2 := Put(w1, Synchronous, DeviceClearAcknowledge(agreed));
    if clearOk then (w2, None) else ReportOperation(w2, Synchronous, DeviceError)
  }

  predicate DiscardDuringClear(w: Conn, h: Header) {
    w.state.Clearing? && h.msgType != DEVICE_CLEAR_COMPLETE
  }

  // ---------------------------------------------------------------- the synchronous channel

  function HandleSync(w: Conn, m: Received, env: SyncEnv): (Conn, Err) {
    var h := m.header;
    if m.err != None then ReportRead(w, Synchronous, m.err.value)
    else if DiscardDuringClear(w, h) then (w, None)
    else if Accept(w, h, Synchronous) != None then ReportAccept(w, Synchronous, Accept(w, h, Synchronous).value)
    else if h.msgType == DATA || h.msgType == DATA_END then HandleData(w, h, m.payload, env)
    else if h.msgType == TRIGGER then
      var (w1, err) := DoTrigger(w, h, env.triggerOk);
      if err != None then ReportOperation(w1, Synchronous, err.value) else (w1, None)
    else if h.msgType == DEVICE_CLEAR_COMPLETE then CompleteDeviceClear(w, h, env.clearOk)
    else if h.msgType == FATAL_ERROR then (w, Some(ClientFatal))
    else if h.msgType == ERROR then (w, None)
    else if h.msgType == INITIALIZE then (Put(w, Synchronous, FatalErrorMsg(3)), Some(InvalidInitSequence))
    else (Put(w, Synchronous, ErrorMsg(if VendorSpecific(h.msgType) then 3 else 1)), None)
  }

  // ---------------------------------------------------------------- status

  predicate Mav(w: Conn, query: MessageId, rmtDelivered: bool) {
    query == w.lastReceived && !rmtDelivered && w.responsePending
  }

  /** The status byte reported: the device's, with MAV decided here and RQS added for a latched request. */
  function StatusByte(w: Conn, device: StatusRegister, query: MessageId, rmtDelivered: bool): StatusRegister {
    var stb := device.(mav := Mav(w, query, rmtDelivered));
    if w.srqLatched then stb.(rqs := true) else stb
  }

  /** stb is what the device's serial poll returns, None when it fails. */
  function StatusQuery(w: Conn, h: Header, stb: Option<StatusRegister>): (Conn, Err) {
    var flag := RmtDelivered(h);
    var w1 := Call(if flag then w.(rmtExpected := false) else w, DevStatus);
    match stb
    case None => (w1, Some(DeviceError))
    case Some(b) =>
      (Put(w1.(srqLatched := false, srqStatus := NO_STATUS), Asynchronous,
           AsyncStatusResponse(StatusByte(w1, b, h.parameter, flag))), None)
  }

  /** An instrument event: sent only to a ready session with no request outstanding. */
  function ServiceRequest(w: Conn, status: StatusRegister): (Conn, bool) {
    if !w.state.Ready? || w.srqLatched then (w, false)
    else (Put(w.(srqLatched := true, srqStatus := status), Asynchronous, AsyncServiceRequest(status)), true)
  }

  // ---------------------------------------------------------------- the asynchronous channel

  function LockCode(r: L.LockResult): byte {
    match r
    case LockFailure => 0
    case LockGranted => 1
    case LockReleasedShared => 2
    case LockError => 3
  }

  function DoLock(w: Conn, h: Header, lockString: seq<byte>): (Conn, Err) {
    if h.control > 1 then (w, Some(UnrecognizedControlCode))
    else
      var (locks, r) := L.Apply(w.locks, w.sessionId, if h.control == 1 then L.RequestOp(lockString) else L.Release);
      (Put(w.(locks := locks), Asynchronous, AsyncLockResponse(LockCode(r))), None)
  }

  function Holders(m: L.Locks): set<uint16> {
    m.shared + (if m.exclusive.Some? then {m.exclusive.value} else {})
  }

  function DoLockInfo(w: Conn): Conn {
    Put(w, Asynchronous, AsyncLockInfoResponse(if w.locks.exclusive.Some? then 1 else 0,
                                               |Holders(w.locks)| % 0x1_0000_0000))
  }

  function DoRemoteLocal(w: Conn, h: Header, ok: bool): (Conn, Err) {
    if h.control > 6 then (w, Some(UnrecognizedControlCode))
    else if !ok then (Call(w, DevRemoteLocal(h.control)), Some(DeviceError))
    else (Put(Call(w, DevRemoteLocal(h.control)), Asynchronous, AsyncRemoteLocalResponse), None)
  }

  function DecodedSize(payload: seq<byte>): uint64 {
    WordSizes();
    if |payload| < 8 then 0 else FromBigEndian(payload[..8])
  }

  /** The client's maximum becomes the transmit limit unless it is too small; the reply is the receive limit. */
  function MaximumMessageSize(w: Conn, clientMax: uint64): Conn {
    var w1 := if clientMax >= MIN_MAXIMUM_MESSAGE_SIZE then w.(maxTx := clientMax) else w;
    Put(w1, Asynchronous, AsyncMaximumMessageSizeResponse(w.cfg.maxRx))
  }

  datatype AsyncEnv = AsyncEnv(stb: Option<StatusRegister>, remoteOk: bool)

  function Reply(r: (Conn, Err)): (Conn, Err) {
    if r.1 != None then ReportOperation(r.0, Asynchronous, r.1.value) else r
  }

  function HandleAsync(w: Conn, m: Received, env: AsyncEnv): (Conn, Err) {
    var h := m.header;
    if !w.attached then (w, Some(SessionNotReady))
    else if m.err != None then ReportRead(w, Asynchronous, m.err.value)
    else if Accept(w, h, Asynchronous) != None then ReportAccept(w, Asynchronous, Accept(w, h, Asynchronous).value)
    else if h.msgType == ASYNC_DEVICE_CLEAR then Reply(BeginDeviceClear(w))
    else if h.msgType == ASYNC_STATUS_QUERY then Reply(StatusQuery(w, h, env.stb))
    else if h.msgType == ASYNC_LOCK then Reply(DoLock(w, h, m.payload))
    else if h.msgType == ASYNC_LOCK_INFO then (DoLockInfo(w), None)
    else if h.msgType == ASYNC_REMOTE_LOCAL_CONTROL then Reply(DoRemoteLocal(w, h, env.remoteOk))
    else if h.msgType == ASYNC_MAXIMUM_MESSAGE_SIZE then (MaximumMessageSize(w, DecodedSize(m.payload)), None)
    else if h.msgType == ASYNC_INITIALIZE then (Put(w, Asynchronous, FatalErrorMsg(3)), Some(InvalidInitSequence))
    else if h.msgType == FATAL_ERROR then (w, Some(ClientFatal))
    else if h.msgType == ERROR then (w, None)
    else (Put(w, Asynchronous, ErrorMsg(1)), None)
  }

  // ---------------------------------------------------------------- whole runs

  /** Everything that can happen to a session, one handler at a time. */
  datatype Event =
    | SyncMsg(msg: Received, env: SyncEnv)
    | AsyncMsg(amsg: Received, aenv: AsyncEnv)
    | InstrumentEvent(status: StatusRegister)
    | Attach
    | Shutdown
    | OtherSession(call: L.Call)

  /** removeSession: the locks are released and the session is closed. */
  function Remove(w: Conn): Conn {
    w.(state := Closed, locks := L.DoReleaseAll(w.locks, w.sessionId))
  }

  /** What the handler of an event returns; a Some ends the channel. */
  function Handle(w: Conn, e: Event): (Conn, Err) {
    match e
    case SyncMsg(m, env) => HandleSync(w, m, env)
    case AsyncMsg(m, env) => HandleAsync(w, m, env)
    case InstrumentEvent(b) => (ServiceRequest(w, b).0, None)
    case Attach => if w.state.Pairing? then (w.(state := Ready, attached := true), None) else (w, Some(InvalidSession))
    case Shutdown => (Remove(w), None)
    case OtherSession(c) => (w.(locks := L.Apply(w.locks, c.id, c.op).0), None)
  }

  /** The end of the synchronous channel removes the session; its loop handles nothing after that. */
  function Step(w: Conn, e: Event): Conn {
    if e.SyncMsg? && w.state.Closed? then w
    else
      var (w1, err) := Handle(w, e);
      if e.SyncMsg? && err != None then Remove(w1) else w1
  }

  function Run(w: Conn, es: seq<Event>): Conn {
    if es == [] then w else Step(Run(w, es[..|es| - 1]), es[|es| - 1])
  }
}
