/** Which messages get through, which end the session, and what whole runs do to the transmit limit and the locks
    (server/dispatch.go, serve.go, initialize.go, async.go). */
module Gate {
  import opened Basics
  import opened Framing
  import opened Messages
  import opened ScpiPolicy
  import opened Transactions
  import opened Engine
  import opened Runs
  import L = Locks

  /** Exactly which configurations a server can be built from, defaults included; every session of such a server is
      one the run properties speak of. */
  lemma UsableConfigurations(c: Config, id: uint16, v: Version, locks: L.Locks)
    ensures WithDefaults(Config(0, 0, 0, Version(0, 0), c.supportsOverlap))
         == Config(8192, 8192, 1, Version(1, 0), c.supportsOverlap)
    ensures c.maxRx != 0 && c.maxTx != 0 && c.maxSessions != 0 && c.maxVersion != Version(0, 0) ==> WithDefaults(c) == c
    ensures Validated(WithDefaults(c)) <==>
      && c.maxSessions >= 0 && !c.supportsOverlap
      && (c.maxRx == 0 || c.maxRx >= HEADER_SIZE) && (c.maxTx == 0 || c.maxTx >= HEADER_SIZE)
      && (c.maxVersion == Version(0, 0) || c.maxVersion.major >= 1)
    ensures var w := NewSession(WithDefaults(c), id, v, locks);
            && (Validated(WithDefaults(c)) ==> Starts(w))
            && w.cfg == WithDefaults(c) && w.sessionId == id && w.version == v && w.locks == locks
            && w.state.Pairing? && !w.attached && !w.overlap && w.tx.state == Idle && !w.rmtExpected
            && w.lastReceived == 0xffff_fefe && !w.responsePending && !w.srqLatched && w.lastTx == 0xffff_ffff
            && w.maxTx == w.cfg.maxTx && w.policy == Lexer(false, Normal, 0, 0, 0, 0)
            && w.counters == Counters(0, 0, 0, 0) && w.sync == w.async == [] && w.device == []
  {
  }

  /** The channel of each message type of IVI-6.1; vendor-specific types go on either. */
  predicate LegalHere(t: byte, c: Channel) {
    || t >= 128 || t == 2 || t == 3 || t == 26 || t == 27
    || (c == Synchronous && (t <= 1 || 6 <= t <= 9 || t == 12 || t == 13 || t == 28 || t == 31 || 34 <= t <= 38))
    || (c == Asynchronous && (t == 4 || t == 5 || t == 10 || t == 11 || 14 <= t <= 25 || t == 29 || t == 30 || t == 32
                              || t == 33))
  }

  /** Types 26 to 38 need version 2.0, the other defined ones 1.0. */
  predicate TooNew(v: Version, t: byte) { (t < 26 && v.major < 1) || (26 <= t < 39 && v.major < 2) }

  /** The operations on an instrument: lock, data, remote/local, trigger, size, clear, status, lock info, and whatever
      is vendor-specific. */
  predicate IsOperation(t: byte) {
    t == 4 || t == 6 || t == 7 || t == 10 || t == 12 || t == 15 || t == 19 || t == 21 || t == 24 || t >= 128
  }

  /** Initialize, FatalError, Error, DeviceClearComplete, AsyncInitialize. */
  predicate IsLifecycle(t: byte) { t == 0 || t == 2 || t == 3 || t == 8 || t == 17 }

  predicate TooLong(w: Conn, h: Header) { w.cfg.maxRx != 0 && h.length > w.cfg.maxRx }

  /** Past the checks of channel, version, kind and length. */
  predicate Proper(w: Conn, h: Header, c: Channel) {
    && LegalHere(h.msgType, c) && !TooNew(w.version, h.msgType) && !TooLong(w, h)
    && (IsOperation(h.msgType) || IsLifecycle(h.msgType))
  }

  /** Which messages get through the gate, and for each that does not the reason it is refused for: a reserved type,
      the wrong channel, the version, a message only a server sends, the length, the session's state, in that order. */
  lemma AcceptedExactly(w: Conn, h: Header, c: Channel)
    requires c == Synchronous || c == Asynchronous
    ensures var t, r := h.msgType, Accept(w, h, c);
            var passed := LegalHere(t, c) && !TooNew(w.version, t);
            && (r == Some(ReservedMessageType) <==> 39 <= t < 128)
            && (r == Some(WrongChannel) <==> !(39 <= t < 128) && !LegalHere(t, c))
            && (r == Some(ProtocolVersion) <==> LegalHere(t, c) && TooNew(w.version, t))
            && (r == Some(UnknownMessageType) <==> passed && !IsOperation(t) && !IsLifecycle(t))
            && (r == Some(MessageTooLarge) <==> passed && (IsOperation(t) || IsLifecycle(t)) && TooLong(w, h))
            && (r == Some(SessionNotReady) <==> Proper(w, h, c) && IsOperation(t) && w.state.Pairing?)
            && (r == Some(InvalidSession) <==> Proper(w, h, c) && IsOperation(t) && w.state.Closed?)
            && (r == None <==> Proper(w, h, c) && (IsOperation(t) ==> w.state.Ready? || w.state.Clearing?))
  {
  }

  /** A synchronous message that ends the session: one that cannot be framed, or, unless a clear discards it, one of a
      version not agreed on, an operation before pairing, the client's FatalError, or a second Initialize. */
  predicate Ends(w: Conn, m: Received) {
    var h, t := m.header, m.header.msgType;
    if m.err != None then m.err != Some(MessageTooLarge)
    else
      && (w.state.Clearing? ==> t == 8)
      && LegalHere(t, Synchronous)
      && (TooNew(w.version, t)
          || (Proper(w, h, Synchronous)
              && (t == 0 || t == 2 || (IsOperation(t) && !w.state.Ready? && !w.state.Clearing?))))
  }

  /** The session ends exactly at a message that cannot be framed, one refused with a fatal error, the client's own
      FatalError, or a second Initialize: no device failure, refusal or interruption ever ends it. */
  lemma SessionEndsExactly(w: Conn, m: Received, env: SyncEnv)
    requires Inv(w) && !w.state.Closed?
    ensures Step(w, SyncMsg(m, env)).state.Closed? <==> Ends(w, m)
  {
    hide HandleSync, Ends, Accepted, Inv;
    if Accepted(w, m) && (IsProgram(m) || IsTrigger(m) || m.header.msgType == DEVICE_CLEAR_COMPLETE) {
      HandledStays(w, m, env);
      hide Step;
    } else {
      OtherSyncErrs(w, m, env);
      OtherSyncOnlyTalks(w, m, env);
      hide Replies;
    }
  }

  lemma HandledStays(w: Conn, m: Received, env: SyncEnv)
    requires Inv(w) && !w.state.Closed? && Accepted(w, m)
    requires IsProgram(m) || IsTrigger(m) || m.header.msgType == DEVICE_CLEAR_COMPLETE
    ensures var v := Step(w, SyncMsg(m, env)); !v.state.Closed? && v.locks == w.locks && !Ends(w, m)
  {
    hide Step, Accept, DataResult, Bystander;
    AcceptedExactly(w, m.header, Synchronous);
    hide LegalHere, TooNew, TooLong;
    SyncStep(w, m, env);
    if IsProgram(m) {
      ProgramFrame(w, m.header, m.payload, env);
    }
    hide Inv;
  }

  lemma OtherSyncErrs(w: Conn, m: Received, env: SyncEnv)
    requires !(Accepted(w, m) && (IsProgram(m) || IsTrigger(m) || m.header.msgType == DEVICE_CLEAR_COMPLETE))
    ensures HandleSync(w, m, env).1 != None <==> Ends(w, m)
  {
    hide HandleData, DoTrigger, CompleteDeviceClear, Accept;
    AcceptedExactly(w, m.header, Synchronous);
    RefusalKinds(w, m.header, Synchronous);
  }

  lemma RefusalKinds(w: Conn, h: Header, c: Channel)
    ensures Accept(w, h, c) in {None, Some(ReservedMessageType), Some(UnknownMessageType), Some(WrongChannel),
              Some(ProtocolVersion), Some(MessageTooLarge), Some(SessionNotReady), Some(InvalidSession)}
  {
  }

  // ---------------------------------------------------------------- the transmit limit over runs

  predicate SizeAt(w: Conn, e: Event) { AsyncAt(w, e) && e.amsg.header.msgType == ASYNC_MAXIMUM_MESSAGE_SIZE }

  /** The eight bytes of a size, most significant first; anything shorter is no size. */
  function SizeIn(p: seq<byte>): nat {
    if |p| < 8 then 0
    else 0x1_0000_0000 * Word(p[0], p[1], p[2], p[3]) + Word(p[4], p[5], p[6], p[7])
  }

  lemma SizeIsDecoded(p: seq<byte>)
    ensures DecodedSize(p) == SizeIn(p)
  {
    if |p| >= 8 {
      EightBytes(p[..8]);
      hide FromBigEndian;
    }
  }

  function LimitAfter(w: Conn, limit: uint64, e: Event): uint64 {
    if SizeAt(w, e) && SizeIn(e.amsg.payload) >= 256 then SizeIsDecoded(e.amsg.payload); SizeIn(e.amsg.payload)
    else limit
  }

  /** What only lock messages and size requests change. */
  predicate Same(w: Conn, v: Conn) { v.locks == w.locks && v.maxTx == w.maxTx }

  lemma PutSame(w: Conn, m: Msg)
    ensures Same(w, Put(w, Asynchronous, m))
  {
  }

  lemma ReplySame(w: Conn, e: Error, m: Msg, code: byte)
    ensures Same(w, Put(w, Asynchronous, m)) && Same(w, Report(w, Asynchronous, e, code).0)
    ensures Same(w, ReportRead(w, Asynchronous, e).0)
  {
    hide Same, Put;
    PutSame(w, m);
    PutSame(w, ErrorMsg(4));
    PutSame(w, ErrorMsg(if NonFatalCode(e) == 0 then code else NonFatalCode(e)));
    SameSelf(w);
    match FatalCode(e)
    case Some(f) => PutSame(w, FatalErrorMsg(f));
    case None =>
  }

  lemma SameSelf(w: Conn)
    ensures Same(w, w)
  {
  }

  lemma ReplyKeeps(r: (Conn, Err))
    ensures Same(r.0, Reply(r).0)
  {
    hide Report;
    if r.1 != None {
      ReplySame(r.0, r.1.value, ErrorMsg(0), CODE_HANDSHAKE_TIMEOUT);
    }
  }

  lemma ClearKeeps(w: Conn)
    ensures Same(w, Reply(BeginDeviceClear(w)).0)
  {
    hide Reply;
    ReplyKeeps(BeginDeviceClear(w));
  }

  lemma StatusKeeps(w: Conn, h: Header, stb: Option<StatusRegister>)
    ensures Same(w, Reply(StatusQuery(w, h, stb)).0)
  {
    hide Reply, StatusByte;
    ReplyKeeps(StatusQuery(w, h, stb));
  }

  lemma RemoteKeeps(w: Conn, h: Header, ok: bool)
    ensures Same(w, Reply(DoRemoteLocal(w, h, ok)).0)
  {
    hide Reply;
    ReplyKeeps(DoRemoteLocal(w, h, ok));
  }

  lemma InfoKeeps(w: Conn, size: uint64)
    ensures Same(w, DoLockInfo(w)) && MaximumMessageSize(w, size).locks == w.locks
  {
    hide Holders;
  }

  lemma LockKeepsLimit(w: Conn, h: Header, p: seq<byte>)
    ensures Reply(DoLock(w, h, p)).0.maxTx == w.maxTx
  {
    hide Reply, L.Apply, LockCode, L.RequestOp;
    ReplyKeeps(DoLock(w, h, p));
  }

  lemma OtherAsync(w: Conn, m: Received, env: AsyncEnv)
    ensures var v := HandleAsync(w, m, env).0;
            && (!(AsyncAccepted(w, m) && m.header.msgType == ASYNC_MAXIMUM_MESSAGE_SIZE) ==> v.maxTx == w.maxTx)
            && (!(AsyncAccepted(w, m) && m.header.msgType == ASYNC_LOCK) ==> v.locks == w.locks)
  {
    hide Accept, Reply, BeginDeviceClear, StatusQuery, DoLock, DoLockInfo, DoRemoteLocal, MaximumMessageSize, Put,
      Report, ReportRead, ReportOperation, DecodedSize;
    var h := m.header;
    ClearKeeps(w);
    StatusKeeps(w, h, env.stb);
    RemoteKeeps(w, h, env.remoteOk);
    InfoKeeps(w, DecodedSize(m.payload));
    LockKeepsLimit(w, h, m.payload);
    ReplySame(w, if m.err != None then m.err.value else ClientFatal, FatalErrorMsg(3), 0);
    var refusal := Accept(w, h, Asynchronous);
    ReplySame(w, if refusal != None then refusal.value else ClientFatal, ErrorMsg(1), 0);
  }

  lemma SizeRequest(w: Conn, m: Received, env: AsyncEnv)
    requires AsyncAccepted(w, m) && m.header.msgType == ASYNC_MAXIMUM_MESSAGE_SIZE
    ensures HandleAsync(w, m, env) == (MaximumMessageSize(w, DecodedSize(m.payload)), None)
  {
    hide Accept, DecodedSize, MaximumMessageSize;
  }

  /** Only an accepted maximum message size request changes the limit, to exactly the client's value unless that is
      below the floor; the reply is the receive limit, whatever the client asked for. */
  lemma StepLimit(w: Conn, e: Event)
    requires Inv(w)
    ensures Step(w, e).maxTx == LimitAfter(w, w.maxTx, e)
    ensures SizeAt(w, e) ==> Step(w, e).async == w.async + [AsyncMaximumMessageSizeResponse(w.cfg.maxRx)]
  {
    match e
    case SyncMsg(m, env) =>
      SyncStep(w, m, env);
      if ProgramAt(w, e) {
        ProgramFrame(w, m.header, m.payload, env);
      } else if !TriggerAt(w, e) && !ClearDoneAt(w, e) {
        OtherSyncLimit(w, m, env);
      }
      hide Step, Accepted, DataResult, Inv, Replies;
    case AsyncMsg(m, env) =>
      SizeIsDecoded(m.payload);
      if SizeAt(w, e) {
        SizeRequest(w, m, env);
      } else {
        OtherAsync(w, m, env);
      }
      hide HandleAsync, HandleSync, Accept, DecodedSize, Inv;
    case _ =>
      hide HandleAsync, HandleSync, Inv;
  }

  lemma OtherSyncLimit(w: Conn, m: Received, env: SyncEnv)
    requires !ProgramAt(w, SyncMsg(m, env)) && !TriggerAt(w, SyncMsg(m, env)) && !ClearDoneAt(w, SyncMsg(m, env))
    ensures Step(w, SyncMsg(m, env)).maxTx == w.maxTx
  {
    if !w.state.Closed? {
      OtherSyncOnlyTalks(w, m, env);
      hide HandleSync, Accepted, Replies;
    }
  }

  function LimitOf(w: Conn, es: seq<Event>): uint64 {
    if es == [] then w.cfg.maxTx
    else LimitAfter(Run(w, es[..|es| - 1]), LimitOf(w, es[..|es| - 1]), es[|es| - 1])
  }

  /** In every run the transmit limit is the last acceptable request, or the configured one before any. */
  lemma {:induction false} LimitTracksRequests(w: Conn, es: seq<Event>)
    requires Starts(w)
    ensures Run(w, es).maxTx == LimitOf(w, es)
  {
    if es != [] {
      var prefix := es[..|es| - 1];
      LimitTracksRequests(w, prefix);
      RunInv(w, prefix);
      StepLimit(Run(w, prefix), es[|es| - 1]);
      hide Step, LimitAfter, Inv;
    }
  }

  // ---------------------------------------------------------------- the locks over runs

  predicate LockAt(w: Conn, e: Event) {
    AsyncAt(w, e) && e.amsg.header.msgType == ASYNC_LOCK && e.amsg.header.control <= 1
  }

  /** The lock operation an event amounts to. */
  function LockCalls(w: Conn, e: Event): seq<L.Call> {
    if LockAt(w, e) then
      [L.Call(w.sessionId, if e.amsg.header.control == 1 then L.RequestOp(e.amsg.payload) else L.Release)]
    else if e.Shutdown? || (e.SyncMsg? && !w.state.Closed? && Ends(w, e.msg)) then [L.Call(w.sessionId, L.ReleaseAll)]
    else if e.OtherSession? then [e.call]
    else []
  }

  lemma LockRequest(w: Conn, m: Received, env: AsyncEnv)
    requires AsyncAccepted(w, m) && m.header.msgType == ASYNC_LOCK
    ensures HandleAsync(w, m, env) == Reply(DoLock(w, m.header, m.payload))
  {
    hide Accept, DoLock, Reply;
  }

  lemma RunOne(m: L.Locks, c: L.Call)
    ensures L.Run(m, [c]) == L.Apply(m, c.id, c.op).0
    ensures L.Run(m, []) == m
  {
    hide L.Apply;
    assert [c][1..] == [];
  }

  /** Every event moves the locks by the operations it stands for, and the reply to a lock message is that
      operation's result. */
  lemma StepLocks(w: Conn, e: Event)
    requires Inv(w)
    ensures Step(w, e).locks == L.Run(w.locks, LockCalls(w, e))
    ensures LockAt(w, e) ==>
      Step(w, e).async
      == w.async + [AsyncLockResponse(LockCode(L.Apply(w.locks, w.sessionId, LockCalls(w, e)[0].op).1))]
  {
    var calls := LockCalls(w, e);
    if calls != [] {
      RunOne(w.locks, calls[0]);
      assert calls == [calls[0]];
    }
    match e
    case SyncMsg(m, env) =>
      SyncLocks(w, m, env);
      hide Step, Ends, L.Run, L.Apply, Inv;
    case AsyncMsg(m, env) =>
      if AsyncAccepted(w, m) && m.header.msgType == ASYNC_LOCK {
        LockRequest(w, m, env);
      } else {
        OtherAsync(w, m, env);
      }
      hide HandleAsync, HandleSync, AsyncAccepted, L.Apply, LockCode, L.RequestOp, Inv;
    case _ =>
      hide HandleAsync, HandleSync, Inv;
  }

  lemma SyncLocks(w: Conn, m: Received, env: SyncEnv)
    requires Inv(w)
    ensures var v := Step(w, SyncMsg(m, env));
            v.locks == if !w.state.Closed? && Ends(w, m) then L.DoReleaseAll(w.locks, w.sessionId) else w.locks
  {
    hide HandleSync, Ends, Accepted, L.DoReleaseAll, Inv;
    if !w.state.Closed? {
      if Accepted(w, m) && (IsProgram(m) || IsTrigger(m) || m.header.msgType == DEVICE_CLEAR_COMPLETE) {
        HandledStays(w, m, env);
        hide Step;
      } else {
        OtherSyncErrs(w, m, env);
        OtherSyncOnlyTalks(w, m, env);
        hide Replies;
      }
    }
  }

  function LockHistory(w: Conn, es: seq<Event>): seq<L.Call> {
    if es == [] then []
    else LockHistory(w, es[..|es| - 1]) + LockCalls(Run(w, es[..|es| - 1]), es[|es| - 1])
  }

  lemma {:induction false} RunAppend(m: L.Locks, a: seq<L.Call>, b: seq<L.Call>)
    ensures L.Run(m, a + b) == L.Run(L.Run(m, a), b)
    decreases |a|
  {
    hide L.Apply;
    if a == [] {
      assert a + b == b;
    } else {
      RunAppend(L.Apply(m, a[0].id, a[0].op).0, a[1..], b);
      assert (a + b)[1..] == a[1..] + b;
    }
  }

  lemma {:induction false} HistoryOk(w: Conn, es: seq<Event>)
    requires forall e | e in es :: e.OtherSession? ==> L.CallOk(e.call)
    ensures forall c | c in LockHistory(w, es) :: L.CallOk(c)
  {
    hide Run, LockAt, Ends;
    if es != [] {
      HistoryOk(w, es[..|es| - 1]);
    }
  }

  /** In every run the server's locks are what the lock messages, the ends of sessions and the other sessions'
      operations make of them, so what holds of every reachable lock state holds of every run. */
  lemma {:induction false} LocksFollowMessages(w: Conn, es: seq<Event>)
    requires Starts(w) && L.Inv(w.locks) && forall e | e in es :: e.OtherSession? ==> L.CallOk(e.call)
    ensures Run(w, es).locks == L.Run(w.locks, LockHistory(w, es))
    ensures L.Inv(Run(w, es).locks)
  {
    HistoryOk(w, es);
    L.RunInv(w.locks, LockHistory(w, es));
    if es != [] {
      var prefix := es[..|es| - 1];
      LocksFollowMessages(w, prefix);
      RunInv(w, prefix);
      StepLocks(Run(w, prefix), es[|es| - 1]);
      RunAppend(w.locks, LockHistory(w, prefix), LockCalls(Run(w, prefix), es[|es| - 1]));
      hide Step, LockCalls, Inv, L.Inv, L.CallOk;
    }
  }
}
