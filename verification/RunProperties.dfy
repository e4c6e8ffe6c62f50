/** Properties of whole runs of a session (server/data.go, clear.go, async.go, session.go, serve.go). */
module RunProperties {
  import opened Basics
  import opened Framing
  import opened MessageIds
  import opened Messages
  import opened Transactions
  import opened ScpiPolicy
  import opened ScpiTokens
  import opened Engine
  import opened Responses
  import opened Runs

  /** The session before event i of a run. */
  function At(w: Conn, es: seq<Event>, i: nat): Conn
    requires i <= |es|
  {
    Run(w, es[..i])
  }

  lemma AtStep(w: Conn, es: seq<Event>, i: nat)
    requires i < |es|
    ensures At(w, es, i + 1) == Step(At(w, es, i), es[i])
  {
    assert es[..i + 1][..i] == es[..i];
  }

  lemma AtInv(w: Conn, es: seq<Event>, i: nat)
    requires Starts(w) && i <= |es|
    ensures Inv(At(w, es, i))
  {
    RunInv(w, es[..i]);
  }

  // ---------------------------------------------------------------- invalid transitions

  predicate ProgramRefused(w: Conn, m: Received, env: SyncEnv) {
    var h := m.header;
    var (v, err) := ReceiveData(w, h, m.payload, env.writeOk);
    if err != None then err == Some(InvalidTransition)
    else
      && h.msgType == DATA_END
      && if !Scan(v.policy, m.payload).found then Complete(v.tx).1 == Some(InvalidTransition)
         else SendResponse(v.(policy := FRESH), env.script, Sized(v), h.parameter, env.queued).2
              == Some(InvalidTransition)
  }

  /** The handler of this event meets ErrInvalidTransition. */
  predicate MeetsInvalidTransition(w: Conn, e: Event) {
    || (ProgramAt(w, e) && ProgramRefused(w, e.msg, e.env))
    || (TriggerAt(w, e) && DoTrigger(w, e.msg.header, e.env.triggerOk).1 == Some(InvalidTransition))
    || (ClearAt(w, e) && BeginDeviceClear(w).1 == Some(InvalidTransition))
  }

  lemma ProgramRefusedExactly(w: Conn, m: Received, env: SyncEnv)
    requires Inv(w) && w.state.Ready? && IsProgram(m)
    ensures ProgramRefused(w, m, env) <==> Stuck(w, m.header)
  {
    var h := m.header;
    if !Stuck(w, h) {
      var v := Written(w, h, m.payload);
      assert ReceiveData(w, h, m.payload, env.writeOk) == (v, if env.writeOk then None else Some(DeviceError));
      if env.writeOk && h.msgType == DATA_END && Scan(w.policy, m.payload).found {
        ScratchIsValid(w);
        ResponseIsWellFormed(v.(policy := FRESH), env.script, Sized(w), h.parameter, env.queued);
      }
    }
  }

  lemma ReadyWhenHandled(w: Conn, e: Event)
    requires Inv(w)
    ensures ProgramAt(w, e) || TriggerAt(w, e) ==> w.state.Ready?
    ensures ClearAt(w, e) || StatusAt(w, e) ==> w.state.Ready? || w.state.Clearing?
  {
    StepCases(w, e);
  }

  /** An invalid transition arises exactly when a device clear is requested during a clear, or when a DataEnd
      or Trigger finds the input of an earlier one, whose device call failed, still complete. */
  lemma InvalidTransitionExactly(w: Conn, e: Event)
    requires Inv(w)
    ensures MeetsInvalidTransition(w, e) <==>
      || (ClearAt(w, e) && w.state.Clearing?)
      || ((ProgramAt(w, e) || TriggerAt(w, e)) && Stuck(w, e.msg.header))
  {
    ReadyWhenHandled(w, e);
    hide ProgramRefused, Accepted, AsyncAccepted;
    if ProgramAt(w, e) {
      ProgramRefusedExactly(w, e.msg, e.env);
    }
  }

  /** The device accepts every write and trigger; its reads may fail freely. */
  predicate Reliable(e: Event) { e.SyncMsg? ==> e.env.writeOk && e.env.triggerOk }

  lemma ReliableStep(w: Conn, e: Event)
    requires Inv(w) && Reliable(e) && w.tx.state != InputComplete
    ensures Step(w, e).tx.state != InputComplete
    ensures TriggerAt(w, e) || (ProgramAt(w, e) && e.msg.header.msgType == DATA_END) ==> Step(w, e).tx == RESET
  {
    hide Step, Accepted, AsyncAccepted, Replies, StatusByte, Scan, DataResult, TriggerResult;
    StepCases(w, e);
    if ProgramAt(w, e) || TriggerAt(w, e) {
      MessageCompletes(w, e.msg.header, e.msg.payload, e.env);
    }
  }

  lemma MessageCompletes(w: Conn, h: Header, payload: seq<byte>, env: SyncEnv)
    requires w.tx.state != InputComplete && env.writeOk && env.triggerOk
    ensures h.msgType == DATA ==> DataResult(w, h, payload, env).tx.state == ReceivingInput
    ensures h.msgType == DATA_END ==> DataResult(w, h, payload, env).tx == RESET
    ensures TriggerResult(w, h, env.triggerOk).tx == RESET
  {
    hide Scan, Outcome, Produced, Transcript;
  }

  /** With a device that accepts writes and triggers: between handlers the transaction is idle, receiving or
      clearing; every DataEnd and Trigger handled outside a clear returns it to idle; and the only invalid
      transition is a second device clear request during a clear. */
  lemma {:induction false} ReliableRun(w: Conn, es: seq<Event>, i: nat)
    requires Starts(w) && i < |es| && forall e | e in es :: Reliable(e)
    ensures At(w, es, i).tx.state in {Idle, ReceivingInput, TxClearing}
    ensures var v := At(w, es, i);
            TriggerAt(v, es[i]) || (ProgramAt(v, es[i]) && es[i].msg.header.msgType == DATA_END) ==>
              Step(v, es[i]).tx == RESET
    ensures var v := At(w, es, i); MeetsInvalidTransition(v, es[i]) <==> ClearAt(v, es[i]) && v.state.Clearing?
  {
    if i > 0 {
      ReliableRun(w, es, i - 1);
      RunInv(w, es[..i - 1]);
      ReliableStep(At(w, es, i - 1), es[i - 1]);
      AtStep(w, es, i - 1);
    }
    RunInv(w, es[..i]);
    ReliableStep(At(w, es, i), es[i]);
    InvalidTransitionExactly(At(w, es, i), es[i]);
  }

  /** A DataEnd or a Trigger. */
  predicate CompletesInput(w: Conn, e: Event) {
    (ProgramAt(w, e) && e.msg.header.msgType == DATA_END) || TriggerAt(w, e)
  }

  /** A DataEnd or Trigger that was let through to the device, which failed it. */
  predicate Fails(w: Conn, e: Event) {
    && CompletesInput(w, e) && !Stuck(w, e.msg.header)
    && if IsTrigger(e.msg) then !e.env.triggerOk else !e.env.writeOk
  }

  /** A Data message, a clear request, or the completion of a clear. */
  predicate Releases(w: Conn, e: Event) {
    || (ProgramAt(w, e) && e.msg.header.msgType == DATA)
    || ClearAt(w, e) || ClearDoneAt(w, e)
  }

  lemma StepBlocks(w: Conn, e: Event)
    requires Inv(w)
    ensures Step(w, e).tx.state == InputComplete <==>
      Fails(w, e) || (w.tx.state == InputComplete && !Releases(w, e))
  {
    hide Step, Accepted, AsyncAccepted, Replies, StatusByte, Scan, DataResult, TriggerResult, Stuck;
    StepCases(w, e);
    if ProgramAt(w, e) || TriggerAt(w, e) {
      MessageBlocks(w, e.msg.header, e.msg.payload, e.env);
    }
  }

  lemma MessageBlocks(w: Conn, h: Header, payload: seq<byte>, env: SyncEnv)
    requires Inv(w)
    ensures h.msgType == DATA || h.msgType == DATA_END ==>
      (DataResult(w, h, payload, env).tx.state == InputComplete <==>
         h.msgType == DATA_END && (w.tx.state == InputComplete || !env.writeOk))
    ensures TriggerResult(w, h, env.triggerOk).tx.state == InputComplete <==>
      if Stuck(w, h) then w.tx.state == InputComplete else !env.triggerOk
    ensures Stuck(w, h) <==> w.tx.state == InputComplete && h.msgType != DATA
  {
    hide Scan, Outcome, Produced, Transcript;
  }

  /** The device failed the message of event i, and nothing since has released the transaction. */
  ghost predicate BlockedSince(w: Conn, es: seq<Event>, i: nat) {
    && i < |es| && Fails(At(w, es, i), es[i])
    && forall j | i < j < |es| :: !Releases(At(w, es, j), es[j])
  }

  lemma {:induction false} BlockedExtends(w: Conn, es: seq<Event>, e: Event, i: nat)
    ensures BlockedSince(w, es + [e], i) <==>
      if i == |es| then Fails(Run(w, es), e) else BlockedSince(w, es, i) && !Releases(Run(w, es), e)
  {
    hide Run, Fails, Releases;
    var all := es + [e];
    assert all[..|es|] == es;
    forall j | 0 <= j < |es| ensures all[..j] == es[..j] && all[j] == es[j] {
    }
    if i < |es| {
      assert BlockedSince(w, all, i) ==> !Releases(At(w, all, |es|), all[|es|]);
      assert BlockedSince(w, all, i) ==> forall j | i < j < |es| :: !Releases(At(w, all, j), all[j]);
    }
  }

  /** In every run the transaction holds a complete input between handlers exactly when the device failed a DataEnd
      or Trigger and no Data message, clear request or clear completion has come since. */
  lemma {:induction false} BlockedExactly(w: Conn, es: seq<Event>)
    requires Starts(w)
    ensures Run(w, es).tx.state == InputComplete <==> exists i :: BlockedSince(w, es, i)
  {
    if es != [] {
      var prefix, e := es[..|es| - 1], es[|es| - 1];
      assert es == prefix + [e];
      BlockedExactly(w, prefix);
      RunInv(w, prefix);
      StepBlocks(Run(w, prefix), e);
      forall i: nat
        ensures BlockedSince(w, es, i) <==>
          if i == |prefix| then Fails(Run(w, prefix), e) else BlockedSince(w, prefix, i) && !Releases(Run(w, prefix), e)
      {
        BlockedExtends(w, prefix, e, i);
      }
      hide Step, Fails, Releases, BlockedSince, Inv;
      if Fails(Run(w, prefix), e) {
        assert BlockedSince(w, es, |prefix|);
      } else if exists i :: BlockedSince(w, prefix, i) && !Releases(Run(w, prefix), e) {
        var i :| BlockedSince(w, prefix, i);
        assert i != |prefix| by { BlockedIndex(w, prefix, i); }
        assert BlockedSince(w, es, i);
      }
    }
  }

  lemma BlockedIndex(w: Conn, es: seq<Event>, i: nat)
    requires BlockedSince(w, es, i)
    ensures i < |es|
  {
  }

  /** After any run, the handler of an event meets an invalid transition exactly when a clear is requested during a
      clear, or when a DataEnd or Trigger comes after one the device failed with nothing in between to release it. */
  lemma InvalidTransitionHistory(w: Conn, es: seq<Event>, e: Event)
    requires Starts(w)
    ensures var v := Run(w, es);
            MeetsInvalidTransition(v, e) <==>
              || (ClearAt(v, e) && v.state.Clearing?)
              || (CompletesInput(v, e) && exists i :: BlockedSince(w, es, i))
  {
    hide Run, Inv, BlockedSince, MeetsInvalidTransition;
    RunInv(w, es);
    BlockedExactly(w, es);
    InvalidTransitionExactly(Run(w, es), e);
  }

  /** A message refused for that reason reaches no device, gets one error, and leaves the next one refused too. */
  lemma RefusalPersists(w: Conn, es: seq<Event>, e: Event, i: nat)
    requires Starts(w) && BlockedSince(w, es, i) && CompletesInput(Run(w, es), e)
    ensures var v := Run(w, es);
            && Step(v, e).device == v.device && Step(v, e).tx == v.tx && Step(v, e).state == v.state
            && Step(v, e).sync == v.sync + [ErrorMsg(CODE_HANDSHAKE_TIMEOUT)]
            && BlockedSince(w, es + [e], i)
  {
    var v := Run(w, es);
    RunInv(w, es);
    BlockedExactly(w, es);
    StepCases(v, e);
    BlockedExtends(w, es, e, i);
    BlockedIndex(w, es, i);
    hide Run, Step, BlockedSince, Accepted, AsyncAccepted, Written, ResponseTo, Scan;
  }

  /** Once released, the next DataEnd or Trigger reaches the device again. */
  lemma ReleaseLetsThrough(w: Conn, es: seq<Event>, e: Event, f: Event)
    requires Starts(w) && Releases(Run(w, es), e) && CompletesInput(Run(w, es + [e]), f)
    ensures forall i :: !BlockedSince(w, es + [e], i)
    ensures var v := Run(w, es + [e]); |Step(v, f).device| > |v.device|
  {
    hide Step, BlockedSince, Releases, Fails, CompletesInput, Inv;
    var v, all := Run(w, es), es + [e];
    assert all[..|es|] == es;
    RunInv(w, es);
    RunInv(w, all);
    StepBlocks(v, e);
    ReleaseIsNotFailure(v, e);
    BlockedExactly(w, all);
    LetsThrough(Run(w, all), f);
  }

  lemma LetsThrough(w: Conn, e: Event)
    requires Inv(w) && w.tx.state != InputComplete && CompletesInput(w, e)
    ensures |Step(w, e).device| > |w.device|
  {
    var d := StepDevice(w, e);
    hide Step, Inv, Accepted;
  }

  lemma ReleaseIsNotFailure(w: Conn, e: Event)
    ensures Releases(w, e) ==> !Fails(w, e)
  {
    hide Accepted, AsyncAccepted;
  }

  // ---------------------------------------------------------------- device clear

  /** While a clear is in progress no synchronous message except DeviceClearComplete reaches the device or
      changes the protocol state. */
  lemma NothingHappensWhileClearing(w: Conn, m: Received, env: SyncEnv)
    requires Inv(w) && w.state.Clearing? && m.header.msgType != DEVICE_CLEAR_COMPLETE
    ensures m.err == None ==> Step(w, SyncMsg(m, env)) == w
    ensures Step(w, SyncMsg(m, env)).device == w.device
    ensures Step(w, SyncMsg(m, env)).tx == w.tx
  {
    SyncStep(w, m, env);
    hide HandleData, DoTrigger, CompleteDeviceClear, Accept, Report;
  }

  function Steps(w: Conn, es: seq<Event>): Conn
    decreases |es|
  {
    if es == [] then w else Steps(Step(w, es[0]), es[1..])
  }

  lemma {:induction false} DiscardAll(w: Conn, es: seq<Event>)
    requires Inv(w) && w.state.Clearing?
    requires forall e | e in es :: e.SyncMsg? && e.msg.err == None && e.msg.header.msgType != DEVICE_CLEAR_COMPLETE
    ensures Steps(w, es) == w
  {
    if es != [] {
      NothingHappensWhileClearing(w, es[0].msg, es[0].env);
      DiscardAll(w, es[1..]);
    }
  }

  /** None of these events completes the clear or ends the session. */
  ghost predicate Pending(w: Conn, es: seq<Event>)
    decreases |es|
  {
    es == [] || (!ClearDoneAt(w, es[0]) && !Step(w, es[0]).state.Closed? && Pending(Step(w, es[0]), es[1..]))
  }

  /** Serial polls and remote/local changes, which a clear does not hold up. */
  ghost predicate OutOfBand(calls: seq<DevCall>) {
    forall c | c in calls :: c.DevStatus? || c.DevRemoteLocal?
  }

  ghost predicate AllPlain(ms: seq<Msg>) { forall m | m in ms :: PlainReply(m) }

  /** What events may do to a clearing session: nothing to its protocol state, nothing of a response on the
      synchronous channel, and only out-of-band calls to the device. */
  ghost predicate StillClearing(w: Conn, v: Conn) {
    && Inv(v) && v.state.Clearing? && v.tx == w.tx && v.policy == w.policy
    && w.device <= v.device && OutOfBand(v.device[|w.device|..])
    && w.sync <= v.sync && AllPlain(v.sync[|w.sync|..])
    && w.async <= v.async
  }

  lemma BystanderClears(w: Conn, v: Conn)
    requires Bystander(w, v) && w.state.Clearing? && !v.state.Closed? && Inv(v)
    ensures StillClearing(w, v)
  {
    hide Inv;
    assert v.sync[|w.sync|..] == [] || exists m :: v.sync[|w.sync|..] == [m] && PlainReply(m) by {
      if v.sync != w.sync {
        var m :| v.sync == w.sync + [m] && PlainReply(m);
        assert v.sync[|w.sync|..] == [m];
      }
    }
    if v.device != w.device {
      var mode :| v.device == w.device + [DevRemoteLocal(mode)];
      assert v.device[|w.device|..] == [DevRemoteLocal(mode)];
    }
  }

  lemma SecondRequestClears(w: Conn)
    requires w.state.Clearing? && Inv(ClearResult(w))
    ensures StillClearing(w, ClearResult(w))
  {
    hide Inv;
  }

  lemma StatusClears(w: Conn, h: Header, stb: Option<StatusRegister>)
    requires w.state.Clearing? && Inv(StatusResult(w, h, stb))
    ensures StillClearing(w, StatusResult(w, h, stb))
  {
    hide Inv, StatusByte;
    var v := StatusResult(w, h, stb);
    assert v.device[|w.device|..] == [DevStatus] && v.sync[|w.sync|..] == [];
  }

  lemma ClearingStep(w: Conn, e: Event)
    requires Inv(w) && w.state.Clearing? && !ClearDoneAt(w, e) && !Step(w, e).state.Closed?
    ensures StillClearing(w, Step(w, e))
  {
    hide Step, Accepted, AsyncAccepted, ClearResult, StatusResult, Bystander, DataResult, TriggerResult, StillClearing,
      ServiceRequest;
    StepCases(w, e);
    StepInv(w, e);
    hide Inv;
    if ClearAt(w, e) {
      SecondRequestClears(w);
    } else if StatusAt(w, e) {
      StatusClears(w, e.amsg.header, e.aenv.stb);
    } else {
      BystanderClears(w, Step(w, e));
    }
  }

  lemma StillClearingJoins(u: Conn, v: Conn, w: Conn)
    requires StillClearing(u, v) && StillClearing(v, w)
    ensures StillClearing(u, w)
  {
    hide Inv;
    assert w.device[|u.device|..] == v.device[|u.device|..] + w.device[|v.device|..];
    assert w.sync[|u.sync|..] == v.sync[|u.sync|..] + w.sync[|v.sync|..];
  }

  lemma {:induction false} ClearingRun(w: Conn, es: seq<Event>)
    requires Inv(w) && w.state.Clearing? && Pending(w, es)
    ensures StillClearing(w, Steps(w, es))
    decreases |es|
  {
    if es == [] {
      hide Inv;
      assert w.device[|w.device|..] == [] && w.sync[|w.sync|..] == [];
    } else {
      ClearingStep(w, es[0]);
      ClearingRun(Step(w, es[0]), es[1..]);
      StillClearingJoins(w, Step(w, es[0]), Steps(w, es));
    }
  }

  /** A session on which a clear has just completed. */
  ghost predicate Cleared(v: Conn) {
    && v.state.Ready? && v.tx == Tx(Idle, 0xffff_ffff) && !v.rmtExpected && v.lastReceived == 0xffff_fefe
    && !v.responsePending && !v.srqLatched && v.lastTx == 0xffff_ffff && !v.overlap
    && v.srqStatus == StatusRegister(0, false, false, false, false)
  }

  lemma RequestedClear(w: Conn, begin: Event)
    requires Inv(w) && w.state.Ready? && ClearAt(w, begin)
    ensures var u := Step(w, begin);
            && Inv(u) && u.state.Clearing? && u.policy == w.policy && u.device == w.device && u.sync == w.sync
            && u.async == w.async + [AsyncDeviceClearAcknowledge(0)]
  {
    hide Step, AsyncAccepted;
    StepCases(w, begin);
    StepInv(w, begin);
  }

  lemma CompletedClear(u: Conn, done: Event)
    requires Inv(u) && u.state.Clearing? && ClearDoneAt(u, done)
    ensures var v := Step(u, done);
            && Cleared(v) && v.policy == u.policy && v.maxTx == u.maxTx && v.locks == u.locks
            && v.device == u.device + [DevClear] && v.async == u.async
            && v.sync == u.sync + [DeviceClearAcknowledge(0)]
                         + (if done.env.clearOk then [] else [ErrorMsg(CODE_HANDSHAKE_TIMEOUT)])
  {
    hide Step, Accepted;
    StepCases(u, done);
    hide Inv;
  }

  /** The whole handshake, whatever happens on either channel between request and completion as long as the session
      does not end: the RMT, status, MessageID and transaction state are as at session start; the device was asked
      for one clear, last, and until then for nothing but serial polls and remote/local changes; nothing of a
      response was written; the acknowledgements were; and the response policy is as it was. */
  lemma DeviceClearHandshake(w: Conn, begin: Event, es: seq<Event>, done: Event)
    requires Inv(w) && w.state.Ready? && ClearAt(w, begin) && Pending(Step(w, begin), es)
    requires ClearDoneAt(Steps(Step(w, begin), es), done)
    ensures var u := Steps(Step(w, begin), es);
            var v := Step(u, done);
            && Cleared(v) && v.policy == w.policy && v.maxTx == u.maxTx && v.locks == u.locks
            && w.device <= u.device && OutOfBand(u.device[|w.device|..]) && v.device == u.device + [DevClear]
            && w.sync <= u.sync && AllPlain(u.sync[|w.sync|..])
            && u.sync + [DeviceClearAcknowledge(0)] <= v.sync
            && w.async + [AsyncDeviceClearAcknowledge(0)] <= u.async && v.async == u.async
    ensures (forall e | e in es :: e.SyncMsg? && e.msg.err == None && e.msg.header.msgType != DEVICE_CLEAR_COMPLETE) ==>
      Steps(Step(w, begin), es) == Step(w, begin)
  {
    RequestedClear(w, begin);
    var u0 := Step(w, begin);
    if forall e | e in es :: e.SyncMsg? && e.msg.err == None && e.msg.header.msgType != DEVICE_CLEAR_COMPLETE {
      DiscardAll(u0, es);
    }
    ClearingRun(u0, es);
    CompletedClear(Steps(u0, es), done);
    hide Step, Steps, Inv, Cleared, OutOfBand, AllPlain, Accepted, AsyncAccepted;
  }

  // ---------------------------------------------------------------- what reaches the device

  predicate IsIo(d: DevCall) { d.DevWrite? || d.DevTrigger? }

  /** The writes and triggers among the calls. */
  function IoCalls(ds: seq<DevCall>): seq<DevCall> {
    if ds == [] then []
    else IoCalls(ds[..|ds| - 1]) + if IsIo(ds[|ds| - 1]) then [ds[|ds| - 1]] else []
  }

  lemma {:induction false} IoCallsAppend(a: seq<DevCall>, b: seq<DevCall>)
    ensures IoCalls(a + b) == IoCalls(a) + IoCalls(b)
  {
    if b == [] {
      assert a + b == a;
    } else {
      var n := |b| - 1;
      IoCallsAppend(a, b[..n]);
      assert (a + b)[..|a + b| - 1] == a + b[..n] && (a + b)[|a + b| - 1] == b[n];
      Associate(IoCalls(a), IoCalls(b[..n]), if IsIo(b[n]) then [b[n]] else []);
    }
  }

  lemma {:induction false} ReadsAreNotIo(n: nat)
    ensures IoCalls(DevReads(n)) == []
  {
    if n > 0 {
      ReadsAreNotIo(n - 1);
      IoCallsAppend([DevRead], DevReads(n - 1));
      assert IoCalls([DevRead]) == IoCalls([]) + [];
    }
  }

  /** The call an accepted message makes, unless it is refused. */
  function IoCallOf(w: Conn, e: Event): seq<DevCall> {
    if ProgramAt(w, e) && !Stuck(w, e.msg.header) then [DevWrite(e.msg.payload, e.msg.header.msgType == DATA_END)]
    else if TriggerAt(w, e) && !Stuck(w, e.msg.header) then [DevTrigger]
    else []
  }

  /** How often the device is read for the response to a program message. */
  function ReadsFor(w: Conn, m: Received, env: SyncEnv): nat {
    if env.writeOk && m.header.msgType != DATA && Scan(w.policy, m.payload).found then ReadCount(env.script, Sized(w))
    else 0
  }

  /** The calls one step makes. */
  ghost predicate StepCalls(w: Conn, e: Event, d: seq<DevCall>) {
    if ProgramAt(w, e) && !Stuck(w, e.msg.header) then d == IoCallOf(w, e) + DevReads(ReadsFor(w, e.msg, e.env))
    else if TriggerAt(w, e) && !Stuck(w, e.msg.header) then d == IoCallOf(w, e)
    else d == [] || exists c :: d == [c] && !IsIo(c) && !c.DevRead?
  }

  lemma ProgramCalls(w: Conn, h: Header, payload: seq<byte>, env: SyncEnv, m: Received)
    requires !Stuck(w, h) && m == Received(h, payload, None)
    ensures DataResult(w, h, payload, env).device
         == w.device + ([DevWrite(payload, h.msgType == DATA_END)] + DevReads(ReadsFor(w, m, env)))
  {
    var call := [DevWrite(payload, h.msgType == DATA_END)];
    Associate(w.device, call, DevReads(ReadsFor(w, m, env)));
    assert w.device + call + DevReads(0) == w.device + call;
  }

  lemma StepDevice(w: Conn, e: Event) returns (d: seq<DevCall>)
    requires Inv(w)
    ensures Step(w, e).device == w.device + d && StepCalls(w, e, d)
  {
    StepCases(w, e);
    hide Step, Accepted, AsyncAccepted;
    if ProgramAt(w, e) && !Stuck(w, e.msg.header) {
      var m := Received(e.msg.header, e.msg.payload, None);
      ProgramCalls(w, e.msg.header, e.msg.payload, e.env, m);
      hide DataResult;
      d := IoCallOf(w, e) + DevReads(ReadsFor(w, m, e.env));
    } else {
      d := OtherCalls(w, e);
    }
  }

  lemma OtherCalls(w: Conn, e: Event) returns (d: seq<DevCall>)
    requires Inv(w) && !(ProgramAt(w, e) && !Stuck(w, e.msg.header))
    ensures Step(w, e).device == w.device + d && StepCalls(w, e, d)
  {
    hide Step, Accepted, AsyncAccepted, Written, ResponseTo, Replies, StatusByte, Scan;
    StepCases(w, e);
    d := [];
    if TriggerAt(w, e) && !Stuck(w, e.msg.header) {
      d := [DevTrigger];
    } else if ClearDoneAt(w, e) {
      d := [DevClear];
    } else if StatusAt(w, e) {
      d := [DevStatus];
    } else if Step(w, e).device != w.device {
      var mode :| Step(w, e).device == w.device + [DevRemoteLocal(mode)];
      d := [DevRemoteLocal(mode)];
    }
  }

  lemma StepIo(w: Conn, e: Event)
    requires Inv(w)
    ensures IoCalls(Step(w, e).device) == IoCalls(w.device) + IoCallOf(w, e)
  {
    hide Step, Inv, IoCalls, IoCallOf, StepCalls;
    var d := StepDevice(w, e);
    IoCallsAppend(w.device, d);
    IoOfStep(w, e, d);
  }

  lemma IoOfStep(w: Conn, e: Event, d: seq<DevCall>)
    requires StepCalls(w, e, d)
    ensures IoCalls(d) == IoCallOf(w, e)
  {
    hide Accepted, IoCalls, ReadsFor, DevReads;
    var call := IoCallOf(w, e);
    IoOfNothing();
    if ProgramAt(w, e) && !Stuck(w, e.msg.header) {
      ReadsAreNotIo(ReadsFor(w, e.msg, e.env));
      IoCallsAppend(call, DevReads(ReadsFor(w, e.msg, e.env)));
      IoCallsOfOne(call[0]);
    } else if d != [] {
      IoCallsOfOne(d[0]);
    }
  }

  lemma IoOfNothing()
    ensures IoCalls([]) == []
  {
  }

  lemma IoCallsOfOne(c: DevCall)
    ensures IoCalls([c]) == if IsIo(c) then [c] else []
  {
    assert [c][..0] == [];
  }

  /** The calls the messages of a run make, in arrival order. */
  function IoTrace(w: Conn, es: seq<Event>): seq<DevCall> {
    if es == [] then []
    else IoTrace(w, es[..|es| - 1]) + IoCallOf(Run(w, es[..|es| - 1]), es[|es| - 1])
  }

  /** In every run the device's writes and triggers are exactly the accepted Data, DataEnd and Trigger messages
      that were not refused, in arrival order, with end set only for DataEnd. */
  lemma {:induction false} DeviceTrace(w: Conn, es: seq<Event>)
    requires Starts(w)
    ensures IoCalls(Run(w, es).device) == IoTrace(w, es)
  {
    if es != [] {
      var v := Run(w, es[..|es| - 1]);
      DeviceTrace(w, es[..|es| - 1]);
      RunInv(w, es[..|es| - 1]);
      StepIo(v, es[|es| - 1]);
    }
  }

  // ---------------------------------------------------------------- when a response is attempted

  /** The message reached the device, so its payload is classified. */
  predicate Delivered(w: Conn, e: Event) {
    ProgramAt(w, e) && !Stuck(w, e.msg.header) && e.env.writeOk
  }

  /** The program text since the last completed program message. */
  function ProgramText(w: Conn, es: seq<Event>): seq<byte> {
    if es == [] then []
    else
      var before, e := ProgramText(w, es[..|es| - 1]), es[|es| - 1];
      if !Delivered(Run(w, es[..|es| - 1]), e) then before
      else if e.msg.header.msgType == DATA then before + e.msg.payload
      else []
  }

  lemma StepPolicy(w: Conn, e: Event)
    requires Inv(w)
    ensures Step(w, e).policy
         == if !Delivered(w, e) then w.policy
            else if e.msg.header.msgType == DATA then Scan(w.policy, e.msg.payload)
            else FRESH
  {
    hide Step, Accepted, AsyncAccepted, Replies, StatusByte, DataResult, TriggerResult, Scan;
    StepCases(w, e);
    if ProgramAt(w, e) || TriggerAt(w, e) {
      MessagePolicy(w, e.msg.header, e.msg.payload, e.env);
    }
  }

  lemma MessagePolicy(w: Conn, h: Header, payload: seq<byte>, env: SyncEnv)
    ensures DataResult(w, h, payload, env).policy
         == if Stuck(w, h) || !env.writeOk then w.policy
            else if h.msgType == DATA then Scan(w.policy, payload)
            else FRESH
    ensures TriggerResult(w, h, env.triggerOk).policy == w.policy
  {
    hide Scan, Outcome, Produced, Transcript;
  }

  /** In every run the classifier stands exactly where a scan of the whole program text so far would. A device
      clear does not empty that text. */
  lemma {:induction false} ClassifierTracksText(w: Conn, es: seq<Event>)
    requires Starts(w)
    ensures Run(w, es).policy == Scan(FRESH, ProgramText(w, es))
  {
    if es != [] {
      var prefix, e := es[..|es| - 1], es[|es| - 1];
      ClassifierTracksText(w, prefix);
      RunInv(w, prefix);
      StepPolicy(Run(w, prefix), e);
      if Delivered(Run(w, prefix), e) && e.msg.header.msgType == DATA {
        ScanAppend(FRESH, ProgramText(w, prefix), e.msg.payload);
      }
    }
  }

  /** The device is asked for a response during this step. */
  predicate ReadsDevice(w: Conn, e: Event) {
    var v := Step(w, e);
    |w.device| <= |v.device| && DevRead in v.device[|w.device|..]
  }

  lemma StepReads(w: Conn, e: Event)
    requires Inv(w)
    ensures ReadsDevice(w, e) <==>
      Delivered(w, e) && e.msg.header.msgType == DATA_END && Scan(w.policy, e.msg.payload).found
  {
    var d := StepDevice(w, e);
    hide Step, TriggerAt, Inv;
    assert Step(w, e).device[|w.device|..] == d;
    if ProgramAt(w, e) && !Stuck(w, e.msg.header) {
      var n := ReadsFor(w, e.msg, e.env);
      ReadCountPositive(e.env.script, Sized(w));
      assert n > 0 ==> DevReads(n)[0] == DevRead && DevReads(n)[0] in d;
      assert forall c | c in d :: c in IoCallOf(w, e) || c in DevReads(n);
    }
  }

  lemma ReadCountPositive(script: seq<ReadResult>, size: nat)
    ensures ReadCount(script, size) > 0
  {
  }

  /** In every run the device is read for a response exactly at a delivered DataEnd whose program message, all
      Data and DataEnd payloads since the previous one, contains a question mark in plain text. */
  lemma ResponseExactlyForQueries(w: Conn, es: seq<Event>, e: Event)
    requires Starts(w)
    ensures var v := Run(w, es);
            ReadsDevice(v, e) <==>
              && Delivered(v, e) && e.msg.header.msgType == DATA_END
              && HasPlainQuery(ProgramText(w, es) + e.msg.payload)
  {
    var v := Run(w, es);
    RunInv(w, es);
    ClassifierTracksText(w, es);
    StepReads(v, e);
    hide ReadsDevice, Delivered;
    if e.SyncMsg? {
      var text := ProgramText(w, es) + e.msg.payload;
      ScanAppend(FRESH, ProgramText(w, es), e.msg.payload);
      QueryDetection(text, []);
    }
  }

  // ---------------------------------------------------------------- service requests

  /** A status query that was answered, or a completed device clear. */
  predicate Acknowledges(w: Conn, e: Event) {
    (StatusAt(w, e) && e.aenv.stb.Some?) || ClearDoneAt(w, e)
  }

  lemma StepLatch(w: Conn, e: Event)
    requires Inv(w)
    ensures SendsServiceRequest(w, e) ==> !w.srqLatched && Step(w, e).srqLatched
    ensures Acknowledges(w, e) ==> !Step(w, e).srqLatched
    ensures !SendsServiceRequest(w, e) && !Acknowledges(w, e) ==> Step(w, e).srqLatched == w.srqLatched
  {
    hide Step, Accepted, AsyncAccepted, DataResult, Replies, StatusByte, Scan;
    StepCases(w, e);
    if ProgramAt(w, e) {
      ProgramFrame(w, e.msg.header, e.msg.payload, e.env);
    }
  }

  ghost predicate SentAt(w: Conn, es: seq<Event>, i: nat)
    requires i < |es|
  {
    SendsServiceRequest(At(w, es, i), es[i])
  }

  ghost predicate AcknowledgedAt(w: Conn, es: seq<Event>, i: nat)
    requires i < |es|
  {
    Acknowledges(At(w, es, i), es[i])
  }

  lemma {:induction false} LatchHolds(w: Conn, es: seq<Event>, i: nat, j: nat)
    requires Starts(w) && i < j <= |es| && SentAt(w, es, i)
    requires forall k | i < k < j :: !AcknowledgedAt(w, es, k)
    ensures At(w, es, j).srqLatched
  {
    hide At, Step, Inv, SendsServiceRequest, Acknowledges, Starts;
    AtInv(w, es, j - 1);
    AtStep(w, es, j - 1);
    StepLatch(At(w, es, j - 1), es[j - 1]);
    if i < j - 1 {
      LatchHolds(w, es, i, j - 1);
    }
    assert i < j - 1 ==> !AcknowledgedAt(w, es, j - 1);
  }

  /** Between two AsyncServiceRequests lies an answered status query or a completed device clear. */
  lemma BetweenServiceRequests(w: Conn, es: seq<Event>, i: nat, j: nat)
    requires Starts(w) && i < j < |es| && SentAt(w, es, i) && SentAt(w, es, j)
    ensures exists k | i < k < j :: AcknowledgedAt(w, es, k)
  {
    AtInv(w, es, j);
    StepLatch(At(w, es, j), es[j]);
    if forall k | i < k < j :: !AcknowledgedAt(w, es, k) {
      LatchHolds(w, es, i, j);
      assert false;
    }
  }

  /** A service request not wiped by a clear is reported as RQS in the next answered status query, however many
      polls failed in between. */
  lemma ServiceRequestIsReported(w: Conn, es: seq<Event>, i: nat, j: nat)
    requires Starts(w) && i < j < |es| && SentAt(w, es, i)
    requires forall k | i < k < j :: !AcknowledgedAt(w, es, k)
    requires StatusAt(At(w, es, j), es[j]) && es[j].aenv.stb.Some?
    ensures var v := Step(At(w, es, j), es[j]);
            v.async != [] && v.async[|v.async| - 1].AsyncStatusResponse? && v.async[|v.async| - 1].stb.rqs
  {
    LatchHolds(w, es, i, j);
    AtInv(w, es, j);
    StatusStepReports(At(w, es, j), es[j]);
    hide At, Step, Inv;
  }

  lemma StatusStepReports(w: Conn, e: Event)
    requires Inv(w) && StatusAt(w, e) && e.aenv.stb.Some?
    ensures Step(w, e).async
         == w.async + [AsyncStatusResponse(StatusByte(w, e.aenv.stb.value, e.amsg.header.parameter,
                                                      RmtDelivered(e.amsg.header)))]
    ensures w.srqLatched ==> StatusByte(w, e.aenv.stb.value, e.amsg.header.parameter, RmtDelivered(e.amsg.header)).rqs
  {
    AsyncStep(w, e.amsg, e.aenv);
    hide Step, AsyncAccepted;
  }

  // ---------------------------------------------------------------- the transmit limit

  ghost predicate FitsLimit(m: Msg, limit: int) {
    m.Data? || m.DataEnd? ==> |m.payload| <= limit
  }

  /** No Data or DataEnd of a response exceeds the session's transmit limit or the server's own. */
  lemma ResponseFitsLimit(w: Conn, h: Header, payload: seq<byte>, env: SyncEnv)
    requires Inv(w)
    ensures var v := DataResult(w, h, payload, env);
            && w.sync <= v.sync
            && forall i | |w.sync| <= i < |v.sync| ::
                 FitsLimit(v.sync[i], w.maxTx) && FitsLimit(v.sync[i], w.cfg.maxTx)
  {
    var v := DataResult(w, h, payload, env);
    var o := Outcome(env.script, Sized(w), env.queued, |Produced(env.script, Sized(w))| > 0);
    var t := Transcript(env.script, Sized(w), h.parameter, o);
    ProgramTalk(w, h, payload, env, o);
    hide DataResult, Outcome, Transcript, Inv;
    TranscriptFits(env.script, Sized(w), h.parameter, o);
    if v.sync == w.sync + t {
      forall i | |w.sync| <= i < |v.sync| ensures FitsLimit(v.sync[i], w.maxTx) && FitsLimit(v.sync[i], w.cfg.maxTx) {
        assert v.sync[i] in t;
        ScratchBounds(w);
      }
    }
  }

  lemma ScratchBounds(w: Conn)
    requires w.maxTx >= HEADER_SIZE
    ensures Sized(w) <= w.maxTx && Sized(w) <= w.cfg.maxTx
  {
  }

  /** What a program message adds to the synchronous channel: nothing, one error, or a whole response. */
  lemma ProgramTalk(w: Conn, h: Header, payload: seq<byte>, env: SyncEnv, o: ResponseOutcome)
    requires o == Outcome(env.script, Sized(w), env.queued, |Produced(env.script, Sized(w))| > 0)
    ensures var v := DataResult(w, h, payload, env);
            || v.sync == w.sync
            || v.sync == w.sync + [ErrorMsg(CODE_HANDSHAKE_TIMEOUT)]
            || v.sync == w.sync + Transcript(env.script, Sized(w), h.parameter, o)
  {
    var v := Written(w, h, payload).(policy := FRESH);
    ResponseTalk(v, h, env, o);
    assert v.sync == w.sync && Sized(v) == Sized(w);
    hide ResponseTo, Written, Arrived, Outcome, Transcript, Scan;
    assert Arrived(w, h).sync == w.sync && Written(w, h, payload).sync == w.sync by {
      ArrivalTalk(w, h, payload);
    }
  }

  lemma ArrivalTalk(w: Conn, h: Header, payload: seq<byte>)
    ensures Arrived(w, h).sync == w.sync && Written(w, h, payload).sync == w.sync
  {
  }

  lemma ResponseTalk(w: Conn, h: Header, env: SyncEnv, o: ResponseOutcome)
    requires o == Outcome(env.script, Sized(w), env.queued, |Produced(env.script, Sized(w))| > 0)
    ensures ResponseTo(w, h, env).sync == w.sync + Transcript(env.script, Sized(w), h.parameter, o)
  {
    hide Outcome, Transcript;
  }

  lemma TranscriptFits(script: seq<ReadResult>, size: uint64, id: MessageId, o: ResponseOutcome)
    ensures forall m | m in Transcript(script, size, id, o) :: FitsLimit(m, size)
  {
    PayloadsAreWhatTheDeviceProduced(script, size);
    var data, ending := DataMsgs(id, Packets(script, size)), Ending(o, id, FinalChunk(script, size));
    forall m | m in data ensures FitsLimit(m, size) {
      var i :| 0 <= i < |data| && data[i] == m;
      assert Packets(script, size)[i] in Packets(script, size);
    }
  }

  /** After any run, in particular any sequence of maximum message size requests, each message a step adds to
      the synchronous channel respects the transmit limit in force. */
  lemma EveryResponseFits(w: Conn, es: seq<Event>, e: Event)
    requires Starts(w) && ProgramAt(Run(w, es), e)
    ensures var v := Run(w, es);
            && v.maxTx >= HEADER_SIZE
            && v.sync <= Step(v, e).sync
            && forall i | |v.sync| <= i < |Step(v, e).sync| :: FitsLimit(Step(v, e).sync[i], v.maxTx)
  {
    RunInv(w, es);
    var v := Run(w, es);
    StepCases(v, e);
    ResponseFitsLimit(v, e.msg.header, e.msg.payload, e.env);
    hide Step, DataResult, Accepted;
  }
}
