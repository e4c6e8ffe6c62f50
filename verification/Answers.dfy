/** The table of replies: for every message on either channel, in every state a session can be in, exactly what is
    written, with the codes of IVI-6.1 (server/serve.go, server/errors.go, server/async.go, server/clear.go). */
module Answers {
  import opened Basics
  import opened Framing
  import opened Messages
  import opened Transactions
  import opened ScpiPolicy
  import opened Engine
  import opened Responses
  import opened Runs
  import opened Gate
  import L = Locks

  /** What a message that does not get through the gate is answered with: error 1 for a type the server does not take,
      4 for one that is too long; fatal error 3 for a version or a closed session, 2 before pairing. */
  function Refusal(w: Conn, h: Header, c: Channel): Msg {
    var t := h.msgType;
    if !LegalHere(t, c) then ErrorMsg(1)
    else if TooNew(w.version, t) then FatalErrorMsg(3)
    else if !IsOperation(t) && !IsLifecycle(t) then ErrorMsg(1)
    else if TooLong(w, h) then ErrorMsg(4)
    else if w.state.Closed? then FatalErrorMsg(3)
    else FatalErrorMsg(2)
  }

  lemma RefusalIsTold(w: Conn, h: Header, c: Channel)
    requires (c == Synchronous || c == Asynchronous) && Accept(w, h, c) != None
    ensures ReportAccept(w, c, Accept(w, h, c).value).0 == Put(w, c, Refusal(w, h, c))
  {
    AcceptedExactly(w, h, c);
    RefusalKinds(w, h, c);
    hide Accept, Put, LegalHere, TooNew, TooLong, IsOperation, IsLifecycle;
  }

  // ---------------------------------------------------------------- the synchronous channel

  /** The replies to a program message: an error if it was refused or the device failed it, nothing to a command, and
      a whole response to a query. */
  function ProgramReplies(w: Conn, m: Received, env: SyncEnv): seq<Msg> {
    var h := m.header;
    if (h.msgType == 7 && w.tx.state == InputComplete) || !env.writeOk then [ErrorMsg(128)]
    else if h.msgType == 6 || !Scan(w.policy, m.payload).found then []
    else Transcript(env.script, Sized(w), h.parameter,
                    Outcome(env.script, Sized(w), env.queued, |Produced(env.script, Sized(w))| > 0))
  }

  function SyncReplies(w: Conn, m: Received, env: SyncEnv): seq<Msg> {
    var h, t := m.header, m.header.msgType;
    if m.err == Some(MessageTooLarge) then [ErrorMsg(4)]
    else if m.err != None || (w.state.Clearing? && t != 8) then []
    else if !Proper(w, h, Synchronous) || (IsOperation(t) && !w.state.Ready? && !w.state.Clearing?) then
      [Refusal(w, h, Synchronous)]
    else if t == 0 then [FatalErrorMsg(3)]
    else if t == 2 || t == 3 then []
    else if t == 6 || t == 7 then ProgramReplies(w, m, env)
    else if t == 8 then [DeviceClearAcknowledge(0)] + (if env.clearOk then [] else [ErrorMsg(128)])
    else if t == 12 then (if w.tx.state == InputComplete || !env.triggerOk then [ErrorMsg(128)] else [])
    else [ErrorMsg(3)]
  }

  lemma ProgramTable(w: Conn, m: Received, env: SyncEnv)
    requires IsProgram(m)
    ensures DataResult(w, m.header, m.payload, env).sync == w.sync + ProgramReplies(w, m, env)
  {
    hide Scan, Transcript, Outcome, Produced, ResponseTo, Written, Arrived, Put, Sized;
    var h := m.header;
    var u := Written(w, h, m.payload);
    assert w.sync + [] == w.sync;
    ArrivalFrame(w, h, m.payload);
    SameSize(w, h, m.payload);
    ResponseTable(u.(policy := FRESH), h, env);
    PutIsAppend(Arrived(w, h), ErrorMsg(CODE_HANDSHAKE_TIMEOUT));
    PutIsAppend(u, ErrorMsg(CODE_HANDSHAKE_TIMEOUT));
  }

  lemma ResponseTable(w: Conn, h: Header, env: SyncEnv)
    ensures ResponseTo(w, h, env).sync
         == w.sync + Transcript(env.script, Sized(w), h.parameter,
                                Outcome(env.script, Sized(w), env.queued, |Produced(env.script, Sized(w))| > 0))
  {
    hide Transcript, Outcome, Produced, Sized;
  }

  lemma TriggerTable(w: Conn, h: Header, ok: bool)
    requires h.msgType == 12
    ensures TriggerResult(w, h, ok).sync
         == w.sync + (if w.tx.state == InputComplete || !ok then [ErrorMsg(128)] else [])
  {
    assert w.sync + [] == w.sync;
  }

  lemma ClearTable(w: Conn, ok: bool)
    ensures ClearedResult(w, ok).sync
         == w.sync + ([DeviceClearAcknowledge(0)] + (if ok then [] else [ErrorMsg(128)]))
  {
    assert [DeviceClearAcknowledge(0)] + [] == [DeviceClearAcknowledge(0)];
    Associate(w.sync, [DeviceClearAcknowledge(0)], [ErrorMsg(128)]);
  }

  lemma PutAppends(w: Conn, m: Msg)
    ensures Put(w, Synchronous, m).sync == w.sync + [m] && Put(w, Asynchronous, m).async == w.async + [m]
    ensures w.sync + [] == w.sync && w.async + [] == w.async
  {
  }

  lemma OtherSyncTable(w: Conn, m: Received, env: SyncEnv)
    requires !(Accepted(w, m) && (IsProgram(m) || IsTrigger(m) || m.header.msgType == DEVICE_CLEAR_COMPLETE))
    ensures HandleSync(w, m, env).0.sync == w.sync + SyncReplies(w, m, env)
  {
    hide HandleData, DoTrigger, CompleteDeviceClear, Accept, Put, Refusal, ProgramReplies, LegalHere, TooNew, TooLong,
      ReportAccept;
    var h := m.header;
    AcceptedExactly(w, h, Synchronous);
    if Accept(w, h, Synchronous) != None {
      RefusalIsTold(w, h, Synchronous);
      PutAppends(w, Refusal(w, h, Synchronous));
    }
    PutAppends(w, ErrorMsg(4));
    PutAppends(w, FatalErrorMsg(3));
    PutAppends(w, ErrorMsg(3));
    if m.err == None && !DiscardDuringClear(w, h) && Accept(w, h, Synchronous) == None {
      OnItsChannel(h.msgType, Synchronous);
    }
  }

  /** The message types a client may send here. */
  lemma OnItsChannel(t: byte, c: Channel)
    ensures LegalHere(t, c) && c == Synchronous && (IsOperation(t) || IsLifecycle(t)) ==>
      t == 0 || t == 2 || t == 3 || t == 6 || t == 7 || t == 8 || t == 12 || t >= 128
    ensures LegalHere(t, c) && c == Asynchronous && (IsOperation(t) || IsLifecycle(t)) ==>
      t == 2 || t == 3 || t == 4 || t == 10 || t == 15 || t == 17 || t == 19 || t == 21 || t == 24 || t >= 128
  {
  }

  /** Exactly what a synchronous message puts on the synchronous channel. */
  lemma SyncReplyTable(w: Conn, m: Received, env: SyncEnv)
    requires Inv(w) && !w.state.Closed?
    ensures Step(w, SyncMsg(m, env)).sync == w.sync + SyncReplies(w, m, env)
  {
    hide HandleSync, DataResult, TriggerResult, ClearedResult, Bystander, Accept, ProgramReplies, Refusal, LegalHere,
      TooNew, TooLong, Inv;
    if Accepted(w, m) && (IsProgram(m) || IsTrigger(m) || m.header.msgType == DEVICE_CLEAR_COMPLETE) {
      hide Step;
      AcceptedExactly(w, m.header, Synchronous);
      SyncStep(w, m, env);
      if IsProgram(m) {
        ProgramTable(w, m, env);
      } else if IsTrigger(m) {
        TriggerTable(w, m.header, env.triggerOk);
      } else {
        ClearTable(w, env.clearOk);
      }
    } else {
      OtherSyncTable(w, m, env);
      hide SyncReplies;
    }
  }

  // ---------------------------------------------------------------- the asynchronous channel

  /** The answer codes of AsyncLockResponse. */
  function LockAnswer(r: L.LockResult): byte {
    match r
    case LockFailure => 0
    case LockGranted => 1
    case LockReleasedShared => 2
    case LockError => 3
  }

  /** The sessions that hold a lock. */
  ghost predicate AreHolders(m: L.Locks, holders: set<uint16>) {
    forall id: uint16 :: id in holders <==> L.Holds(m, id)
  }

  /** The reply to a message that has passed the gate, and the calls it makes to the device. */
  ghost predicate Replied(w: Conn, m: Received, env: AsyncEnv, reply: seq<Msg>, calls: seq<DevCall>) {
    var h, t := m.header, m.header.msgType;
    if t == 19 then
      reply == (if w.state.Clearing? then [ErrorMsg(128)] else [AsyncDeviceClearAcknowledge(0)]) && calls == []
    else if t == 21 then
      && calls == [DevStatus]
      && reply == match env.stb
         case None => [ErrorMsg(128)]
         case Some(b) => [AsyncStatusResponse(b.(mav := false, rqs := b.rqs || w.srqLatched))]
    else if t == 4 then
      && calls == []
      && reply == if h.control > 1 then [ErrorMsg(2)]
         else [AsyncLockResponse(LockAnswer(
           L.Apply(w.locks, w.sessionId, if h.control == 0 then L.Release
                                         else if m.payload == [] then L.Exclusive else L.Shared(m.payload)).1))]
    else if t == 24 then
      && calls == []
      && exists holders ::
           && AreHolders(w.locks, holders)
           && reply == [AsyncLockInfoResponse(if w.locks.exclusive.Some? then 1 else 0, |holders| % 0x1_0000_0000)]
    else if t == 10 then
      && calls == (if h.control <= 6 then [DevRemoteLocal(h.control)] else [])
      && reply == if h.control > 6 then [ErrorMsg(2)] else if env.remoteOk then [AsyncRemoteLocalResponse]
         else [ErrorMsg(128)]
    else if t == 15 then calls == [] && reply == [AsyncMaximumMessageSizeResponse(w.cfg.maxRx)]
    else if t == 17 then calls == [] && reply == [FatalErrorMsg(3)]
    else if t == 2 || t == 3 then calls == [] && reply == []
    else calls == [] && reply == [ErrorMsg(1)]
  }

  ghost predicate AsyncReplies(w: Conn, m: Received, env: AsyncEnv, reply: seq<Msg>, calls: seq<DevCall>) {
    var h, t := m.header, m.header.msgType;
    if !w.attached then reply == [] && calls == []
    else if m.err == Some(MessageTooLarge) then reply == [ErrorMsg(4)] && calls == []
    else if m.err != None then reply == [] && calls == []
    else if !Proper(w, h, Asynchronous) || (IsOperation(t) && !w.state.Ready? && !w.state.Clearing?) then
      reply == [Refusal(w, h, Asynchronous)] && calls == []
    else Replied(w, m, env, reply, calls)
  }

  lemma LockTable(w: Conn, m: Received, env: AsyncEnv) returns (reply: seq<Msg>)
    requires m.header.msgType == 4
    ensures var v := Reply(DoLock(w, m.header, m.payload)).0;
            v.async == w.async + reply && v.device == w.device + [] && Replied(w, m, env, reply, [])
  {
    hide L.Apply;
    assert w.device + [] == w.device;
    var h := m.header;
    if h.control > 1 {
      reply := [ErrorMsg(2)];
    } else {
      var op := if h.control == 0 then L.Release else if m.payload == [] then L.Exclusive else L.Shared(m.payload);
      reply := [AsyncLockResponse(LockAnswer(L.Apply(w.locks, w.sessionId, op).1))];
    }
  }

  lemma InfoTable(w: Conn, m: Received, env: AsyncEnv) returns (reply: seq<Msg>)
    requires m.header.msgType == 24
    ensures var v := DoLockInfo(w);
            v.async == w.async + reply && v.device == w.device + [] && Replied(w, m, env, reply, [])
  {
    assert w.device + [] == w.device;
    var holders := Holders(w.locks);
    assert AreHolders(w.locks, holders);
    reply := [AsyncLockInfoResponse(if w.locks.exclusive.Some? then 1 else 0, |holders| % 0x1_0000_0000)];
    hide Holders;
  }

  lemma RemoteTable(w: Conn, m: Received, env: AsyncEnv) returns (reply: seq<Msg>, calls: seq<DevCall>)
    requires m.header.msgType == 10
    ensures var v := Reply(DoRemoteLocal(w, m.header, env.remoteOk)).0;
            v.async == w.async + reply && v.device == w.device + calls && Replied(w, m, env, reply, calls)
  {
    var h := m.header;
    calls := if h.control <= 6 then [DevRemoteLocal(h.control)] else [];
    reply := if h.control > 6 then [ErrorMsg(2)] else if env.remoteOk then [AsyncRemoteLocalResponse]
      else [ErrorMsg(128)];
    assert w.device + [] == w.device;
  }

  lemma ClearRequestTable(w: Conn, m: Received, env: AsyncEnv) returns (reply: seq<Msg>)
    requires m.header.msgType == 19
    ensures var v := ClearResult(w);
            v.async == w.async + reply && v.device == w.device + [] && Replied(w, m, env, reply, [])
  {
    reply := if w.state.Clearing? then [ErrorMsg(128)] else [AsyncDeviceClearAcknowledge(0)];
    assert w.device + [] == w.device;
  }

  lemma StatusTable(w: Conn, m: Received, env: AsyncEnv) returns (reply: seq<Msg>)
    requires m.header.msgType == 21 && !w.responsePending
    ensures var v := StatusResult(w, m.header, env.stb);
            v.async == w.async + reply && v.device == w.device + [DevStatus] && Replied(w, m, env, reply, [DevStatus])
  {
    reply := match env.stb
      case None => [ErrorMsg(128)]
      case Some(b) => [AsyncStatusResponse(b.(mav := false, rqs := b.rqs || w.srqLatched))];
  }

  /** What the gate or the reader answers itself. */
  lemma UnhandledTable(w: Conn, m: Received, env: AsyncEnv) returns (reply: seq<Msg>)
    requires !AsyncAccepted(w, m)
    ensures var v := HandleAsync(w, m, env).0;
            v.async == w.async + reply && v.device == w.device + [] && AsyncReplies(w, m, env, reply, [])
  {
    hide Accept, Put, Refusal, LegalHere, TooNew, TooLong, ReportAccept, Replied;
    var h := m.header;
    assert w.device + [] == w.device;
    AcceptedExactly(w, h, Asynchronous);
    PutAppends(w, ErrorMsg(4));
    PutKeepsDevice(w, ErrorMsg(4));
    if !w.attached {
      reply := [];
    } else if m.err != None {
      reply := if m.err == Some(MessageTooLarge) then [ErrorMsg(4)] else [];
    } else {
      RefusalIsTold(w, h, Asynchronous);
      PutAppends(w, Refusal(w, h, Asynchronous));
      PutKeepsDevice(w, Refusal(w, h, Asynchronous));
      reply := [Refusal(w, h, Asynchronous)];
    }
  }

  lemma PutKeepsDevice(w: Conn, m: Msg)
    ensures Put(w, Asynchronous, m).device == w.device
  {
  }

  lemma PlainTable(w: Conn, m: Received, env: AsyncEnv) returns (reply: seq<Msg>)
    requires AsyncAccepted(w, m)
    requires var t := m.header.msgType; t == 2 || t == 3 || t == 15 || t == 17 || t >= 128
    ensures var v := HandleAsync(w, m, env).0;
            v.async == w.async + reply && v.device == w.device + [] && Replied(w, m, env, reply, [])
  {
    hide Accept, DecodedSize;
    assert w.device + [] == w.device && w.async + [] == w.async;
    var t := m.header.msgType;
    reply := if t == 15 then [AsyncMaximumMessageSizeResponse(w.cfg.maxRx)]
      else if t == 17 then [FatalErrorMsg(3)] else if t >= 128 then [ErrorMsg(1)] else [];
  }

  /** Exactly what an asynchronous message puts on the asynchronous channel and asks of the device. */
  lemma AsyncReplyTable(w: Conn, m: Received, env: AsyncEnv) returns (reply: seq<Msg>, calls: seq<DevCall>)
    requires Inv(w)
    ensures var v := Step(w, AsyncMsg(m, env));
            v.async == w.async + reply && v.device == w.device + calls && AsyncReplies(w, m, env, reply, calls)
  {
    hide Accept, Replied, ClearResult, StatusResult, LegalHere, TooNew, TooLong, Reply, BeginDeviceClear, StatusQuery,
      DoLock, DoLockInfo, DoRemoteLocal, MaximumMessageSize, DecodedSize, Put, HandleSync;
    calls := [];
    var t := m.header.msgType;
    if !AsyncAccepted(w, m) {
      reply := UnhandledTable(w, m, env);
      hide HandleAsync, AsyncReplies;
    } else {
      AcceptedExactly(w, m.header, Asynchronous);
      OnItsChannel(t, Asynchronous);
      if t == 19 {
        AsyncStep(w, m, env);
        hide HandleAsync;
        reply := ClearRequestTable(w, m, env);
      } else if t == 21 {
        AsyncStep(w, m, env);
        hide HandleAsync;
        reply := StatusTable(w, m, env);
        calls := [DevStatus];
      } else if t == 4 {
        reply := LockTable(w, m, env);
      } else if t == 24 {
        reply := InfoTable(w, m, env);
      } else if t == 10 {
        reply, calls := RemoteTable(w, m, env);
      } else {
        reply := PlainTable(w, m, env);
        hide HandleAsync;
      }
    }
  }

  // ---------------------------------------------------------------- the counters

  /** A DataEnd that reaches the device and completes a program message with a query in it. */
  predicate IsAnswered(w: Conn, e: Event) {
    && ProgramAt(w, e) && e.msg.header.msgType == 7 && w.tx.state != InputComplete && e.env.writeOk
    && Scan(w.policy, e.msg.payload).found
  }

  function One(b: bool): nat { if b then 1 else 0 }

  /** How each counter is moved by an event: a disagreement about RMT by every program message and trigger that shows
      one; by an answered query exactly one of the others, or none if its response was completed. */
  function CountersAfter(w: Conn, e: Event): Counters {
    var k := w.counters;
    var mismatch := (ProgramAt(w, e) || TriggerAt(w, e)) && w.rmtExpected != (e.msg.header.control % 2 == 1);
    if !IsAnswered(w, e) then k.(silentInterrupted := k.silentInterrupted + One(mismatch))
    else
      var fails, some := LastRead(e.env.script, Sized(w)).fails, Produced(e.env.script, Sized(w)) != [];
      Counters(k.silentInterrupted + One(mismatch), k.interruptedSent + One(!fails && e.env.queued),
               k.queriesWithoutAnswer + One(fails && !some), k.truncatedResponses + One(fails && some))
  }

  function Mismatched(k: Counters, expected: bool, h: Header): Counters {
    k.(silentInterrupted := k.silentInterrupted + One(expected != (h.control % 2 == 1)))
  }

  lemma ArrivalCounts(w: Conn, h: Header, payload: seq<byte>)
    ensures Arrived(w, h).counters == Mismatched(w.counters, w.rmtExpected, h)
    ensures Written(w, h, payload).counters == Arrived(w, h).counters
    ensures Sized(Written(w, h, payload)) == Sized(w)
  {
  }

  lemma ResponseCounts(w: Conn, h: Header, env: SyncEnv)
    ensures var fails, some := LastRead(env.script, Sized(w)).fails, Produced(env.script, Sized(w)) != [];
            var k := w.counters;
            ResponseTo(w, h, env).counters
            == Counters(k.silentInterrupted, k.interruptedSent + One(!fails && env.queued),
                        k.queriesWithoutAnswer + One(fails && !some), k.truncatedResponses + One(fails && some))
  {
    hide LastRead, Produced, Answered, Sized;
  }

  lemma ProgramCounts(w: Conn, h: Header, payload: seq<byte>, env: SyncEnv)
    requires h.msgType == DATA || h.msgType == DATA_END
    ensures var e := SyncMsg(Received(h, payload, None), env);
            ProgramAt(w, e) ==> DataResult(w, h, payload, env).counters == CountersAfter(w, e)
  {
    hide Scan, Accepted, LastRead, Produced, ResponseTo, Written, Arrived, Put, Sized;
    ArrivalCounts(w, h, payload);
    var v := Written(w, h, payload).(policy := FRESH);
    ResponseCounts(v, h, env);
    assert Sized(v) == Sized(w) by { SameSize(w, h, payload); }
    PutIsAppend(Arrived(w, h), ErrorMsg(CODE_HANDSHAKE_TIMEOUT));
    PutIsAppend(Written(w, h, payload), ErrorMsg(CODE_HANDSHAKE_TIMEOUT));
  }

  lemma SameSize(w: Conn, h: Header, payload: seq<byte>)
    ensures Sized(Written(w, h, payload).(policy := FRESH)) == Sized(w)
  {
  }

  lemma TriggerCounts(w: Conn, h: Header, env: SyncEnv)
    ensures TriggerResult(w, h, env.triggerOk).counters == Mismatched(w.counters, w.rmtExpected, h)
  {
    hide Arrived, Put;
    ArrivalCounts(w, h, []);
    var u := Call(Arrived(w, h), DevTrigger);
    PutIsAppend(Arrived(w, h), ErrorMsg(CODE_HANDSHAKE_TIMEOUT));
    PutIsAppend(u.(tx := Tx(InputComplete, h.parameter)), ErrorMsg(CODE_HANDSHAKE_TIMEOUT));
  }

  lemma StepCounts(w: Conn, e: Event)
    requires Inv(w)
    ensures Step(w, e).counters == CountersAfter(w, e)
  {
    hide Step, Accepted, AsyncAccepted, DataResult, TriggerResult, Replies, StatusByte, Scan, LastRead, Produced;
    StepCases(w, e);
    if ProgramAt(w, e) {
      assert e.msg == Received(e.msg.header, e.msg.payload, None) by { AcceptedHasNoError(w, e.msg); }
      ProgramCounts(w, e.msg.header, e.msg.payload, e.env);
    } else if TriggerAt(w, e) {
      TriggerCounts(w, e.msg.header, e.env);
    }
  }

  lemma AcceptedHasNoError(w: Conn, m: Received)
    requires Accepted(w, m)
    ensures m.err == None
  {
  }
}
