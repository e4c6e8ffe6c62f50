/** The MessageIDs a session remembers, against what it received and sent (server/session.go, transaction.go,
    status.go). */
module Identifiers {
  import opened Basics
  import opened Framing
  import opened MessageIds
  import opened Messages
  import opened ScpiPolicy
  import opened Engine
  import opened Responses
  import opened Runs
  import opened RunProperties
  import A = Attribution

  /** The MessageID of the last DataEnd in a log. */
  function LastEnd(ms: seq<Msg>, before: MessageId): MessageId {
    if ms == [] then before
    else if ms[|ms| - 1].DataEnd? then ms[|ms| - 1].id
    else LastEnd(ms[..|ms| - 1], before)
  }

  lemma {:induction false} LastEndAppend(a: seq<Msg>, b: seq<Msg>, before: MessageId)
    ensures LastEnd(a + b, before) == LastEnd(b, LastEnd(a, before))
  {
    if b == [] {
      assert a + b == a;
    } else {
      assert (a + b)[..|a + b| - 1] == a + b[..|b| - 1];
      LastEndAppend(a, b[..|b| - 1], before);
    }
  }

  lemma {:induction false} NoEnd(ms: seq<Msg>, before: MessageId)
    requires forall i | 0 <= i < |ms| :: !ms[i].DataEnd?
    ensures LastEnd(ms, before) == before
  {
    if ms != [] {
      NoEnd(ms[..|ms| - 1], before);
    }
  }

  /** What a session sent between two states is what it remembers to have sent last. */
  ghost predicate Remembered(w: Conn, v: Conn) {
    && w.sync <= v.sync
    && v.lastTx == LastEnd(v.sync[|w.sync|..], w.lastTx)
  }

  lemma NothingSent(w: Conn, v: Conn)
    requires A.Adds(w.sync, v.sync, None) && v.lastTx == w.lastTx
    ensures Remembered(w, v)
  {
    NoEnd(v.sync[|w.sync|..], w.lastTx);
  }

  lemma ResponseIsRemembered(w: Conn, h: Header, env: SyncEnv)
    ensures Remembered(w, ResponseTo(w, h, env))
  {
    var v := ResponseTo(w, h, env);
    var o := Outcome(env.script, Sized(w), env.queued, |Produced(env.script, Sized(w))| > 0);
    var t := Transcript(env.script, Sized(w), h.parameter, o);
    TranscriptCarriesQueryId(env.script, Sized(w), h.parameter, o);
    hide Transcript, Outcome, Produced, CountOutcome;
    assert v.sync == w.sync + t && v.sync[|w.sync|..] == t;
    if o.ResponseInterrupted? {
      NoEnd(t, w.lastTx);
    }
  }

  lemma ProgramIsRemembered(w: Conn, h: Header, payload: seq<byte>, env: SyncEnv)
    requires h.msgType == DATA || h.msgType == DATA_END
    ensures Remembered(w, DataResult(w, h, payload, env))
  {
    var u := Written(w, h, payload).(policy := FRESH);
    ArrivalFrame(w, h, payload);
    ResponseIsRemembered(u, h, env);
    assert u.sync == w.sync && u.lastTx == w.lastTx;
    A.NothingAdds(w.sync);
    A.PlainAdds(w.sync, ErrorMsg(CODE_HANDSHAKE_TIMEOUT));
    PutIsAppend(Written(w, h, payload), ErrorMsg(CODE_HANDSHAKE_TIMEOUT));
    PutIsAppend(Arrived(w, h), ErrorMsg(CODE_HANDSHAKE_TIMEOUT));
    hide ResponseTo, Written, Arrived, Put, Scan, A.Adds, LastEnd;
    var v := DataResult(w, h, payload, env);
    if v != ResponseTo(u, h, env) {
      NothingSent(w, v);
    }
  }

  /** The identifier a transaction is left with: that of a message whose device call failed, none once a message
      is done with or a clear is completed. */
  function Owner(w: Conn, e: Event): MessageId {
    if ClearDoneAt(w, e) then 0xffff_ffff
    else if Fails(w, e) then e.msg.header.parameter
    else if CompletesInput(w, e) && !Stuck(w, e.msg.header) then 0xffff_ffff
    else w.tx.id
  }

  /** The message a status query is compared with. */
  function Recorded(w: Conn, e: Event): MessageId {
    if ClearDoneAt(w, e) then 0xffff_fefe
    else if ProgramAt(w, e) || TriggerAt(w, e) then e.msg.header.parameter
    else w.lastReceived
  }

  lemma WrittenIdentifiers(w: Conn, h: Header, payload: seq<byte>)
    ensures var (u, v) := (Arrived(w, h), Written(w, h, payload));
            && u.lastReceived == h.parameter && u.tx == w.tx && u.lastTx == w.lastTx
            && v.lastReceived == h.parameter
            && v.tx.id == if h.msgType == DATA_END then h.parameter else w.tx.id
  {
  }

  lemma ResponseIdentifiers(w: Conn, h: Header, env: SyncEnv)
    ensures var v := ResponseTo(w, h, env); v.lastReceived == w.lastReceived && v.tx.id == 0xffff_ffff
  {
    hide Outcome, Produced, Transcript, CountOutcome;
  }

  lemma MessageIdentifiers(w: Conn, h: Header, payload: seq<byte>, env: SyncEnv)
    requires h.msgType == DATA || h.msgType == DATA_END
    ensures var v := DataResult(w, h, payload, env);
            && v.lastReceived == h.parameter
            && v.tx.id == (if h.msgType == DATA || Stuck(w, h) then w.tx.id
                           else if env.writeOk then 0xffff_ffff
                           else h.parameter)
  {
    WrittenIdentifiers(w, h, payload);
    ResponseIdentifiers(Written(w, h, payload).(policy := FRESH), h, env);
    PutIsAppend(Written(w, h, payload), ErrorMsg(CODE_HANDSHAKE_TIMEOUT));
    PutIsAppend(Arrived(w, h), ErrorMsg(CODE_HANDSHAKE_TIMEOUT));
    hide Scan, Written, Arrived, ResponseTo, Put;
  }

  lemma TriggerIdentifiers(w: Conn, h: Header, ok: bool)
    ensures var v := TriggerResult(w, h, ok);
            && v.lastReceived == h.parameter && v.lastTx == w.lastTx
            && v.tx.id == (if Stuck(w, h) then w.tx.id else if ok then 0xffff_ffff else h.parameter)
  {
    WrittenIdentifiers(w, h, []);
    hide Arrived, Written;
    PutIsAppend(Arrived(w, h), ErrorMsg(CODE_HANDSHAKE_TIMEOUT));
  }

  lemma ClearedIdentifiers(w: Conn, ok: bool)
    ensures var v := ClearedResult(w, ok);
            v.lastReceived == 0xffff_fefe && v.lastTx == 0xffff_ffff && v.tx.id == 0xffff_ffff
  {
  }

  lemma RequestIdentifiers(w: Conn)
    ensures var v := ClearResult(w); v.lastReceived == w.lastReceived && v.lastTx == w.lastTx && v.tx.id == w.tx.id
  {
  }

  lemma AsyncPut(w: Conn, m: Msg)
    ensures var v := Put(w, Asynchronous, m); v == w.(async := v.async)
  {
  }

  lemma StatusIdentifiers(w: Conn, h: Header, stb: Option<StatusRegister>)
    ensures var v := StatusResult(w, h, stb); v.lastReceived == w.lastReceived && v.lastTx == w.lastTx && v.tx == w.tx
  {
    hide StatusByte, RmtDelivered, Put;
    var u := Call(w, DevStatus).(rmtExpected := w.rmtExpected && !RmtDelivered(h));
    match stb
    case None => AsyncPut(u, ErrorMsg(CODE_HANDSHAKE_TIMEOUT));
    case Some(b) =>
      AsyncPut(u.(srqLatched := false, srqStatus := NO_STATUS),
               AsyncStatusResponse(StatusByte(w, b, h.parameter, RmtDelivered(h))));
  }

  /** Every event: the message last received, the message the transaction belongs to, and the last DataEnd sent. */
  lemma StepIdentifiers(w: Conn, e: Event)
    requires Inv(w)
    ensures Step(w, e).lastReceived == Recorded(w, e)
    ensures Step(w, e).tx.id == Owner(w, e)
    ensures if ClearDoneAt(w, e) then Step(w, e).lastTx == 0xffff_ffff else Remembered(w, Step(w, e))
  {
    hide Step, Accepted, AsyncAccepted, DataResult, TriggerResult, ClearedResult, ClearResult, StatusResult;
    hide Replies, Inv, Stuck, Remembered, A.Adds;
    StepCases(w, e);
    A.StepAdds(w, e);
    if ProgramAt(w, e) {
      MessageIdentifiers(w, e.msg.header, e.msg.payload, e.env);
      ProgramIsRemembered(w, e.msg.header, e.msg.payload, e.env);
    } else if TriggerAt(w, e) {
      TriggerIdentifiers(w, e.msg.header, e.env.triggerOk);
      NothingSent(w, Step(w, e));
    } else if ClearDoneAt(w, e) {
      ClearedIdentifiers(w, e.env.clearOk);
    } else {
      if ClearAt(w, e) || StatusAt(w, e) {
        RequestIdentifiers(w);
        StatusIdentifiers(w, e.amsg.header, e.aenv.stb);
      }
      NothingSent(w, Step(w, e));
    }
  }

  lemma RememberedOnwards(u: Conn, v: Conn, w: Conn)
    requires Remembered(u, v) && Remembered(v, w)
    ensures Remembered(u, w)
  {
    LastEndAppend(v.sync[|u.sync|..], w.sync[|v.sync|..], u.lastTx);
    assert w.sync[|u.sync|..] == v.sync[|u.sync|..] + w.sync[|v.sync|..];
  }

  /** Between two completed clears, whatever the events, the session remembers the MessageID of the last DataEnd it
      sent. */
  lemma {:induction false} LastSent(w: Conn, es: seq<Event>)
    requires Inv(w) && forall i | 0 <= i < |es| :: !ClearDoneAt(At(w, es, i), es[i])
    ensures Inv(Run(w, es)) && Remembered(w, Run(w, es))
  {
    if es != [] {
      hide Inv, Step, ClearDoneAt, Remembered;
      var prefix, e := es[..|es| - 1], es[|es| - 1];
      assert forall i | 0 <= i < |prefix| :: prefix[..i] == es[..i];
      assert forall i | 0 <= i < |prefix| :: At(w, prefix, i) == At(w, es, i);
      LastSent(w, prefix);
      StepInv(At(w, es, |prefix|), e);
      StepIdentifiers(At(w, es, |prefix|), e);
      RememberedOnwards(w, Run(w, prefix), Run(w, es));
    }
  }
}
