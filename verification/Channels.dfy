/** What the two channels carry over a whole run (server/writer.go, server/data.go). */
module Channels {
  import opened Basics
  import opened Framing
  import opened MessageIds
  import opened Messages
  import opened ScpiPolicy
  import opened Engine
  import opened Responses
  import opened Runs

  /** The identifiers of the interrupted notifications in a log, in order. */
  function Interrupts(ms: seq<Msg>): seq<MessageId> {
    if ms == [] then []
    else
      var m := ms[|ms| - 1];
      Interrupts(ms[..|ms| - 1]) + if m.Interrupted? || m.AsyncInterrupted? then [m.id] else []
  }

  lemma {:induction false} InterruptsAppend(a: seq<Msg>, b: seq<Msg>)
    ensures Interrupts(a + b) == Interrupts(a) + Interrupts(b)
  {
    if b == [] {
      assert a + b == a;
    } else {
      InterruptsAppend(a, b[..|b| - 1]);
      assert (a + b)[..|a + b| - 1] == a + b[..|b| - 1];
    }
  }

  lemma InterruptsOfOne(m: Msg)
    ensures Interrupts([m]) == if m.Interrupted? || m.AsyncInterrupted? then [m.id] else []
  {
    assert [m][..0] == [];
  }

  lemma {:induction false} NoInterrupts(ms: seq<Msg>)
    requires forall m | m in ms :: !m.Interrupted? && !m.AsyncInterrupted?
    ensures Interrupts(ms) == []
  {
    if ms != [] {
      NoInterrupts(ms[..|ms| - 1]);
    }
  }

  ghost predicate AllLegal(ms: seq<Msg>, c: Channel) {
    forall m | m in ms :: MsgLegalOn(m, c)
  }

  /** Both logs hold only messages legal on their channel, every Interrupted is paired with one AsyncInterrupted
      carrying the same identifier, in the same order, and the counter says how many there were. */
  ghost predicate Balanced(w: Conn) {
    && AllLegal(w.sync, Synchronous)
    && AllLegal(w.async, Asynchronous)
    && Interrupts(w.sync) == Interrupts(w.async)
    && |Interrupts(w.sync)| == w.counters.interruptedSent
  }

  /** What one step may add. */
  ghost predicate Adds(w: Conn, v: Conn, s: seq<Msg>, a: seq<Msg>) {
    && v.sync == w.sync + s && v.async == w.async + a
    && AllLegal(s, Synchronous) && AllLegal(a, Asynchronous)
    && Interrupts(s) == Interrupts(a)
    && v.counters.interruptedSent == w.counters.interruptedSent + |Interrupts(s)|
  }

  lemma TranscriptInterrupts(script: seq<ReadResult>, size: uint64, id: MessageId, o: ResponseOutcome)
    ensures var t := Transcript(script, size, id, o);
            AllLegal(t, Synchronous) && Interrupts(t) == if o.ResponseInterrupted? then [id] else []
  {
    TranscriptCarriesQueryId(script, size, id, o);
    var t := Transcript(script, size, id, o);
    hide Transcript;
    var init, last := t[..|t| - 1], t[|t| - 1];
    forall m | m in init ensures !m.Interrupted? && !m.AsyncInterrupted? {
      var i :| 0 <= i < |init| && init[i] == m;
      assert t[i] == m;
    }
    NoInterrupts(init);
  }

  lemma ResponseLogs(w: Conn, h: Header, env: SyncEnv, o: ResponseOutcome)
    requires o == Outcome(env.script, Sized(w), env.queued, |Produced(env.script, Sized(w))| > 0)
    ensures var v := ResponseTo(w, h, env);
            && v.sync == w.sync + Transcript(env.script, Sized(w), h.parameter, o)
            && v.async == w.async + (if o.ResponseInterrupted? then [AsyncInterrupted(h.parameter)] else [])
            && v.counters.interruptedSent == w.counters.interruptedSent + if o.ResponseInterrupted? then 1 else 0
  {
    hide Outcome, Transcript, Produced, Sized;
  }

  lemma ResponseAdds(w: Conn, h: Header, env: SyncEnv) returns (s: seq<Msg>, a: seq<Msg>)
    ensures Adds(w, ResponseTo(w, h, env), s, a)
  {
    hide Outcome, Transcript, Produced, ResponseTo, Sized, MsgLegalOn, Interrupts;
    var o := Outcome(env.script, Sized(w), env.queued, |Produced(env.script, Sized(w))| > 0);
    s := Transcript(env.script, Sized(w), h.parameter, o);
    ResponseLogs(w, h, env, o);
    TranscriptInterrupts(env.script, Sized(w), h.parameter, o);
    NoInterrupts([]);
    a := if o.ResponseInterrupted? then [AsyncInterrupted(h.parameter)] else [];
    InterruptedIsLegal(h.parameter);
    InterruptsOfOne(AsyncInterrupted(h.parameter));
  }

  lemma InterruptedIsLegal(id: MessageId)
    ensures MsgLegalOn(AsyncInterrupted(id), Asynchronous)
  {
  }

  lemma PlainAdds(w: Conn, v: Conn, s: seq<Msg>, a: seq<Msg>)
    requires v.sync == w.sync + s && v.async == w.async + a
    requires AllLegal(s, Synchronous) && AllLegal(a, Asynchronous)
    requires forall m | m in s + a :: !m.Interrupted? && !m.AsyncInterrupted?
    requires v.counters.interruptedSent == w.counters.interruptedSent
    ensures Adds(w, v, s, a)
  {
    assert forall m :: m in s || m in a ==> m in s + a;
    NoInterrupts(s);
    NoInterrupts(a);
  }

  lemma ProgramAdds(w: Conn, h: Header, payload: seq<byte>, env: SyncEnv) returns (s: seq<Msg>, a: seq<Msg>)
    ensures Adds(w, DataResult(w, h, payload, env), s, a)
  {
    var v := Written(w, h, payload).(policy := FRESH);
    s, a := [], [];
    if !Stuck(w, h) && env.writeOk && h.msgType != DATA && Scan(w.policy, payload).found {
      s, a := ResponseAdds(v, h, env);
      hide ResponseTo;
    } else {
      hide ResponseTo;
      if Stuck(w, h) || !env.writeOk {
        s := [ErrorMsg(CODE_HANDSHAKE_TIMEOUT)];
      }
      PlainAdds(w, DataResult(w, h, payload, env), s, a);
    }
  }

  lemma TriggerAdds(w: Conn, h: Header, ok: bool) returns (s: seq<Msg>, a: seq<Msg>)
    ensures Adds(w, TriggerResult(w, h, ok), s, a)
  {
    s, a := if Stuck(w, h) || !ok then [ErrorMsg(CODE_HANDSHAKE_TIMEOUT)] else [], [];
    PlainAdds(w, TriggerResult(w, h, ok), s, a);
  }

  lemma ClearDoneAdds(w: Conn, clearOk: bool) returns (s: seq<Msg>)
    ensures Adds(w, ClearedResult(w, clearOk), s, [])
  {
    s := [DeviceClearAcknowledge(0)] + if clearOk then [] else [ErrorMsg(CODE_HANDSHAKE_TIMEOUT)];
    assert ClearedResult(w, clearOk).sync == w.sync + s;
    PlainAdds(w, ClearedResult(w, clearOk), s, []);
  }

  lemma ClearAdds(w: Conn) returns (a: seq<Msg>)
    ensures Adds(w, ClearResult(w), [], a)
  {
    a := [if w.state.Clearing? then ErrorMsg(CODE_HANDSHAKE_TIMEOUT) else AsyncDeviceClearAcknowledge(0)];
    PlainAdds(w, ClearResult(w), [], a);
  }

  lemma StatusAdds(w: Conn, h: Header, stb: Option<StatusRegister>) returns (a: seq<Msg>)
    ensures Adds(w, StatusResult(w, h, stb), [], a)
  {
    a := [match stb case None => ErrorMsg(CODE_HANDSHAKE_TIMEOUT)
                    case Some(b) => AsyncStatusResponse(StatusByte(w, b, h.parameter, RmtDelivered(h)))];
    hide StatusByte;
    PlainAdds(w, StatusResult(w, h, stb), [], a);
  }

  lemma BystanderAdds(w: Conn, v: Conn) returns (s: seq<Msg>, a: seq<Msg>)
    requires Bystander(w, v)
    ensures Adds(w, v, s, a)
  {
    s, a := [], [];
    if v.sync != w.sync {
      var m :| v.sync == w.sync + [m] && PlainReply(m) && MsgLegalOn(m, Synchronous);
      s := [m];
    }
    if v.async != w.async {
      var m :| v.async == w.async + [m] && PlainReply(m) && MsgLegalOn(m, Asynchronous);
      a := [m];
    }
    hide MsgLegalOn;
    PlainAdds(w, v, s, a);
  }

  lemma OtherAdds(w: Conn, e: Event) returns (s: seq<Msg>, a: seq<Msg>)
    requires Inv(w) && !ProgramAt(w, e)
    ensures Adds(w, Step(w, e), s, a)
  {
    StepCases(w, e);
    hide Step, ProgramAt, Accepted, AsyncAccepted, Inv, Adds, Bystander, TriggerResult, ClearedResult, ClearResult,
      StatusResult;
    s, a := [], [];
    if TriggerAt(w, e) {
      s, a := TriggerAdds(w, e.msg.header, e.env.triggerOk);
    } else if ClearDoneAt(w, e) {
      s := ClearDoneAdds(w, e.env.clearOk);
    } else if ClearAt(w, e) {
      a := ClearAdds(w);
    } else if StatusAt(w, e) {
      a := StatusAdds(w, e.amsg.header, e.aenv.stb);
    } else if SendsServiceRequest(w, e) {
      a := [AsyncServiceRequest(e.status)];
      PlainAdds(w, Step(w, e), [], a);
    } else {
      s, a := BystanderAdds(w, Step(w, e));
    }
  }

  lemma StepBalanced(w: Conn, e: Event)
    requires Inv(w) && Balanced(w)
    ensures Balanced(Step(w, e))
  {
    var s, a;
    if ProgramAt(w, e) {
      StepCases(w, e);
      s, a := ProgramAdds(w, e.msg.header, e.msg.payload, e.env);
    } else {
      s, a := OtherAdds(w, e);
    }
    hide Step, Inv, DataResult, ProgramAt;
    InterruptsAppend(w.sync, s);
    InterruptsAppend(w.async, a);
  }

  /** In every run the channels stay balanced. */
  lemma {:induction false} RunBalanced(w: Conn, es: seq<Event>)
    requires Starts(w)
    ensures Balanced(Run(w, es))
  {
    if es != [] {
      RunBalanced(w, es[..|es| - 1]);
      RunInv(w, es[..|es| - 1]);
      StepBalanced(Run(w, es[..|es| - 1]), es[|es| - 1]);
    }
  }
}
