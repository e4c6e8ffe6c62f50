/** Every message of a response, from the device's bytes to the peer's, names the message it answers
    (server/data.go, server/writer.go). */
module Attribution {
  import opened Basics
  import opened Framing
  import opened MessageIds
  import opened Messages
  import opened ScpiPolicy
  import opened Engine
  import opened Responses
  import opened Runs

  /** The messages that carry a response or call it off. */
  predicate Answer(m: Msg) { m.Data? || m.DataEnd? || m.Interrupted? }

  /** What is new in a log answers this identifier, as far as it answers anything. */
  ghost predicate Adds(before: seq<Msg>, after: seq<Msg>, id: Option<MessageId>) {
    && before <= after
    && forall i | |before| <= i < |after| :: Answer(after[i]) ==> id == Some(after[i].id)
  }

  lemma ReplyAdds(before: seq<Msg>, after: seq<Msg>, c: Channel, id: Option<MessageId>)
    requires Replies(before, after, c)
    ensures Adds(before, after, id)
  {
  }

  lemma TranscriptAdds(before: seq<Msg>, script: seq<ReadResult>, size: uint64, id: MessageId, o: ResponseOutcome)
    ensures Adds(before, before + Transcript(script, size, id, o), Some(id))
  {
    TranscriptCarriesQueryId(script, size, id, o);
    var t := Transcript(script, size, id, o);
    hide Transcript;
    var after := before + t;
    forall i | |before| <= i < |after| && Answer(after[i]) ensures after[i].id == id {
      assert after[i] == t[i - |before|];
    }
  }

  /** A DataEnd's identifier. */
  function Asked(h: Header): Option<MessageId> { if h.msgType == 7 then Some(h.parameter) else None }

  lemma ResponseAdds(w: Conn, h: Header, env: SyncEnv)
    ensures Adds(w.sync, ResponseTo(w, h, env).sync, Some(h.parameter))
  {
    var o := Outcome(env.script, Sized(w), env.queued, |Produced(env.script, Sized(w))| > 0);
    TranscriptAdds(w.sync, env.script, Sized(w), h.parameter, o);
    hide Transcript, Outcome, Produced, Adds;
  }

  lemma ProgramAdds(w: Conn, h: Header, payload: seq<byte>, env: SyncEnv)
    requires h.msgType == DATA || h.msgType == DATA_END
    ensures Adds(w.sync, DataResult(w, h, payload, env).sync, Asked(h))
  {
    hide ResponseTo, Scan;
    ResponseAdds(Written(w, h, payload).(policy := FRESH), h, env);
  }

  lemma NothingAdds(s: seq<Msg>)
    ensures Adds(s, s, None)
  {
  }

  lemma PlainAdds(s: seq<Msg>, m: Msg)
    requires !Answer(m)
    ensures Adds(s, s + [m], None)
  {
  }

  lemma TriggerAdds(w: Conn, h: Header, ok: bool)
    ensures Adds(w.sync, TriggerResult(w, h, ok).sync, None)
  {
    hide Adds;
    NothingAdds(w.sync);
    PlainAdds(w.sync, ErrorMsg(CODE_HANDSHAKE_TIMEOUT));
  }

  lemma ClearAdds(w: Conn, ok: bool)
    ensures Adds(w.sync, ClearedResult(w, ok).sync, None)
  {
  }

  lemma AsyncAdds(w: Conn, h: Header, stb: Option<StatusRegister>)
    ensures Adds(w.sync, ClearResult(w).sync, None) && Adds(w.sync, StatusResult(w, h, stb).sync, None)
  {
    hide StatusByte, Adds;
    NothingAdds(w.sync);
  }

  /** What a step adds to the synchronous channel answers the DataEnd it handles, and no other step answers. */
  lemma StepAdds(w: Conn, e: Event)
    requires Inv(w)
    ensures Adds(w.sync, Step(w, e).sync, if ProgramAt(w, e) then Asked(e.msg.header) else None)
  {
    hide Step, Accepted, AsyncAccepted, DataResult, TriggerResult, ClearedResult, ClearResult, StatusResult;
    hide Replies, Inv, Adds;
    StepCases(w, e);
    if ProgramAt(w, e) {
      ProgramAdds(w, e.msg.header, e.msg.payload, e.env);
    } else if TriggerAt(w, e) {
      TriggerAdds(w, e.msg.header, e.env.triggerOk);
    } else if ClearDoneAt(w, e) {
      ClearAdds(w, e.env.clearOk);
    } else if ClearAt(w, e) || StatusAt(w, e) {
      AsyncAdds(w, e.amsg.header, e.aenv.stb);
    } else if SendsServiceRequest(w, e) {
      NothingAdds(w.sync);
    } else {
      ReplyAdds(w.sync, Step(w, e).sync, Synchronous, None);
    }
  }

  /** One of these events is a DataEnd with this identifier. */
  ghost predicate AskedIn(es: seq<Event>, id: MessageId) {
    exists e | e in es :: e.SyncMsg? && e.msg.err == None && Asked(e.msg.header) == Some(id)
  }

  /** In every run every Data, DataEnd and Interrupted that was written carries the MessageID of a DataEnd received. */
  lemma {:induction false} EveryAnswerWasAsked(w: Conn, es: seq<Event>)
    requires Inv(w) && w.sync == []
    ensures Inv(Run(w, es))
    ensures forall m | m in Run(w, es).sync && Answer(m) :: AskedIn(es, m.id)
  {
    if es != [] {
      hide Inv, Step, ProgramAt;
      var prefix, e := es[..|es| - 1], es[|es| - 1];
      EveryAnswerWasAsked(w, prefix);
      var v := Run(w, prefix);
      StepInv(v, e);
      StepAdds(v, e);
      forall m | m in Run(w, es).sync && Answer(m) ensures AskedIn(es, m.id) {
        NewOrOld(v, e, prefix, es, m);
      }
    }
  }

  lemma NewOrOld(v: Conn, e: Event, prefix: seq<Event>, es: seq<Event>, m: Msg)
    requires es == prefix + [e] && m in Step(v, e).sync && Answer(m)
    requires Adds(v.sync, Step(v, e).sync, if ProgramAt(v, e) then Asked(e.msg.header) else None)
    requires m in v.sync ==> AskedIn(prefix, m.id)
    ensures AskedIn(es, m.id)
  {
    hide Step, Accept;
    if m in v.sync {
      var q :| q in prefix && q.SyncMsg? && q.msg.err == None && Asked(q.msg.header) == Some(m.id);
      assert q in es;
    } else {
      assert e in es;
    }
  }

  // ---------------------------------------------------------------- on the wire

  predicate AnswerType(t: byte) { t == 6 || t == 7 || t == 13 }

  /** Every Data, DataEnd or Interrupted a peer reads carries the parameter of a DataEnd that was read before. */
  ghost predicate Attributed(outs: seq<Received>, ins: seq<Received>) {
    forall r | r in outs && AnswerType(r.header.msgType) ::
      exists q | q in ins :: q.err == None && q.header.msgType == 7 && q.header.parameter == r.header.parameter
  }

  lemma ArrivalOf(m: Msg, limit: nat)
    ensures var r := Arrival(Encoded(m), limit);
            && (AnswerType(r.header.msgType) <==> Answer(m))
            && (Answer(m) ==> r.header.parameter == m.id)
            && (r.err == None <==> |Encoded(m).payload| <= limit)
            && (r.err == None ==> r.payload == Encoded(m).payload && r.header == Encoded(m).header)
  {
    EncodedExactly(m);
    hide Encoded;
  }

  /** The events are the messages of a channel. */
  ghost predicate FromChannel(es: seq<Event>, ins: seq<Received>) {
    forall e | e in es :: e.SyncMsg? && e.msg in ins
  }

  lemma AnswersReachPeer(log: seq<Msg>, es: seq<Event>, ins: seq<Received>, limit: nat)
    requires forall m | m in log && Answer(m) :: AskedIn(es, m.id)
    requires FromChannel(es, ins)
    ensures Attributed(Arrivals(EncodedAll(log), limit) + [Received(ZERO_HEADER, [], Some(UnexpectedEOF))], ins)
  {
    hide Encoded, Arrival;
    var outs := Arrivals(EncodedAll(log), limit) + [Received(ZERO_HEADER, [], Some(UnexpectedEOF))];
    forall r | r in outs && AnswerType(r.header.msgType)
      ensures exists q | q in ins :: q.err == None && q.header.msgType == 7 && q.header.parameter == r.header.parameter
    {
      var i :| 0 <= i < |outs| && outs[i] == r;
      assert i < |log| && r == Arrival(Encoded(log[i]), limit);
      ArrivalOf(log[i], limit);
      assert AskedIn(es, log[i].id);
      var e :| e in es && e.SyncMsg? && e.msg.err == None && Asked(e.msg.header) == Some(log[i].id);
      assert e.msg in ins;
    }
  }
}
