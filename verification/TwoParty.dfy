/** The server together with a client that keeps the protocol's rules (section 3.1 of IVI-6.1): it numbers its
    messages, waits for the response to each query and for the reply to each asynchronous request, and reports each
    response it has taken once, with the RMT-delivered bit. The two channels deliver in order. A handler is one step,
    except that a response's DataEnd is on the wire one step before the server raises its RMT expectation. */
module TwoParty {
  import opened Basics
  import opened Framing
  import opened MessageIds
  import opened Messages
  import opened Transactions
  import opened ScpiPolicy
  import opened ScpiTokens
  import opened Engine
  import opened Responses
  import L = Locks
  import R = Runs

  datatype Kind = Chunk | Final | Fire

  /** What the client has put on the synchronous channel. */
  datatype Item =
    | Program(kind: Kind, flag: bool, id: MessageId, payload: Payload)
    | ClearDone

  /** What the client has put on the asynchronous channel. */
  datatype Request = Query(query: MessageId, flag: bool) | ClearRequest | Operation(msg: Received)

  datatype Phase = Talking | Requested | Acknowledged

  /** The server's session, the client, the messages under way to the server, how many of the server's messages
      the client has taken from each channel, the program text the server took since its last DataEnd, and whether
      it has written a DataEnd and not yet raised its RMT expectation. */
  datatype Net = Net(
    w: Conn,
    sent: nat,
    rmtPending: bool,
    text: seq<byte>,
    awaiting: bool,
    polling: bool,
    phase: Phase,
    toServer: seq<Item>,
    requests: seq<Request>,
    seen: nat,
    heard: nat,
    taken: seq<byte>,
    late: bool)

  function TypeOf(k: Kind): byte {
    match k
    case Chunk => DATA
    case Final => DATA_END
    case Fire => TRIGGER
  }

  function Bit(b: bool): byte { if b then 1 else 0 }

  function OnWire(it: Item): Received {
    match it
    case Program(k, flag, id, p) => Received(Header(TypeOf(k), Bit(flag), id, |p|), p, None)
    case ClearDone => Received(Header(DEVICE_CLEAR_COMPLETE, 0, 0, 0), [], None)
  }

  function RequestOnWire(r: Request): Received {
    match r
    case Query(id, flag) => Received(Header(ASYNC_STATUS_QUERY, Bit(flag), id, 0), [], None)
    case ClearRequest => Received(Header(ASYNC_DEVICE_CLEAR, 0, 0, 0), [], None)
    case Operation(m) => m
  }

  /** A lock, remote/local or maximum message size message that the gate lets through. */
  predicate IsOperation(m: Received, limit: uint64) {
    && m.err == None && m.header.length <= limit
    && var t := m.header.msgType;
       || t == ASYNC_LOCK || t == ASYNC_LOCK_INFO || t == ASYNC_REMOTE_LOCAL_CONTROL || t == ASYNC_MAXIMUM_MESSAGE_SIZE
  }

  /** The program text after one more message. */
  function TextAfter(t: seq<byte>, it: Item): seq<byte> {
    match it
    case Program(k, _, _, p) => (match k case Chunk => t + p case Final => [] case Fire => t)
    case ClearDone => []
  }

  ghost predicate IsQuery(t: seq<byte>, it: Item) {
    it.Program? && it.kind.Final? && HasPlainQuery(t + it.payload)
  }

  // ---------------------------------------------------------------- steps

  datatype Action =
    | Send(kind: Kind, payload: Payload)
    | Ask
    | Operate(msg: Received)
    | RequestClear
    | TakeSync
    | TakeAsync
    | ServeSync(env: SyncEnv)
    | Raise
    | ServeAsync(aenv: AsyncEnv)
    | Instrument(status: StatusRegister)

  /** When a step may be taken. The device accepts writes and triggers; its reads may fail. Input is reported
      as queued only when there is some. A clear is not served between a DataEnd and the RMT expectation. */
  predicate Enabled(n: Net, a: Action) {
    match a
    case Send(kind, payload) =>
      n.phase.Talking? && !n.awaiting && !n.polling && |payload| <= n.w.cfg.maxRx && (kind.Fire? ==> payload == [])
    case Ask => n.phase.Talking? && !n.polling
    case Operate(m) => n.phase.Talking? && !n.polling && IsOperation(m, n.w.cfg.maxRx)
    case RequestClear => n.phase.Talking? && !n.polling
    case TakeSync => n.seen < |n.w.sync|
    case TakeAsync => n.heard < |n.w.async|
    case ServeSync(env) =>
      !n.late && n.toServer != [] && env.writeOk && env.triggerOk && (env.queued ==> |n.toServer| > 1)
    case Raise => n.late
    case ServeAsync(_) => n.requests != [] && (n.late ==> !n.requests[0].ClearRequest?)
    case Instrument(_) => true
  }

  function LastId(n: Net): MessageId { Previous(Nth(n.sent)) }

  ghost function Sending(n: Net, kind: Kind, payload: Payload): Net {
    var it := Program(kind, n.rmtPending, Nth(n.sent), payload);
    n.(sent := n.sent + 1, rmtPending := false, text := TextAfter(n.text, it), awaiting := IsQuery(n.text, it),
       toServer := n.toServer + [it])
  }

  /** The client takes the next message of the synchronous channel. During a clear it discards everything up to
      the acknowledgement, and then starts over. */
  function Taking(n: Net, m: Msg): Net {
    var n1 := n.(seen := n.seen + 1);
    if m.DeviceClearAcknowledge? then
      n1.(sent := 0, rmtPending := false, text := [], awaiting := false, phase := Talking)
    else if n.phase.Talking? && m.DataEnd? then n1.(rmtPending := true, awaiting := false)
    else n1
  }

  /** A reply to a request other than a clear. */
  predicate Settles(m: Msg) {
    || m.AsyncStatusResponse? || m.ErrorMsg? || m.AsyncLockResponse? || m.AsyncLockInfoResponse?
    || m.AsyncRemoteLocalResponse? || m.AsyncMaximumMessageSizeResponse?
  }

  function Hearing(n: Net, m: Msg): Net {
    var n1 := n.(heard := n.heard + 1);
    if m.AsyncDeviceClearAcknowledge? then n1.(phase := Acknowledged, toServer := n.toServer + [ClearDone])
    else if Settles(m) then n1.(polling := false)
    else n1
  }

  /** The handler runs up to the DataEnd of a response, if there is one. */
  function Serving(n: Net, env: SyncEnv): Net
    requires n.toServer != []
  {
    var it, v := n.toServer[0], Step(n.w, SyncMsg(OnWire(n.toServer[0]), env));
    var ends := n.w.state.Ready? && v.rmtExpected;
    n.(w := if ends then v.(rmtExpected := false) else v, late := ends, toServer := n.toServer[1..],
       taken := if it.ClearDone? then [] else if n.w.state.Ready? then TextAfter(n.taken, it) else n.taken)
  }

  function ServingAsync(n: Net, env: AsyncEnv): Net
    requires n.requests != []
  {
    n.(w := Step(n.w, AsyncMsg(RequestOnWire(n.requests[0]), env)), requests := n.requests[1..])
  }

  ghost function Act(n: Net, a: Action): Net
    requires Enabled(n, a)
  {
    match a
    case Send(kind, payload) => Sending(n, kind, payload)
    case Ask => n.(rmtPending := false, polling := true, requests := n.requests + [Query(LastId(n), n.rmtPending)])
    case Operate(m) => n.(polling := true, requests := n.requests + [Operation(m)])
    case RequestClear => n.(phase := Requested, requests := n.requests + [ClearRequest])
    case TakeSync => Taking(n, n.w.sync[n.seen])
    case TakeAsync => Hearing(n, n.w.async[n.heard])
    case ServeSync(env) => Serving(n, env)
    case Raise => n.(w := n.w.(rmtExpected := true), late := false)
    case ServeAsync(aenv) => ServingAsync(n, aenv)
    case Instrument(status) => n.(w := Step(n.w, InstrumentEvent(status)))
  }

  /** A clear is completed only where the text of the abandoned message leaves the classifier as new. */
  predicate Clean(n: Net, a: Action) {
    a.ServeSync? && n.toServer != [] && n.toServer[0].ClearDone? ==> Core(n.w.policy) == FRESH
  }

  /** A report on the asynchronous channel is served only once the server has raised the expectation it answers. */
  predicate Timely(n: Net, a: Action) {
    a.ServeAsync? && n.late ==> !Flagged(n.requests)
  }

  predicate Flagged(r: seq<Request>) { r != [] && r[0].Query? && r[0].flag }

  predicate Orderly(n: Net, a: Action) { Clean(n, a) && Timely(n, a) }

  ghost predicate Legal(n: Net, acts: seq<Action>)
    decreases |acts|
  {
    acts == [] || (Enabled(n, acts[0]) && Legal(Act(n, acts[0]), acts[1..]))
  }

  ghost predicate OrderlyRun(n: Net, acts: seq<Action>)
    requires Legal(n, acts)
    decreases |acts|
  {
    acts == [] || (Orderly(n, acts[0]) && OrderlyRun(Act(n, acts[0]), acts[1..]))
  }

  ghost function Exec(n: Net, acts: seq<Action>): Net
    requires Legal(n, acts)
    decreases |acts|
  {
    if acts == [] then n else Exec(Act(n, acts[0]), acts[1..])
  }

  // ---------------------------------------------------------------- the invariant

  /** The program text once all these messages are handled. */
  function After(t: seq<byte>, q: seq<Item>): seq<byte> {
    if q == [] then t else TextAfter(After(t, q[..|q| - 1]), q[|q| - 1])
  }

  /** None of these messages is a query. */
  ghost predicate Quiet(t: seq<byte>, q: seq<Item>) {
    forall i | 0 <= i < |q| :: !IsQuery(After(t, q[..i]), q[i])
  }

  ghost predicate NoAck(s: seq<Msg>) { forall i | 0 <= i < |s| :: !s[i].DeviceClearAcknowledge? }
  ghost predicate NoEnd(s: seq<Msg>) { forall i | 0 <= i < |s| :: !s[i].DataEnd? }

  /** The last message, and only that, ends a response, and it carries this MessageID. */
  ghost predicate EndsOnce(s: seq<Msg>, id: MessageId) {
    s != [] && s[|s| - 1].DataEnd? && s[|s| - 1].id == id && NoEnd(s[..|s| - 1])
  }

  function Unread(n: Net): seq<Msg>
    requires n.seen <= |n.w.sync|
  {
    n.w.sync[n.seen..]
  }

  /** The messages that answer a request. */
  function Solicited(s: seq<Msg>): seq<Msg> {
    if s == [] then [] else (if s[0].AsyncServiceRequest? then [] else [s[0]]) + Solicited(s[1..])
  }

  function Unheard(n: Net): seq<Msg>
    requires n.heard <= |n.w.async|
  {
    Solicited(n.w.async[n.heard..])
  }

  ghost predicate Sound(w: Conn, k: Counters) {
    && R.Inv(w) && w.tx.state != InputComplete && !Less(w.version, Version(1, 0))
    && (w.state.Ready? || w.state.Clearing?)
    && w.counters.silentInterrupted == k.silentInterrupted && w.counters.interruptedSent == k.interruptedSent
  }

  /** The messages under way are numbered in sequence after the last one the server recorded; only the first
      may carry the RMT-delivered bit. */
  ghost predicate Numbered(n: Net) {
    && |n.toServer| <= n.sent
    && n.w.lastReceived == Previous(Nth(n.sent - |n.toServer|))
    && forall i | 0 <= i < |n.toServer| ::
         var it := n.toServer[i];
         && it.Program? && |it.payload| <= n.w.cfg.maxRx
         && it.id == Nth(n.sent - |n.toServer| + i) && (it.flag ==> i == 0)
  }

  /** The two ends agree on the program text, and a response is outstanding exactly when the client waits for
      one: either its query is the last message under way, or the end of its response is. */
  ghost predicate Waiting(n: Net)
    requires n.seen <= |n.w.sync|
  {
    var q, u := n.toServer, Unread(n);
    && Core(n.w.policy) == Core(Scan(FRESH, n.taken))
    && n.text == After(n.taken, q)
    && NoAck(u)
    && if NoEnd(u) then
         if n.awaiting then
           q != [] && Quiet(n.taken, q[..|q| - 1]) && IsQuery(After(n.taken, q[..|q| - 1]), q[|q| - 1])
         else Quiet(n.taken, q)
       else n.awaiting && q == [] && EndsOnce(u, LastId(n))
  }

  /** The server expects the RMT-delivered bit exactly while a response end is under way, or the client has
      yet to report it, or its report is under way; never two of these at once. */
  ghost predicate Accounted(n: Net)
    requires n.seen <= |n.w.sync|
  {
    var q, u := n.toServer, Unread(n);
    && (n.late ==> !n.w.rmtExpected)
    && (n.w.rmtExpected || n.late)
       == (!NoEnd(u) || n.rmtPending || (q != [] && q[0].Program? && q[0].flag) || Flagged(n.requests))
    && (n.rmtPending ==> q == [] && !n.awaiting && !Flagged(n.requests))
    && (Flagged(n.requests) ==> q == [] && !n.awaiting)
  }

  ghost predicate Agreed(n: Net)
    requires n.seen <= |n.w.sync|
  {
    n.w.state.Ready? && Numbered(n) && Waiting(n) && Accounted(n)
  }

  /** A client that has asked for a clear may drop the end of its last response; nothing is under way then. */
  ghost predicate Dropped(n: Net)
    requires n.seen <= |n.w.sync|
  {
    n.w.state.Ready? && n.toServer == [] && NoAck(Unread(n)) && Core(n.w.policy) == Core(Scan(FRESH, n.taken))
  }

  predicate AllPrograms(q: seq<Item>) { forall i | 0 <= i < |q| :: q[i].Program? }

  /** The acknowledgement of the clear is under way, and nothing of a response follows it. */
  ghost predicate AckUnderWay(u: seq<Msg>, i: nat) {
    i < |u| && u[i].DeviceClearAcknowledge? && NoAck(u[..i]) && NoAck(u[i + 1..]) && NoEnd(u[i + 1..])
  }

  /** The session is as new, and so is the classifier in all that matters. */
  predicate AsNew(w: Conn) {
    w.state.Ready? && !w.rmtExpected && w.lastReceived == STATUS_QUERY_INITIAL_MESSAGE_ID && Core(w.policy) == FRESH
  }

  /** The three stages of a clear after the server has taken the request. */
  ghost predicate InClear(n: Net)
    requires n.seen <= |n.w.sync| && n.heard <= |n.w.async|
  {
    var q, u := n.toServer, Unread(n);
    && !n.late
    && Core(n.w.policy) == Core(Scan(FRESH, n.taken))
    && if n.phase.Requested? then
         && n.w.state.Clearing? && n.requests == [] && Unheard(n) == [AsyncDeviceClearAcknowledge(0)]
         && AllPrograms(q) && NoAck(u)
       else if n.w.state.Clearing? then
         q != [] && q[|q| - 1].ClearDone? && AllPrograms(q[..|q| - 1]) && NoAck(u)
       else AsNew(n.w) && q == [] && n.taken == [] && exists i :: AckUnderWay(u, i)
  }

  predicate Serviceable(r: Request, limit: uint64) { r.Query? || (r.Operation? && IsOperation(r.msg, limit)) }

  /** One request or its reply is under way exactly when the client waits for one. */
  ghost predicate Asynchrony(n: Net)
    requires n.heard <= |n.w.async|
  {
    var u := Unheard(n);
    && |n.requests| + |u| == (if n.polling || n.phase.Requested? then 1 else 0)
    && (n.polling ==> n.phase.Talking?)
    && (n.phase.Talking? ==> (n.requests != [] ==> Serviceable(n.requests[0], n.w.cfg.maxRx))
                             && (u != [] ==> Settles(u[0])))
    && (n.phase.Requested? && n.requests != [] ==> n.requests[0].ClearRequest?)
  }

  ghost predicate Inv(n: Net, k: Counters) {
    && n.seen <= |n.w.sync| && n.heard <= |n.w.async|
    && Sound(n.w, k) && Asynchrony(n)
    && if n.phase.Talking? then Agreed(n)
       else if n.phase.Requested? && n.requests != [] then Agreed(n) || Dropped(n)
       else InClear(n)
  }

  /** A session just paired, and a client that has sent nothing. */
  function Start(w: Conn): Net {
    Net(Step(w, Attach), 0, false, [], false, false, Talking, [], [], 0, 0, [], false)
  }

  lemma StartInv(w: Conn)
    requires R.Starts(w) && !Less(w.version, Version(1, 0))
    ensures Inv(Start(w), Counters(0, 0, 0, 0))
  {
    LastTaken(0);
    assert Step(w, Attach) == w.(state := Ready, attached := true) by {
      hide HandleSync, HandleAsync;
    }
    hide Step, Scan;
  }

  // ---------------------------------------------------------------- the server's side of a step

  lemma ProgramsAreAccepted(w: Conn, it: Item, env: SyncEnv)
    requires R.Inv(w) && w.state.Ready? && !Less(w.version, Version(1, 0))
    requires it.Program? && |it.payload| <= w.cfg.maxRx
    ensures R.Accepted(w, OnWire(it))
  {
  }

  /** A well-behaved message on a ready session, in the terms of the invariant. */
  ghost predicate Handled(w: Conn, v: Conn, it: Item)
    requires it.Program?
  {
    && R.Inv(v) && v.state.Ready? && v.tx.state != InputComplete && v.cfg == w.cfg && v.version == w.version
    && v.lastReceived == it.id
    && v.counters.silentInterrupted
       == w.counters.silentInterrupted + (if w.rmtExpected != it.flag then 1 else 0)
    && v.policy == (match it.kind case Chunk => Scan(w.policy, it.payload) case Final => FRESH case Fire => w.policy)
  }

  predicate Answers(w: Conn, it: Item) {
    it.Program? && it.kind.Final? && Scan(w.policy, it.payload).found
  }

  lemma ServeProgram(w: Conn, it: Item, env: SyncEnv)
    requires R.Inv(w) && w.state.Ready? && w.tx.state != InputComplete && !Less(w.version, Version(1, 0))
    requires it.Program? && |it.payload| <= w.cfg.maxRx && env.writeOk && env.triggerOk
    ensures var v := Step(w, SyncMsg(OnWire(it), env));
            && Handled(w, v, it)
            && (!Answers(w, it) ==> v.sync == w.sync && v.async == w.async && !v.rmtExpected
                                    && v.counters.interruptedSent == w.counters.interruptedSent)
            && (Answers(w, it) && !env.queued ==> Ended(w, v, it.id))
  {
    ProgramsAreAccepted(w, it, env);
    R.SyncStep(w, OnWire(it), env);
    R.StepInv(w, SyncMsg(OnWire(it), env));
    if it.kind.Fire? {
      FireResult(w, it, env);
    } else if Answers(w, it) {
      AnswerResult(w, it, env);
    } else {
      QuietResult(w, it, env);
    }
    hide Step, R.Accepted, R.Inv, R.DataResult, R.TriggerResult, Scan;
  }

  lemma FireResult(w: Conn, it: Item, env: SyncEnv)
    requires w.state.Ready? && w.tx.state != InputComplete && it.Program? && it.kind.Fire? && env.triggerOk
    requires R.Inv(w) && R.Inv(R.TriggerResult(w, OnWire(it).header, env.triggerOk))
    ensures var v := R.TriggerResult(w, OnWire(it).header, env.triggerOk);
            && Handled(w, v, it)
            && v.sync == w.sync && v.async == w.async && !v.rmtExpected
            && v.counters.interruptedSent == w.counters.interruptedSent
  {
    hide R.Inv;
  }

  lemma Arrival(w: Conn, it: Item)
    requires it.Program?
    ensures var v := R.Written(w, OnWire(it).header, it.payload);
            && !v.rmtExpected && v.lastReceived == it.id
            && v.cfg == w.cfg && v.version == w.version && v.state == w.state
            && v.sync == w.sync && v.async == w.async && v.policy == w.policy
            && (it.kind.Chunk? ==> v.tx.state == ReceivingInput)
            && v.counters == w.counters.(silentInterrupted :=
                 w.counters.silentInterrupted + (if w.rmtExpected != it.flag then 1 else 0))
  {
  }

  lemma QuietResult(w: Conn, it: Item, env: SyncEnv)
    requires w.state.Ready? && w.tx.state != InputComplete && it.Program? && !it.kind.Fire? && env.writeOk
    requires R.Inv(R.DataResult(w, OnWire(it).header, it.payload, env)) && !Answers(w, it)
    ensures var v := R.DataResult(w, OnWire(it).header, it.payload, env);
            && Handled(w, v, it) && v.sync == w.sync && v.async == w.async && !v.rmtExpected
            && v.counters.interruptedSent == w.counters.interruptedSent
  {
    hide R.Inv, R.ResponseTo, Scan, Put, R.Written, R.Arrived;
    Arrival(w, it);
  }

  /** The end of a response to this message is the last of what the step put on the channel. */
  ghost predicate Ended(w: Conn, v: Conn, id: MessageId) {
    && v.async == w.async && v.rmtExpected && w.sync <= v.sync
    && EndsOnce(v.sync[|w.sync|..], id) && NoAck(v.sync[|w.sync|..])
    && v.counters.interruptedSent == w.counters.interruptedSent
  }

  lemma AnswerResult(w: Conn, it: Item, env: SyncEnv)
    requires w.state.Ready? && w.tx.state != InputComplete && it.Program? && env.writeOk
    requires R.Inv(R.DataResult(w, OnWire(it).header, it.payload, env)) && Answers(w, it)
    ensures var v := R.DataResult(w, OnWire(it).header, it.payload, env);
            Handled(w, v, it) && (!env.queued ==> Ended(w, v, it.id))
  {
    hide R.Inv, R.ResponseTo, Scan, Put, R.Written, R.Arrived;
    Arrival(w, it);
    var u := R.Written(w, OnWire(it).header, it.payload).(policy := FRESH);
    ResponseResult(u, OnWire(it).header, env);
    hide EndsOnce, NoAck;
    assert R.DataResult(w, OnWire(it).header, it.payload, env) == R.ResponseTo(u, OnWire(it).header, env);
    hide R.DataResult;
  }

  function OutcomeOf(w: Conn, env: SyncEnv): ResponseOutcome {
    Outcome(env.script, R.Sized(w), env.queued, |Produced(env.script, R.Sized(w))| > 0)
  }

  lemma ResponseFields(w: Conn, h: Header, env: SyncEnv)
    ensures var v, o := R.ResponseTo(w, h, env), OutcomeOf(w, env);
            && v.tx == RESET && v.state == w.state && v.cfg == w.cfg && v.version == w.version && v.policy == w.policy
            && v.lastReceived == w.lastReceived
            && v.counters.silentInterrupted == w.counters.silentInterrupted
            && v.sync == w.sync + Transcript(env.script, R.Sized(w), h.parameter, o)
            && (!o.ResponseInterrupted? ==>
                  v.async == w.async && v.rmtExpected && v.counters.interruptedSent == w.counters.interruptedSent)
  {
    hide Transcript, Outcome, Produced, R.Sized;
  }

  lemma ResponseResult(w: Conn, h: Header, env: SyncEnv)
    ensures var v := R.ResponseTo(w, h, env);
            && v.tx == RESET && v.state == w.state && v.cfg == w.cfg && v.version == w.version && v.policy == w.policy
            && v.lastReceived == w.lastReceived
            && v.counters.silentInterrupted == w.counters.silentInterrupted
            && (!env.queued ==> Ended(w, v, h.parameter))
  {
    hide R.ResponseTo, Transcript, Produced, LastRead, R.Sized, EndsOnce, NoAck;
    ResponseFields(w, h, env);
    var o, v := OutcomeOf(w, env), R.ResponseTo(w, h, env);
    if !env.queued {
      TranscriptEnds(env.script, R.Sized(w), h.parameter, o);
      assert v.sync[|w.sync|..] == Transcript(env.script, R.Sized(w), h.parameter, o);
    }
  }

  lemma JoinEnds(a: seq<Msg>, b: seq<Msg>, id: MessageId)
    requires NoEnd(a) && NoAck(a) && EndsOnce(b, id) && NoAck(b)
    ensures EndsOnce(a + b, id) && NoAck(a + b)
  {
    var t := a + b;
    assert t[|t| - 1] == b[|b| - 1];
    assert t[..|t| - 1] == a + b[..|b| - 1];
  }

  lemma DataIsPlain(id: MessageId, chunks: seq<Payload>)
    ensures NoEnd(DataMsgs(id, chunks)) && NoAck(DataMsgs(id, chunks))
  {
  }

  lemma EndingEnds(o: ResponseOutcome, id: MessageId, final: Payload)
    requires !o.ResponseInterrupted?
    ensures EndsOnce(Ending(o, id, final), id) && NoAck(Ending(o, id, final))
  {
  }

  lemma TranscriptEnds(script: seq<ReadResult>, size: uint64, id: MessageId, o: ResponseOutcome)
    requires !o.ResponseInterrupted?
    ensures EndsOnce(Transcript(script, size, id, o), id) && NoAck(Transcript(script, size, id, o))
  {
    hide EndsOnce, NoAck, NoEnd, Packets, DataMsgs, Ending, LastRead;
    FinalChunkFits(script, size);
    DataIsPlain(id, Packets(script, size));
    EndingEnds(o, id, FinalChunk(script, size));
    JoinEnds(DataMsgs(id, Packets(script, size)), Ending(o, id, FinalChunk(script, size)), id);
  }

  // ---------------------------------------------------------------- texts and queries

  /** The server's classifier answers the client's question about its own text. */
  lemma SameQuestion(w: Conn, taken: seq<byte>, it: Item)
    requires WellFormed(w.policy) && Core(w.policy) == Core(Scan(FRESH, taken)) && it.Program?
    ensures Answers(w, it) <==> IsQuery(taken, it)
    ensures Core(Scan(w.policy, it.payload)) == Core(Scan(FRESH, taken + it.payload))
  {
    ScanWellFormed(FRESH, taken);
    SameCore(w.policy, Scan(FRESH, taken), it.payload);
    ScanAppend(FRESH, taken, it.payload);
    QueryDetection(taken + it.payload, []);
    hide Scan;
  }

  lemma {:induction false} AfterFirst(t: seq<byte>, q: seq<Item>)
    requires q != []
    ensures After(t, q) == After(TextAfter(t, q[0]), q[1..])
  {
    if |q| > 1 {
      AfterFirst(t, q[..|q| - 1]);
      assert q[..|q| - 1][1..] == q[1..][..|q| - 2];
    } else {
      assert q[1..] == [];
    }
  }

  /** Dropping the first message, once handled, keeps the rest quiet. */
  lemma QuietRest(t: seq<byte>, q: seq<Item>)
    requires q != [] && Quiet(t, q)
    ensures Quiet(TextAfter(t, q[0]), q[1..])
  {
    var r := q[1..];
    forall i | 0 <= i < |r| ensures !IsQuery(After(TextAfter(t, q[0]), r[..i]), r[i]) {
      AfterFirst(t, q[..i + 1]);
      assert q[..i + 1][1..] == r[..i];
      assert r[i] == q[i + 1];
    }
  }

  lemma QuietSnoc(t: seq<byte>, q: seq<Item>, it: Item)
    requires Quiet(t, q)
    ensures !IsQuery(After(t, q), it) ==> Quiet(t, q + [it])
    ensures (q + [it])[..|q|] == q
    ensures After(t, q + [it]) == TextAfter(After(t, q), it)
  {
    forall i | 0 <= i < |q| ensures (q + [it])[..i] == q[..i] {
    }
    assert (q + [it])[..|q|] == q;
  }

  // ---------------------------------------------------------------- every step keeps the invariant

  lemma SendInv(n: Net, kind: Kind, payload: Payload, k: Counters)
    requires Inv(n, k) && Enabled(n, Send(kind, payload))
    ensures Inv(Sending(n, kind, payload), k)
  {
    hide Sound, IsQuery, TextAfter, Scan, Core, Nth, Previous, R.Inv;
    var it := Program(kind, n.rmtPending, Nth(n.sent), payload);
    QuietSnoc(n.taken, n.toServer, it);
    var n' := Sending(n, kind, payload);
    assert Unread(n') == Unread(n);
    SendNumbered(n, n', it);
    SendWaiting(n, n', it);
    SendAccounted(n, n', it);
  }

  lemma SendNumbered(n: Net, n': Net, it: Item)
    requires Numbered(n) && it.Program? && |it.payload| <= n.w.cfg.maxRx && it.id == Nth(n.sent)
    requires it.flag ==> n.toServer == []
    requires n'.sent == n.sent + 1 && n'.toServer == n.toServer + [it] && n'.w == n.w
    ensures Numbered(n')
  {
    hide Nth, Previous;
  }

  lemma SendWaiting(n: Net, n': Net, it: Item)
    requires n.seen <= |n.w.sync| && Waiting(n) && !n.awaiting
    requires n' == n.(sent := n'.sent, rmtPending := n'.rmtPending, toServer := n.toServer + [it],
                      text := TextAfter(n.text, it), awaiting := IsQuery(n.text, it))
    ensures Waiting(n')
  {
    hide IsQuery, TextAfter, Scan, Core;
    QuietSnoc(n.taken, n.toServer, it);
    assert n'.toServer[..|n'.toServer| - 1] == n.toServer;
  }

  lemma SendAccounted(n: Net, n': Net, it: Item)
    requires n.seen <= |n.w.sync| && Accounted(n) && !n.awaiting && it.Program? && it.flag == n.rmtPending
    requires Flagged(n.requests) ==> n.polling
    requires !n.polling && !n'.rmtPending && n'.toServer == n.toServer + [it]
    requires n'.w == n.w && n'.seen == n.seen && n'.requests == n.requests && n'.late == n.late
    ensures Accounted(n')
  {
    if n.toServer != [] {
      assert n'.toServer[0] == n.toServer[0];
    }
  }

  lemma RequestInv(n: Net, a: Action, k: Counters)
    requires Inv(n, k) && Enabled(n, a) && (a.Ask? || a.Operate? || a.RequestClear?)
    ensures Inv(Act(n, a), k)
  {
    hide Step, Sound, Quiet, IsQuery, Scan, Core, After, Nth, Previous, Solicited, IsOperation;
    assert n.requests == [] && Unheard(n) == [];
    var n' := Act(n, a);
    assert Unread(n') == Unread(n);
    assert n'.requests == match a case Ask => [Query(LastId(n), n.rmtPending)] case Operate(m) => [Operation(m)]
                                  case _ => [ClearRequest];
  }

  /** What is left of the unread messages when one is taken. */
  lemma UnreadTail(u: seq<Msg>, id: MessageId)
    requires u != []
    ensures NoAck(u) ==> NoAck(u[1..]) && !u[0].DeviceClearAcknowledge?
    ensures NoEnd(u) ==> NoEnd(u[1..]) && !u[0].DataEnd?
    ensures EndsOnce(u, id) ==>
      && !NoEnd(u)
      && if u[0].DataEnd? then u[0].id == id && u[1..] == [] else EndsOnce(u[1..], id) && !NoEnd(u[1..])
  {
    if EndsOnce(u, id) {
      var init := u[..|u| - 1];
      assert u[|u| - 1].DataEnd?;
      if u[0].DataEnd? {
        assert |u| == 1;
      } else {
        var r := u[1..];
        assert r[|r| - 1] == u[|u| - 1];
        assert r[..|r| - 1] == init[1..];
      }
    }
  }

  lemma NothingUnread()
    ensures NoEnd([]) && NoAck([])
  {
  }

  /** Taking a message while the two ends agree. */
  lemma TakeAgreed(n: Net)
    requires n.seen < |n.w.sync| && Agreed(n)
    ensures var n' := Taking(n, n.w.sync[n.seen]);
            && n'.phase == n.phase && n'.w == n.w
            && n' == n.(seen := n.seen + 1, rmtPending := n'.rmtPending, awaiting := n'.awaiting)
            && (n.phase.Talking? ==> Agreed(n'))
            && (!n.phase.Talking? ==> Agreed(n') || Dropped(n'))
  {
    hide IsQuery, Scan, Core, After, Nth, Previous, EndsOnce, NoEnd, NoAck;
    var u, n' := Unread(n), Taking(n, n.w.sync[n.seen]);
    assert u[0] == n.w.sync[n.seen] && Unread(n') == u[1..];
    UnreadTail(u, LastId(n));
    NothingUnread();
  }

  lemma TakeAck(n: Net)
    requires n.seen < |n.w.sync| && n.heard <= |n.w.async|
    requires n.phase.Acknowledged? && InClear(n) && !n.w.state.Clearing?
    requires n.requests == []
    ensures var n' := Taking(n, n.w.sync[n.seen]);
            if n'.phase.Talking? then Agreed(n') else InClear(n')
  {
    hide Nth, Previous, IsQuery, Scan, Core, After;
    var u, n' := Unread(n), Taking(n, n.w.sync[n.seen]);
    var i: nat :| AckUnderWay(u, i);
    assert Unread(n') == u[1..];
    if i == 0 {
      LastTaken(0);
      assert After([], []) == [] && Scan(FRESH, []) == FRESH && Core(FRESH) == FRESH by {
        Blank();
      }
    } else {
      assert !u[0].DeviceClearAcknowledge? by { assert u[..i][0] == u[0]; }
      assert u[1..][..i - 1] == u[..i][1..];
      assert u[1..][i..] == u[i + 1..];
      assert AckUnderWay(u[1..], i - 1);
    }
  }

  lemma Blank()
    ensures After([], []) == [] && Scan(FRESH, []) == FRESH && Core(FRESH) == FRESH
  {
  }

  lemma TakePast(n: Net)
    requires n.seen < |n.w.sync| && NoAck(Unread(n)) && !n.phase.Talking?
    ensures Taking(n, n.w.sync[n.seen]) == n.(seen := n.seen + 1)
    ensures Unread(n.(seen := n.seen + 1)) == Unread(n)[1..] && NoAck(Unread(n)[1..])
  {
    assert Unread(n)[0] == n.w.sync[n.seen];
  }

  lemma TakeDropped(n: Net)
    requires n.seen < |n.w.sync| && n.heard <= |n.w.async| && !n.phase.Talking?
    ensures var n' := n.(seen := n.seen + 1);
            && (Dropped(n) ==> Taking(n, n.w.sync[n.seen]) == n' && Dropped(n'))
            && (InClear(n) && n.w.state.Clearing? ==> Taking(n, n.w.sync[n.seen]) == n' && InClear(n'))
  {
    hide NoAck, Scan, Core, AllPrograms, AckUnderWay, Solicited, Taking, AsNew;
    if NoAck(Unread(n)) {
      TakePast(n);
    }
  }

  lemma TakeSyncInv(n: Net, k: Counters)
    requires Inv(n, k) && Enabled(n, TakeSync)
    ensures Inv(Act(n, TakeSync), k)
  {
    hide Step, Sound, Agreed, Solicited, Sending, Hearing, Serving, Dropped, NoAck, AckUnderWay, Scan, Core, AsNew;
    var n' := Act(n, TakeSync);
    assert n'.w == n.w && n'.heard == n.heard && n'.requests == n.requests && n'.polling == n.polling;
    assert Unheard(n') == Unheard(n);
    if Agreed(n) && (n.phase.Talking? || (n.phase.Requested? && n.requests != [])) {
      TakeAgreed(n);
    } else if n.phase.Acknowledged? && !n.w.state.Clearing? {
      TakeAck(n);
      hide InClear;
    } else {
      TakeDropped(n);
      hide InClear;
    }
  }

  lemma SolicitedHead(s: seq<Msg>)
    requires s != []
    ensures Solicited(s) == (if s[0].AsyncServiceRequest? then [] else [s[0]]) + Solicited(s[1..])
  {
  }

  lemma {:induction false} SolicitedAppend(s: seq<Msg>, m: Msg)
    ensures Solicited(s + [m]) == Solicited(s) + (if m.AsyncServiceRequest? then [] else [m])
  {
    if s == [] {
      assert [m][1..] == [];
    } else {
      SolicitedAppend(s[1..], m);
      assert (s + [m])[1..] == s[1..] + [m];
    }
  }

  /** What neither end notices. */
  lemma SameEnds(n: Net, n': Net)
    requires n.seen <= |n.w.sync| && n.heard <= |n.w.async| && n'.heard <= |n'.w.async| && Unheard(n') == Unheard(n)
    requires n' == n.(w := n'.w, heard := n'.heard)
    requires n'.w == n.w.(async := n'.w.async, srqLatched := n'.w.srqLatched, srqStatus := n'.w.srqStatus)
    ensures Agreed(n) ==> Agreed(n')
    ensures Dropped(n) ==> Dropped(n')
    ensures InClear(n) ==> InClear(n')
    ensures Asynchrony(n) ==> Asynchrony(n')
  {
    hide Quiet, IsQuery, Scan, Core, After, Nth, Previous, EndsOnce, NoAck, NoEnd, AckUnderWay, Solicited, IsOperation;
    assert Unread(n') == Unread(n);
  }

  lemma HearReply(n: Net, k: Counters)
    requires Inv(n, k) && Enabled(n, TakeAsync) && n.phase.Talking? && !n.w.async[n.heard].AsyncServiceRequest?
    requires var n' := Act(n, TakeAsync); Unheard(n) == [n.w.async[n.heard]] && Unheard(n') == [] && n.requests == []
    ensures Inv(Act(n, TakeAsync), k)
  {
    hide Sound, Quiet, IsQuery, Scan, Core, After, Nth, Previous, Solicited, InClear, Dropped, EndsOnce, NoAck, NoEnd;
    var n' := Act(n, TakeAsync);
    assert n' == n.(heard := n.heard + 1, polling := false);
    assert Unread(n') == Unread(n);
  }

  lemma HearAcknowledgement(n: Net, k: Counters)
    requires Inv(n, k) && Enabled(n, TakeAsync) && !n.phase.Talking? && !n.w.async[n.heard].AsyncServiceRequest?
    requires var n' := Act(n, TakeAsync); Unheard(n) == [n.w.async[n.heard]] && Unheard(n') == [] && n.requests == []
    ensures Inv(Act(n, TakeAsync), k)
  {
    hide Sound, Agreed, Dropped, Scan, Core, Solicited, NoAck, AckUnderWay;
    var n' := Act(n, TakeAsync);
    assert Unread(n') == Unread(n);
    assert n'.toServer[..|n'.toServer| - 1] == n.toServer;
  }

  /** What is unheard before and after the client takes a message. */
  lemma UnheardHead(n: Net)
    requires n.heard < |n.w.async|
    ensures var m := n.w.async[n.heard];
            && Act(n, TakeAsync).w == n.w && Act(n, TakeAsync).heard == n.heard + 1
            && Unheard(n) == (if m.AsyncServiceRequest? then [] else [m]) + Unheard(Act(n, TakeAsync))
            && (m.AsyncServiceRequest? ==>
                  Act(n, TakeAsync) == n.(heard := n.heard + 1) && Unheard(n) == Unheard(Act(n, TakeAsync)))
  {
    hide Step, Solicited, Sending, Taking, Serving;
    var raw := n.w.async[n.heard..];
    assert raw[0] == n.w.async[n.heard] && raw[1..] == n.w.async[n.heard + 1..];
    SolicitedHead(raw);
  }

  lemma SomethingUnheard(n: Net)
    requires n.heard <= |n.w.async| && Unheard(n) != []
    ensures n.heard < |n.w.async|
  {
  }

  lemma TakeAsyncInv(n: Net, k: Counters)
    requires Inv(n, k) && Enabled(n, TakeAsync)
    ensures Inv(Act(n, TakeAsync), k)
  {
    hide Sound, Agreed, InClear, Dropped, Solicited, Hearing;
    var n' := Act(n, TakeAsync);
    UnheardHead(n);
    if n.w.async[n.heard].AsyncServiceRequest? {
      hide Asynchrony, Act;
      SameEnds(n, n');
    } else {
      if n.phase.Talking? {
        HearReply(n, k);
      } else {
        HearAcknowledgement(n, k);
      }
    }
  }

  /** The query under way is alone. */
  lemma QueryIsLast(n: Net)
    requires n.seen <= |n.w.sync| && Waiting(n) && n.toServer != [] && IsQuery(n.taken, n.toServer[0])
    ensures n.awaiting && |n.toServer| == 1
  {
    hide IsQuery, Scan, Core;
    var q := n.toServer;
    assert q[..0] == [] && After(n.taken, []) == n.taken;
  }

  lemma ServeNumbered(n: Net, n': Net)
    requires Numbered(n) && n.toServer != []
    requires n'.sent == n.sent && n'.toServer == n.toServer[1..]
    requires n'.w.lastReceived == n.toServer[0].id && n'.w.cfg == n.w.cfg
    ensures Numbered(n')
  {
    LastTaken(n.sent - |n.toServer| + 1);
    hide Nth, Previous;
  }

  /** Handling a query puts the end of its response under way. */
  lemma ServeQuery(n: Net, n': Net)
    requires n.seen <= |n.w.sync| && Waiting(n) && Numbered(n) && n.toServer != [] && IsQuery(n.taken, n.toServer[0])
    requires n.w.sync <= n'.w.sync && EndsOnce(n'.w.sync[|n.w.sync|..], n.toServer[0].id)
    requires NoAck(n'.w.sync[|n.w.sync|..])
    requires n'.w.policy == FRESH
    requires n' == n.(w := n'.w, toServer := n.toServer[1..], taken := [], late := n'.late)
    ensures Waiting(n') && !NoEnd(Unread(n'))
  {
    QueryIsLast(n);
    LastTaken(n.sent);
    hide Nth, Previous, IsQuery;
    var u, t, u' := Unread(n), n'.w.sync[|n.w.sync|..], Unread(n');
    assert u' == u + t;
    JoinEnds(u, t, n.toServer[0].id);
    assert Scan(FRESH, []) == FRESH;
    assert n.toServer[..0] == [] && After(n.taken, []) == n.taken;
  }

  /** Handling anything else keeps the two ends in agreement. */
  lemma ServeOther(n: Net, n': Net)
    requires n.seen <= |n.w.sync| && Waiting(n) && n.toServer != [] && !IsQuery(n.taken, n.toServer[0])
    requires n'.w.sync == n.w.sync
    requires Core(n'.w.policy) == Core(Scan(FRESH, n'.taken))
    requires n' == n.(w := n'.w, toServer := n.toServer[1..], taken := TextAfter(n.taken, n.toServer[0]),
                      late := n'.late)
    ensures Waiting(n') && NoEnd(Unread(n'))
  {
    hide IsQuery, Scan, Core, TextAfter;
    var q, q' := n.toServer, n'.toServer;
    AfterFirst(n.taken, q);
    assert Unread(n') == Unread(n);
    if n.awaiting {
      var init := q[..|q| - 1];
      assert init[0] == q[0] && init[1..] == q'[..|q'| - 1];
      AfterFirst(n.taken, init);
      QuietRest(n.taken, init);
    } else {
      QuietRest(n.taken, q);
    }
  }

  lemma PolicyFollows(n: Net, v: Conn, it: Item)
    requires WellFormed(n.w.policy) && Core(n.w.policy) == Core(Scan(FRESH, n.taken))
    requires it.Program? && Handled(n.w, v, it)
    ensures Core(v.policy) == Core(Scan(FRESH, TextAfter(n.taken, it)))
  {
    SameQuestion(n.w, n.taken, it);
    assert Scan(FRESH, []) == FRESH;
    hide Scan, Core, R.Inv;
  }

  /** The expectation may come later without touching anything else. */
  lemma RaiseKeepsSound(w: Conn, k: Counters, expected: bool)
    requires Sound(w, k)
    ensures Sound(w.(rmtExpected := expected), k)
  {
  }

  /** What the next message under way carries. */
  lemma NextItem(n: Net)
    requires n.seen <= |n.w.sync| && Agreed(n) && n.toServer != [] && !n.late
    ensures var it := n.toServer[0];
            && it.Program? && |it.payload| <= n.w.cfg.maxRx && n.w.rmtExpected == it.flag
            && NoEnd(Unread(n)) && !n.rmtPending && !Flagged(n.requests)
            && Core(n.w.policy) == Core(Scan(FRESH, n.taken))
    ensures forall i | 0 < i < |n.toServer| :: n.toServer[i].Program? && !n.toServer[i].flag
  {
    hide Quiet, IsQuery, Scan, Core, After, Nth, Previous, EndsOnce, NoAck;
  }

  lemma ServeAccounted(n: Net, n': Net)
    requires n.seen <= |n.w.sync| && n.seen <= |n'.w.sync| && n.toServer != []
    requires forall i | 0 < i < |n.toServer| :: n.toServer[i].Program? && !n.toServer[i].flag
    requires !n.rmtPending && !Flagged(n.requests)
    requires n' == n.(w := n'.w, toServer := n.toServer[1..], taken := n'.taken, late := n'.late)
    requires !n'.w.rmtExpected && n'.late == !NoEnd(Unread(n'))
    ensures Accounted(n')
  {
    hide NoEnd;
    assert n'.toServer != [] ==> n'.toServer[0] == n.toServer[1];
  }

  lemma ServeAgreed(n: Net, env: SyncEnv, k: Counters)
    requires n.seen <= |n.w.sync| && Sound(n.w, k) && Agreed(n) && Enabled(n, ServeSync(env))
    ensures var n' := Serving(n, env);
            && n'.seen <= |n'.w.sync| && Sound(n'.w, k) && Agreed(n') && n'.w.async == n.w.async
            && n'.w.cfg == n.w.cfg
  {
    hide Step, IsQuery, Scan, Core, Answers, Nth, Previous, EndsOnce, NoEnd, NoAck, Numbered, Waiting, Accounted;
    var it, n' := n.toServer[0], Serving(n, env);
    var v := Step(n.w, SyncMsg(OnWire(it), env));
    NextItem(n);
    ServeProgram(n.w, it, env);
    SameQuestion(n.w, n.taken, it);
    PolicyFollows(n, v, it);
    hide R.Inv;
    if IsQuery(n.taken, it) {
      QueryIsLast(n);
      QueriesEndText(n.taken, it);
      ServeQuery(n, n');
    } else {
      ServeOther(n, n');
    }
    RaiseKeepsSound(v, k, false);
    ServeNumbered(n, n');
    ServeAccounted(n, n');
  }

  lemma RaiseInv(n: Net, k: Counters)
    requires Inv(n, k) && Enabled(n, Raise)
    ensures Inv(Act(n, Raise), k)
  {
    hide Sound, Numbered, Quiet, IsQuery, Scan, Core, After, Solicited, EndsOnce, NoAck;
    var n' := Act(n, Raise);
    RaiseKeepsSound(n.w, k, true);
    assert Unread(n') == Unread(n) && Unheard(n') == Unheard(n);
    assert Numbered(n) ==> Numbered(n') by { RaiseNumbered(n, n'); }
  }

  lemma RaiseNumbered(n: Net, n': Net)
    requires n'.sent == n.sent && n'.toServer == n.toServer
    requires n'.w.lastReceived == n.w.lastReceived && n'.w.cfg == n.w.cfg
    ensures Numbered(n) <==> Numbered(n')
  {
    hide Nth, Previous;
  }

  lemma QueriesEndText(t: seq<byte>, it: Item)
    requires IsQuery(t, it)
    ensures TextAfter(t, it) == [] && it.kind.Final?
  {
  }

  /** During a clear the server discards program messages. */
  lemma Discards(w: Conn, it: Item, env: SyncEnv)
    requires R.Inv(w) && w.state.Clearing? && it.Program?
    ensures Step(w, SyncMsg(OnWire(it), env)) == w
  {
    hide HandleData, DoTrigger, CompleteDeviceClear, Accept, Report;
  }

  /** DeviceClearComplete on a clearing session. */
  lemma ClearsServer(w: Conn, env: SyncEnv, k: Counters)
    requires Sound(w, k) && w.state.Clearing?
    ensures var v := Step(w, SyncMsg(OnWire(ClearDone), env));
            && Sound(v, k) && v.state.Ready? && !v.rmtExpected && v.lastReceived == STATUS_QUERY_INITIAL_MESSAGE_ID
            && v.policy == w.policy && v.async == w.async && v.tx == RESET
            && (v.sync == w.sync + [DeviceClearAcknowledge(0)]
                || v.sync == w.sync + [DeviceClearAcknowledge(0), ErrorMsg(CODE_HANDSHAKE_TIMEOUT)])
  {
    hide Step, R.DataResult, R.TriggerResult, R.Bystander, AckUnderWay;
    R.SyncStep(w, OnWire(ClearDone), env);
    R.StepInv(w, SyncMsg(OnWire(ClearDone), env));
    assert R.Accepted(w, OnWire(ClearDone));
    hide R.Inv, R.Accepted;
    var v := R.ClearedResult(w, env.clearOk);
    assert !env.clearOk ==> v.sync == w.sync + [DeviceClearAcknowledge(0), ErrorMsg(CODE_HANDSHAKE_TIMEOUT)];
  }

  lemma AckIsUnderWay(u: seq<Msg>, a: seq<Msg>)
    requires NoAck(u)
    requires a == [DeviceClearAcknowledge(0)] || a == [DeviceClearAcknowledge(0), ErrorMsg(CODE_HANDSHAKE_TIMEOUT)]
    ensures AckUnderWay(u + a, |u|)
  {
    assert (u + a)[..|u|] == u && (u + a)[|u| + 1..] == a[1..];
  }

  lemma DiscardInv(n: Net, env: SyncEnv, k: Counters)
    requires Inv(n, k) && Enabled(n, ServeSync(env)) && n.toServer[0].Program?
    requires n.w.state.Clearing? && !n.phase.Talking? && !(n.phase.Requested? && n.requests != [])
    ensures Inv(Serving(n, env), k)
  {
    hide Step, Core, Agreed, Dropped, AsNew, R.Inv;
    var q, n' := n.toServer, Serving(n, env);
    Discards(n.w, q[0], env);
    hide Sound;
    assert Unread(n') == Unread(n) && Unheard(n') == Unheard(n);
    if n.phase.Acknowledged? {
      assert q[1..][..|q| - 2] == q[..|q| - 1][1..];
    }
  }

  lemma ClearDoneInv(n: Net, env: SyncEnv, k: Counters)
    requires Inv(n, k) && Enabled(n, ServeSync(env)) && Clean(n, ServeSync(env)) && n.toServer[0].ClearDone?
    requires n.w.state.Clearing? && !n.phase.Talking? && !(n.phase.Requested? && n.requests != [])
    ensures Inv(Serving(n, env), k)
  {
    hide Step, Core, Agreed, Dropped, R.Inv, Sound, AckUnderWay, NoAck;
    var n' := Serving(n, env);
    assert n.phase.Acknowledged? && |n.toServer| == 1;
    ClearsServer(n.w, env, k);
    Blank();
    hide AllPrograms;
    var a := n'.w.sync[|n.w.sync|..];
    AckIsUnderWay(Unread(n), a);
    assert Unread(n') == Unread(n) + a && Unheard(n') == Unheard(n);
  }

  lemma ServeSyncInv(n: Net, env: SyncEnv, k: Counters)
    requires Inv(n, k) && Enabled(n, ServeSync(env)) && Clean(n, ServeSync(env))
    ensures Inv(Act(n, ServeSync(env)), k)
  {
    hide Step, Sound, AsNew, Solicited, Numbered, Waiting, Accounted, Core, Scan, NoAck, AckUnderWay;
    if n.phase.Talking? || (n.phase.Requested? && n.requests != []) {
      ServeAgreed(n, env, k);
      assert Unheard(Serving(n, env)) == Unheard(n);
    } else if n.toServer[0].Program? {
      DiscardInv(n, env, k);
    } else {
      ClearDoneInv(n, env, k);
    }
  }

  lemma RequestsAreAccepted(w: Conn, r: Request)
    requires R.Inv(w) && w.state.Ready? && !Less(w.version, Version(1, 0))
    requires r.Operation? ==> IsOperation(r.msg, w.cfg.maxRx)
    ensures R.AsyncAccepted(w, RequestOnWire(r))
  {
  }

  /** What answering a request other than a clear changes, in the terms of the invariant. */
  ghost predicate Polled(w: Conn, v: Conn, flag: bool) {
    && v.rmtExpected == (w.rmtExpected && !flag)
    && v.sync == w.sync && v.cfg == w.cfg && v.lastReceived == w.lastReceived && v.policy == w.policy
    && v.state == w.state && v.tx == w.tx && v.version == w.version && v.counters == w.counters
    && Replied(w, v)
  }

  ghost predicate Replied(w: Conn, v: Conn) {
    exists m :: v.async == w.async + [m] && Settles(m)
  }

  lemma StatusPolls(w: Conn, h: Header, stb: Option<StatusRegister>)
    ensures Polled(w, R.StatusResult(w, h, stb), RmtDelivered(h))
  {
    hide StatusByte, Replied;
    var v := Call(w, DevStatus).(rmtExpected := w.rmtExpected && !RmtDelivered(h));
    match stb
    case None => AnswerReplies(v, ErrorMsg(CODE_HANDSHAKE_TIMEOUT));
      SameLog(w, v, R.StatusResult(w, h, stb));
    case Some(b) =>
      var u := v.(srqLatched := false, srqStatus := NO_STATUS);
      AnswerReplies(u, AsyncStatusResponse(StatusByte(w, b, h.parameter, RmtDelivered(h))));
      SameLog(w, u, R.StatusResult(w, h, stb));
  }

  lemma SameLog(w: Conn, u: Conn, v: Conn)
    requires u.async == w.async && Replied(u, v)
    ensures Replied(w, v)
  {
  }

  lemma ServeStatus(w: Conn, r: Request, env: AsyncEnv, k: Counters)
    requires Sound(w, k) && w.state.Ready? && r.Query?
    ensures var v := Step(w, AsyncMsg(RequestOnWire(r), env));
            Sound(v, k) && Polled(w, v, r.flag)
  {
    hide Step, StatusByte, R.AsyncAccepted, R.Bystander, R.ClearResult, R.StatusResult, Replied;
    RequestsAreAccepted(w, r);
    R.AsyncStep(w, RequestOnWire(r), env);
    R.StepInv(w, AsyncMsg(RequestOnWire(r), env));
    StatusPolls(w, RequestOnWire(r).header, env.stb);
    hide R.Inv;
  }

  lemma AnswerReplies(w: Conn, m: Msg)
    requires Settles(m)
    ensures Replied(w, Put(w, Asynchronous, m))
  {
    assert Put(w, Asynchronous, m).async == w.async + [m];
  }

  lemma ReportReplies(w: Conn, e: Error)
    requires FatalCode(e) == None
    ensures Replied(w, ReportOperation(w, Asynchronous, e).0)
  {
    hide Put, Replied;
    var code := NonFatalCode(e);
    AnswerReplies(w, ErrorMsg(if code == 0 then CODE_HANDSHAKE_TIMEOUT else code));
  }

  lemma LockReplies(w: Conn, h: Header, p: seq<byte>)
    ensures Replied(w, Reply(DoLock(w, h, p)).0)
  {
    hide L.Apply, LockCode, L.RequestOp, ReportOperation;
    if h.control > 1 {
      ReportReplies(w, UnrecognizedControlCode);
    } else {
      var (locks, r) := L.Apply(w.locks, w.sessionId, if h.control == 1 then L.RequestOp(p) else L.Release);
      AnswerReplies(w.(locks := locks), AsyncLockResponse(LockCode(r)));
    }
  }

  lemma RemoteReplies(w: Conn, h: Header, ok: bool)
    ensures Replied(w, Reply(DoRemoteLocal(w, h, ok)).0)
  {
    hide ReportOperation;
    if h.control > 6 {
      ReportReplies(w, UnrecognizedControlCode);
    } else {
      ReportReplies(Call(w, DevRemoteLocal(h.control)), DeviceError);
      AnswerReplies(Call(w, DevRemoteLocal(h.control)), AsyncRemoteLocalResponse);
    }
  }

  lemma OtherReplies(w: Conn, size: uint64)
    ensures Replied(w, DoLockInfo(w)) && Replied(w, MaximumMessageSize(w, size))
  {
    hide Holders;
    AnswerReplies(w, AsyncLockInfoResponse(if w.locks.exclusive.Some? then 1 else 0,
                                           |Holders(w.locks)| % 0x1_0000_0000));
    AnswerReplies(if size >= MIN_MAXIMUM_MESSAGE_SIZE then w.(maxTx := size) else w,
                  AsyncMaximumMessageSizeResponse(w.cfg.maxRx));
  }

  lemma OperationReplies(w: Conn, m: Received, env: AsyncEnv)
    requires R.AsyncAccepted(w, m) && IsOperation(m, w.cfg.maxRx)
    ensures Replied(w, HandleAsync(w, m, env).0)
  {
    hide Accept, Replied, Reply, DoLock, DoRemoteLocal, DoLockInfo, MaximumMessageSize, DecodedSize, BeginDeviceClear,
      StatusQuery;
    LockReplies(w, m.header, m.payload);
    RemoteReplies(w, m.header, env.remoteOk);
    OtherReplies(w, DecodedSize(m.payload));
  }

  lemma ServeOperation(w: Conn, r: Request, env: AsyncEnv, k: Counters)
    requires Sound(w, k) && w.state.Ready? && r.Operation? && IsOperation(r.msg, w.cfg.maxRx)
    ensures var v := Step(w, AsyncMsg(RequestOnWire(r), env));
            Sound(v, k) && Polled(w, v, false)
  {
    hide HandleAsync, HandleSync, R.AsyncAccepted, Replied, R.Replies;
    RequestsAreAccepted(w, r);
    OperationReplies(w, r.msg, env);
    R.OtherAsync(w, r.msg, env);
    R.StepInv(w, AsyncMsg(r.msg, env));
    hide R.Inv;
  }

  lemma ServeClearRequest(w: Conn, env: AsyncEnv, k: Counters)
    requires Sound(w, k) && w.state.Ready?
    ensures var v := Step(w, AsyncMsg(RequestOnWire(ClearRequest), env));
            && Sound(v, k) && v.state.Clearing? && v.sync == w.sync
            && v.async == w.async + [AsyncDeviceClearAcknowledge(0)] && v.policy == w.policy
  {
    hide Step, R.AsyncAccepted, R.Bystander, R.StatusResult;
    RequestsAreAccepted(w, ClearRequest);
    R.AsyncStep(w, RequestOnWire(ClearRequest), env);
    R.StepInv(w, AsyncMsg(RequestOnWire(ClearRequest), env));
    hide R.Inv;
  }

  /** Serving a request: a timely report on the asynchronous channel settles the account. */
  lemma PollKeepsAgreed(n: Net, n': Net, flag: bool)
    requires n.seen <= |n.w.sync| && Agreed(n) && |n.requests| == 1 && flag == Flagged(n.requests)
    requires flag ==> !n.late
    requires n' == n.(w := n'.w, requests := []) && Polled(n.w, n'.w, flag)
    ensures Agreed(n')
  {
    hide Quiet, IsQuery, Scan, Core, After, Nth, Previous, EndsOnce, NoAck, Replied;
    assert Unread(n') == Unread(n);
  }

  /** A reply comes after whatever is already unheard. */
  lemma ReplyIsUnheard(n: Net, v: Conn) returns (m: Msg)
    requires n.heard <= |n.w.async| && Replied(n.w, v)
    ensures Settles(m) && n.heard <= |v.async| && Solicited(v.async[n.heard..]) == Unheard(n) + [m]
  {
    m :| v.async == n.w.async + [m] && Settles(m);
    SolicitedAppend(n.w.async[n.heard..], m);
    assert v.async[n.heard..] == n.w.async[n.heard..] + [m];
  }

  lemma ServeQueryInv(n: Net, env: AsyncEnv, k: Counters)
    requires Inv(n, k) && Enabled(n, ServeAsync(env)) && Timely(n, ServeAsync(env)) && n.phase.Talking?
    ensures Inv(ServingAsync(n, env), k)
  {
    hide Step, Sound, Numbered, Waiting, Accounted, InClear, Dropped, IsOperation, Replied, Solicited;
    var n' := ServingAsync(n, env);
    if n.requests[0].Query? {
      ServeStatus(n.w, n.requests[0], env, k);
    } else {
      ServeOperation(n.w, n.requests[0], env, k);
    }
    PollKeepsAgreed(n, n', Flagged(n.requests));
    var m := ReplyIsUnheard(n, n'.w);
  }

  /** An instrument event adds at most a service request. */
  lemma ServeInstrument(w: Conn, status: StatusRegister, k: Counters)
    requires Sound(w, k)
    ensures var v := Step(w, InstrumentEvent(status));
            && Sound(v, k) && v == w.(async := v.async, srqLatched := v.srqLatched, srqStatus := v.srqStatus)
            && (v.async == w.async || v.async == w.async + [AsyncServiceRequest(status)])
  {
    hide HandleSync, HandleAsync;
    R.StepInv(w, InstrumentEvent(status));
    hide R.Inv;
  }

  lemma InstrumentInv(n: Net, status: StatusRegister, k: Counters)
    requires Inv(n, k)
    ensures Inv(Act(n, Instrument(status)), k)
  {
    hide Step, Sound, Agreed, Dropped, InClear, Asynchrony, Solicited;
    var n' := Act(n, Instrument(status));
    ServeInstrument(n.w, status, k);
    var raw := n.w.async[n.heard..];
    SolicitedAppend(raw, AsyncServiceRequest(status));
    assert n'.w.async[n.heard..] == raw || n'.w.async[n.heard..] == raw + [AsyncServiceRequest(status)];
    SameEnds(n, n');
  }

  lemma ServeClearRequestInv(n: Net, env: AsyncEnv, k: Counters)
    requires Inv(n, k) && Enabled(n, ServeAsync(env)) && !n.phase.Talking?
    ensures Inv(ServingAsync(n, env), k)
  {
    hide Step, Solicited, Sound;
    var n' := ServingAsync(n, env);
    assert n.phase.Requested? && n.requests == [ClearRequest] && !n.late;
    ServeClearRequest(n.w, env, k);
    assert AllPrograms(n.toServer) && NoAck(Unread(n)) && Core(n.w.policy) == Core(Scan(FRESH, n.taken)) by {
      hide Quiet, IsQuery, Scan, Core, After, Nth, Previous, EndsOnce, NoAck;
    }
    hide Agreed, Dropped, AllPrograms, NoAck, Core, Scan;
    var m := AsyncDeviceClearAcknowledge(0);
    SolicitedAppend(n.w.async[n.heard..], m);
    assert n'.w.async[n.heard..] == n.w.async[n.heard..] + [m];
    assert Unread(n') == Unread(n) && Unheard(n') == Unheard(n) + [m];
  }

  lemma ServeAsyncInv(n: Net, env: AsyncEnv, k: Counters)
    requires Inv(n, k) && Enabled(n, ServeAsync(env)) && Timely(n, ServeAsync(env))
    ensures Inv(Act(n, ServeAsync(env)), k)
  {
    hide Inv, ServingAsync;
    if n.phase.Talking? {
      ServeQueryInv(n, env, k);
    } else {
      ServeClearRequestInv(n, env, k);
    }
  }

  lemma StepInv(n: Net, a: Action, k: Counters)
    requires Inv(n, k) && Enabled(n, a) && Orderly(n, a)
    ensures Inv(Act(n, a), k)
  {
    match a
    case Send(kind, payload) => SendInv(n, kind, payload, k);
    case Ask => RequestInv(n, a, k);
    case Operate(_) => RequestInv(n, a, k);
    case RequestClear => RequestInv(n, a, k);
    case TakeSync => TakeSyncInv(n, k);
    case TakeAsync => TakeAsyncInv(n, k);
    case ServeSync(env) => ServeSyncInv(n, env, k);
    case Raise => RaiseInv(n, k);
    case ServeAsync(aenv) => ServeAsyncInv(n, aenv, k);
    case Instrument(status) => InstrumentInv(n, status, k);
    hide Inv, Step;
  }

  lemma {:induction false} RunInv(n: Net, acts: seq<Action>, k: Counters)
    requires Inv(n, k) && Legal(n, acts) && OrderlyRun(n, acts)
    ensures Inv(Exec(n, acts), k)
    decreases |acts|
  {
    hide Inv, Act, Enabled, Orderly;
    if acts != [] {
      StepInv(n, acts[0], k);
      RunInv(Act(n, acts[0]), acts[1..], k);
    }
  }

  // ---------------------------------------------------------------- the main results

  /** In every run of the two together whose clears are clean, the server never sees an RMT mismatch, never
      sends an Interrupted transaction, and never closes the session or leaves a transaction unfinished. */
  lemma NeverInterrupted(w: Conn, acts: seq<Action>)
    requires R.Starts(w) && !Less(w.version, Version(1, 0)) && Legal(Start(w), acts) && OrderlyRun(Start(w), acts)
    ensures var n := Exec(Start(w), acts);
            && n.w.counters.silentInterrupted == 0 && n.w.counters.interruptedSent == 0
            && !n.w.state.Closed? && n.w.tx.state != InputComplete
  {
    StartInv(w);
    RunInv(Start(w), acts, Counters(0, 0, 0, 0));
  }

  /** Outside a clear, the client's last MessageID is the server's, advanced by the number of synchronous messages
      under way; so a status query sent now names the server's last message exactly when none are. */
  lemma CountersAgree(w: Conn, acts: seq<Action>)
    requires R.Starts(w) && !Less(w.version, Version(1, 0)) && Legal(Start(w), acts) && OrderlyRun(Start(w), acts)
    ensures var n := Exec(Start(w), acts);
            n.phase.Talking? ==> LastId(n) == Advance(n.w.lastReceived, |n.toServer|)
  {
    hide Exec, Nth, Previous, Advance, Waiting, Accounted, InClear, Sound, Asynchrony, Start, Legal, OrderlyRun;
    StartInv(w);
    RunInv(Start(w), acts, Counters(0, 0, 0, 0));
    var n := Exec(Start(w), acts);
    if n.phase.Talking? {
      AdvanceLast(n.sent - |n.toServer|, |n.toServer|);
    }
  }

  lemma {:induction false} AdvanceLast(i: nat, d: nat)
    ensures Previous(Nth(i + d)) == Advance(Previous(Nth(i)), d)
  {
    AdvanceNext(Previous(Nth(i)), 0);
    if d > 0 {
      AdvanceLast(i, d - 1);
      AdvanceNext(Previous(Nth(i)), d - 1);
      LastTaken(i + d);
    }
  }

  /** A client that waits for a response either has its query under way or the end of the response coming, and
      every response end it takes outside a clear is for its own last message. */
  lemma ResponsesMatchQueries(w: Conn, acts: seq<Action>)
    requires R.Starts(w) && !Less(w.version, Version(1, 0)) && Legal(Start(w), acts) && OrderlyRun(Start(w), acts)
    ensures var n := Exec(Start(w), acts);
            && n.seen <= |n.w.sync|
            && (n.phase.Talking? && n.awaiting && n.toServer == [] ==> exists m | m in n.w.sync[n.seen..] :: m.DataEnd?)
            && (n.phase.Talking? && n.seen < |n.w.sync| && n.w.sync[n.seen].DataEnd? ==>
                  n.awaiting && n.w.sync[n.seen].id == LastId(n))
  {
    hide Exec, Legal, OrderlyRun, Start, Inv, LastId;
    StartInv(w);
    RunInv(Start(w), acts, Counters(0, 0, 0, 0));
    var n := Exec(Start(w), acts);
    ReadWithinLog(n, Counters(0, 0, 0, 0));
    if n.phase.Talking? {
      if n.awaiting && n.toServer == [] {
        EndIsComing(n, Counters(0, 0, 0, 0));
      }
      if n.seen < |n.w.sync| && n.w.sync[n.seen].DataEnd? {
        EndIsMine(n, Counters(0, 0, 0, 0));
      }
    }
  }

  lemma ReadWithinLog(n: Net, k: Counters)
    requires Inv(n, k)
    ensures n.seen <= |n.w.sync|
  {
  }

  lemma EndIsComing(n: Net, k: Counters)
    requires Inv(n, k) && n.phase.Talking? && n.awaiting && n.toServer == []
    ensures n.seen <= |n.w.sync| && !NoEnd(Unread(n)) && exists m | m in n.w.sync[n.seen..] :: m.DataEnd?
  {
    hide Sound, Asynchrony, Numbered, Accounted, Scan, Core, IsQuery, Nth, Previous;
    var u := Unread(n);
    var i :| 0 <= i < |u| && u[i].DataEnd?;
    assert u[i] in u;
  }

  lemma EndIsMine(n: Net, k: Counters)
    requires Inv(n, k) && n.phase.Talking? && n.seen < |n.w.sync| && n.w.sync[n.seen].DataEnd?
    ensures n.awaiting && n.w.sync[n.seen].id == LastId(n)
  {
    hide Sound, Asynchrony, Numbered, Accounted, Scan, Core, IsQuery, Nth, Previous;
    var u := Unread(n);
    assert u[0] == n.w.sync[n.seen] && !NoEnd(u);
    assert |u| == 1;
  }
}
