/** Status queries, clear requests and instrument events interleaved anywhere inside the handling of a synchronous
    message (server/status.go, server/async.go, server/data.go, server/serve.go). */
module InFlight {
  import opened Basics
  import opened Framing
  import opened MessageIds
  import opened Messages
  import opened Transactions
  import opened ScpiPolicy
  import opened Engine
  import R = Runs

  /** The session, the header of the program message or trigger the synchronous loop is serving, the MessageID that
      message's response is attributed to while SendResponse runs, and whether that response has been interrupted
      or abandoned by a clear. */
  datatype World = World(w: Conn, serving: Option<Header>, answering: Option<MessageId>, cut: bool)

  datatype Action =
    // the synchronous loop
    | Arrival(h: Header)                             // the RMT check and the MessageID
    | Work                                           // a device call, a packet, a report, a counter
    | BeginResponse                                  // SendResponse raises the pending flag
    | CutShort                                       // sendInterrupted
    | Terminate                                      // the DataEnd, RMT-expected and the last MessageID
    | EndResponse                                    // SendResponse returns
    | Done                                           // the loop takes the next message
    | ClearCompleted(done: Header, clearOk: bool)    // DeviceClearComplete
    // the asynchronous loop and the instrument
    | ClearRequested                                 // AsyncDeviceClear
    | Query(q: Header, stb: Option<StatusRegister>)  // AsyncStatusQuery and the device's serial poll
    | Aside                                          // locks, limits, remote/local
    | Instrument(status: StatusRegister)             // a service request

  /** What the synchronous loop changes besides the status, the RMT expectation and the last MessageID. */
  ghost predicate Frame(w: Conn, v: Conn) {
    v == w.(tx := v.tx, sync := v.sync, async := v.async, device := v.device, policy := v.policy,
            counters := v.counters)
  }

  /** The synchronous loop serves one message at a time; the asynchronous handlers run at any point. */
  ghost predicate Step(s: World, s': World, a: Action) {
    match a
    case Arrival(h) => s.serving == None && s' == s.(w := Arrive(s.w, h).0, serving := Some(h))
    case Work => Frame(s.w, s'.w) && s' == s.(w := s'.w)
    case BeginResponse =>
      && s.serving.Some? && s.answering == None && Frame(s.w.(responsePending := true), s'.w)
      && s' == World(s'.w, s.serving, Some(s.serving.value.parameter), false)
    case CutShort =>
      s.answering.Some? && Frame(s.w.(responsePending := false), s'.w) && s' == s.(w := s'.w, cut := true)
    case Terminate =>
      && s.answering.Some? && Frame(s.w.(rmtExpected := true, lastTx := s.answering.value), s'.w)
      && s' == s.(w := s'.w)
    case EndResponse =>
      s.answering.Some? && s' == World(s.w.(responsePending := false), s.serving, None, false)
    case Done => s.serving.Some? && s.answering == None && s' == s.(serving := None)
    case ClearCompleted(h, ok) => s.serving == None && s' == s.(w := CompleteDeviceClear(s.w, h, ok).0)
    case ClearRequested => s' == s.(w := Reply(BeginDeviceClear(s.w)).0, cut := s.cut || RequireReady(s.w) == None)
    case Query(q, stb) => s' == s.(w := Reply(StatusQuery(s.w, q, stb)).0)
    case Aside =>
      && s' == s.(w := s'.w)
      && s'.w == s.w.(async := s'.w.async, locks := s'.w.locks, maxTx := s'.w.maxTx, device := s'.w.device)
    case Instrument(b) => s' == s.(w := ServiceRequest(s.w, b).0)
  }

  ghost predicate Init(s: World) {
    s.serving == None && s.answering == None && !s.cut && !s.w.responsePending
  }

  /** The pending flag is up exactly while an uncut response is under way; the response is to the message being
      served, and that is the message last recorded, whatever the other channel has done meanwhile. */
  ghost predicate Inv(s: World) {
    && (s.w.responsePending <==> s.answering.Some? && !s.cut)
    && (s.serving.Some? ==> s.w.lastReceived == s.serving.value.parameter)
    && (s.answering.Some? ==> s.serving.Some? && s.answering.value == s.serving.value.parameter)
  }

  // ---------------------------------------------------------------- every interleaving

  lemma QueryKeeps(w: Conn, q: Header, stb: Option<StatusRegister>)
    ensures var v := Reply(StatusQuery(w, q, stb)).0;
            v.responsePending == w.responsePending && v.lastReceived == w.lastReceived
  {
    hide StatusByte, Reply;
    ReportKeeps(StatusQuery(w, q, stb));
  }

  lemma ReportKeeps(r: (Conn, Err))
    ensures var v := Reply(r).0; v.lastReceived == r.0.lastReceived && v.responsePending == r.0.responsePending
  {
  }

  lemma RequestLowersFlag(w: Conn)
    ensures var v := Reply(BeginDeviceClear(w)).0;
            v.lastReceived == w.lastReceived && v.responsePending == (w.responsePending && RequireReady(w) != None)
  {
    hide Reply;
    ReportKeeps(BeginDeviceClear(w));
  }

  lemma CompletionLowersFlag(w: Conn, h: Header, ok: bool)
    ensures !CompleteDeviceClear(w, h, ok).0.responsePending
  {
  }

  lemma StepInv(s: World, s': World, a: Action)
    requires Inv(s) && Step(s, s', a)
    ensures Inv(s')
  {
    hide StatusQuery, BeginDeviceClear, CompleteDeviceClear, Reply;
    match a
    case Query(q, stb) => QueryKeeps(s.w, q, stb);
    case ClearRequested => RequestLowersFlag(s.w);
    case ClearCompleted(h, ok) => CompletionLowersFlag(s.w, h, ok);
    case _ =>
  }

  /** A run of steps; nothing is asked of how it begins. */
  ghost predicate Path(run: seq<World>, actions: seq<Action>) {
    |run| == |actions| + 1 && forall i | 0 <= i < |actions| :: Step(run[i], run[i + 1], actions[i])
  }

  lemma {:induction false} RunInv(run: seq<World>, actions: seq<Action>, k: nat)
    requires Path(run, actions) && Init(run[0]) && k < |run|
    ensures Inv(run[k])
  {
    if k > 0 {
      RunInv(run, actions, k - 1);
      StepInv(run[k - 1], run[k], actions[k - 1]);
    }
  }

  /** In every interleaving, the answer to a status query has MAV set exactly when SendResponse is at work on the
      message with the query's own MessageID, neither interrupted nor abandoned by a clear, and RMT-delivered is
      clear; RQS is the device's or a latched service request; every other bit is the device's. */
  lemma StatusResponseBits(run: seq<World>, actions: seq<Action>, i: nat)
    requires Path(run, actions) && Init(run[0]) && i < |actions| && actions[i].Query? && actions[i].stb.Some?
    ensures var s, q, device := run[i], actions[i].q, actions[i].stb.value;
            var mav := s.serving.Some? && s.serving.value.parameter == q.parameter && s.answering.Some? && !s.cut;
            run[i + 1].w.async
            == s.w.async + [AsyncStatusResponse(device.(mav := mav && !RmtDelivered(q),
                                                        rqs := device.rqs || s.w.srqLatched))]
  {
    RunInv(run, actions, i);
    assert Step(run[i], run[i + 1], actions[i]);
    R.StatusHandler(run[i].w, actions[i].q, actions[i].stb);
    hide Reply, StatusQuery;
  }

  // ---------------------------------------------------------------- the handlers are made of these steps

  /** Going on with the part of a session a response touches. */
  function Onward(s: World, x: Exchange): World { s.(w := WithExchange(s.w, x)) }

  lemma OnwardAgain(w: Conn, x: Exchange, y: Exchange)
    ensures ExchangeOf(WithExchange(w, x)) == x
    ensures WithExchange(WithExchange(w, x), y) == WithExchange(w, y)
    ensures WithExchange(w, ExchangeOf(w)) == w
  {
  }

  lemma DeliverIsWork(s: World, r: ReadResult, id: MessageId)
    requires |r.data| <= MAX_LENGTH
    ensures Step(s, Onward(s, Deliver(ExchangeOf(s.w), r, id).0), Work)
  {
    var y := Deliver(ExchangeOf(s.w), r, id).0;
    assert y.responsePending == s.w.responsePending && y.rmtExpected == s.w.rmtExpected && y.lastTx == s.w.lastTx;
    hide Deliver;
  }

  lemma TerminateIsStep(s: World, x: Exchange, id: MessageId, final: Payload)
    requires s.answering == Some(id)
    requires x.responsePending == s.w.responsePending && x.rmtExpected == s.w.rmtExpected && x.lastTx == s.w.lastTx
    ensures Step(s, Onward(s, Engine.Terminate(x, id, final).0), Terminate)
  {
    var y := Engine.Terminate(x, id, final).0;
    assert y.responsePending == s.w.responsePending && y.rmtExpected && y.lastTx == id;
    hide Engine.Terminate;
  }

  /** The branch of the loop for a device error: the terminator, or work only if a transition is refused. */
  lemma FailedIsStep(s: World, id: MessageId, delivered: nat) returns (a: Action)
    requires s.answering == Some(id)
    ensures (a == Terminate || a == Work) && Step(s, Onward(s, Failed(ExchangeOf(s.w), id, delivered).0), a)
  {
    hide Engine.Terminate;
    var x := ExchangeOf(s.w);
    var said := Say(x, ErrorMsg(CODE_RESPONSE_TIMEOUT));
    a := Terminate;
    if delivered == 0 {
      var (tx, err) := Transactions.BeginResponse(said.tx);
      if err != None {
        a := Work;
      } else {
        TerminateIsStep(s, said.(tx := tx), id, []);
      }
    } else {
      TerminateIsStep(s, said, id, []);
    }
  }

  /** The branch of the loop for a terminator the device offers. */
  lemma OfferedIsStep(s: World, id: MessageId, final: Payload, queued: bool) returns (a: Action)
    requires s.answering == Some(id)
    ensures (a == Terminate || a == CutShort || a == Work)
    ensures var y := Onward(s, Offered(ExchangeOf(s.w), id, final, queued).0);
            Step(s, if a == CutShort then y.(cut := true) else y, a)
  {
    hide Engine.Terminate;
    var x := ExchangeOf(s.w);
    a := Work;
    if queued {
      if Transactions.Interrupt(x.tx).1 == None {
        a := CutShort;
      }
    } else {
      var (tx, err) := Transactions.BeginResponse(x.tx);
      if err == None {
        a := Terminate;
        TerminateIsStep(s, x.(tx := tx), id, final);
      }
    }
  }

  lemma JoinPaths(run: seq<World>, actions: seq<Action>, run2: seq<World>, actions2: seq<Action>)
    requires Path(run, actions) && Path(run2, actions2) && run[|run| - 1] == run2[0]
    ensures Path(run + run2[1..], actions + actions2)
    ensures (run + run2[1..])[|run + run2[1..]| - 1] == run2[|run2| - 1] && (run + run2[1..])[0] == run[0]
  {
    hide Step;
    var all, acts := run + run2[1..], actions + actions2;
    forall i | 0 <= i < |acts| ensures Step(all[i], all[i + 1], acts[i]) {
      if i < |actions| {
        assert all[i + 1] == run[i + 1];
      } else {
        assert all[i] == run2[i - |actions|] && all[i + 1] == run2[i - |actions| + 1];
      }
    }
  }

  lemma OneStep(s: World, s': World, a: Action)
    requires Step(s, s', a)
    ensures Path([s, s'], [a])
  {
    hide Step;
  }

  /** The loop of SendResponse, read by read. */
  lemma {:induction false} StreamIsPath(
    s: World, script: seq<ReadResult>, size: uint64, id: MessageId, queued: bool, delivered: nat)
    returns (run: seq<World>, actions: seq<Action>)
    requires s.answering == Some(id)
    ensures Path(run, actions) && run[0] == s
    ensures var last := run[|run| - 1];
            last == Onward(s, Engine.Stream(ExchangeOf(s.w), script, size, id, queued, delivered).0).(cut := last.cut)
    decreases |script|
  {
    hide Step, Deliver, Failed, Offered, WithExchange, ExchangeOf;
    var r := NextRead(script, size);
    var (y, err) := Deliver(ExchangeOf(s.w), r, id);
    var s1 := Onward(s, y);
    DeliverIsWork(s, r, id);
    OneStep(s, s1, Work);
    OnwardAgain(s.w, y, y);
    run, actions := [s, s1], [Work];
    if err == None {
      var total := if IsChunk(r) then delivered + |r.data| else delivered;
      var run2, actions2;
      if r.fails {
        var a := FailedIsStep(s1, id, total);
        var s2 := Onward(s1, Failed(y, id, total).0);
        OneStep(s1, s2, a);
        run2, actions2 := [s1, s2], [a];
        OnwardAgain(s.w, y, Failed(y, id, total).0);
      } else if r.end {
        var a := OfferedIsStep(s1, id, r.data, queued);
        var s2 := Onward(s1, Offered(y, id, r.data, queued).0);
        s2 := if a == CutShort then s2.(cut := true) else s2;
        OneStep(s1, s2, a);
        run2, actions2 := [s1, s2], [a];
        OnwardAgain(s.w, y, Offered(y, id, r.data, queued).0);
      } else {
        run2, actions2 := StreamIsPath(s1, Rest(script), size, id, queued, total);
        OnwardAgain(s.w, y, Engine.Stream(y, Rest(script), size, id, queued, total).0);
      }
      JoinPaths(run, actions, run2, actions2);
      run, actions := run + run2[1..], actions + actions2;
    }
  }

  /** A response attempt, taken alone, is the pending flag going up, the rounds of the loop, and the flag going
      down; one that is refused at the start is no step at all. */
  lemma ResponseIsPath(s: World, script: seq<ReadResult>, size: uint64, queued: bool)
    returns (run: seq<World>, actions: seq<Action>)
    requires s.serving.Some? && s.answering == None && !s.cut
    ensures Path(run, actions) && run[0] == s
    ensures run[|run| - 1] == s.(w := SendResponse(s.w, script, size, s.serving.value.parameter, queued).0)
  {
    hide Step, Engine.Stream;
    var id := s.serving.value.parameter;
    var (tx, err) := ExpectResponse(s.w.tx);
    run, actions := [s], [];
    if ValidateResponse(s.w, size) == None && err == None {
      var x := ExchangeOf(s.w).(tx := tx, responsePending := true);
      var s1 := World(WithExchange(s.w, x), s.serving, Some(id), false);
      RaiseIsStep(s, tx);
      OneStep(s, s1, BeginResponse);
      OnwardAgain(s.w, x, x);
      var run2, actions2 := StreamIsPath(s1, script, size, id, queued, 0);
      var s2 := run2[|run2| - 1];
      var y := Engine.Stream(x, script, size, id, queued, 0).0;
      OnwardAgain(s.w, x, y);
      LowerIsStep(s2);
      var s3 := World(s2.w.(responsePending := false), s2.serving, None, false);
      OneStep(s2, s3, EndResponse);
      JoinPaths([s, s1], [BeginResponse], run2, actions2);
      run, actions := [s, s1] + run2[1..], [BeginResponse] + actions2;
      JoinPaths(run, actions, [s2, s3], [EndResponse]);
      run, actions := run + [s2, s3][1..], actions + [EndResponse];
    }
  }

  lemma RaiseIsStep(s: World, tx: Tx)
    requires s.serving.Some? && s.answering == None
    ensures var x := ExchangeOf(s.w).(tx := tx, responsePending := true);
            Step(s, World(WithExchange(s.w, x), s.serving, Some(s.serving.value.parameter), false), BeginResponse)
  {
  }

  lemma LowerIsStep(s: World)
    requires s.answering.Some?
    ensures Step(s, World(s.w.(responsePending := false), s.serving, None, false), EndResponse)
  {
  }

  /** Between two messages of the synchronous channel. */
  function Idle(w: Conn): World { World(w, None, None, false) }

  lemma ArrivesAndWorks(w: Conn, h: Header, v: Conn)
    requires Frame(Arrive(w, h).0, v)
    ensures Path([Idle(w), World(Arrive(w, h).0, Some(h), None, false), World(v, Some(h), None, false)],
                 [Arrival(h), Work])
  {
    hide Frame, Arrive;
    OneStep(Idle(w), World(Arrive(w, h).0, Some(h), None, false), Arrival(h));
    OneStep(World(Arrive(w, h).0, Some(h), None, false), World(v, Some(h), None, false), Work);
    JoinPaths([Idle(w), World(Arrive(w, h).0, Some(h), None, false)], [Arrival(h)],
              [World(Arrive(w, h).0, Some(h), None, false), World(v, Some(h), None, false)], [Work]);
  }

  lemma WorksAndIsDone(w: Conn, h: Header, v: Conn)
    requires Frame(w, v)
    ensures Path([World(w, Some(h), None, false), World(v, Some(h), None, false), Idle(v)], [Work, Done])
  {
    hide Frame;
    OneStep(World(w, Some(h), None, false), World(v, Some(h), None, false), Work);
    OneStep(World(v, Some(h), None, false), Idle(v), Done);
    JoinPaths([World(w, Some(h), None, false), World(v, Some(h), None, false)], [Work],
              [World(v, Some(h), None, false), Idle(v)], [Done]);
  }

  lemma PutIsWork(w: Conn, m: Msg)
    ensures Frame(w, Put(w, Synchronous, m))
  {
  }

  lemma ReportIsWork(w: Conn, e: Error)
    ensures Frame(w, ReportOperation(w, Synchronous, e).0)
  {
    hide FatalCode, NonFatalCode, Frame;
    forall m ensures Frame(w, Put(w, Synchronous, m)) {
      PutIsWork(w, m);
    }
  }

  lemma FrameJoins(u: Conn, v: Conn, w: Conn)
    requires Frame(u, v) && Frame(v, w)
    ensures Frame(u, w)
  {
  }

  lemma ReceiveIsWork(w: Conn, h: Header, payload: seq<byte>, ok: bool)
    ensures Frame(Arrive(w, h).0, ReceiveData(w, h, payload, ok).0)
  {
    hide Arrive;
  }

  lemma CallIsWork(w: Conn, tx: Tx, after: Tx)
    ensures var v := Call(w.(tx := tx), DevTrigger); Frame(w, v) && v.tx == tx && Frame(w, v.(tx := after))
  {
  }

  lemma TriggerIsWork(w: Conn, h: Header, ok: bool)
    ensures Frame(Arrive(w, h).0, DoTrigger(w, h, ok).0)
  {
    hide Arrive, CompleteInput, Complete, Frame;
    var u := Arrive(w, h).0;
    var (tx, err) := CompleteInput(u.tx, h.parameter);
    FrameSelf(u);
    CallIsWork(u, tx, tx);
    CallIsWork(u, tx, Complete(tx).0);
  }

  /** A message whose handling is arrival and work. */
  lemma WorkIsPath(w: Conn, h: Header, v: Conn) returns (run: seq<World>, actions: seq<Action>)
    requires Frame(Arrive(w, h).0, v)
    ensures Path(run, actions) && run[0] == Idle(w) && run[|run| - 1] == Idle(v)
  {
    hide Step, Arrive;
    ArrivesAndWorks(w, h, v);
    FrameSelf(v);
    WorksAndIsDone(v, h, v);
    hide Frame;
    var run1 := [Idle(w), World(Arrive(w, h).0, Some(h), None, false), World(v, Some(h), None, false)];
    var run2 := [World(v, Some(h), None, false), World(v, Some(h), None, false), Idle(v)];
    JoinPaths(run1, [Arrival(h), Work], run2, [Work, Done]);
    run, actions := run1 + run2[1..], [Arrival(h), Work] + [Work, Done];
  }

  lemma FrameSelf(w: Conn)
    ensures Frame(w, w)
  {
  }

  /** A message with a response between its arrival and its end. */
  lemma ResponseWithinMessage(
    w: Conn, h: Header, mid: Conn, script: seq<ReadResult>, size: uint64, queued: bool, v: Conn)
    returns (run: seq<World>, actions: seq<Action>)
    requires Frame(Arrive(w, h).0, mid) && Frame(SendResponse(mid, script, size, h.parameter, queued).0, v)
    ensures Path(run, actions) && run[0] == Idle(w) && run[|run| - 1] == Idle(v)
  {
    hide Step, Arrive, SendResponse;
    ArrivesAndWorks(w, h, mid);
    var u := SendResponse(mid, script, size, h.parameter, queued).0;
    WorksAndIsDone(u, h, v);
    hide Frame;
    var s := World(mid, Some(h), None, false);
    var run1 := [Idle(w), World(Arrive(w, h).0, Some(h), None, false), s];
    var run2, actions2 := ResponseIsPath(s, script, size, queued);
    var run3 := [World(u, Some(h), None, false), World(v, Some(h), None, false), Idle(v)];
    JoinPaths(run1, [Arrival(h), Work], run2, actions2);
    run, actions := run1 + run2[1..], [Arrival(h), Work] + actions2;
    JoinPaths(run, actions, run3, [Work, Done]);
    run, actions := run + run3[1..], actions + [Work, Done];
  }

  lemma PolicyIsWork(u: Conn, w: Conn, l: Lexer)
    requires Frame(u, w)
    ensures Frame(u, w.(policy := l)) && Frame(u, w.(policy := l, tx := Complete(w.tx).0))
  {
  }

  lemma CountIsWork(w: Conn, k: Counters, err: Err)
    ensures var v := w.(counters := k);
            Frame(w, v) && (err != None ==> Frame(w, ReportOperation(v, Synchronous, err.value).0))
  {
    var v := w.(counters := k);
    if err != None {
      ReportIsWork(v, err.value);
      FrameJoins(w, v, ReportOperation(v, Synchronous, err.value).0);
    }
    hide ReportOperation;
  }

  lemma ProgramIsPath(w: Conn, h: Header, payload: seq<byte>, env: SyncEnv)
    returns (run: seq<World>, actions: seq<Action>)
    ensures Path(run, actions) && run[0] == Idle(w) && run[|run| - 1] == Idle(HandleData(w, h, payload, env).0)
  {
    hide Step, Arrive, Frame, ReceiveData, SendResponse, Scan, CountOutcome, ReportOperation, Idle;
    var u := Arrive(w, h).0;
    var (w1, err) := ReceiveData(w, h, payload, env.writeOk);
    ReceiveIsWork(w, h, payload, env.writeOk);
    var policy := Scan(w1.policy, payload);
    var w2 := w1.(policy := policy);
    PolicyIsWork(u, w1, policy);
    PolicyIsWork(u, w2, FRESH);
    if err != None {
      ReportIsWork(w1, err.value);
      FrameJoins(u, w1, ReportOperation(w1, Synchronous, err.value).0);
      run, actions := WorkIsPath(w, h, ReportOperation(w1, Synchronous, err.value).0);
    } else if h.msgType != DATA_END {
      run, actions := WorkIsPath(w, h, w2);
    } else if !policy.found {
      run, actions := WorkIsPath(w, h, w2.(policy := FRESH, tx := Complete(w2.tx).0));
    } else {
      var mid := w2.(policy := FRESH);
      var size := ScratchSize(mid.cfg.maxTx, mid.maxTx);
      var (w3, o, e) := SendResponse(mid, env.script, size, h.parameter, env.queued);
      CountIsWork(w3, CountOutcome(w3.counters, o), e);
      run, actions := ResponseWithinMessage(w, h, mid, env.script, size, env.queued, HandleData(w, h, payload, env).0);
    }
  }

  lemma TriggerIsPath(w: Conn, h: Header, ok: bool) returns (run: seq<World>, actions: seq<Action>)
    ensures var (v, err) := DoTrigger(w, h, ok);
            && Path(run, actions) && run[0] == Idle(w)
            && run[|run| - 1] == Idle(if err != None then ReportOperation(v, Synchronous, err.value).0 else v)
  {
    hide Step, Arrive, Frame, DoTrigger, ReportOperation;
    var (v, err) := DoTrigger(w, h, ok);
    TriggerIsWork(w, h, ok);
    if err != None {
      ReportIsWork(v, err.value);
      FrameJoins(Arrive(w, h).0, v, ReportOperation(v, Synchronous, err.value).0);
    }
    run, actions := WorkIsPath(w, h, if err != None then ReportOperation(v, Synchronous, err.value).0 else v);
  }

  lemma TalkIsWork(w: Conn, v: Conn)
    requires R.OnlyTalks(w, v)
    ensures Path([Idle(w), Idle(v)], [Work])
  {
    hide R.Replies;
  }

  /** Every synchronous message's handler, taken alone, is a path of these steps. */
  lemma SyncHandlerIsPath(w: Conn, m: Received, env: SyncEnv) returns (run: seq<World>, actions: seq<Action>)
    ensures Path(run, actions) && run[0] == Idle(w) && run[|run| - 1] == Idle(HandleSync(w, m, env).0)
  {
    hide Path, HandleData, DoTrigger, CompleteDeviceClear, ReportOperation, Report, R.OnlyTalks, Accept, Idle;
    var h := m.header;
    if R.Accepted(w, m) && R.IsProgram(m) {
      run, actions := ProgramIsPath(w, h, m.payload, env);
    } else if R.Accepted(w, m) && R.IsTrigger(m) {
      run, actions := TriggerIsPath(w, h, env.triggerOk);
    } else if R.Accepted(w, m) && h.msgType == DEVICE_CLEAR_COMPLETE {
      ClearIsPath(w, h, env.clearOk);
      run, actions := [Idle(w), Idle(HandleSync(w, m, env).0)], [ClearCompleted(h, env.clearOk)];
    } else {
      R.OtherSyncOnlyTalks(w, m, env);
      TalkIsWork(w, HandleSync(w, m, env).0);
      run, actions := [Idle(w), Idle(HandleSync(w, m, env).0)], [Work];
    }
  }

  lemma ClearIsPath(w: Conn, h: Header, ok: bool)
    ensures Path([Idle(w), Idle(CompleteDeviceClear(w, h, ok).0)], [ClearCompleted(h, ok)])
  {
    hide CompleteDeviceClear;
  }

  /** Every asynchronous message's handler is one of these steps, at whatever point it comes. */
  lemma AsyncHandlerIsStep(s: World, m: Received, env: AsyncEnv) returns (s': World, a: Action)
    ensures s' == s.(w := HandleAsync(s.w, m, env).0, cut := s'.cut) && Step(s, s', a)
  {
    hide BeginDeviceClear, StatusQuery, Reply, Accept, DoLock, DoLockInfo, DoRemoteLocal, MaximumMessageSize,
      DecodedSize, R.Replies, Report, ReportRead;
    s' := s.(w := HandleAsync(s.w, m, env).0);
    if R.AsyncAccepted(s.w, m) && R.IsClear(m) {
      s' := s'.(cut := s.cut || RequireReady(s.w) == None);
      a := ClearRequested;
    } else if R.AsyncAccepted(s.w, m) && R.IsStatusQuery(m) {
      a := Query(m.header, env.stb);
    } else {
      R.OtherAsync(s.w, m, env);
      hide HandleAsync;
      a := Aside;
    }
  }
}
