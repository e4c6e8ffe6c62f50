/** What a device clear that leaves program text behind in the classifier does to a client that keeps the rules:
    completeClear in server/session.go does not reset the response policy. */
module ClearResidue {
  import opened Basics
  import opened MessageIds
  import opened Messages
  import opened ScpiPolicy
  import opened ScpiTokens
  import opened Engine
  import opened TwoParty
  import R = Runs

  /** However the two go on, in order, the server sees no RMT mismatch. */
  ghost predicate NeverMismatches(n: Net) {
    forall acts | Legal(n, acts) && OrderlyRun(n, acts) ::
      Exec(n, acts).w.counters.silentInterrupted == n.w.counters.silentInterrupted
  }

  // ---------------------------------------------------------------- putting continuations together

  lemma {:induction false} ExecAppend(n: Net, a: seq<Action>, b: seq<Action>)
    requires Legal(n, a) && Legal(Exec(n, a), b)
    ensures Legal(n, a + b) && Exec(n, a + b) == Exec(Exec(n, a), b)
    ensures OrderlyRun(n, a) && OrderlyRun(Exec(n, a), b) ==> OrderlyRun(n, a + b)
    decreases |a|
  {
    hide Act, Enabled, Orderly;
    if a == [] {
      assert a + b == b;
    } else {
      ExecAppend(Act(n, a[0]), a[1..], b);
      assert (a + b)[0] == a[0] && (a + b)[1..] == a[1..] + b;
    }
  }

  lemma ExecOne(n: Net, a: Action)
    requires Enabled(n, a)
    ensures Legal(n, [a]) && Exec(n, [a]) == Act(n, a) && (Orderly(n, a) ==> OrderlyRun(n, [a]))
  {
    hide Act, Enabled, Orderly;
    assert [a][1..] == [];
  }

  /** An orderly continuation, the state it ends in, and what it does to the mismatch counter. */
  ghost predicate Leads(n: Net, acts: seq<Action>, n': Net, mismatches: nat) {
    && Legal(n, acts) && OrderlyRun(n, acts) && Exec(n, acts) == n'
    && n'.w.counters.silentInterrupted == n.w.counters.silentInterrupted + mismatches
  }

  lemma LeadsOne(n: Net, a: Action, mismatches: nat)
    requires Enabled(n, a) && Orderly(n, a)
    requires Act(n, a).w.counters.silentInterrupted == n.w.counters.silentInterrupted + mismatches
    ensures Leads(n, [a], Act(n, a), mismatches)
  {
    hide Act, Enabled, Orderly, Legal, OrderlyRun, Exec;
    ExecOne(n, a);
  }

  lemma LeadsOn(n: Net, a: seq<Action>, n1: Net, i: nat, b: seq<Action>, n2: Net, j: nat)
    requires Leads(n, a, n1, i) && Leads(n1, b, n2, j)
    ensures Leads(n, a + b, n2, i + j)
  {
    hide Legal, OrderlyRun, Exec;
    ExecAppend(n, a, b);
  }

  lemma LeadsNowhere(n: Net)
    ensures Leads(n, [], n, 0)
  {
  }

  lemma MismatchAhead(n: Net, acts: seq<Action>, n': Net, mismatches: nat)
    requires Leads(n, acts, n', mismatches) && mismatches > 0
    ensures !NeverMismatches(n)
  {
    hide Legal, OrderlyRun, Exec;
  }

  // ---------------------------------------------------------------- a client that has nothing outstanding

  /** The device takes everything and has nothing to say. */
  const CALM := SyncEnv(true, true, true, [], false)

  /** Nothing is under way and the client may send. */
  ghost predicate Quiescent(n: Net) {
    && n.phase.Talking? && !n.awaiting && !n.polling && !n.rmtPending && n.toServer == [] && n.requests == [] && !n.late
    && Sound(n.w, n.w.counters) && n.w.state.Ready?
  }

  /** Nothing is owed either. */
  ghost predicate Fluent(n: Net) { Quiescent(n) && !n.w.rmtExpected }

  /** The client sends one message and the server handles it. */
  function Exchanged(kind: Kind, payload: Payload): seq<Action> { [Send(kind, payload), ServeSync(CALM)] }

  ghost function Afterwards(n: Net, kind: Kind, payload: Payload): Net {
    Serving(Sending(n, kind, payload), CALM)
  }

  ghost function OneItem(n: Net, kind: Kind, payload: Payload): Item { Program(kind, false, Nth(n.sent), payload) }

  /** The server after one more message, up to the end of a response. */
  ghost predicate Taken(w: Conn, v: Conn, it: Item)
    requires it.Program?
  {
    && Sound(v, v.counters) && v.state.Ready? && !v.rmtExpected && v.cfg == w.cfg
    && v.policy == (match it.kind case Chunk => Scan(w.policy, it.payload) case Final => FRESH case Fire => w.policy)
    && v.counters.silentInterrupted == w.counters.silentInterrupted + (if w.rmtExpected then 1 else 0)
    && (!Answers(w, it) ==> v.sync == w.sync && v.async == w.async)
  }

  lemma ServerTakes(w: Conn, it: Item)
    requires Sound(w, w.counters) && w.state.Ready? && it.Program? && !it.flag && |it.payload| <= w.cfg.maxRx
    ensures var v := Step(w, SyncMsg(OnWire(it), CALM));
            v.rmtExpected == Answers(w, it) && Taken(w, v.(rmtExpected := false), it)
  {
    hide Step, R.Inv, Scan;
    ServeProgram(w, it, CALM);
    var v := Step(w, SyncMsg(OnWire(it), CALM));
    EndedExpects(w, v, it.id);
    RaiseKeepsSound(v, v.counters, false);
    hide Ended;
  }

  lemma OneMessage(n: Net, kind: Kind, payload: Payload)
    requires Quiescent(n) && |payload| <= n.w.cfg.maxRx && (kind.Fire? ==> payload == [])
    ensures var n', it := Afterwards(n, kind, payload), OneItem(n, kind, payload);
            && Leads(n, Exchanged(kind, payload), n', if n.w.rmtExpected then 1 else 0)
            && Taken(n.w, n'.w, it) && n'.late == Answers(n.w, it)
            && n' == Sending(n, kind, payload).(w := n'.w, toServer := [], taken := TextAfter(n.taken, it),
                                                late := n'.late)
  {
    hide Step, Nth, IsQuery, Answers, Taken, Sound;
    var it := OneItem(n, kind, payload);
    var n1 := Sending(n, kind, payload);
    assert n1.toServer == [it] && n1.toServer[1..] == [];
    ServerTakes(n.w, it);
    var v := Step(n.w, SyncMsg(OnWire(it), CALM));
    var n' := Serving(n1, CALM);
    assert n'.w == v.(rmtExpected := false);
    TakenCounts(n.w, n'.w, it);
    LeadsOne(n, Send(kind, payload), 0);
    LeadsOne(n1, ServeSync(CALM), if n.w.rmtExpected then 1 else 0);
    LeadsOn(n, [Send(kind, payload)], n1, 0, [ServeSync(CALM)], n', if n.w.rmtExpected then 1 else 0);
    hide Leads;
    assert [Send(kind, payload)] + [ServeSync(CALM)] == Exchanged(kind, payload);
  }

  lemma TakenCounts(w: Conn, v: Conn, it: Item)
    requires it.Program? && Taken(w, v, it)
    ensures v.counters.silentInterrupted == w.counters.silentInterrupted + (if w.rmtExpected then 1 else 0)
  {
  }

  lemma EndedExpects(w: Conn, v: Conn, id: MessageId)
    ensures Ended(w, v, id) ==> v.rmtExpected
  {
  }

  lemma OneByte(n: Net, c: byte)
    requires Fluent(n)
    ensures var n' := Afterwards(n, Chunk, [c]);
            && Leads(n, Exchanged(Chunk, [c]), n', 0)
            && Fluent(n') && n'.text == n.text + [c] && n'.w.policy == Scan(n.w.policy, [c]) && n'.w.cfg == n.w.cfg
            && n'.w.sync == n.w.sync && n'.w.async == n.w.async && n'.seen == n.seen && n'.heard == n.heard
            && n'.taken == n.taken + [c]
  {
    hide Step, Scan, Nth, HasPlainQuery, Leads, Sound, Serving;
    ConfigAllowsByte(n);
    OneMessage(n, Chunk, [c]);
  }

  lemma ConfigAllowsByte(n: Net)
    requires Sound(n.w, n.w.counters)
    ensures n.w.cfg.maxRx >= 1
  {
  }

  function Spelling(s: seq<byte>): seq<Action> {
    if s == [] then [] else Exchanged(Chunk, [s[0]]) + Spelling(s[1..])
  }

  lemma {:induction false} SpellOut(n: Net, s: seq<byte>) returns (n': Net)
    requires Fluent(n)
    ensures Leads(n, Spelling(s), n', 0) && Fluent(n') && n'.text == n.text + s && n'.w.policy == Scan(n.w.policy, s)
    decreases |s|
  {
    if s == [] {
      assert n.text + [] == n.text;
      LeadsNowhere(n);
      n' := n;
    } else {
      hide Fluent, Leads, Exchanged, Afterwards;
      OneByte(n, s[0]);
      var n1 := Afterwards(n, Chunk, [s[0]]);
      n' := SpellOut(n1, s[1..]);
      LeadsOn(n, Exchanged(Chunk, [s[0]]), n1, 0, Spelling(s[1..]), n', 0);
      ScanAppend(n.w.policy, [s[0]], s[1..]);
      hide Scan;
      assert s == [s[0]] + s[1..];
      Associate(n.text, [s[0]], s[1..]);
    }
  }

  /** A server that expects a report the client does not owe declares a mismatch at the next message. */
  lemma ExpectsInVain(n: Net)
    requires Quiescent(n) && n.w.rmtExpected
    ensures !NeverMismatches(n)
  {
    hide Leads, Taken, Afterwards, Sending, Sound, Answers;
    OneMessage(n, Final, []);
    MismatchAhead(n, Exchanged(Final, []), Afterwards(n, Final, []), 1);
  }

  /** Whoever comes to such a state comes to a mismatch. */
  lemma Onwards(n: Net, acts: seq<Action>, n': Net)
    requires Leads(n, acts, n', 0) && !NeverMismatches(n')
    ensures !NeverMismatches(n)
  {
    hide Legal, OrderlyRun, Exec;
    var more :| Legal(n', more) && OrderlyRun(n', more)
                && Exec(n', more).w.counters.silentInterrupted != n'.w.counters.silentInterrupted;
    ExecAppend(n, acts, more);
    assert Legal(n, acts + more) && OrderlyRun(n, acts + more);
  }

  /** Where the server has found a query in a text in which the client sees none, two more empty messages
      bring a mismatch. */
  lemma TwoMore(n: Net)
    requires Fluent(n) && n.w.policy.found && !HasPlainQuery(n.text)
    ensures !NeverMismatches(n)
  {
    hide Step, Nth, HasPlainQuery, Leads, Serving, Sound;
    assert n.text + [] == n.text;
    OneMessage(n, Final, []);
    var n1 := Afterwards(n, Final, []);
    assert Scan(n.w.policy, []) == n.w.policy;
    assert n1.late && !n1.awaiting;
    var n2 := Act(n1, Raise);
    RaiseKeepsSound(n1.w, n1.w.counters, true);
    LeadsOne(n1, Raise, 0);
    ExpectsInVain(n2);
    Onwards(n1, [Raise], n2);
    Onwards(n, Exchanged(Final, []), n1);
  }

  // ---------------------------------------------------------------- after a clear

  /** The state in which a completed device clear leaves both ends, whatever is left in the classifier. */
  ghost predicate Settled(n: Net) {
    && Fluent(n) && n.text == [] && n.taken == []
    && n.seen <= |n.w.sync| && NoAck(Unread(n)) && NoEnd(Unread(n))
    && n.heard <= |n.w.async| && Unheard(n) == []
    && n.w.lastReceived == LastId(n)
  }

  lemma PolicyIsWellFormed(n: Net)
    requires Fluent(n)
    ensures WellFormed(n.w.policy)
  {
  }

  lemma HarmfulResidue(n: Net)
    requires Settled(n) && Core(n.w.policy) != FRESH
    ensures !NeverMismatches(n)
  {
    hide Scan, Lure, Spelling, HasPlainQuery, NoAck, NoEnd, R.Inv, Leads, NeverMismatches, Solicited;
    var l := n.w.policy;
    var s := Lure(l);
    PolicyIsWellFormed(n);
    LureTells(l);
    QueryDetection(s, []);
    var n1 := SpellOut(n, s);
    assert n1.text == s;
    TwoMore(n1);
    Onwards(n, Spelling(s), n1);
  }

  /** The clear is completed at the server and its acknowledgement is on its way; the classifier is as it was. */
  ghost predicate Acknowledging(n: Net) {
    && n.phase.Acknowledged? && n.toServer == [] && n.requests == [] && !n.polling && !n.late && n.taken == []
    && n.seen <= |n.w.sync| && n.heard <= |n.w.async| && Unheard(n) == []
    && Sound(n.w, n.w.counters) && n.w.state.Ready? && !n.w.rmtExpected
    && n.w.lastReceived == STATUS_QUERY_INITIAL_MESSAGE_ID
  }

  /** Serving DeviceClearComplete, clean or not. */
  lemma ServedClear(n: Net, k: Counters, env: SyncEnv)
    requires Inv(n, k) && Enabled(n, ServeSync(env)) && n.toServer[0].ClearDone?
    ensures var n' := Act(n, ServeSync(env));
            && Acknowledging(n') && AckUnderWay(Unread(n'), |Unread(n)|) && n'.w.policy == n.w.policy
            && n'.w.counters == n.w.counters
    ensures Core(n.w.policy) == Core(Scan(FRESH, n.taken))
  {
    hide Step, Core, R.Inv, AckUnderWay, NoAck, Scan, Solicited;
    assert n.phase.Acknowledged? && n.w.state.Clearing? && |n.toServer| == 1 by {
      hide Waiting, Accounted, Asynchrony;
    }
    assert n.toServer[0] == ClearDone && n.toServer[1..] == [];
    var n' := Serving(n, env);
    ClearsServer(n.w, env, n.w.counters);
    ClearKeepsCounters(n.w, env);
    var a := n'.w.sync[|n.w.sync|..];
    assert n'.w.sync == n.w.sync + a && n'.w.async == n.w.async && n'.seen == n.seen && n'.heard == n.heard;
    DropAppend(n.w.sync, a, n.seen);
    AckIsUnderWay(Unread(n), a);
    assert Unheard(n') == Unheard(n);
  }

  lemma DropAppend(s: seq<Msg>, t: seq<Msg>, i: nat)
    requires i <= |s|
    ensures (s + t)[i..] == s[i..] + t
  {
  }

  lemma ClearKeepsCounters(w: Conn, env: SyncEnv)
    requires R.Inv(w) && w.state.Clearing? && !Less(w.version, Version(1, 0))
    ensures Step(w, SyncMsg(OnWire(ClearDone), env)).counters == w.counters
  {
    hide Step, R.DataResult, R.TriggerResult, R.Bystander;
    R.SyncStep(w, OnWire(ClearDone), env);
    assert R.Accepted(w, OnWire(ClearDone));
    hide R.Accepted, R.Inv;
  }

  lemma TakesOther(n: Net, i: nat)
    requires Acknowledging(n) && AckUnderWay(Unread(n), i) && i > 0
    ensures Enabled(n, TakeSync)
    ensures var n' := Act(n, TakeSync);
            n' == n.(seen := n.seen + 1) && Acknowledging(n') && AckUnderWay(Unread(n'), i - 1)
  {
    hide Sound, Solicited;
    var u := Unread(n);
    var n' := Act(n, TakeSync);
    assert u[0] == n.w.sync[n.seen] && u[..i][0] == u[0];
    assert Unread(n') == u[1..];
    assert u[1..][..i - 1] == u[..i][1..] && u[1..][i..] == u[i + 1..];
  }

  lemma TakesAck(n: Net)
    requires Acknowledging(n) && AckUnderWay(Unread(n), 0)
    ensures Enabled(n, TakeSync)
    ensures var n' := Act(n, TakeSync); Settled(n') && n'.w == n.w
  {
    hide Sound, Solicited, Nth, Previous;
    LastTaken(0);
    var u := Unread(n);
    assert u[0] == n.w.sync[n.seen] && Unread(Act(n, TakeSync)) == u[1..];
  }

  /** From there the client comes to the acknowledgement and to a new start. */
  lemma {:induction false} ClientStartsOver(n: Net, i: nat) returns (acts: seq<Action>, n': Net)
    requires Acknowledging(n) && AckUnderWay(Unread(n), i)
    ensures Leads(n, acts, n', 0) && Settled(n') && n'.w == n.w
    decreases i
  {
    hide Acknowledging, Settled, Leads, AckUnderWay, Act;
    if i == 0 {
      TakesAck(n);
      LeadsOne(n, TakeSync, 0);
      acts, n' := [TakeSync], Act(n, TakeSync);
    } else {
      TakesOther(n, i);
      var n1 := Act(n, TakeSync);
      LeadsOne(n, TakeSync, 0);
      acts, n' := ClientStartsOver(n1, i - 1);
      LeadsOn(n, [TakeSync], n1, 0, acts, n', 0);
      acts := [TakeSync] + acts;
    }
  }

  /** In every legal run that was orderly until now, when the server is about to complete a device clear: the client is
      free of RMT mismatches in every continuation exactly when the program text the server took and the clear
      abandoned leaves the classifier as new, which is when that text in front of a message never changes whether
      the message holds a query. */
  lemma ClearDecides(w: Conn, acts: seq<Action>, env: SyncEnv)
    requires R.Starts(w) && !Less(w.version, Version(1, 0)) && Legal(Start(w), acts) && OrderlyRun(Start(w), acts)
    requires var n := Exec(Start(w), acts); Enabled(n, ServeSync(env)) && n.toServer[0].ClearDone?
    ensures var n := Exec(Start(w), acts);
            && (NeverMismatches(Act(n, ServeSync(env))) <==> Core(Scan(FRESH, n.taken)) == FRESH)
            && (NeverMismatches(Act(n, ServeSync(env))) <==>
                  forall s :: HasPlainQuery(n.taken + s) <==> HasPlainQuery(s))
  {
    hide Act, Inv, Legal, OrderlyRun, Exec, Start, Core, NeverMismatches, HasPlainQuery, Scan;
    StartInv(w);
    RunInv(Start(w), acts, Counters(0, 0, 0, 0));
    var n := Exec(Start(w), acts);
    ResidueDecides(n, Counters(0, 0, 0, 0), env);
    HarmlessText(n.taken);
  }

  /** The same from any state the invariant allows. */
  lemma ResidueDecides(n: Net, k: Counters, env: SyncEnv)
    requires Inv(n, k) && Enabled(n, ServeSync(env)) && n.toServer[0].ClearDone?
    ensures NeverMismatches(Act(n, ServeSync(env))) <==> Core(Scan(FRESH, n.taken)) == FRESH
  {
    hide Act, Inv, Core, Scan, Acknowledging, AckUnderWay, Settled, Leads, Legal, OrderlyRun, Exec;
    var n' := Act(n, ServeSync(env));
    ServedClear(n, k, env);
    if Core(n.w.policy) == FRESH {
      StepInv(n, ServeSync(env), k);
      InvKeepsCount(n', k);
      forall more | Legal(n', more) && OrderlyRun(n', more)
        ensures Exec(n', more).w.counters.silentInterrupted == n'.w.counters.silentInterrupted
      {
        RunInv(n', more, k);
        InvKeepsCount(Exec(n', more), k);
      }
    } else {
      ServedUnread(n, k);
      var more, n2 := ClientStartsOver(n', |Unread(n)|);
      HarmfulResidue(n2);
      Onwards(n', more, n2);
    }
  }

  lemma ServedUnread(n: Net, k: Counters)
    requires Inv(n, k)
    ensures n.seen <= |n.w.sync|
  {
  }

  lemma InvKeepsCount(n: Net, k: Counters)
    requires Inv(n, k)
    ensures n.w.counters.silentInterrupted == k.silentInterrupted
  {
  }

  lemma TextBefore(t: seq<byte>, s: seq<byte>)
    ensures HasPlainQuery(t + s) <==> Scan(Scan(FRESH, t), s).found
    ensures HasPlainQuery(s) <==> Scan(FRESH, s).found
  {
    QueryDetection(t + s, []);
    QueryDetection(s, []);
    ScanAppend(FRESH, t, s);
    hide Scan, HasPlainQuery;
  }

  /** Text that leaves the classifier as new is text that changes no later classification. */
  lemma HarmlessText(t: seq<byte>)
    ensures Core(Scan(FRESH, t)) == FRESH <==> forall s :: HasPlainQuery(t + s) <==> HasPlainQuery(s)
  {
    hide Scan, Core, HasPlainQuery, WellFormed;
    R.FreshIsWellFormed();
    ScanWellFormed(FRESH, t);
    var l := Scan(FRESH, t);
    ResidueIsHarmless(l);
    if SameAnswers(l) {
      forall s ensures HasPlainQuery(t + s) <==> HasPlainQuery(s) {
        TextBefore(t, s);
      }
    } else {
      var s :| Scan(l, s).found != Scan(FRESH, s).found;
      TextBefore(t, s);
    }
  }

  // ---------------------------------------------------------------- such a state is reached

  lemma StartIsFluent(w: Conn)
    requires R.Starts(w) && !Less(w.version, Version(1, 0))
    ensures var n := Start(w);
            Fluent(n) && n.w.policy == FRESH && n.taken == [] && n.heard == |n.w.async|
  {
    StartInv(w);
    hide HandleSync, HandleAsync;
  }

  /** From a client with nothing outstanding, a clear comes to the point where the server is about to complete it. */
  lemma ClearIsRequested(n: Net) returns (acts: seq<Action>, n': Net)
    requires Fluent(n) && n.heard == |n.w.async|
    ensures Leads(n, acts, n', 0) && Enabled(n', ServeSync(CALM)) && n'.toServer[0].ClearDone? && n'.taken == n.taken
  {
    hide Step, R.Inv, Nth, Leads, Core;
    var n1 := Act(n, RequestClear);
    var serve := ServeAsync(AsyncEnv(None, true));
    assert n1.requests == [ClearRequest] && n1.requests[1..] == [];
    ServeClearRequest(n1.w, AsyncEnv(None, true), n1.w.counters);
    var n2 := Act(n1, serve);
    n' := Act(n2, TakeAsync);
    LeadsOne(n, RequestClear, 0);
    LeadsOne(n1, serve, 0);
    LeadsOne(n2, TakeAsync, 0);
    LeadsOn(n, [RequestClear], n1, 0, [serve], n2, 0);
    LeadsOn(n, [RequestClear] + [serve], n2, 0, [TakeAsync], n', 0);
    acts := [RequestClear] + [serve] + [TakeAsync];
  }

  /** The promise fails without clean clears: a client that opens a string, clears the device and starts over can be
      met with an RMT mismatch, though it kept every rule. */
  lemma MismatchIsReachable(w: Conn)
    requires R.Starts(w) && !Less(w.version, Version(1, 0))
    ensures exists acts, n ::
      && Leads(Start(w), acts, n, 0) && Enabled(n, ServeSync(CALM)) && n.toServer[0].ClearDone?
      && !NeverMismatches(Act(n, ServeSync(CALM)))
  {
    hide Leads, Fluent, Afterwards, Inv, Act, NeverMismatches, Start, Core, Scan;
    var n := Start(w);
    StartInv(w);
    StartIsFluent(w);
    OneByte(n, DOUBLE_QUOTE);
    var n1 := Afterwards(n, Chunk, [DOUBLE_QUOTE]);
    var acts, n2 := ClearIsRequested(n1);
    LeadsOn(n, Exchanged(Chunk, [DOUBLE_QUOTE]), n1, 0, acts, n2, 0);
    var all := Exchanged(Chunk, [DOUBLE_QUOTE]) + acts;
    LeadsInv(n, all, n2, Counters(0, 0, 0, 0));
    assert n2.taken == [DOUBLE_QUOTE];
    OpenString();
    ResidueDecides(n2, Counters(0, 0, 0, 0), CALM);
  }

  lemma OpenString()
    ensures Core(Scan(FRESH, [DOUBLE_QUOTE])) != FRESH
  {
    ScanOne(FRESH, DOUBLE_QUOTE);
  }

  lemma LeadsInv(n: Net, acts: seq<Action>, n': Net, k: Counters)
    requires Inv(n, k) && Leads(n, acts, n', 0)
    ensures Inv(n', k)
  {
    hide Inv, Legal, OrderlyRun, Exec;
    RunInv(n, acts, k);
  }
}
