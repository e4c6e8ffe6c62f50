/** The step between the DataEnd of a response and the RMT expectation it raises (terminate in server/data.go): a report
    on the asynchronous channel that is served in between is lost. */
module LateReport {
  import opened MessageIds
  import opened Messages
  import opened ScpiPolicy
  import opened ScpiTokens
  import opened Engine
  import opened TwoParty
  import opened ClearResidue
  import R = Runs

  /** The client hears the reply it waits for, past any service requests. */
  lemma {:induction false} HearsReply(n: Net, m: Msg) returns (acts: seq<Action>, n': Net)
    requires n.phase.Talking? && n.heard <= |n.w.async| && Unheard(n) == [m] && Settles(m)
    ensures Leads(n, acts, n', 0) && n' == n.(heard := n'.heard, polling := false)
    decreases |n.w.async| - n.heard
  {
    hide Leads, Solicited, Act;
    SomethingUnheard(n);
    UnheardHead(n);
    var n1 := Act(n, TakeAsync);
    LeadsOne(n, TakeAsync, 0);
    if n.w.async[n.heard].AsyncServiceRequest? {
      acts, n' := HearsReply(n1, m);
      LeadsOn(n, [TakeAsync], n1, 0, acts, n', 0);
      acts := [TakeAsync] + acts;
    } else {
      assert Unheard(n)[0] == m;
      HearsThis(n);
      acts, n' := [TakeAsync], n1;
    }
  }

  lemma HearsThis(n: Net)
    requires n.heard < |n.w.async| && Settles(n.w.async[n.heard])
    ensures Act(n, TakeAsync) == n.(heard := n.heard + 1, polling := false)
  {
  }

  /** A report served before the expectation it answers: the server then expects one the client no longer owes. */
  lemma LostReport(n: Net, k: Counters, env: AsyncEnv)
    requires Inv(n, k) && n.late && Flagged(n.requests)
    ensures Enabled(n, ServeAsync(env)) && !NeverMismatches(Act(n, ServeAsync(env)))
  {
    hide Step, NeverMismatches, Leads, R.Inv, Solicited, InClear, Dropped, Numbered, Waiting, Core, Scan, Nth, Replied;
    ServeStatus(n.w, n.requests[0], env, k);
    var n1 := Act(n, ServeAsync(env));
    assert n1.requests == [];
    var m := ReplyIsUnheard(n, n1.w);
    assert Unheard(n1) == [m];
    var n2 := Act(n1, Raise);
    LeadsOne(n1, Raise, 0);
    RaiseKeepsSound(n1.w, n1.w.counters, true);
    assert Unheard(n2) == [m];
    var acts, n3 := HearsReply(n2, m);
    ExpectsInVain(n3);
    Onwards(n2, acts, n3);
    Onwards(n1, [Raise], n2);
  }

  /** With a report under way while the server is between a DataEnd and its expectation, everything depends on which
      comes first: the expectation, and no continuation brings a mismatch; the report, and one does. */
  lemma OrderDecides(n: Net, k: Counters, env: AsyncEnv)
    requires Inv(n, k) && n.late && Flagged(n.requests)
    ensures Enabled(n, Raise) && NeverMismatches(Act(n, Raise))
    ensures Enabled(n, ServeAsync(env)) && !NeverMismatches(Act(n, ServeAsync(env)))
  {
    hide Inv, Act, Legal, OrderlyRun, Exec;
    LostReport(n, k, env);
    StepInv(n, Raise, k);
    var n' := Act(n, Raise);
    InvKeepsCount(n', k);
    forall acts | Legal(n', acts) && OrderlyRun(n', acts)
      ensures Exec(n', acts).w.counters.silentInterrupted == n'.w.counters.silentInterrupted
    {
      RunInv(n', acts, k);
      InvKeepsCount(Exec(n', acts), k);
    }
  }

  // ---------------------------------------------------------------- such a state is reached

  /** The client takes messages until it has the end of its response. */
  lemma {:induction false} TakesResponse(n: Net, k: Counters) returns (acts: seq<Action>, n': Net)
    requires Inv(n, k) && n.phase.Talking? && !NoEnd(Unread(n))
    ensures Leads(n, acts, n', 0) && Inv(n', k)
    ensures n' == n.(seen := n'.seen, rmtPending := true, awaiting := false)
    decreases |n.w.sync| - n.seen
  {
    hide Leads, Inv, Act, EndsOnce, IsQuery, Scan, Core;
    TakesOne(n, k);
    LeadsOne(n, TakeSync, 0);
    StepInv(n, TakeSync, k);
    var n1 := Act(n, TakeSync);
    if n.w.sync[n.seen].DataEnd? {
      acts, n' := [TakeSync], n1;
    } else {
      acts, n' := TakesResponse(n1, k);
      LeadsOn(n, [TakeSync], n1, 0, acts, n', 0);
      acts := [TakeSync] + acts;
    }
  }

  lemma TakesOne(n: Net, k: Counters)
    requires Inv(n, k) && n.phase.Talking? && !NoEnd(Unread(n))
    ensures n.seen < |n.w.sync|
    ensures var n' := Act(n, TakeSync);
            if n.w.sync[n.seen].DataEnd? then n' == n.(seen := n.seen + 1, rmtPending := true, awaiting := false)
            else n' == n.(seen := n.seen + 1) && n'.seen <= |n'.w.sync| && !NoEnd(Unread(n'))
  {
    hide Sound, Numbered, Accounted, Asynchrony, Scan, Core, IsQuery, Solicited;
    var u := Unread(n);
    assert u[0] == n.w.sync[n.seen] && NoAck(u);
    if !u[0].DataEnd? {
      var i :| 0 <= i < |u| && u[i].DataEnd?;
      assert Unread(Act(n, TakeSync)) == u[1..] && u[1..][i - 1].DataEnd?;
    }
  }

  /** A query, its response taken, and a status query sent before the server has raised its expectation. */
  lemma RaceIsReachable(w: Conn)
    requires R.Starts(w) && !Less(w.version, Version(1, 0))
    ensures exists acts, n :: Leads(Start(w), acts, n, 0) && n.late && Flagged(n.requests)
  {
    hide Leads, Inv, Start, Sound, Serving, Scan, HasPlainQuery, Nth, Core, NoEnd;
    var k := Counters(0, 0, 0, 0);
    var n := Start(w);
    StartInv(w);
    StartIsFluent(w);
    ConfigAllowsByte(n);
    OneMessage(n, Final, [QUERY]);
    PlainQuery();
    var n1 := Afterwards(n, Final, [QUERY]);
    LeadsInv(n, Exchanged(Final, [QUERY]), n1, k);
    assert n.text == [] by { StartText(w); }
    assert n.text + [QUERY] == [QUERY];
    assert n1.late && n1.awaiting && n1.phase.Talking? && n1.requests == [] && !n1.polling;
    EndIsComing(n1, k);
    var acts, n2 := TakesResponse(n1, k);
    LeadsOn(n, Exchanged(Final, [QUERY]), n1, 0, acts, n2, 0);
    LeadsOne(n2, Ask, 0);
    var n3 := Act(n2, Ask);
    LeadsOn(n, Exchanged(Final, [QUERY]) + acts, n2, 0, [Ask], n3, 0);
    assert n3.requests == [Query(LastId(n2), true)];
  }

  lemma StartText(w: Conn)
    ensures Start(w).text == []
  {
  }

  lemma PlainQuery()
    ensures Scan(FRESH, [QUERY]).found && HasPlainQuery([QUERY])
  {
    ScanOne(FRESH, QUERY);
    QueryDetection([QUERY], []);
  }
}
