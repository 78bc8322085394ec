/** Whole send and receive runs: what has been run by the time the transport sender or the
    message receiver is called. */
module EngineFlows {
  import opened PhaseTypes
  import opened Engine
  import opened EngineRuns
  import opened EngineScripts

  predicate Apart(a: seq<PhaseState>, b: seq<PhaseState>) {
    forall i, j :: 0 <= i < |a| && 0 <= j < |b| ==> a[i].name != b[j].name
  }

  lemma {:induction false} FlatOnlyRuns(chain: seq<PhaseState>, i: nat)
    requires i <= |chain|
    ensures forall k :: 0 <= k < |FlatFrom(chain, i)| ==> FlatFrom(chain, i)[k].Ran?
    decreases |chain| - i
  {
    if i < |chain| {
      FullIsOrder(chain[i]);
      FlatOnlyRuns(chain, i + 1);
    }
  }

  /** Invoking any chain runs a prefix of it, the whole of it unless it pauses, and a
      pause records one of its phases. */
  lemma {:induction false} InvokePrefix(chain: seq<PhaseState>, c: Ctx, script: Script) returns (k: nat)
    requires AllOk(script) && !c.paused
    ensures k <= |Flat(chain)|
    ensures var (ok, d) := InvokePhases(chain, 0, c, script);
      && ok
      && d.log == c.log + Flat(chain)[..k]
      && (!d.paused ==> k == |Flat(chain)|)
      && (d.paused ==> k > 0 && InPhase(chain, d))
  {
    InvokeIsFlat(chain, 0, c, script);
    k := RunAllStops(Flat(chain), View(true, false, c.log), script);
    InvokeRecords(chain, 0, c, script);
  }

  predicate InPhase(chain: seq<PhaseState>, c: Ctx) {
    exists j :: 0 <= j < |chain| && c.phaseName == Some(chain[j].name)
  }

  lemma {:induction false} InvokeRecords(chain: seq<PhaseState>, i: nat, c: Ctx, script: Script)
    requires i <= |chain| && !c.paused
    ensures var d := InvokePhases(chain, i, c, script).1; d.paused ==> InPhase(chain, d)
    decreases |chain| - i
  {
    if i < |chain| {
      InvokePhaseName(chain[i], c, script);
      var (ok, d) := InvokePhase(chain[i], c, script);
      if ok && !d.paused { InvokeRecords(chain, i + 1, d, script); }
    }
  }

  /** A resume leaves one of the chain's phases recorded if one was before. */
  lemma {:induction false} ResumeRecords(chain: seq<PhaseState>, i: nat, found: bool, c: Ctx, script: Script)
    requires i <= |chain| && InPhase(chain, c)
    ensures InPhase(chain, ResumeLoop(chain, i, found, c, script))
    decreases |chain| - i
  {
    if i < |chain| && !c.paused {
      if c.phaseName == Some(chain[i].name) {
        var c1 := c.(phaseName := Some(chain[i].name));
        ResumeListLog(chain[i].handlers, c.index, c1, script);
        ResumeRecords(chain, i + 1, true, ResumePhase(chain[i], c.index, c, script), script);
      } else if found {
        InvokePhaseName(chain[i], c, script);
        ResumeRecords(chain, i + 1, true, InvokePhase(chain[i], c, script).1, script);
      } else {
        ResumeRecords(chain, i + 1, false, c, script);
      }
    }
  }

  lemma {:induction false} RunRecords(chain: seq<PhaseState>, script: Script, n: nat)
    ensures Run(chain, script, n).paused ==> InPhase(chain, Run(chain, script, n))
  {
    if n == 0 {
      InvokeRecords(chain, 0, FreshCtx, script);
    } else {
      RunRecords(chain, script, n - 1);
      var c := Run(chain, script, n - 1);
      if c.paused { ResumeRecords(chain, 0, false, c.(paused := false), script); }
    }
  }

  /** The first invocation of a flow fails for good: a handler failed and did not pause the
      message. */
  predicate FailsFirst(chain: seq<PhaseState>, script: Script) {
    var (ok, d) := InvokePhases(chain, 0, FreshCtx, script);
    !ok && !d.paused
  }

  lemma {:induction false} FailedStays(chain: seq<PhaseState>, script: Script, n: nat)
    requires FailsFirst(chain, script)
    ensures Run(chain, script, n) == Run(chain, script, 0) && !Run(chain, script, n).paused
  {
    if n > 0 { FailedStays(chain, script, n - 1); }
  }

  // ----- chains without handlers ----------------------------------------------------

  predicate Idle(p: PhaseState) { p.first.None? && p.last.None? && p.handlers == [] }

  predicate IdleFrom(chain: seq<PhaseState>, i: nat) {
    forall j :: i <= j < |chain| ==> Idle(chain[j])
  }

  lemma IdleExactly(p: PhaseState)
    ensures Full(p) == [] <==> Idle(p)
  {
    FullIsOrder(p);
  }

  lemma FlatSkips(chain: seq<PhaseState>, i: nat)
    requires i < |chain|
    ensures Full(chain[i]) == [] ==> FlatFrom(chain, i) == FlatFrom(chain, i + 1)
    ensures FlatFrom(chain, i) == [] ==> Full(chain[i]) == [] && FlatFrom(chain, i + 1) == []
  {
  }

  lemma {:induction false} NothingToRun(chain: seq<PhaseState>, i: nat)
    requires i <= |chain| && FlatFrom(chain, i) == []
    ensures IdleFrom(chain, i)
    decreases |chain| - i
  {
    if i < |chain| {
      FlatSkips(chain, i);
      IdleExactly(chain[i]);
      NothingToRun(chain, i + 1);
    }
  }

  lemma EmptyIsSafe(chain: seq<PhaseState>)
    requires Flat(chain) == []
    ensures AllSafe(chain)
  {
    NothingToRun(chain, 0);
    forall j | 0 <= j < |chain| ensures ResumeSafe(chain[j]) { assert Idle(chain[j]); }
  }

  lemma IdlePhase(p: PhaseState, c: Ctx, script: Script)
    requires Idle(p) && !c.paused
    ensures InvokePhase(p, c, script) == (true, c.(phaseName := Some(p.name)))
    ensures ResumePhase(p, c.index, c, script) == c.(phaseName := Some(p.name))
  {
    ResumeEmpty(c.index, c.(phaseName := Some(p.name)), script);
  }

  lemma {:induction false} EmptyInvoke(chain: seq<PhaseState>, i: nat, c: Ctx, script: Script) returns (name: Option<string>)
    requires i <= |chain| && IdleFrom(chain, i) && !c.paused
    ensures InvokePhases(chain, i, c, script) == (true, c.(phaseName := name))
    decreases |chain| - i
  {
    name := c.phaseName;
    if i < |chain| {
      IdlePhase(chain[i], c, script);
      name := EmptyInvoke(chain, i + 1, c.(phaseName := Some(chain[i].name)), script);
    }
  }

  lemma {:induction false} EmptyResume(chain: seq<PhaseState>, i: nat, found: bool, c: Ctx, script: Script)
      returns (name: Option<string>)
    requires i <= |chain| && IdleFrom(chain, i)
    ensures ResumeLoop(chain, i, found, c, script) == c.(phaseName := name)
    decreases |chain| - i
  {
    name := c.phaseName;
    if i < |chain| && !c.paused {
      IdlePhase(chain[i], c, script);
      if found || name == Some(chain[i].name) {
        name := EmptyResume(chain, i + 1, true, c.(phaseName := Some(chain[i].name)), script);
      } else {
        name := EmptyResume(chain, i + 1, false, c, script);
      }
    }
  }

  /** The first phase from i on that has a handler. */
  lemma {:induction false} FirstBusy(chain: seq<PhaseState>, i: nat) returns (p: nat)
    requires i <= |chain| && FlatFrom(chain, i) != []
    ensures i <= p < |chain| && Full(chain[p]) != [] && FlatFrom(chain, p) == FlatFrom(chain, i)
    ensures forall j :: i <= j < p ==> Full(chain[j]) == []
    decreases |chain| - i
  {
    p := i;
    if Full(chain[i]) == [] {
      FlatSkips(chain, i);
      p := FirstBusy(chain, i + 1);
    }
  }

  /** Phases without handlers are passed with the cursor as it was. */
  lemma {:induction false} EmptyPrefix(chain: seq<PhaseState>, i: nat, p: nat, c: Ctx, script: Script)
      returns (name: Option<string>)
    requires i <= p <= |chain| && !c.paused && forall j :: i <= j < p ==> Full(chain[j]) == []
    ensures InvokePhases(chain, i, c, script) == InvokePhases(chain, p, c.(phaseName := name), script)
    decreases p - i
  {
    name := c.phaseName;
    if i < p {
      IdleExactly(chain[i]);
      IdlePhase(chain[i], c, script);
      name := EmptyPrefix(chain, i + 1, p, c.(phaseName := Some(chain[i].name)), script);
    }
  }

  // ----- the first handler of all pauses --------------------------------------------

  lemma {:induction false} FirstHalts(p: PhaseState, c: Ctx, script: Script)
    requires !c.paused && c.index == -1 && OutcomeAt(script, |c.log|) == Halt && Full(p) != []
    ensures var r := InvokePhase(p, c, script);
      && r.0 && r.1.paused && r.1.phaseName == Some(p.name) && |r.1.log| == |c.log| + 1
      && r.1.index == if p.first.None? && p.handlers != [] then 1 else -1
  {
    FullIsOrder(p);
    var c1 := c.(phaseName := Some(p.name));
    if p.first.Some? {
      var d := RunHandler(p.first.value, c1, script).1;
      assert InvokeList(p.handlers, 0, d, script) == (true, d);
    } else if p.handlers != [] {
      var d := RunHandler(p.handlers[0], c1, script).1.(index := 1);
      assert InvokeList(p.handlers, 1, d, script) == (true, d);
    } else {
      assert InvokeList(p.handlers, 0, c1, script) == (true, c1);
    }
  }

  /** Paused at its first handler and resumed once, a chain ends, and has run no more
      handlers than it has. */
  lemma {:induction false} HaltOnce(chain: seq<PhaseState>)
    requires DistinctNames(chain) && Flat(chain) != []
    ensures var c, d := Run(chain, [Halt], 0), Run(chain, [Halt], 1);
      && InvokePhases(chain, 0, FreshCtx, [Halt]).0 && c.paused && |c.log| == 1 && InPhase(chain, c)
      && !d.paused && |d.log| <= |Flat(chain)| && InPhase(chain, d)
  {
    var script := [Halt];
    var p := FirstBusy(chain, 0);
    var name := EmptyPrefix(chain, 0, p, FreshCtx, script);
    var c0 := FreshCtx.(phaseName := name);
    FirstHalts(chain[p], c0, script);
    var c := InvokePhase(chain[p], c0, script).1;
    assert InvokePhases(chain, p + 1, c, script) == (true, c);
    RunRecords(chain, script, 0);
    FullIsOrder(chain[p]);
    ResumeListLog(chain[p].handlers, c.index, c.(paused := false), script);
    QuietResume(chain, p, c, script);
    ResumeRecords(chain, 0, false, c.(paused := false), script);
  }

  // ----- sending --------------------------------------------------------------------

  /** A fresh message sent, and sent again while it stays paused. */
  function SendRun(op: seq<PhaseState>, global: seq<PhaseState>, script: Script, n: nat): Ctx {
    if n == 0 then Send(Some(op), Some(global), Sender(true), FreshCtx, script).1
    else
      var c := SendRun(op, global, script, n - 1);
      if c.paused then Send(Some(op), Some(global), Sender(true), c, script).1 else c
  }

  /** All of the operation's out flow, then some handlers of the global phases, no send yet. */
  predicate InGlobal(op: seq<PhaseState>, global: seq<PhaseState>, c: Ctx) {
    && InPhase(global, c)
    && Flat(op) <= c.log
    && Sent !in c.log
    && Flat(global) != []
  }

  /** Sent once, as the very last event, right after a complete pass of the global phases
      that follows a complete pass of the operation's out flow. */
  predicate SentLast(op: seq<PhaseState>, global: seq<PhaseState>, log: seq<Event>) {
    var m := |log| - 1 - |Flat(global)|;
    && m >= 0
    && log[m..] == Flat(global) + [Sent]
    && Flat(op) <= log[..m]
    && Sent !in log[..|log| - 1]
    && (Flat(global) == [] ==> log[..m] == Flat(op))
  }

  lemma {:induction false} GlobalAndSend(op: seq<PhaseState>, global: seq<PhaseState>, c: Ctx, script: Script)
    requires AllOk(script) && !c.paused && Flat(op) <= c.log && Sent !in c.log
    requires Flat(global) == [] ==> c.log == Flat(op)
    ensures var d := InvokePhases(global, 0, c, script).1;
      if d.paused then InGlobal(op, global, d) else SentLast(op, global, d.log + [Sent])
  {
    var k := InvokePrefix(global, c, script);
    var d := InvokePhases(global, 0, c, script).1;
    FlatOnlyRuns(global, 0);
    if !d.paused {
      assert Flat(global)[..k] == Flat(global);
      assert (d.log + [Sent])[..|d.log|] == d.log;
      assert (d.log + [Sent])[..|c.log|] == c.log;
      assert (d.log + [Sent])[|c.log|..] == Flat(global) + [Sent];
    }
  }

  lemma {:induction false} SendRunAgrees(op: seq<PhaseState>, global: seq<PhaseState>, a: Script, b: Script, n: nat)
    requires Agree(a, b, SendRun(op, global, a, n).log)
    ensures SendRun(op, global, b, n) == SendRun(op, global, a, n)
  {
    if n == 0 {
      SendAgrees(Some(op), Some(global), Sender(true), FreshCtx, a, b);
    } else {
      var c := SendRun(op, global, a, n - 1);
      if c.paused { SendAgrees(Some(op), Some(global), Sender(true), c, a, b); }
      AgreeBefore(a, b, c.log, SendRun(op, global, a, n).log);
      SendRunAgrees(op, global, a, b, n - 1);
    }
  }

  /** However often a message is paused in its operation's out flow or in the global out
      phases, the sender is called at most once and only after every handler of both, on every
      run in which no handler fails. */
  lemma {:induction false} SendRunsInOrder(op: seq<PhaseState>, global: seq<PhaseState>, script: Script, n: nat)
      returns (p: nat)
    requires DistinctNames(op) && AllSafe(op) && Apart(op, global)
    requires NoneFailed(script, SendRun(op, global, script, n).log)
    ensures var c := SendRun(op, global, script, n);
      if c.paused then PausedAt(op, p, c, Flat(op)) || InGlobal(op, global, c)
      else SentLast(op, global, c.log)
  {
    var clean := Clean(script, SendRun(op, global, script, n).log);
    SendRunAgrees(op, global, script, clean, n);
    p := SendRunsWhenOk(op, global, clean, n);
  }

  lemma {:induction false} SendRunsWhenOk(op: seq<PhaseState>, global: seq<PhaseState>, script: Script, n: nat)
      returns (p: nat)
    requires DistinctNames(op) && AllSafe(op) && Apart(op, global) && AllOk(script)
    ensures var c := SendRun(op, global, script, n);
      if c.paused then PausedAt(op, p, c, Flat(op)) || InGlobal(op, global, c)
      else SentLast(op, global, c.log)
  {
    if n == 0 {
      p := SendFirst(op, global, script);
    } else {
      p := SendRunsWhenOk(op, global, script, n - 1);
      var c := SendRun(op, global, script, n - 1);
      if c.paused { p := SendAgain(op, global, p, c, script); }
    }
  }

  /** The first send of a fresh message. */
  lemma {:induction false} SendFirst(op: seq<PhaseState>, global: seq<PhaseState>, script: Script) returns (p: nat)
    requires AllSafe(op) && AllOk(script)
    ensures var d := Send(Some(op), Some(global), Sender(true), FreshCtx, script).1;
      if d.paused then PausedAt(op, p, d, Flat(op)) || InGlobal(op, global, d) else SentLast(op, global, d.log)
  {
    FlatOnlyRuns(op, 0);
    assert FreshCtx.log + Flat(op) == Flat(op);
    p := InvokeCursor(op, 0, FreshCtx, Flat(op), script);
    var d := InvokePhases(op, 0, FreshCtx, script).1;
    assert d.paused ==> InvokePhases(global, 0, d, script) == (true, d);
    if !d.paused { GlobalAndSend(op, global, d, script); }
  }

  /** One more send of a paused message. */
  lemma {:induction false} SendAgain(op: seq<PhaseState>, global: seq<PhaseState>, p: nat, c: Ctx, script: Script)
      returns (q: nat)
    requires DistinctNames(op) && AllSafe(op) && Apart(op, global) && AllOk(script) && c.paused
    requires PausedAt(op, p, c, Flat(op)) || InGlobal(op, global, c)
    ensures var d := Send(Some(op), Some(global), Sender(true), c, script).1;
      if d.paused then PausedAt(op, q, d, Flat(op)) || InGlobal(op, global, d) else SentLast(op, global, d.log)
  {
    var d := ResumePhases(op, c, script);
    if PausedAt(op, p, c, Flat(op)) {
      FlatOnlyRuns(op, 0);
      q := ResumeCursor(op, p, c, Flat(op), script);
      assert d.paused ==> InvokePhases(global, 0, d, script) == (true, d);
    } else {
      q := p;
      ResumeElsewhere(op, 0, c.(paused := false), script);
    }
    if !d.paused { GlobalAndSend(op, global, d, script); }
  }

  predicate SendsWhole(op: seq<PhaseState>, global: seq<PhaseState>, script: Script, n: nat) {
    var c := SendRun(op, global, script, n);
    NoneFailed(script, c.log) && !c.paused ==> c.log == Flat(op) + Flat(global) + [Sent]
  }

  /** With no global handlers a send is a run of the out flow, sent when it ends; unless the
      first invocation failed for good. */
  lemma {:induction false} SendIsRun(op: seq<PhaseState>, global: seq<PhaseState>, script: Script, n: nat)
    requires Flat(global) == []
    ensures var r, c := Run(op, script, n), SendRun(op, global, script, n);
      if FailsFirst(op, script) || r.paused then c == r else !c.paused && c.log == r.log + [Sent]
  {
    if n > 0 { SendIsRun(op, global, script, n - 1); }
    if FailsFirst(op, script) && n > 0 { FailedStays(op, script, n - 1); }
    var r := Run(op, script, n);
    if r.paused {
      assert InvokePhases(global, 0, r, script) == (true, r);
    } else {
      NothingToRun(global, 0);
      var name := EmptyInvoke(global, 0, r, script);
    }
  }

  /** Every send without failures runs each handler once and in order exactly when the out flow
      resumes correctly and the global out phases hold no handler: a message paused there
      starts them again from their first handler. */
  lemma {:induction false} SendIsExact(op: seq<PhaseState>, global: seq<PhaseState>)
    requires DistinctNames(op) && Apart(op, global)
    ensures AllSafe(op) && Flat(global) == [] <==> forall script: Script, n: nat :: SendsWhole(op, global, script, n)
  {
    if Flat(global) != [] {
      var script := Pausing(|Flat(op)|, 1);
      RepeatsGlobal(op, global, script);
      assert !SendsWhole(op, global, script, 1);
    } else if !AllSafe(op) {
      var p :| 0 <= p < |op| && !ResumeSafe(op[p]);
      var script, n := UnsafeBreaks(op, p);
      InvokePhasesOk(op, 0, FreshCtx, script);
      SendIsRun(op, global, script, n);
      var log := SendRun(op, global, script, n).log;
      assert Flat(op) + [] + [Sent] == Flat(op) + [Sent];
      assert log[..|log| - 1] == Run(op, script, n).log && (Flat(op) + [Sent])[..|Flat(op)|] == Flat(op);
      assert !SendsWhole(op, global, script, n);
    } else {
      forall script: Script, n: nat ensures SendsWhole(op, global, script, n) {
        if NoneFailed(script, SendRun(op, global, script, n).log) { var p := SendRunsInOrder(op, global, script, n); }
      }
    }
  }

  /** An out flow with a last handler, paused in its list: the last handler is never run. */
  lemma EndSlotSkipped()
    ensures var h, l := Handler("h", Rule("p", None, None, false, false)), Handler("l", Rule("p", None, None, false, true));
      SendRun([PhaseState("p", None, [h], Some(l), false)], [], [Halt], 1).log == [Ran(h), Sent]
  {
    var h, l := Handler("h", Rule("p", None, None, false, false)), Handler("l", Rule("p", None, None, false, true));
    var p, script := PhaseState("p", None, [h], Some(l), false), [Halt];
    var c0, c1 := FreshCtx.(phaseName := Some("p")), Ctx(true, Some("p"), 1, [Ran(h)]);
    assert [] + [Ran(h)] == [Ran(h)] && OutcomeAt(script, 0) == Halt;
    assert InvokeList([h], 1, c1, script) == (true, c1);
    assert InvokeList([h], 0, c0, script) == (true, c1);
    assert InvokePhase(p, FreshCtx, script) == (true, c1);
    assert InvokePhases([p], 1, c1, script) == (true, c1) && InvokePhases([], 0, c1, script) == (true, c1);
    assert SendRun([p], [], script, 0) == c1;
    var c2 := c1.(paused := false);
    assert ResumeList([h], 1, c2, script) == c2 && ResumeLoop([p], 1, true, c2, script) == c2;
    assert ResumePhases([p], c1, script) == c2 && InvokePhases([], 0, c2, script) == (true, c2);
    assert [Ran(h)] + [Sent] == [Ran(h), Sent];
  }

  lemma {:induction false} RepeatsGlobal(op: seq<PhaseState>, global: seq<PhaseState>, script: Script)
    requires DistinctNames(op) && Apart(op, global) && Flat(global) != []
    requires script == Pausing(|Flat(op)|, 1)
    ensures var c := SendRun(op, global, script, 1);
      !c.paused && |c.log| == |Flat(op)| + 1 + |Flat(global)| + 1
  {
    var c := QuietPhases(op, 0, |op|, FreshCtx, script);
    assert |c.log| == |Flat(op)|;
    var k := InvokePrefix(global, c, script);
    InvokeIsFlat(global, 0, c, script);
    var d := InvokePhases(global, 0, c, script).1;
    var j := RunAllStops(Flat(global), View(true, false, c.log), script);
    assert OutcomeAt(script, |c.log|) == Halt;
    assert d.paused && j == 1;
    assert SendRun(op, global, script, 0) == d;
    ResumeElsewhere(op, 0, d.(paused := false), script);
    var e := QuietPhases(global, 0, |global|, d.(paused := false), script);
  }

  /** A fresh message sent once, then continued with resume_send. */
  function ResumeSendRun(op: seq<PhaseState>, global: seq<PhaseState>, script: Script, n: nat): Ctx {
    if n == 0 then Send(Some(op), Some(global), Sender(true), FreshCtx, script).1
    else
      var c := ResumeSendRun(op, global, script, n - 1);
      if c.paused then ResumeSend(Some(op), Sender(true), c, script).1 else c
  }

  lemma {:induction false} ResumeSendRunAgrees(op: seq<PhaseState>, global: seq<PhaseState>, a: Script, b: Script, n: nat)
    requires Agree(a, b, ResumeSendRun(op, global, a, n).log)
    ensures ResumeSendRun(op, global, b, n) == ResumeSendRun(op, global, a, n)
    ensures n > 0 ==> ResumeSendRun(op, global, b, 0) == ResumeSendRun(op, global, a, 0)
  {
    if n == 0 {
      SendAgrees(Some(op), Some(global), Sender(true), FreshCtx, a, b);
    } else {
      var c := ResumeSendRun(op, global, a, n - 1);
      if c.paused { ResumeSendAgrees(Some(op), Sender(true), c, a, b); }
      AgreeBefore(a, b, c.log, ResumeSendRun(op, global, a, n).log);
      ResumeSendRunAgrees(op, global, a, b, n - 1);
    }
  }

  /** resume_send never runs a global out phase: whatever the flows and the handlers, a message
      paused among them is sent with the rest of them left out. */
  lemma {:induction false} ResumeSendSkipsGlobal(op: seq<PhaseState>, global: seq<PhaseState>, script: Script, n: nat)
    requires ResumeSendRun(op, global, script, 0).paused && !InPhase(op, ResumeSendRun(op, global, script, 0)) && n > 0
    ensures var c0 := ResumeSendRun(op, global, script, 0);
      ResumeSendRun(op, global, script, n) == c0.(paused := false, log := c0.log + [Sent])
  {
    var c0 := ResumeSendRun(op, global, script, 0);
    if n == 1 {
      ResumeElsewhere(op, 0, c0.(paused := false), script);
    } else {
      ResumeSendSkipsGlobal(op, global, script, n - 1);
    }
  }

  /** One paused in an out flow that resumes correctly is sent after every handler of that flow
      has run, with no global handler run at all. */
  lemma {:induction false} ResumeSendRunsFlow(op: seq<PhaseState>, global: seq<PhaseState>, script: Script, n: nat)
      returns (p: nat)
    requires DistinctNames(op) && AllSafe(op) && Apart(op, global)
    requires NoneFailed(script, ResumeSendRun(op, global, script, n).log)
    requires ResumeSendRun(op, global, script, 0).paused && InPhase(op, ResumeSendRun(op, global, script, 0)) && n > 0
    ensures var c := ResumeSendRun(op, global, script, n);
      if c.paused then PausedAt(op, p, c, Flat(op)) else c.log == Flat(op) + [Sent]
  {
    var clean := Clean(script, ResumeSendRun(op, global, script, n).log);
    ResumeSendRunAgrees(op, global, script, clean, n);
    p := ResumeSendWhenOk(op, global, clean, n);
  }

  lemma {:induction false} ResumeSendWhenOk(op: seq<PhaseState>, global: seq<PhaseState>, script: Script, n: nat)
      returns (p: nat)
    requires DistinctNames(op) && AllSafe(op) && Apart(op, global) && AllOk(script)
    requires ResumeSendRun(op, global, script, 0).paused && n > 0
    ensures var c0 := ResumeSendRun(op, global, script, 0);
      var c := ResumeSendRun(op, global, script, n);
      if !InPhase(op, c0) then c == c0.(paused := false, log := c0.log + [Sent])
      else if c.paused then PausedAt(op, p, c, Flat(op)) else c.log == Flat(op) + [Sent]
  {
    var c := ResumeSendRun(op, global, script, n - 1);
    if n == 1 {
      p := SendRunsWhenOk(op, global, script, 0);
      assert SendRun(op, global, script, 0) == c;
      if InGlobal(op, global, c) { ResumeElsewhere(op, 0, c.(paused := false), script); }
    } else {
      p := ResumeSendWhenOk(op, global, script, n - 1);
    }
    if c.paused && InPhase(op, c) {
      p := ResumeCursor(op, p, c, Flat(op), script);
    }
  }

  // ----- receiving ------------------------------------------------------------------

  const Server := Endpoint(true, true, Some(true))

  /** A fresh message received on the server, and received again while it stays paused. */
  function ReceiveRun(pre: seq<PhaseState>, op: seq<PhaseState>, script: Script, n: nat): Ctx {
    if n == 0 then Receive(pre, true, Some(op), Server, FreshCtx, script).1
    else
      var c := ReceiveRun(pre, op, script, n - 1);
      if c.paused then Receive(pre, true, Some(op), Server, c, script).1 else c
  }

  /** Whether the first call already pauses before the operation's own phases. */
  predicate PausesEarly(pre: seq<PhaseState>, script: Script) {
    InvokePhases(pre, 0, FreshCtx, script).1.paused
  }

  lemma {:induction false} ReceiveRunAgrees(pre: seq<PhaseState>, op: seq<PhaseState>, a: Script, b: Script, n: nat)
    requires Agree(a, b, ReceiveRun(pre, op, a, n).log)
    ensures ReceiveRun(pre, op, b, n) == ReceiveRun(pre, op, a, n)
  {
    if n == 0 {
      ReceiveAgrees(pre, true, Some(op), Server, FreshCtx, a, b);
    } else {
      var c := ReceiveRun(pre, op, a, n - 1);
      if c.paused { ReceiveAgrees(pre, true, Some(op), Server, c, a, b); }
      AgreeBefore(a, b, c.log, ReceiveRun(pre, op, a, n).log);
      ReceiveRunAgrees(pre, op, a, b, n - 1);
    }
  }

  lemma {:induction false} ReceiveStarts(pre: seq<PhaseState>, op: seq<PhaseState>, script: Script, n: nat)
    ensures InvokePhases(pre, 0, FreshCtx, script).1.log <= ReceiveRun(pre, op, script, n).log
  {
    var c1 := InvokePhases(pre, 0, FreshCtx, script).1;
    if n == 0 {
      InvokeAgrees(op, 0, c1, script, script);
    } else {
      ReceiveStarts(pre, op, script, n - 1);
      ReceiveAgrees(pre, true, Some(op), Server, ReceiveRun(pre, op, script, n - 1), script, script);
    }
  }

  /** Every received message is delivered once, after all phases up to post-dispatch, on
      every run in which no handler fails; the operation's own in flow has then run whole if
      the message was never paused before it, and not at all if it was. */
  lemma {:induction false} ReceiveRuns(pre: seq<PhaseState>, op: seq<PhaseState>, script: Script, n: nat)
      returns (p: nat)
    requires DistinctNames(pre) && DistinctNames(op) && Apart(pre, op)
    requires AllSafe(pre) && AllSafe(op) && NoneFailed(script, ReceiveRun(pre, op, script, n).log)
    ensures var c := ReceiveRun(pre, op, script, n);
      if PausesEarly(pre, script) then
        if c.paused then PausedAt(pre, p, c, Flat(pre)) && |c.log| > n
        else c.log == Flat(pre) + [Delivered]
      else
        if c.paused then PausedAt(op, p, c, Flat(pre) + Flat(op)) && |c.log| > n
        else c.log == Flat(pre) + Flat(op) + [Delivered]
  {
    var log := ReceiveRun(pre, op, script, n).log;
    var clean := Clean(script, log);
    ReceiveRunAgrees(pre, op, script, clean, n);
    ReceiveStarts(pre, op, script, n);
    AgreeBefore(script, clean, InvokePhases(pre, 0, FreshCtx, script).1.log, log);
    InvokeAgrees(pre, 0, FreshCtx, script, clean);
    p := ReceiveRunsWhenOk(pre, op, clean, n);
  }

  lemma {:induction false} ReceiveRunsWhenOk(pre: seq<PhaseState>, op: seq<PhaseState>, script: Script, n: nat)
      returns (p: nat)
    requires DistinctNames(pre) && DistinctNames(op) && Apart(pre, op)
    requires AllSafe(pre) && AllSafe(op) && AllOk(script)
    ensures var c := ReceiveRun(pre, op, script, n);
      if PausesEarly(pre, script) then
        if c.paused then PausedAt(pre, p, c, Flat(pre)) && |c.log| > n
        else c.log == Flat(pre) + [Delivered]
      else
        if c.paused then PausedAt(op, p, c, Flat(pre) + Flat(op)) && |c.log| > n
        else c.log == Flat(pre) + Flat(op) + [Delivered]
  {
    if n == 0 {
      assert FreshCtx.log + Flat(pre) == Flat(pre);
      p := InvokeCursor(pre, 0, FreshCtx, Flat(pre), script);
      var c1 := InvokePhases(pre, 0, FreshCtx, script).1;
      if !c1.paused { p := InvokeCursor(op, 0, c1, Flat(pre) + Flat(op), script); }
    } else {
      p := ReceiveRunsWhenOk(pre, op, script, n - 1);
      var c := ReceiveRun(pre, op, script, n - 1);
      if c.paused && PausesEarly(pre, script) {
        p := ReceiveAgainEarly(pre, op, p, c, script);
      } else if c.paused {
        p := ReceiveAgainLate(pre, op, p, c, script);
      }
    }
  }

  /** One more receive of a message paused before its operation's in flow. */
  lemma {:induction false} ReceiveAgainEarly(pre: seq<PhaseState>, op: seq<PhaseState>, p: nat, c: Ctx, script: Script)
      returns (q: nat)
    requires DistinctNames(pre) && Apart(pre, op) && AllSafe(pre) && AllOk(script)
    requires PausedAt(pre, p, c, Flat(pre))
    ensures var d := Receive(pre, true, Some(op), Server, c, script).1;
      if d.paused then PausedAt(pre, q, d, Flat(pre)) && |d.log| > |c.log| else d.log == Flat(pre) + [Delivered]
  {
    q := ResumeCursor(pre, p, c, Flat(pre), script);
    var d := ResumePhases(pre, c, script);
    if !d.paused { ResumeElsewhere(op, 0, d, script); }
  }

  /** One more receive of a message paused in its operation's in flow. */
  lemma {:induction false} ReceiveAgainLate(pre: seq<PhaseState>, op: seq<PhaseState>, p: nat, c: Ctx, script: Script)
      returns (q: nat)
    requires DistinctNames(op) && Apart(pre, op) && AllSafe(op) && AllOk(script)
    requires PausedAt(op, p, c, Flat(pre) + Flat(op))
    ensures var d := Receive(pre, true, Some(op), Server, c, script).1;
      if d.paused then PausedAt(op, q, d, Flat(pre) + Flat(op)) && |d.log| > |c.log|
      else d.log == Flat(pre) + Flat(op) + [Delivered]
  {
    ResumeElsewhere(pre, 0, c.(paused := false), script);
    q := ResumeCursor(op, p, c, Flat(pre) + Flat(op), script);
  }

  predicate ReceivesWhole(pre: seq<PhaseState>, op: seq<PhaseState>, script: Script, n: nat) {
    var c := ReceiveRun(pre, op, script, n);
    NoneFailed(script, c.log) && !c.paused ==> c.log == Flat(pre) + Flat(op) + [Delivered]
  }

  /** With no handlers in the operation's in flow a receive is a run of the phases before it. */
  lemma {:induction false} ReceiveIsRunPre(pre: seq<PhaseState>, op: seq<PhaseState>, script: Script, n: nat)
    requires Flat(op) == []
    ensures var r, c := Run(pre, script, n), ReceiveRun(pre, op, script, n);
      if FailsFirst(pre, script) || r.paused then c == r else !c.paused && c.log == r.log + [Delivered]
  {
    if n > 0 { ReceiveIsRunPre(pre, op, script, n - 1); }
    if FailsFirst(pre, script) && n > 0 { FailedStays(pre, script, n - 1); }
    var r := Run(pre, script, n);
    if !r.paused {
      NothingToRun(op, 0);
      var name := EmptyInvoke(op, 0, r, script);
      var _ := EmptyResume(op, 0, false, r, script);
    }
  }

  /** With no handlers before the operation's in flow a receive is a run of that flow. */
  lemma {:induction false} ReceiveIsRunOp(pre: seq<PhaseState>, op: seq<PhaseState>, script: Script, n: nat)
    requires Flat(pre) == [] && op != [] && Apart(pre, op)
    ensures var r, c := Run(op, script, n), ReceiveRun(pre, op, script, n);
      if FailsFirst(op, script) || r.paused then c == r else !c.paused && c.log == r.log + [Delivered]
  {
    if n == 0 {
      NothingToRun(pre, 0);
      var name := EmptyInvoke(pre, 0, FreshCtx, script);
      assert InvokePhase(op[0], FreshCtx.(phaseName := name), script) == InvokePhase(op[0], FreshCtx, script);
      assert InvokePhases(op, 0, FreshCtx.(phaseName := name), script) == InvokePhases(op, 0, FreshCtx, script);
    } else {
      ReceiveIsRunOp(pre, op, script, n - 1);
      if FailsFirst(op, script) { FailedStays(op, script, n - 1); }
      RunRecords(op, script, n - 1);
      var r := Run(op, script, n - 1);
      if r.paused { ResumeElsewhere(pre, 0, r.(paused := false), script); }
    }
  }

  /** Paused before the operation's in flow and resumed, a message is delivered with fewer
      handlers run than there are. */
  lemma {:induction false} EarlyPauseSkips(pre: seq<PhaseState>, op: seq<PhaseState>)
    requires DistinctNames(pre) && Apart(pre, op) && Flat(pre) != []
    ensures var c := ReceiveRun(pre, op, [Halt], 1); !c.paused && |c.log| <= |Flat(pre)| + 1
  {
    HaltOnce(pre);
    var c, d := Run(pre, [Halt], 0), Run(pre, [Halt], 1);
    assert ReceiveRun(pre, op, [Halt], 0) == c;
    ResumeElsewhere(op, 0, d, [Halt]);
  }

  /** Every handler of both flows runs once and in order before delivery on every run without
      failures exactly when one of the two flows holds no handler and the other resumes
      correctly. */
  lemma {:induction false} ReceiveIsExact(pre: seq<PhaseState>, op: seq<PhaseState>)
    requires DistinctNames(pre) && DistinctNames(op) && Apart(pre, op)
    ensures (Flat(pre) == [] && AllSafe(op)) || (Flat(op) == [] && AllSafe(pre))
       <==> forall script: Script, n: nat :: ReceivesWhole(pre, op, script, n)
  {
    if Flat(pre) != [] && Flat(op) != [] {
      EarlyPauseSkips(pre, op);
      assert !ReceivesWhole(pre, op, [Halt], 1);
    } else if Flat(pre) == [] {
      EmptyIsSafe(pre);
      assert [] + Flat(op) == Flat(op);
      if AllSafe(op) {
        ReceivesAlways(pre, op);
      } else {
        UnsafeInFlow(pre, op);
        var script: Script, n: nat :| !ReceivesWhole(pre, op, script, n);
        assert !(Flat(op) == [] && AllSafe(pre)) by { if Flat(op) == [] { EmptyIsSafe(op); } }
      }
    } else {
      EmptyIsSafe(op);
      if AllSafe(pre) {
        ReceivesAlways(pre, op);
      } else {
        UnsafeBefore(pre, op);
        var script: Script, n: nat :| !ReceivesWhole(pre, op, script, n);
      }
    }
  }

  lemma {:induction false} ReceivesAlways(pre: seq<PhaseState>, op: seq<PhaseState>)
    requires DistinctNames(pre) && DistinctNames(op) && Apart(pre, op) && AllSafe(pre) && AllSafe(op)
    requires Flat(pre) == [] || Flat(op) == []
    ensures forall script: Script, n: nat :: ReceivesWhole(pre, op, script, n)
  {
    forall script: Script, n: nat ensures ReceivesWhole(pre, op, script, n) {
      if NoneFailed(script, ReceiveRun(pre, op, script, n).log) {
        var p := ReceiveRuns(pre, op, script, n);
        InvokeIsFlat(pre, 0, FreshCtx, script);
        assert Flat(pre) + [] == Flat(pre);
      }
    }
  }

  lemma {:induction false} UnsafeInFlow(pre: seq<PhaseState>, op: seq<PhaseState>)
    requires DistinctNames(op) && Apart(pre, op) && Flat(pre) == [] && !AllSafe(op)
    ensures exists script: Script, n: nat :: !ReceivesWhole(pre, op, script, n)
  {
    var p :| 0 <= p < |op| && !ResumeSafe(op[p]);
    var script, n := UnsafeBreaks(op, p);
    InvokePhasesOk(op, 0, FreshCtx, script);
    ReceiveIsRunOp(pre, op, script, n);
    var log := ReceiveRun(pre, op, script, n).log;
    assert [] + Flat(op) + [Delivered] == Flat(op) + [Delivered];
    assert log[..|log| - 1] == Run(op, script, n).log && (Flat(op) + [Delivered])[..|Flat(op)|] == Flat(op);
    assert !ReceivesWhole(pre, op, script, n);
  }

  lemma {:induction false} UnsafeBefore(pre: seq<PhaseState>, op: seq<PhaseState>)
    requires DistinctNames(pre) && Flat(op) == [] && !AllSafe(pre)
    ensures exists script: Script, n: nat :: !ReceivesWhole(pre, op, script, n)
  {
    var p :| 0 <= p < |pre| && !ResumeSafe(pre[p]);
    var script, n := UnsafeBreaks(pre, p);
    InvokePhasesOk(pre, 0, FreshCtx, script);
    ReceiveIsRunPre(pre, op, script, n);
    var log := ReceiveRun(pre, op, script, n).log;
    assert Flat(pre) + [] + [Delivered] == Flat(pre) + [Delivered];
    assert log[..|log| - 1] == Run(pre, script, n).log && (Flat(pre) + [Delivered])[..|Flat(pre)|] == Flat(pre);
    assert !ReceivesWhole(pre, op, script, n);
  }

  /** resume_receive delivers a message paused in its operation's in flow at once, leaving
      out every handler of that flow still owed. */
  lemma {:induction false} ResumeReceiveSkipsOperation(pre: seq<PhaseState>, op: seq<PhaseState>, p: nat, c: Ctx,
                                                       goal: seq<Event>, script: Script)
    requires Apart(pre, op) && PausedAt(op, p, c, goal)
    ensures ResumeReceive(pre, true, Server, c, script)
         == (true, c.(paused := false, log := c.log + [Delivered]))
  {
    ResumeElsewhere(pre, 0, c.(paused := false), script);
  }
}
