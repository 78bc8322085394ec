/** Failing handlers: what a send and a receive leave for every script whatever. */
module EngineFailures {
  import opened PhaseTypes
  import opened Engine
  import opened EngineScripts
  import opened EngineRuns
  import opened EngineFlows

  // ----- where a failure leaves the cursor ------------------------------------------

  /** A failing list handler was run, but the index was not moved past it: it names that
      handler, or nothing of this phase when it was the first. A resume runs it again. */
  lemma {:induction false} InvokeListFails(hs: seq<Handler>, i: nat, c: Ctx, script: Script) returns (j: nat)
    requires i <= |hs| && !InvokeList(hs, i, c, script).0
    ensures i <= j < |hs|
    ensures var d := InvokeList(hs, i, c, script).1;
      && d.log + RunsFrom(hs, j + 1) == c.log + RunsFrom(hs, i)
      && |d.log| == |c.log| + j - i + 1
      && !OutcomeAt(script, |d.log| - 1).ok
      && d.index == if j == i then c.index else j
    decreases |hs| - i
  {
    Assoc(c.log, [Ran(hs[i])], RunsFrom(hs, i + 1));
    if OutcomeAt(script, |c.log|).ok {
      var e := RunHandler(hs[i], c, script).1.(index := i + 1);
      assert InvokeList(hs, i, c, script) == InvokeList(hs, i + 1, e, script);
      j := InvokeListFails(hs, i + 1, e, script);
    } else {
      j := i;
    }
  }

  /** A handler that pauses and fails is run again by the resume. */
  lemma FailedPauseRepeats()
    ensures var a, b := Handler("a", Rule("p", None, None, false, false)), Handler("b", Rule("p", None, None, false, false));
      var p := PhaseState("p", None, [a, b], None, false);
      Run([p], [Go, Outcome(false, Pause)], 1) == Ctx(false, Some("p"), 2, [Ran(a), Ran(b), Ran(b)])
  {
    var a, b := Handler("a", Rule("p", None, None, false, false)), Handler("b", Rule("p", None, None, false, false));
    var p, script := PhaseState("p", None, [a, b], None, false), [Go, Outcome(false, Pause)];
    var c0 := FreshCtx.(phaseName := Some("p"));
    var c1, c2 := Ctx(false, Some("p"), 1, [Ran(a)]), Ctx(true, Some("p"), 1, [Ran(a), Ran(b)]);
    assert [Ran(a)] + [Ran(b)] == [Ran(a), Ran(b)] && [] + [Ran(a)] == [Ran(a)];
    assert OutcomeAt(script, 0) == Go && OutcomeAt(script, 1) == Outcome(false, Pause);
    assert InvokeList([a, b], 1, c1, script) == (false, c2);
    assert InvokeList([a, b], 0, c0, script) == (false, c2);
    assert InvokePhase(p, FreshCtx, script) == (false, c2);
    assert Run([p], script, 0) == c2;
    var c3, c4 := c2.(paused := false), Ctx(false, Some("p"), 2, [Ran(a), Ran(b), Ran(b)]);
    assert [Ran(a), Ran(b)] + [Ran(b)] == [Ran(a), Ran(b), Ran(b)];
    assert ResumeList([a, b], 2, c4, script) == c4;
    assert ResumeList([a, b], 1, c3, script) == c4;
    assert ResumeLoop([p], 1, true, c4, script) == c4;
    assert ResumeLoop([p], 0, false, c3, script) == c4;
  }

  // ----- a run adds handlers to the record, nothing else ----------------------------

  predicate OnlyRuns(log: seq<Event>) {
    forall k :: 0 <= k < |log| ==> log[k].Ran?
  }

  lemma {:induction false} InvokeOnlyRuns(chain: seq<PhaseState>, i: nat, c: Ctx, script: Script)
    requires i <= |chain| && OnlyRuns(c.log)
    ensures OnlyRuns(InvokePhases(chain, i, c, script).1.log)
    decreases |chain| - i
  {
    if !c.paused {
      InvokeIsFlat(chain, i, c, script);
      FlatOnlyRuns(chain, i);
      var k := RunAllStops(FlatFrom(chain, i), View(true, false, c.log), script);
    }
  }

  lemma {:induction false} RunsFromOnlyRuns(hs: seq<Handler>, k: int)
    ensures OnlyRuns(RunsFrom(hs, k))
    decreases |hs| - k
  {
    if k < |hs| { RunsFromOnlyRuns(hs, k + 1); }
  }

  lemma {:induction false} ResumeOnlyRuns(chain: seq<PhaseState>, i: nat, found: bool, c: Ctx, script: Script)
    requires i <= |chain| && OnlyRuns(c.log)
    ensures OnlyRuns(ResumeLoop(chain, i, found, c, script).log)
    decreases |chain| - i
  {
    if i < |chain| && !c.paused {
      if c.phaseName == Some(chain[i].name) {
        ResumeListLog(chain[i].handlers, c.index, c.(phaseName := Some(chain[i].name)), script);
        RunsFromOnlyRuns(chain[i].handlers, c.index);
        ResumeOnlyRuns(chain, i + 1, true, ResumePhase(chain[i], c.index, c, script), script);
      } else if found {
        PhaseOnlyRuns(chain[i], c, script);
        ResumeOnlyRuns(chain, i + 1, true, InvokePhase(chain[i], c, script).1, script);
      } else {
        ResumeOnlyRuns(chain, i + 1, false, c, script);
      }
    }
  }

  lemma {:induction false} PhaseOnlyRuns(p: PhaseState, c: Ctx, script: Script)
    requires !c.paused && OnlyRuns(c.log)
    ensures OnlyRuns(InvokePhase(p, c, script).1.log)
  {
    InvokePhaseIsFlat(p, c, script);
    FullIsOrder(p);
    var k := RunAllStops(Full(p), View(true, false, c.log), script);
  }

  // ----- sending, for every script --------------------------------------------------

  /** Called once, at the end. */
  predicate EndsWith(log: seq<Event>, e: Event) {
    |log| > 0 && log[|log| - 1] == e && OnlyRuns(log[..|log| - 1])
  }

  lemma {:induction false} SendAdds(op: seq<PhaseState>, global: seq<PhaseState>, c: Ctx, script: Script)
    requires OnlyRuns(c.log)
    ensures var (ok, d) := Send(Some(op), Some(global), Sender(true), c, script);
      if !c.paused && !InvokePhases(op, 0, c, script).0 then d == InvokePhases(op, 0, c, script).1 && OnlyRuns(d.log)
      else if d.paused then OnlyRuns(d.log) else EndsWith(d.log, Sent)
  {
    var (ok, c1) := if c.paused then (true, ResumePhases(op, c, script)) else InvokePhases(op, 0, c, script);
    if c.paused { ResumeOnlyRuns(op, 0, false, c.(paused := false), script); } else { InvokeOnlyRuns(op, 0, c, script); }
    if ok {
      InvokeOnlyRuns(global, 0, c1, script);
      var d := InvokePhases(global, 0, c1, script).1;
      assert (d.log + [Sent])[..|d.log|] == d.log;
    }
  }

  /** For all flows and whatever the handlers do: if a handler of the first invocation of the
      out flow fails without pausing, that is the end and the sender is never called. Otherwise
      every run that ends has called the sender, once and last, whatever has failed since. */
  lemma {:induction false} SendOnEveryScript(op: seq<PhaseState>, global: seq<PhaseState>, script: Script, n: nat)
    ensures var c := SendRun(op, global, script, n);
      if FailsFirst(op, script) then c == InvokePhases(op, 0, FreshCtx, script).1 && OnlyRuns(c.log)
      else if c.paused then OnlyRuns(c.log) else EndsWith(c.log, Sent)
  {
    if n == 0 {
      SendAdds(op, global, FreshCtx, script);
    } else {
      SendOnEveryScript(op, global, script, n - 1);
      var c := SendRun(op, global, script, n - 1);
      if c.paused { SendAdds(op, global, c, script); }
    }
  }

  lemma {:induction false} SendStarts(op: seq<PhaseState>, global: seq<PhaseState>, script: Script, n: nat)
    ensures InvokePhases(op, 0, FreshCtx, script).1.log <= SendRun(op, global, script, n).log
  {
    var (ok, c1) := InvokePhases(op, 0, FreshCtx, script);
    if n == 0 {
      if ok { TransmitAgrees(Some(global), Sender(true), c1, script, script); }
    } else {
      SendStarts(op, global, script, n - 1);
      SendAgrees(Some(op), Some(global), Sender(true), SendRun(op, global, script, n - 1), script, script);
    }
  }

  /** When the sender has been called, no handler had failed exactly when the first invocation
      of the out flow succeeded and so did everything run after it. */
  lemma {:induction false} SentAfterFailure(op: seq<PhaseState>, global: seq<PhaseState>, script: Script, n: nat)
    requires EndsWith(SendRun(op, global, script, n).log, Sent)
    ensures var f, log := InvokePhases(op, 0, FreshCtx, script), SendRun(op, global, script, n).log;
      && f.1.log <= log
      && (NoneFailed(script, log) <==> f.0 && forall k :: |f.1.log| <= k < |log| - 1 ==> OutcomeAt(script, k).ok)
  {
    var f, log := InvokePhases(op, 0, FreshCtx, script), SendRun(op, global, script, n).log;
    SendStarts(op, global, script, n);
    InvokeOkExactly(op, FreshCtx, script);
    InvokeOnlyRuns(op, 0, FreshCtx, script);
    var front := log[..|log| - 1];
    assert forall k :: 0 <= k < |front| ==> front[k].Ran? && front[k] == log[k];
    if f.0 && forall k :: |f.1.log| <= k < |log| - 1 ==> OutcomeAt(script, k).ok {
      forall k | 0 <= k < |log| && log[k].Ran? ensures OutcomeAt(script, k).ok {
        if k < |f.1.log| { assert f.1.log[k] == log[k]; }
      }
    }
  }

  // ----- which flows let a failure through ------------------------------------------

  ghost predicate QuietAfter(script: Script, k: nat) {
    forall j: nat :: k <= j ==> OutcomeAt(script, j) == Go
  }

  /** With nothing but success ahead, a call ends unpaused. */
  lemma {:induction false} InvokeEnds(chain: seq<PhaseState>, c: Ctx, script: Script)
    requires !c.paused && QuietAfter(script, |c.log|)
    ensures !InvokePhases(chain, 0, c, script).1.paused
    ensures |InvokePhases(chain, 0, c, script).1.log| >= |c.log|
  {
    InvokeIsFlat(chain, 0, c, script);
    var k := RunAllStops(Flat(chain), View(true, false, c.log), script);
  }

  lemma {:induction false} ResumeEnds(chain: seq<PhaseState>, i: nat, found: bool, c: Ctx, script: Script)
    requires i <= |chain| && !c.paused && QuietAfter(script, |c.log|)
    ensures !ResumeLoop(chain, i, found, c, script).paused
    ensures |ResumeLoop(chain, i, found, c, script).log| >= |c.log|
    decreases |chain| - i
  {
    if i < |chain| {
      if c.phaseName == Some(chain[i].name) {
        var c1 := c.(phaseName := Some(chain[i].name));
        ResumeListLog(chain[i].handlers, c.index, c1, script);
        ResumeEnds(chain, i + 1, true, ResumePhase(chain[i], c.index, c, script), script);
      } else if found {
        QuietPhase(chain[i], c, script);
        ResumeEnds(chain, i + 1, true, InvokePhase(chain[i], c, script).1, script);
      } else {
        ResumeEnds(chain, i + 1, false, c, script);
      }
    }
  }

  const Fail := Outcome(false, Leave)
  const FailAndHalt := Outcome(false, Pause)

  /** A first handler that fails and pauses is all that has run. */
  lemma {:induction false} FirstFails(chain: seq<PhaseState>, script: Script)
    requires Flat(chain) != [] && script == [FailAndHalt]
    ensures var (ok, d) := InvokePhases(chain, 0, FreshCtx, script);
      !ok && d.paused && |d.log| == 1 && d.log[0].Ran?
  {
    InvokeIsFlat(chain, 0, FreshCtx, script);
    FlatOnlyRuns(chain, 0);
    var k := RunAllStops(Flat(chain), View(true, false, []), script);
    assert OutcomeAt(script, 0) == FailAndHalt;
  }

  /** The message is sent although a handler failed. */
  predicate SentFailed(op: seq<PhaseState>, global: seq<PhaseState>, script: Script, n: nat) {
    var log := SendRun(op, global, script, n).log;
    EndsWith(log, Sent) && !NoneFailed(script, log)
  }

  /** There is no flow that a failure cannot get through: whenever the out flow or the global
      out phases hold any handler at all, some run sends although a handler failed. */
  lemma {:induction false} SendLetsFailuresThrough(op: seq<PhaseState>, global: seq<PhaseState>)
      returns (script: Script, n: nat)
    ensures Flat(op) != [] || Flat(global) != [] <==> SentFailed(op, global, script, n)
    ensures Flat(op) == Flat(global) == [] ==> forall s: Script, m: nat :: !SentFailed(op, global, s, m)
  {
    script, n := [], 0;
    if Flat(global) != [] {
      script := GlobalFails(op, global);
    } else if Flat(op) != [] {
      script, n := [FailAndHalt], 1;
      FirstFails(op, script);
      var c := SendRun(op, global, script, 0);
      SendAdds(op, global, FreshCtx, script);
      ResumeEnds(op, 0, false, c.(paused := false), script);
      InvokeEnds(global, ResumePhases(op, c, script), script);
      SendAdds(op, global, c, script);
      SendAgrees(Some(op), Some(global), Sender(true), c, script, script);
      var log := SendRun(op, global, script, 1).log;
      assert log[0] == c.log[0] && !OutcomeAt(script, 0).ok;
    } else {
      forall s: Script, m: nat ensures !SentFailed(op, global, s, m) { NothingRuns(op, global, s, m); }
    }
  }

  lemma {:induction false} GlobalFails(op: seq<PhaseState>, global: seq<PhaseState>) returns (script: Script)
    requires Flat(global) != []
    ensures SentFailed(op, global, script, 0)
  {
    script := seq(|Flat(op)|, _ => Go) + [Fail];
    var c := QuietPhases(op, 0, |op|, FreshCtx, script);
    assert |c.log| == |Flat(op)| && OutcomeAt(script, |c.log|) == Fail;
    InvokeIsFlat(global, 0, c, script);
    FlatOnlyRuns(global, 0);
    var k := RunAllStops(Flat(global), View(true, false, c.log), script);
    SendAdds(op, global, FreshCtx, script);
    var log := SendRun(op, global, script, 0).log;
    assert log[|c.log|].Ran?;
  }

  lemma {:induction false} NothingRuns(op: seq<PhaseState>, global: seq<PhaseState>, script: Script, n: nat)
    requires Flat(op) == Flat(global) == []
    ensures SendRun(op, global, script, n).log == [Sent] && !SendRun(op, global, script, n).paused
  {
    if n == 0 {
      InvokeIsFlat(op, 0, FreshCtx, script);
      var c := InvokePhases(op, 0, FreshCtx, script).1;
      InvokeIsFlat(global, 0, c, script);
    } else {
      NothingRuns(op, global, script, n - 1);
    }
  }

  /** For instance: two handlers in a global out phase, the first of which fails. The second is
      never run and the message is sent. */
  lemma FailedGlobalSends()
    ensures var a, b := Handler("a", Rule("g", None, None, false, false)), Handler("b", Rule("g", None, None, false, false));
      SendRun([], [PhaseState("g", None, [a, b], None, false)], [Fail], 0).log == [Ran(a), Sent]
  {
    var a, b := Handler("a", Rule("g", None, None, false, false)), Handler("b", Rule("g", None, None, false, false));
    var g := PhaseState("g", None, [a, b], None, false);
    assert OutcomeAt([Fail], 0) == Fail;
    assert [] + [Ran(a)] == [Ran(a)] && [Ran(a)] + [Sent] == [Ran(a), Sent];
    assert !InvokeList([a, b], 0, FreshCtx.(phaseName := Some("g")), [Fail]).0;
    assert InvokePhase(g, FreshCtx, [Fail]).1.log == [Ran(a)];
    assert InvokePhases([g], 0, FreshCtx, [Fail]).1.log == [Ran(a)];
  }

  // ----- receiving, for every script ------------------------------------------------

  lemma {:induction false} ReceiveAdds(pre: seq<PhaseState>, op: seq<PhaseState>, c: Ctx, script: Script)
    requires OnlyRuns(c.log)
    ensures var (ok, d) := Receive(pre, true, Some(op), Server, c, script);
      && (!c.paused && !ok ==> OnlyRuns(d.log))
      && (c.paused ==> ok)
      && (ok ==> if d.paused then OnlyRuns(d.log) else EndsWith(d.log, Delivered))
  {
    if c.paused {
      ResumeOnlyRuns(pre, 0, false, c.(paused := false), script);
      var c1 := ResumePhases(pre, c, script);
      ResumeOnlyRuns(op, 0, false, c1.(paused := false), script);
      var d := ResumePhases(op, c1, script);
      assert (d.log + [Delivered])[..|d.log|] == d.log;
    } else {
      InvokeOnlyRuns(pre, 0, c, script);
      var c1 := InvokePhases(pre, 0, c, script).1;
      InvokeOnlyRuns(op, 0, c1, script);
      var d := InvokePhases(op, 0, c1, script).1;
      assert (d.log + [Delivered])[..|d.log|] == d.log;
    }
  }

  /** The same on the server: if a handler of the first receive fails without pausing, nothing
      is ever delivered. Otherwise every run that ends has delivered the message, once and
      last, whatever has failed since. */
  lemma {:induction false} ReceiveOnEveryScript(pre: seq<PhaseState>, op: seq<PhaseState>, script: Script, n: nat)
    ensures var f, c := Receive(pre, true, Some(op), Server, FreshCtx, script), ReceiveRun(pre, op, script, n);
      if !f.0 && !f.1.paused then c == f.1 && OnlyRuns(c.log)
      else if c.paused then OnlyRuns(c.log) else EndsWith(c.log, Delivered)
  {
    if n == 0 {
      ReceiveAdds(pre, op, FreshCtx, script);
    } else {
      ReceiveOnEveryScript(pre, op, script, n - 1);
      var c := ReceiveRun(pre, op, script, n - 1);
      if c.paused { ReceiveAdds(pre, op, c, script); }
    }
  }

  /** An invocation succeeds exactly when every handler it ran did. */
  lemma {:induction false} InvokeOkExactly(chain: seq<PhaseState>, c: Ctx, script: Script)
    requires !c.paused
    ensures var (ok, d) := InvokePhases(chain, 0, c, script);
      |d.log| >= |c.log| && (ok <==> forall k :: |c.log| <= k < |d.log| ==> OutcomeAt(script, k).ok)
  {
    InvokeIsFlat(chain, 0, c, script);
    var j := RunAllStops(Flat(chain), View(true, false, c.log), script);
    var (ok, d) := InvokePhases(chain, 0, c, script);
    assert |d.log| == |c.log| + j && (!ok ==> j > 0 && !OutcomeAt(script, |c.log| + j - 1).ok);
    if ok {
      forall k | |c.log| <= k < |d.log| ensures OutcomeAt(script, k).ok {
        if k < |c.log| + j - 1 { assert Quiet(OutcomeAt(script, k)); }
      }
    }
  }

  /** When the message has been delivered, no handler had failed exactly when the first receive
      succeeded and so did everything run after it. */
  lemma {:induction false} DeliveredAfterFailure(pre: seq<PhaseState>, op: seq<PhaseState>, script: Script, n: nat)
    requires EndsWith(ReceiveRun(pre, op, script, n).log, Delivered)
    ensures var f, log := Receive(pre, true, Some(op), Server, FreshCtx, script), ReceiveRun(pre, op, script, n).log;
      && f.1.log <= log
      && (NoneFailed(script, log) <==> f.0 && forall k :: |f.1.log| <= k < |log| - 1 ==> OutcomeAt(script, k).ok)
  {
    var f, log := Receive(pre, true, Some(op), Server, FreshCtx, script), ReceiveRun(pre, op, script, n).log;
    ReceiveBegins(pre, op, script, n);
    FirstReceiveOk(pre, op, script);
    assert f.1.log[..|f.1.log|] == log[..|f.1.log|];
    var front := log[..|log| - 1];
    assert forall k :: 0 <= k < |front| ==> front[k].Ran? && front[k] == log[k];
    if f.0 && forall k :: |f.1.log| <= k < |log| - 1 ==> OutcomeAt(script, k).ok {
      forall k | 0 <= k < |log| && log[k].Ran? ensures OutcomeAt(script, k).ok {
        if k < |f.1.log| { assert f.1.log[k] == log[k]; }
      }
    }
  }

  lemma {:induction false} ReceiveBegins(pre: seq<PhaseState>, op: seq<PhaseState>, script: Script, n: nat)
    ensures Receive(pre, true, Some(op), Server, FreshCtx, script).1.log <= ReceiveRun(pre, op, script, n).log
  {
    if n > 0 {
      ReceiveBegins(pre, op, script, n - 1);
      ReceiveAgrees(pre, true, Some(op), Server, ReceiveRun(pre, op, script, n - 1), script, script);
    }
  }

  lemma {:induction false} FirstReceiveOk(pre: seq<PhaseState>, op: seq<PhaseState>, script: Script)
    ensures var f := Receive(pre, true, Some(op), Server, FreshCtx, script);
      f.0 <==> NoneFailed(script, f.1.log)
  {
    var (ok1, c1) := InvokePhases(pre, 0, FreshCtx, script);
    InvokeOkExactly(pre, FreshCtx, script);
    InvokeOnlyRuns(pre, 0, FreshCtx, script);
    if ok1 && !c1.paused {
      InvokeOkExactly(op, c1, script);
      InvokeOnlyRuns(op, 0, c1, script);
      InvokeAgrees(op, 0, c1, script, script);
    }
  }

  predicate DeliveredFailed(pre: seq<PhaseState>, op: seq<PhaseState>, script: Script, n: nat) {
    var log := ReceiveRun(pre, op, script, n).log;
    EndsWith(log, Delivered) && !NoneFailed(script, log)
  }

  /** Nor is there a receiving chain with a handler that keeps every failed message from being
      delivered. */
  lemma {:induction false} ReceiveLetsFailuresThrough(pre: seq<PhaseState>, op: seq<PhaseState>)
    ensures Flat(pre) != [] || Flat(op) != [] <==> exists script: Script, n: nat :: DeliveredFailed(pre, op, script, n)
  {
    if Flat(pre) != [] || Flat(op) != [] {
      var script := [FailAndHalt];
      var c := ReceiveRun(pre, op, script, 0);
      if Flat(pre) != [] {
        FirstFails(pre, script);
      } else {
        InvokeIsFlat(pre, 0, FreshCtx, script);
        FailsInFlow(pre, op, script);
      }
      assert c.paused && |c.log| == 1 && c.log[0].Ran?;
      var c1 := ResumePhases(pre, c, script);
      ResumeEnds(pre, 0, false, c.(paused := false), script);
      ResumeEnds(op, 0, false, c1.(paused := false), script);
      ReceiveAdds(pre, op, c, script);
      ReceiveAgrees(pre, true, Some(op), Server, c, script, script);
      assert ReceiveRun(pre, op, script, 1).log[0] == c.log[0] && !OutcomeAt(script, 0).ok;
      assert DeliveredFailed(pre, op, script, 1);
    } else {
      forall script: Script, n: nat ensures !DeliveredFailed(pre, op, script, n) { NothingReceives(pre, op, script, n); }
    }
  }

  lemma {:induction false} FailsInFlow(pre: seq<PhaseState>, op: seq<PhaseState>, script: Script)
    requires Flat(pre) == [] && Flat(op) != [] && script == [FailAndHalt]
    ensures var c := ReceiveRun(pre, op, script, 0); c.paused && |c.log| == 1 && c.log[0].Ran?
  {
    InvokeIsFlat(pre, 0, FreshCtx, script);
    var c := InvokePhases(pre, 0, FreshCtx, script).1;
    assert c.log == [] && !c.paused;
    InvokeIsFlat(op, 0, c, script);
    FlatOnlyRuns(op, 0);
    var k := RunAllStops(Flat(op), View(true, false, []), script);
    assert OutcomeAt(script, 0) == FailAndHalt;
  }

  lemma {:induction false} NothingReceives(pre: seq<PhaseState>, op: seq<PhaseState>, script: Script, n: nat)
    requires Flat(pre) == Flat(op) == []
    ensures ReceiveRun(pre, op, script, n).log == [Delivered] && !ReceiveRun(pre, op, script, n).paused
  {
    if n == 0 {
      InvokeIsFlat(pre, 0, FreshCtx, script);
      var c := InvokePhases(pre, 0, FreshCtx, script).1;
      InvokeIsFlat(op, 0, c, script);
    } else {
      NothingReceives(pre, op, script, n - 1);
    }
  }
}
