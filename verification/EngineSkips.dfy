/** Skipped handlers: in which flows a message can be sent or delivered with a handler never run. */
module EngineSkips {
  import opened PhaseTypes
  import opened Engine
  import opened EngineScripts
  import opened EngineRuns
  import opened EngineFlows
  import opened EngineFailures

  predicate AllIn(es: seq<Event>, log: seq<Event>) {
    forall k :: 0 <= k < |es| ==> es[k] in log
  }

  predicate Missing(es: seq<Event>, log: seq<Event>) { !AllIn(es, log) }

  predicate NoRepeats(es: seq<Event>) {
    forall i, j :: 0 <= i < j < |es| ==> es[i] != es[j]
  }

  /** Some phase behind one that has a handler has two. */
  predicate LaterPair(chain: seq<PhaseState>) {
    exists s, t :: 0 <= s < t < |chain| && Full(chain[s]) != [] && |Full(chain[t])| >= 2
  }

  lemma AllInGrows(es: seq<Event>, log: seq<Event>, more: seq<Event>)
    requires AllIn(es, log) && log <= more
    ensures AllIn(es, more)
  {
    forall k | 0 <= k < |es| ensures es[k] in more {
      var i :| 0 <= i < |log| && log[i] == es[k];
      assert more[i] == es[k];
    }
  }

  lemma AllInConcat(a: seq<Event>, b: seq<Event>, log: seq<Event>)
    ensures AllIn(a + b, log) <==> AllIn(a, log) && AllIn(b, log)
  {
    if AllIn(a + b, log) {
      forall k | 0 <= k < |a| ensures a[k] in log { assert (a + b)[k] == a[k]; }
      forall k | 0 <= k < |b| ensures b[k] in log { assert (a + b)[|a| + k] == b[k]; }
    }
  }

  // ----- chains in which nothing is skipped -----------------------------------------

  /** The phases from i on hold at most one handler each. */
  predicate Singles(chain: seq<PhaseState>, i: nat) {
    forall j :: i <= j < |chain| ==> |Full(chain[j])| <= 1
  }

  /** All handlers of the phases from i up to j are in the log. */
  predicate PhasesIn(chain: seq<PhaseState>, i: nat, j: nat, log: seq<Event>) {
    forall k :: i <= k < j && k < |chain| ==> AllIn(Full(chain[k]), log)
  }

  /** What is not in the log of phase p is ahead of the index. */
  predicate Covered(p: PhaseState, c: Ctx) {
    forall k :: 0 <= k < |Full(p)| ==> Full(p)[k] in c.log || Full(p)[k] in RunsFrom(p.handlers, c.index)
  }

  lemma {:induction false} FlatIn(chain: seq<PhaseState>, i: nat, log: seq<Event>)
    requires i <= |chain| && PhasesIn(chain, i, |chain|, log)
    ensures AllIn(FlatFrom(chain, i), log)
    decreases |chain| - i
  {
    if i < |chain| {
      FlatIn(chain, i + 1, log);
      AllInConcat(Full(chain[i]), FlatFrom(chain, i + 1), log);
    }
  }

  lemma {:induction false} PhasesGrow(chain: seq<PhaseState>, i: nat, j: nat, log: seq<Event>, more: seq<Event>)
    requires PhasesIn(chain, i, j, log) && log <= more
    ensures PhasesIn(chain, i, j, more)
  {
    forall k | i <= k < j && k < |chain| ensures AllIn(Full(chain[k]), more) { AllInGrows(Full(chain[k]), log, more); }
  }

  /** A phase with one handler runs it, whatever comes of it. */
  lemma {:induction false} SingleRuns(p: PhaseState, c: Ctx, script: Script)
    requires !c.paused && |Full(p)| <= 1
    ensures var d := InvokePhase(p, c, script).1; c.log <= d.log && AllIn(Full(p), d.log)
  {
    InvokePhaseIsFlat(p, c, script);
    var k := RunAllStops(Full(p), View(true, false, c.log), script);
    var log := InvokePhase(p, c, script).1.log;
    assert log == c.log + Full(p)[..k];
    if |Full(p)| == 1 { assert k == 1 && log[|c.log|] == Full(p)[0]; }
  }

  /** Where a call leaves a chain whose phases from i on hold one handler at most: at its end,
      all of them run, or paused in one of them, all up to it run. */
  predicate Reached(chain: seq<PhaseState>, i: nat, q: nat, d: Ctx) {
    if d.paused then i <= q < |chain| && d.phaseName == Some(chain[q].name) && PhasesIn(chain, i, q + 1, d.log)
    else PhasesIn(chain, i, |chain|, d.log)
  }

  lemma {:induction false} InvokeReaches(chain: seq<PhaseState>, i: nat, c: Ctx, script: Script) returns (q: nat)
    requires i <= |chain| && Singles(chain, i) && !c.paused
    ensures var (ok, d) := InvokePhases(chain, i, c, script); c.log <= d.log && (ok || d.paused ==> Reached(chain, i, q, d))
    decreases |chain| - i
  {
    q := i;
    InvokeAgrees(chain, i, c, script, script);
    if i < |chain| {
      SingleRuns(chain[i], c, script);
      InvokePhaseName(chain[i], c, script);
      var (ok, d) := InvokePhase(chain[i], c, script);
      if ok && !d.paused {
        q := InvokeReaches(chain, i + 1, d, script);
        AllInGrows(Full(chain[i]), d.log, InvokePhases(chain, i, c, script).1.log);
      } else if ok {
        assert InvokePhases(chain, i + 1, d, script) == (true, d);
      }
    }
  }

  lemma {:induction false} ResumeReaches(chain: seq<PhaseState>, i: nat, c: Ctx, script: Script) returns (q: nat)
    requires DistinctNames(chain) && i <= |chain| && Singles(chain, i) && !c.paused
    requires forall j :: i <= j < |chain| ==> c.phaseName != Some(chain[j].name)
    ensures var d := ResumeLoop(chain, i, true, c, script); c.log <= d.log && Reached(chain, i, q, d)
    decreases |chain| - i
  {
    q := i;
    ResumeLoopAgrees(chain, i, true, c, script, script);
    if i < |chain| {
      SingleRuns(chain[i], c, script);
      InvokePhaseName(chain[i], c, script);
      var d := InvokePhase(chain[i], c, script).1;
      if d.paused {
        assert ResumeLoop(chain, i + 1, true, d, script) == d;
      } else {
        q := ResumeReaches(chain, i + 1, d, script);
        AllInGrows(Full(chain[i]), d.log, ResumeLoop(chain, i, true, c, script).log);
      }
    }
  }

  /** A list loop that succeeds leaves an index that names what it has not run. */
  lemma {:induction false} InvokeListLeaves(hs: seq<Handler>, i: nat, c: Ctx, script: Script)
    requires i < |hs| && !c.paused && InvokeList(hs, i, c, script).0
    ensures var d := InvokeList(hs, i, c, script).1;
      && i < d.index <= |hs| && d.log + RunsFrom(hs, d.index) == c.log + RunsFrom(hs, i)
      && (!d.paused ==> d.index == |hs|)
    decreases |hs| - i
  {
    var d := RunHandler(hs[i], c, script).1.(index := i + 1);
    Assoc(c.log, [Ran(hs[i])], RunsFrom(hs, i + 1));
    if i + 1 < |hs| && !d.paused {
      InvokeListLeaves(hs, i + 1, d, script);
    } else {
      assert InvokeList(hs, i + 1, d, script) == (true, d);
    }
  }

  /** The same for a whole plain phase, the first that anything was run in: it ends with all
      run, is paused with the rest ahead of its index, or fails for good. */
  lemma {:induction false} PlainLeaves(p: PhaseState, c: Ctx, script: Script)
    requires Plain(p) && p.handlers != [] && !c.paused && c.index == -1
    ensures var (ok, d) := InvokePhase(p, c, script);
      && c.log <= d.log && d.phaseName == Some(p.name)
      && (d.paused ==> Covered(p, d))
      && (ok && !d.paused ==> AllIn(Full(p), d.log))
  {
    var hs, c1 := p.handlers, c.(phaseName := Some(p.name));
    InvokePhaseName(p, c, script);
    InvokePhaseAgrees(p, c, script, script);
    var (ok, d) := InvokeList(hs, 0, c1, script);
    assert InvokePhase(p, c, script) == (ok, d);
    assert [] + RunsFrom(hs, 0) + [] == RunsFrom(hs, 0);
    if ok {
      InvokeListLeaves(hs, 0, c1, script);
      TailCovers(hs, d.index, c.log, d.log);
    } else {
      var j := InvokeListFails(hs, 0, c1, script);
      TailCovers(hs, j + 1, c.log, d.log);
      RunsFromMore(hs, if j == 0 then -1 else j, j + 1);
    }
  }

  /** What a log has of a list, with what is ahead, is the list. */
  lemma {:induction false} TailCovers(hs: seq<Handler>, k: nat, before: seq<Event>, log: seq<Event>)
    requires log + RunsFrom(hs, k) == before + RunsFrom(hs, 0) && before <= log
    ensures forall i :: 0 <= i < |RunsFrom(hs, 0)| ==> RunsFrom(hs, 0)[i] in log || RunsFrom(hs, 0)[i] in RunsFrom(hs, k)
  {
    var all := before + RunsFrom(hs, 0);
    forall i | 0 <= i < |RunsFrom(hs, 0)|
      ensures RunsFrom(hs, 0)[i] in log || RunsFrom(hs, 0)[i] in RunsFrom(hs, k)
    {
      assert all[|before| + i] == RunsFrom(hs, 0)[i];
      if |before| + i < |log| {
        assert log[|before| + i] == all[|before| + i];
      } else {
        assert RunsFrom(hs, k)[|before| + i - |log|] == all[|before| + i];
      }
    }
  }

  lemma {:induction false} RunsFromMore(hs: seq<Handler>, a: int, b: nat)
    requires a <= b
    ensures forall e :: e in RunsFrom(hs, b) ==> e in RunsFrom(hs, a)
    decreases b - a
  {
    if a < b && a < |hs| { RunsFromMore(hs, a + 1, b); }
  }

  /** In a run of a chain without a later pair that did not fail for good at first: everything
      before the paused phase has been run, and the rest of that phase is ahead of the index. */
  predicate NoneLost(chain: seq<PhaseState>, p: nat, q: nat, c: Ctx) {
    if c.paused then
      && p <= q < |chain| && c.phaseName == Some(chain[q].name)
      && PhasesIn(chain, 0, q, c.log) && Covered(chain[q], c)
    else PhasesIn(chain, 0, |chain|, c.log)
  }

  lemma {:induction false} EmptyIn(chain: seq<PhaseState>, p: nat, log: seq<Event>)
    requires forall j :: 0 <= j < p && j < |chain| ==> Full(chain[j]) == []
    ensures PhasesIn(chain, 0, p, log)
  {
  }

  lemma {:induction false} FirstLosesNone(chain: seq<PhaseState>, p: nat, script: Script) returns (q: nat)
    requires p < |chain| && Full(chain[p]) != [] && ResumeSafe(chain[p]) && Singles(chain, p + 1)
    requires forall j :: 0 <= j < p ==> Full(chain[j]) == []
    requires !FailsFirst(chain, script)
    ensures NoneLost(chain, p, q, Run(chain, script, 0))
  {
    var name := EmptyPrefix(chain, 0, p, FreshCtx, script);
    var c := FreshCtx.(phaseName := name);
    var (ok, d) := InvokePhase(chain[p], c, script);
    FullIsOrder(chain[p]);
    InvokePhaseName(chain[p], c, script);
    if |Full(chain[p])| <= 1 { SingleRuns(chain[p], c, script); } else { PlainLeaves(chain[p], c, script); }
    q := p;
    EmptyIn(chain, p, d.log);
    if ok && !d.paused {
      q := InvokeReaches(chain, p + 1, d, script);
      var e := InvokePhases(chain, p + 1, d, script).1;
      AllInGrows(Full(chain[p]), d.log, e.log);
      EmptyIn(chain, p, e.log);
    } else if ok {
      assert InvokePhases(chain, p + 1, d, script) == (true, d);
    }
  }

  lemma {:induction false} NextLosesNone(chain: seq<PhaseState>, p: nat, q: nat, c: Ctx, script: Script) returns (r: nat)
    requires DistinctNames(chain) && Singles(chain, p + 1) && c.paused && NoneLost(chain, p, q, c)
    ensures NoneLost(chain, p, r, ResumePhases(chain, c, script))
  {
    var c0 := c.(paused := false);
    ResumeByName(chain, 0, q, c0, script);
    ResumeListLog(chain[q].handlers, c.index, c0, script);
    var d := ResumePhase(chain[q], c.index, c0, script);
    assert d.log == c.log + RunsFrom(chain[q].handlers, c.index);
    assert AllIn(Full(chain[q]), d.log);
    PhasesGrow(chain, 0, q, c.log, d.log);
    r := q;
    if d.paused {
      assert ResumeLoop(chain, q + 1, true, d, script) == d;
    } else {
      r := ResumeReaches(chain, q + 1, d, script);
      var e := ResumeLoop(chain, q + 1, true, d, script);
      PhasesGrow(chain, 0, q + 1, d.log, e.log);
    }
  }

  lemma {:induction false} RunLosesNone(chain: seq<PhaseState>, p: nat, script: Script, n: nat) returns (q: nat)
    requires DistinctNames(chain) && p < |chain| && Full(chain[p]) != [] && ResumeSafe(chain[p]) && Singles(chain, p + 1)
    requires forall j :: 0 <= j < p ==> Full(chain[j]) == []
    requires !FailsFirst(chain, script)
    ensures NoneLost(chain, p, q, Run(chain, script, n))
  {
    if n == 0 {
      q := FirstLosesNone(chain, p, script);
    } else {
      q := RunLosesNone(chain, p, script, n - 1);
      var c := Run(chain, script, n - 1);
      if c.paused { q := NextLosesNone(chain, p, q, c, script); }
    }
  }

  /** A chain without a later pair that has not failed for good at first runs every handler
      before it ends, whatever they do. */
  lemma {:induction false} NoPairNoSkip(chain: seq<PhaseState>, script: Script, n: nat)
    requires DistinctNames(chain) && AllSafe(chain) && !LaterPair(chain)
    requires !FailsFirst(chain, script) && !Run(chain, script, n).paused
    ensures AllIn(Flat(chain), Run(chain, script, n).log)
  {
    if Flat(chain) != [] {
      var p := FirstBusy(chain, 0);
      var q := RunLosesNone(chain, p, script, n);
      FlatIn(chain, 0, Run(chain, script, n).log);
    }
  }

  // ----- a later pair is enough to skip ---------------------------------------------

  lemma {:induction false} FlatSplit(chain: seq<PhaseState>, t: nat, i: nat)
    requires i <= t <= |chain|
    ensures FlatFrom(chain, i) == FlatFrom(chain[..t], i) + FlatFrom(chain, t)
    decreases t - i
  {
    if i < t {
      FlatSplit(chain, t, i + 1);
      Assoc(Full(chain[i]), FlatFrom(chain[..t], i + 1), FlatFrom(chain, t));
    }
  }

  lemma {:induction false} InvokeSplit(chain: seq<PhaseState>, t: nat, i: nat, c: Ctx, script: Script)
    requires i <= t <= |chain|
    ensures var (ok, d) := InvokePhases(chain[..t], i, c, script);
      InvokePhases(chain, i, c, script) == if !ok || d.paused then (ok, d) else InvokePhases(chain, t, d, script)
    decreases t - i
  {
    if i < t && !c.paused {
      var (ok, d) := InvokePhase(chain[i], c, script);
      if ok { InvokeSplit(chain, t, i + 1, d, script); }
    }
  }

  lemma {:induction false} ResumeSplit(chain: seq<PhaseState>, t: nat, i: nat, c: Ctx, script: Script)
    requires i <= t <= |chain|
    ensures var d := ResumeLoop(chain[..t], i, true, c, script);
      ResumeLoop(chain, i, true, c, script) == if d.paused then d else ResumeLoop(chain, t, true, d, script)
    decreases t - i
  {
    if i < t && !c.paused {
      if c.phaseName == Some(chain[i].name) {
        ResumeSplit(chain, t, i + 1, ResumePhase(chain[i], c.index, c, script), script);
      } else {
        ResumeSplit(chain, t, i + 1, InvokePhase(chain[i], c, script).1, script);
      }
    }
  }

  /** What phases add to the log is among their handlers. */
  lemma {:induction false} LoopAdds(chain: seq<PhaseState>, i: nat, c: Ctx, script: Script, e: Event)
    requires DistinctNames(chain) && i <= |chain| && !c.paused && e !in c.log && e !in FlatFrom(chain, i)
    requires forall j :: i <= j < |chain| ==> c.phaseName != Some(chain[j].name)
    ensures e !in ResumeLoop(chain, i, true, c, script).log
    decreases |chain| - i
  {
    if i < |chain| {
      InvokePhaseIsFlat(chain[i], c, script);
      var k := RunAllStops(Full(chain[i]), View(true, false, c.log), script);
      InvokePhaseName(chain[i], c, script);
      var d := InvokePhase(chain[i], c, script).1;
      assert d.log == c.log + Full(chain[i])[..k];
      assert e !in Full(chain[i]) && e !in FlatFrom(chain, i + 1);
      if d.paused {
        assert ResumeLoop(chain, i + 1, true, d, script) == d;
      } else {
        LoopAdds(chain, i + 1, d, script, e);
      }
    }
  }

  lemma {:induction false} InvokeAdds(chain: seq<PhaseState>, c: Ctx, script: Script, e: Event)
    requires !c.paused && e !in c.log && e !in Flat(chain)
    ensures e !in InvokePhases(chain, 0, c, script).1.log
  {
    InvokeIsFlat(chain, 0, c, script);
    var k := RunAllStops(Flat(chain), View(true, false, c.log), script);
  }

  /** Success but for a pause at the first handler and a failure at handler number n. */
  function HaltThenFail(n: nat): Script
    requires n > 0
  {
    [Halt] + seq(n - 1, _ => Go) + [Fail]
  }

  lemma HaltThenFailAt(n: nat)
    requires n > 0
    ensures OutcomeAt(HaltThenFail(n), 0) == Halt && OutcomeAt(HaltThenFail(n), n) == Fail
    ensures forall k: nat :: 0 < k && k != n ==> OutcomeAt(HaltThenFail(n), k) == Go
  {
  }

  /** The front of the chain, paused at its first handler, is run whole by one resume. */
  lemma {:induction false} FrontRuns(chain: seq<PhaseState>, script: Script)
    requires DistinctNames(chain) && AllSafe(chain) && Flat(chain) != [] && script == HaltThenFail(|Flat(chain)|)
    ensures var c, d := Run(chain, script, 0), Run(chain, script, 1);
      && InvokePhases(chain, 0, FreshCtx, script).0 && c.paused && InPhase(chain, c)
      && !d.paused && d.log == Flat(chain) && InPhase(chain, d)
  {
    HaltOnce(chain);
    HaltThenFailAt(|Flat(chain)|);
    var p := RunsKeepTheCursor(chain, [Halt], 1);
    var d := Run(chain, [Halt], 1);
    ResumeAgrees(chain, Run(chain, [Halt], 0), [Halt], [Halt]);
    AgreeBefore([Halt], script, Run(chain, [Halt], 0).log, d.log);
    RunFollows(chain, [Halt], script, 0);
    RunFollows(chain, [Halt], script, 1);
    InvokeAgrees(chain, 0, FreshCtx, [Halt], script);
  }

  /** The first handler of a plain phase with two fails: the second is not run. */
  lemma {:induction false} PairSkips(p: PhaseState, c: Ctx, script: Script)
    requires Plain(p) && |Full(p)| >= 2 && !c.paused && OutcomeAt(script, |c.log|) == Fail
    ensures var d := InvokePhase(p, c, script).1; !d.paused && d.log == c.log + [Full(p)[0]] && d.phaseName == Some(p.name)
  {
    InvokePhaseIsFlat(p, c, script);
    InvokePhaseName(p, c, script);
    var k := RunAllStops(Full(p), View(true, false, c.log), script);
    assert k == 1 && Full(p)[..1] == [Full(p)[0]];
  }

  lemma NoRepeatsAfter(a: seq<Event>, f: seq<Event>, b: seq<Event>)
    requires NoRepeats(a + f + b) && |f| >= 2
    ensures f[1] in a + f + b && f[1] !in a + [f[0]] && f[1] !in b
  {
    var all := a + f + b;
    assert all[|a| + 1] == f[1] && all[|a|] == f[0];
    assert forall i :: 0 <= i < |a| ==> all[i] == a[i];
    assert forall i :: 0 <= i < |b| ==> all[|a| + |f| + i] == b[i];
  }

  /** The run that skips: paused at its first handler, resumed, and failing at the first of
      the pair. */
  lemma {:induction false} PairIsSkipped(chain: seq<PhaseState>) returns (script: Script, e: Event)
    requires DistinctNames(chain) && AllSafe(chain) && NoRepeats(Flat(chain)) && LaterPair(chain)
    ensures var c, d := Run(chain, script, 0), Run(chain, script, 1);
      && InvokePhases(chain, 0, FreshCtx, script).0 && c.paused && InPhase(chain, c)
      && !d.paused && InPhase(chain, d) && QuietAfter(script, |d.log|)
      && e in Flat(chain) && e !in d.log
  {
    var s, t :| 0 <= s < t < |chain| && Full(chain[s]) != [] && |Full(chain[t])| >= 2;
    BusyFront(chain[..t], s, 0);
    script := HaltThenFail(|Flat(chain[..t])|);
    PairFront(chain, t, script);
    e := PairBehind(chain, t, Run(chain[..t], script, 1), script);
    var c := Run(chain, script, 0);
    FrontNames(chain, t, c);
    ResumeRecords(chain, 0, false, c.(paused := false), script);
  }

  lemma FrontNames(chain: seq<PhaseState>, t: nat, c: Ctx)
    requires t <= |chain| && InPhase(chain[..t], c)
    ensures InPhase(chain, c)
    ensures DistinctNames(chain) ==> forall j :: t <= j < |chain| ==> c.phaseName != Some(chain[j].name)
  {
    var j :| 0 <= j < t && c.phaseName == Some(chain[..t][j].name);
    assert c.phaseName == Some(chain[j].name);
  }

  /** Up to the pair the run is that of the front. */
  lemma {:induction false} PairFront(chain: seq<PhaseState>, t: nat, script: Script)
    requires DistinctNames(chain) && AllSafe(chain) && t <= |chain| && Flat(chain[..t]) != []
    requires script == HaltThenFail(|Flat(chain[..t])|)
    ensures var front := chain[..t];
      var c, b := Run(front, script, 0), Run(front, script, 1);
      && Run(chain, script, 0) == c && InvokePhases(chain, 0, FreshCtx, script).0 && c.paused && InPhase(front, c)
      && !b.paused && b.log == Flat(front) && InPhase(front, b)
      && Run(chain, script, 1) == ResumeLoop(chain, t, true, b, script)
  {
    FrontRuns(chain[..t], script);
    InvokeSplit(chain, t, 0, FreshCtx, script);
    ResumeFront(chain, t, Run(chain[..t], script, 0), script);
  }

  /** From the pair on, the second of it is not run. */
  lemma {:induction false} PairBehind(chain: seq<PhaseState>, t: nat, b: Ctx, script: Script) returns (e: Event)
    requires DistinctNames(chain) && t < |chain| && ResumeSafe(chain[t]) && |Full(chain[t])| >= 2 && NoRepeats(Flat(chain))
    requires !b.paused && InPhase(chain[..t], b) && b.log == Flat(chain[..t]) && |b.log| > 0 && script == HaltThenFail(|b.log|)
    ensures var d := ResumeLoop(chain, t, true, b, script);
      !d.paused && QuietAfter(script, |d.log|) && e in Flat(chain) && e !in d.log
  {
    e := Full(chain[t])[1];
    PairEvents(chain, t);
    FrontNames(chain, t, b);
    HaltThenFailAt(|b.log|);
    FullIsOrder(chain[t]);
    PairSkips(chain[t], b, script);
    var d := InvokePhase(chain[t], b, script).1;
    LoopAdds(chain, t + 1, d, script, e);
    ResumeEnds(chain, t + 1, true, d, script);
    assert ResumeLoop(chain, t, true, b, script) == ResumeLoop(chain, t + 1, true, d, script);
  }

  lemma PairEvents(chain: seq<PhaseState>, t: nat)
    requires t < |chain| && |Full(chain[t])| >= 2 && NoRepeats(Flat(chain))
    ensures var e := Full(chain[t])[1];
      e in Flat(chain) && e !in Flat(chain[..t]) + [Full(chain[t])[0]] && e !in FlatFrom(chain, t + 1)
  {
    FlatSplit(chain, t, 0);
    Assoc(Flat(chain[..t]), Full(chain[t]), FlatFrom(chain, t + 1));
    NoRepeatsAfter(Flat(chain[..t]), Full(chain[t]), FlatFrom(chain, t + 1));
  }

  lemma {:induction false} BusyFront(chain: seq<PhaseState>, s: nat, i: nat)
    requires i <= s < |chain| && Full(chain[s]) != []
    ensures FlatFrom(chain, i) != []
    decreases s - i
  {
    if i < s { BusyFront(chain, s, i + 1); }
  }

  /** A resume of the chain is one of its front and then the rest. */
  lemma {:induction false} ResumeFront(chain: seq<PhaseState>, t: nat, c: Ctx, script: Script)
    requires DistinctNames(chain) && t <= |chain| && InPhase(chain[..t], c)
    requires !ResumePhases(chain[..t], c, script).paused
    ensures ResumePhases(chain, c, script) == ResumeLoop(chain, t, true, ResumePhases(chain[..t], c, script), script)
  {
    var front, c0 := chain[..t], c.(paused := false);
    var j :| 0 <= j < |front| && c.phaseName == Some(front[j].name);
    ResumeByName(front, 0, j, c0, script);
    ResumeByName(chain, 0, j, c0, script);
    ResumeSplit(chain, t, j + 1, ResumePhase(chain[j], c.index, c0, script), script);
  }

  // ----- sending --------------------------------------------------------------------

  /** The message is sent with a handler of its flows never run. */
  predicate SendSkips(op: seq<PhaseState>, global: seq<PhaseState>, script: Script, n: nat) {
    var log := SendRun(op, global, script, n).log;
    EndsWith(log, Sent) && Missing(Flat(op) + Flat(global), log)
  }

  /** A send that has all of the out flow behind it and comes to the global phases, of which
      there is at most one handler. */
  lemma {:induction false} GlobalLosesNone(op: seq<PhaseState>, global: seq<PhaseState>, c: Ctx, script: Script)
    requires !c.paused && AllIn(Flat(op), c.log) && |Flat(global)| <= 1
    ensures var d := Transmit(Some(global), Sender(true), c, script).1;
      if d.paused then InPhase(global, d) && AllIn(Flat(op), d.log) else AllIn(Flat(op) + Flat(global), d.log)
  {
    var d := InvokePhases(global, 0, c, script).1;
    InvokeRecords(global, 0, c, script);
    InvokeIsFlat(global, 0, c, script);
    var k := RunAllStops(Flat(global), View(true, false, c.log), script);
    assert k == |Flat(global)| && Flat(global)[..k] == Flat(global);
    AllInGrows(Flat(op), c.log, d.log);
    if !d.paused {
      AllInGrows(Flat(op), c.log, d.log + [Sent]);
      assert forall i :: 0 <= i < k ==> (d.log + [Sent])[|c.log| + i] == Flat(global)[i];
      AllInConcat(Flat(op), Flat(global), d.log + [Sent]);
    }
  }

  lemma {:induction false} SendLosesNone(op: seq<PhaseState>, global: seq<PhaseState>, script: Script, n: nat)
    requires DistinctNames(op) && AllSafe(op) && Apart(op, global)
    requires !LaterPair(op) && |Flat(global)| <= 1 && !FailsFirst(op, script)
    ensures var c := SendRun(op, global, script, n);
      if c.paused then c == Run(op, script, n) || (InPhase(global, c) && AllIn(Flat(op), c.log))
      else AllIn(Flat(op) + Flat(global), c.log)
  {
    if n == 0 {
      var c1 := Run(op, script, 0);
      if c1.paused {
        assert InvokePhases(global, 0, c1, script) == (true, c1);
      } else {
        NoPairNoSkip(op, script, 0);
        GlobalLosesNone(op, global, c1, script);
      }
    } else {
      SendLosesNone(op, global, script, n - 1);
      var c := SendRun(op, global, script, n - 1);
      if c.paused {
        var c1 := ResumePhases(op, c, script);
        if c == Run(op, script, n - 1) {
          assert c1 == Run(op, script, n);
          if !c1.paused { NoPairNoSkip(op, script, n); }
        } else {
          ResumeElsewhere(op, 0, c.(paused := false), script);
        }
        if c1.paused {
          assert InvokePhases(global, 0, c1, script) == (true, c1);
        } else {
          GlobalLosesNone(op, global, c1, script);
        }
      }
    }
  }

  /** In flows whose out flow resumes correctly, a message can be sent with a handler never run
      exactly when some phase of the out flow behind the first that has a handler has two, or
      the global out phases have two: failures there stop the phase and not the message. */
  lemma {:induction false} SendSkipsExactly(op: seq<PhaseState>, global: seq<PhaseState>)
    requires DistinctNames(op) && AllSafe(op) && Apart(op, global) && NoRepeats(Flat(op) + Flat(global))
    ensures LaterPair(op) || |Flat(global)| >= 2 <==> exists script: Script, n: nat :: SendSkips(op, global, script, n)
  {
    if |Flat(global)| >= 2 {
      GlobalSkips(op, global);
    } else if LaterPair(op) {
      PairSkipsSend(op, global);
    } else {
      forall script: Script, n: nat ensures !SendSkips(op, global, script, n) {
        SendOnEveryScript(op, global, script, n);
        if !FailsFirst(op, script) { SendLosesNone(op, global, script, n); }
      }
    }
  }

  lemma {:induction false} GlobalSkips(op: seq<PhaseState>, global: seq<PhaseState>)
    requires NoRepeats(Flat(op) + Flat(global)) && |Flat(global)| >= 2
    ensures exists script: Script, n: nat :: SendSkips(op, global, script, n)
  {
    var script := seq(|Flat(op)|, _ => Go) + [Fail];
    assert OutcomeAt(script, |Flat(op)|) == Fail;
    var c := WholeFlow(op, script);
    FirstGlobalFails(global, c, script);
    SendAdds(op, global, FreshCtx, script);
    FlatOnlyRuns(global, 0);
    SecondMissing(Flat(op), Flat(global));
    assert SendSkips(op, global, script, 0);
  }

  /** Handlers that all succeed without pausing. */
  lemma {:induction false} WholeFlow(op: seq<PhaseState>, script: Script) returns (c: Ctx)
    requires QuietIn(script, 0, |Flat(op)|)
    ensures InvokePhases(op, 0, FreshCtx, script) == (true, c) && !c.paused && c.log == Flat(op)
  {
    c := QuietPhases(op, 0, |op|, FreshCtx, script);
    assert c.log + [] == c.log && [] + Flat(op) == Flat(op);
  }

  lemma {:induction false} SecondMissing(a: seq<Event>, b: seq<Event>)
    requires NoRepeats(a + b) && |b| >= 2 && b[1].Ran?
    ensures Missing(a + b, a + [b[0]] + [Sent])
  {
    assert a + b + [] == a + b;
    NoRepeatsAfter(a, b, []);
    var log := a + [b[0]] + [Sent];
    MissingShown(a, b, b[1], log);
  }

  lemma {:induction false} FirstGlobalFails(global: seq<PhaseState>, c: Ctx, script: Script)
    requires !c.paused && Flat(global) != [] && OutcomeAt(script, |c.log|) == Fail
    ensures Transmit(Some(global), Sender(true), c, script).1.log == c.log + [Flat(global)[0]] + [Sent]
  {
    InvokeIsFlat(global, 0, c, script);
    var k := RunAllStops(Flat(global), View(true, false, c.log), script);
    assert k == 1 && Flat(global)[..1] == [Flat(global)[0]];
  }

  lemma {:induction false} PairSkipsSend(op: seq<PhaseState>, global: seq<PhaseState>)
    requires DistinctNames(op) && AllSafe(op) && NoRepeats(Flat(op) + Flat(global)) && LaterPair(op)
    ensures exists script: Script, n: nat :: SendSkips(op, global, script, n)
  {
    NoRepeatsFront(Flat(op), Flat(global));
    var script, e := PairIsSkipped(op);
    var c, d := Run(op, script, 0), Run(op, script, 1);
    assert InvokePhases(global, 0, c, script) == (true, c) && SendRun(op, global, script, 0) == c;
    SharedNone(Flat(op), Flat(global), e);
    InvokeEnds(global, d, script);
    InvokeAdds(global, d, script, e);
    SendOnEveryScript(op, global, script, 1);
    FlatOnlyRuns(op, 0);
    var log := SendRun(op, global, script, 1).log;
    assert log == InvokePhases(global, 0, d, script).1.log + [Sent] && e !in log;
    MissingShown(Flat(op), Flat(global), e, log);
    assert SendSkips(op, global, script, 1);
  }

  lemma NoRepeatsFront(a: seq<Event>, b: seq<Event>)
    requires NoRepeats(a + b)
    ensures NoRepeats(a) && NoRepeats(b)
  {
    assert forall i :: 0 <= i < |a| ==> (a + b)[i] == a[i];
    assert forall i :: 0 <= i < |b| ==> (a + b)[|a| + i] == b[i];
  }

  lemma SharedNone(a: seq<Event>, b: seq<Event>, e: Event)
    requires NoRepeats(a + b) && e in a
    ensures e !in b
  {
    var i :| 0 <= i < |a| && a[i] == e;
    assert (a + b)[i] == e && forall j :: 0 <= j < |b| ==> (a + b)[|a| + j] == b[j];
  }

  lemma MissingShown(a: seq<Event>, b: seq<Event>, e: Event, log: seq<Event>)
    requires (e in a || e in b) && e !in log
    ensures Missing(a + b, log)
  {
    assert e in a + b;
    var i :| 0 <= i < |a + b| && (a + b)[i] == e;
  }

  /** For instance: x pauses, and of two handlers in the next phase the first fails. */
  lemma SecondPhaseSkips()
    ensures var x, a, b := Handler("x", Rule("p", None, None, false, false)), Handler("a", Rule("q", None, None, false, false)),
                           Handler("b", Rule("q", None, None, false, false));
      SendRun([PhaseState("p", None, [x], None, false), PhaseState("q", None, [a, b], None, false)], [], [Halt, Fail], 1).log
      == [Ran(x), Ran(a), Sent]
  {
    var x, a, b := Handler("x", Rule("p", None, None, false, false)), Handler("a", Rule("q", None, None, false, false)),
                   Handler("b", Rule("q", None, None, false, false));
    var p, q, script := PhaseState("p", None, [x], None, false), PhaseState("q", None, [a, b], None, false), [Halt, Fail];
    var op, c1 := [p, q], Ctx(true, Some("p"), 1, [Ran(x)]);
    assert [] + [Ran(x)] == [Ran(x)] && OutcomeAt(script, 0) == Halt && OutcomeAt(script, 1) == Fail;
    assert InvokeList([x], 1, c1, script) == (true, c1);
    assert InvokeList([x], 0, FreshCtx.(phaseName := Some("p")), script) == (true, c1);
    assert InvokePhase(p, FreshCtx, script) == (true, c1) && InvokePhases(op, 1, c1, script) == (true, c1);
    assert InvokePhases([], 0, c1, script) == (true, c1) && SendRun(op, [], script, 0) == c1;
    var c2 := c1.(paused := false);
    var c3 := Ctx(false, Some("q"), 1, [Ran(x), Ran(a)]);
    assert [Ran(x)] + [Ran(a)] == [Ran(x), Ran(a)] && [Ran(x), Ran(a)] + [Sent] == [Ran(x), Ran(a), Sent];
    assert ResumeList([x], 1, c2, script) == c2;
    assert InvokeList([a, b], 0, c2.(phaseName := Some("q")), script) == (false, c3);
    assert InvokePhase(q, c2, script) == (false, c3);
    assert ResumeLoop(op, 2, true, c3, script) == c3;
    assert ResumeLoop(op, 1, true, c2, script) == c3 && ResumePhases(op, c1, script) == c3;
    assert InvokePhases([], 0, c3, script) == (true, c3);
  }

  // ----- receiving ------------------------------------------------------------------

  predicate ReceiveSkips(pre: seq<PhaseState>, op: seq<PhaseState>, script: Script, n: nat) {
    var log := ReceiveRun(pre, op, script, n).log;
    EndsWith(log, Delivered) && Missing(Flat(pre) + Flat(op), log)
  }

  lemma {:induction false} RunOnlyRuns(chain: seq<PhaseState>, script: Script, n: nat)
    ensures OnlyRuns(Run(chain, script, n).log)
  {
    if n == 0 {
      InvokeOnlyRuns(chain, 0, FreshCtx, script);
    } else {
      RunOnlyRuns(chain, script, n - 1);
      var c := Run(chain, script, n - 1);
      if c.paused { ResumeOnlyRuns(chain, 0, false, c.(paused := false), script); }
    }
  }

  /** In flows that resume correctly, a message can be delivered with a handler never run exactly
      when both hold a handler, or some phase behind the first that has a handler has two. */
  lemma {:induction false} ReceiveSkipsExactly(pre: seq<PhaseState>, op: seq<PhaseState>)
    requires DistinctNames(pre) && DistinctNames(op) && AllSafe(pre) && AllSafe(op) && Apart(pre, op)
    requires NoRepeats(Flat(pre) + Flat(op))
    ensures (Flat(pre) != [] && Flat(op) != []) || LaterPair(pre) || LaterPair(op)
       <==> exists script: Script, n: nat :: ReceiveSkips(pre, op, script, n)
  {
    NoRepeatsFront(Flat(pre), Flat(op));
    if Flat(pre) != [] && Flat(op) != [] {
      EarlySkips(pre, op);
    } else if LaterPair(pre) {
      PairBusy(pre);
      var script, e := PairIsSkipped(pre);
      ReceiveIsRunPre(pre, op, script, 1);
      RunOnlyRuns(pre, script, 1);
      DeliveredWithout(pre, op, script, e, Run(pre, script, 1).log);
    } else if LaterPair(op) {
      PairBusy(op);
      var script, e := PairIsSkipped(op);
      ReceiveIsRunOp(pre, op, script, 1);
      RunOnlyRuns(op, script, 1);
      DeliveredWithout(pre, op, script, e, Run(op, script, 1).log);
    } else {
      forall script: Script, n: nat ensures !ReceiveSkips(pre, op, script, n) { ReceiveLosesNone(pre, op, script, n); }
    }
  }

  lemma PairBusy(chain: seq<PhaseState>)
    requires LaterPair(chain)
    ensures Flat(chain) != []
  {
    var s, t :| 0 <= s < t < |chain| && Full(chain[s]) != [] && |Full(chain[t])| >= 2;
    BusyFront(chain, s, 0);
  }

  lemma {:induction false} DeliveredWithout(pre: seq<PhaseState>, op: seq<PhaseState>, script: Script, e: Event, log: seq<Event>)
    requires ReceiveRun(pre, op, script, 1).log == log + [Delivered] && OnlyRuns(log)
    requires (e in Flat(pre) || e in Flat(op)) && e !in log
    ensures exists s: Script, n: nat :: ReceiveSkips(pre, op, s, n)
  {
    FlatOnlyRuns(pre, 0);
    FlatOnlyRuns(op, 0);
    assert (log + [Delivered])[..|log|] == log && e != Delivered;
    MissingShown(Flat(pre), Flat(op), e, log + [Delivered]);
    assert ReceiveSkips(pre, op, script, 1);
  }

  lemma {:induction false} EarlySkips(pre: seq<PhaseState>, op: seq<PhaseState>)
    requires DistinctNames(pre) && DistinctNames(op) && AllSafe(pre) && AllSafe(op) && Apart(pre, op)
    requires NoRepeats(Flat(pre) + Flat(op)) && Flat(pre) != [] && Flat(op) != []
    ensures exists script: Script, n: nat :: ReceiveSkips(pre, op, script, n)
  {
    HaltOnce(pre);
    EarlyPauseSkips(pre, op);
    var p := ReceiveRuns(pre, op, [Halt], 1);
    FlatOnlyRuns(pre, 0);
    var e := Flat(op)[0];
    if e in Flat(pre) { SharedNone(Flat(pre), Flat(op), e); }
    DeliveredWithout(pre, op, [Halt], e, Flat(pre));
  }

  lemma {:induction false} ReceiveLosesNone(pre: seq<PhaseState>, op: seq<PhaseState>, script: Script, n: nat)
    requires DistinctNames(pre) && DistinctNames(op) && AllSafe(pre) && AllSafe(op) && Apart(pre, op)
    requires (Flat(pre) == [] || Flat(op) == []) && !LaterPair(pre) && !LaterPair(op)
    ensures !ReceiveSkips(pre, op, script, n)
  {
    if Flat(op) == [] {
      ReceiveIsRunPre(pre, op, script, n);
      RunOnlyRuns(pre, script, n);
      assert Flat(pre) + Flat(op) == Flat(pre);
      if !FailsFirst(pre, script) && !Run(pre, script, n).paused {
        NoPairNoSkip(pre, script, n);
        AllInGrows(Flat(pre), Run(pre, script, n).log, ReceiveRun(pre, op, script, n).log);
      }
    } else {
      ReceiveIsRunOp(pre, op, script, n);
      RunOnlyRuns(op, script, n);
      assert Flat(pre) + Flat(op) == Flat(op);
      if !FailsFirst(op, script) && !Run(op, script, n).paused {
        NoPairNoSkip(op, script, n);
        AllInGrows(Flat(op), Run(op, script, n).log, ReceiveRun(pre, op, script, n).log);
      }
    }
  }
}
