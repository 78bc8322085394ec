/** What whole runs of the engine do, for every chain of phases and every handler behaviour. */
module EngineRuns {
  import opened PhaseTypes
  import opened Engine
  import opened EngineScripts

  // ----- the uninterrupted run ------------------------------------------------------

  function RunsFrom(hs: seq<Handler>, k: int): seq<Event>
    decreases |hs| - k
  {
    if k >= |hs| then [] else if k < 0 then RunsFrom(hs, k + 1) else [Ran(hs[k])] + RunsFrom(hs, k + 1)
  }

  function SlotRun(o: Option<Handler>): seq<Event> {
    if o.None? then [] else [Ran(o.value)]
  }

  /** The events of one uninterrupted invocation of a phase. */
  function Full(p: PhaseState): seq<Event> {
    SlotRun(p.first) + RunsFrom(p.handlers, 0) + SlotRun(p.last)
  }

  function FlatFrom(chain: seq<PhaseState>, i: nat): seq<Event>
    requires i <= |chain|
    decreases |chain| - i
  {
    if i == |chain| then [] else Full(chain[i]) + FlatFrom(chain, i + 1)
  }

  /** The events of one uninterrupted run of a chain: every handler once, in order. */
  function Flat(chain: seq<PhaseState>): seq<Event> { FlatFrom(chain, 0) }

  /** Full lists exactly the handlers of Order. */
  lemma {:induction false} FullIsOrder(p: PhaseState)
    ensures |Full(p)| == |Order(p)|
    ensures forall k :: 0 <= k < |Full(p)| ==> Full(p)[k] == Ran(Order(p)[k])
  {
    RunsFromLength(p.handlers, 0);
    forall i | 0 <= i < |p.handlers| ensures RunsFrom(p.handlers, 0)[i] == Ran(p.handlers[i]) {
      RunsFromAt(p.handlers, 0, i);
    }
  }

  lemma {:induction false} RunsFromLength(hs: seq<Handler>, k: nat)
    requires k <= |hs|
    ensures |RunsFrom(hs, k)| == |hs| - k
    decreases |hs| - k
  {
    if k < |hs| { RunsFromLength(hs, k + 1); }
  }

  lemma {:induction false} RunsFromAt(hs: seq<Handler>, k: nat, i: nat)
    requires k <= i < |hs|
    ensures |RunsFrom(hs, k)| > i - k && RunsFrom(hs, k)[i - k] == Ran(hs[i])
    decreases i - k
  {
    if k < i { RunsFromAt(hs, k + 1, i); }
  }

  // ----- invoking is one flat loop --------------------------------------------------

  /** What is left of a context when its cursor is forgotten. */
  datatype View = View(ok: bool, paused: bool, log: seq<Event>)

  function ViewOf(r: (bool, Ctx)): View { View(r.0, r.1.paused, r.1.log) }

  /** Reference: run a flat list of events until one pauses or fails. */
  function RunAll(es: seq<Event>, v: View, script: Script): View {
    if es == [] || v.paused || !v.ok then v
    else
      var o := OutcomeAt(script, |v.log|);
      RunAll(es[1..], View(o.ok, Flag(o.pause, v.paused), v.log + [es[0]]), script)
  }

  lemma {:induction false} RunAllSplit(a: seq<Event>, b: seq<Event>, v: View, script: Script)
    ensures RunAll(a + b, v, script) == RunAll(b, RunAll(a, v, script), script)
    decreases |a|
  {
    if a == [] {
      assert a + b == b;
    } else if !(v.paused || !v.ok) {
      var o := OutcomeAt(script, |v.log|);
      assert (a + b)[1..] == a[1..] + b;
      RunAllSplit(a[1..], b, View(o.ok, Flag(o.pause, v.paused), v.log + [a[0]]), script);
    }
  }

  lemma {:induction false} InvokeListIsFlat(hs: seq<Handler>, i: nat, c: Ctx, script: Script)
    requires i <= |hs|
    ensures ViewOf(InvokeList(hs, i, c, script)) == RunAll(RunsFrom(hs, i), View(true, c.paused, c.log), script)
    decreases |hs| - i
  {
    if i < |hs| && !c.paused {
      var (ok, d) := RunHandler(hs[i], c, script);
      assert RunsFrom(hs, i)[1..] == RunsFrom(hs, i + 1);
      if ok { InvokeListIsFlat(hs, i + 1, d.(index := i + 1), script); }
    }
  }

  lemma {:induction false} InvokePhaseIsFlat(p: PhaseState, c: Ctx, script: Script)
    ensures ViewOf(InvokePhase(p, c, script)) == RunAll(Full(p), View(true, c.paused, c.log), script)
  {
    var v := View(true, c.paused, c.log);
    RunAllSplit(SlotRun(p.first) + RunsFrom(p.handlers, 0), SlotRun(p.last), v, script);
    RunAllSplit(SlotRun(p.first), RunsFrom(p.handlers, 0), v, script);
    var c1 := c.(phaseName := Some(p.name));
    if !(p.first.Some? && c1.paused) {
      var (ok2, c2) := if p.first.Some? then RunHandler(p.first.value, c1, script) else (true, c1);
      if p.first.Some? { assert [Ran(p.first.value)][1..] == []; }
      assert RunAll(SlotRun(p.first), v, script) == View(ok2, c2.paused, c2.log);
      if ok2 {
        InvokeListIsFlat(p.handlers, 0, c2, script);
        if p.last.Some? { assert [Ran(p.last.value)][1..] == []; }
      }
    }
  }

  /** The two nested loops of invoke run the flattened chain until a handler pauses or
      fails, whatever the phases hold and whatever the handlers do. */
  lemma {:induction false} InvokeIsFlat(chain: seq<PhaseState>, i: nat, c: Ctx, script: Script)
    requires i <= |chain|
    ensures ViewOf(InvokePhases(chain, i, c, script))
         == RunAll(FlatFrom(chain, i), View(true, c.paused, c.log), script)
    decreases |chain| - i
  {
    if i < |chain| && !c.paused {
      var (ok, d) := InvokePhase(chain[i], c, script);
      InvokePhaseIsFlat(chain[i], c, script);
      RunAllSplit(Full(chain[i]), FlatFrom(chain, i + 1), View(true, c.paused, c.log), script);
      if ok { InvokeIsFlat(chain, i + 1, d, script); }
    }
  }

  /** A flat run stops exactly at its first pausing or failing handler. */
  lemma {:induction false} RunAllStops(es: seq<Event>, v: View, script: Script) returns (k: nat)
    requires v.ok && !v.paused
    ensures k <= |es|
    ensures var r := RunAll(es, v, script);
      && r.log == v.log + es[..k]
      && (forall j: nat :: |v.log| <= j < |v.log| + k - 1 ==> Quiet(OutcomeAt(script, j)))
      && (r.ok && !r.paused ==> k == |es| && (k > 0 ==> Quiet(OutcomeAt(script, |v.log| + k - 1))))
      && (!r.ok || r.paused ==> k > 0 && r.ok == OutcomeAt(script, |v.log| + k - 1).ok
                                      && r.paused == OutcomeAt(script, |v.log| + k - 1).pause.Pause?)
    decreases |es|
  {
    k := 0;
    if es != [] {
      var o := OutcomeAt(script, |v.log|);
      var w := View(o.ok, Flag(o.pause, v.paused), v.log + [es[0]]);
      k := 1;
      if w.ok && !w.paused {
        var m := RunAllStops(es[1..], w, script);
        k := m + 1;
        assert v.log + es[..k] == w.log + es[1..][..m];
      }
    }
  }

  predicate Quiet(o: Outcome) { o.ok && !o.pause.Pause? }

  // ----- which chains resume correctly ----------------------------------------------

  predicate Plain(p: PhaseState) { p.first.None? && p.last.None? }

  /** No handler in an end slot, or one handler in all. */
  predicate ResumeSafe(p: PhaseState) { Plain(p) || |Order(p)| <= 1 }

  predicate AllSafe(chain: seq<PhaseState>) {
    forall i :: 0 <= i < |chain| ==> ResumeSafe(chain[i])
  }

  predicate DistinctNames(chain: seq<PhaseState>) {
    forall i, j :: 0 <= i < j < |chain| ==> chain[i].name != chain[j].name
  }

  /** What resuming at handler k of a safe phase still owes. */
  function Rest(p: PhaseState, k: int): seq<Event> {
    if Plain(p) then RunsFrom(p.handlers, k) else []
  }

  /** The context is paused in phase p of the chain, and what it has run together with
      what its cursor still owes is the whole run `goal`. */
  predicate PausedAt(chain: seq<PhaseState>, p: nat, c: Ctx, goal: seq<Event>) {
    && p < |chain|
    && c.paused
    && c.phaseName == Some(chain[p].name)
    && (Plain(chain[p]) ==> 0 <= c.index <= |chain[p].handlers|)
    && c.log + Rest(chain[p], c.index) + FlatFrom(chain, p + 1) == goal
  }

  /** The outcome of a call on a chain: finished with the whole run, or paused at p. */
  predicate Settled(chain: seq<PhaseState>, p: nat, c: Ctx, goal: seq<Event>) {
    if c.paused then PausedAt(chain, p, c, goal) else c.log == goal
  }

  lemma {:induction false} InvokeListCursor(hs: seq<Handler>, i: nat, c: Ctx, script: Script)
    requires i <= |hs| && AllOk(script) && !c.paused
    ensures var (ok, d) := InvokeList(hs, i, c, script);
      && ok && d.phaseName == c.phaseName
      && (i < |hs| ==> i < d.index <= |hs| && d.log + RunsFrom(hs, d.index) == c.log + RunsFrom(hs, i))
      && (i == |hs| ==> d == c)
      && (!d.paused && i < |hs| ==> d.index == |hs|)
      && (d.paused ==> |d.log| > |c.log|)
    decreases |hs| - i
  {
    if i < |hs| {
      var d := RunHandler(hs[i], c, script).1.(index := i + 1);
      Assoc(c.log, [Ran(hs[i])], RunsFrom(hs, i + 1));
      if !d.paused { InvokeListCursor(hs, i + 1, d, script); }
    }
  }

  lemma {:induction false} InvokePhaseCursor(p: PhaseState, c: Ctx, script: Script)
    requires ResumeSafe(p) && AllOk(script) && !c.paused
    ensures var (ok, d) := InvokePhase(p, c, script);
      && ok && d.phaseName == Some(p.name)
      && (if d.paused then d.log + Rest(p, d.index) else d.log) == c.log + Full(p)
      && (Plain(p) && d.paused ==> 0 <= d.index <= |p.handlers|)
      && (d.paused ==> |d.log| > |c.log|)
  {
    var c1 := c.(phaseName := Some(p.name));
    var d := InvokePhase(p, c, script).1;
    if Plain(p) {
      InvokeListCursor(p.handlers, 0, c1, script);
      assert Full(p) == RunsFrom(p.handlers, 0);
      assert d.log + [] == d.log;
    } else {
      assert p.handlers == [] && InvokeList(p.handlers, 0, c1, script) == (true, c1);
      assert d.log == c.log + Full(p);
      assert d.log + [] == d.log;
    }
  }

  lemma {:induction false} InvokeCursor(chain: seq<PhaseState>, i: nat, c: Ctx, goal: seq<Event>, script: Script)
      returns (p: nat)
    requires i <= |chain| && AllSafe(chain) && AllOk(script) && !c.paused
    requires c.log + FlatFrom(chain, i) == goal
    ensures InvokeSettled(chain, i, c, p, InvokePhases(chain, i, c, script), goal)
    decreases |chain| - i
  {
    p := i;
    if i < |chain| {
      var (ok, d) := InvokePhase(chain[i], c, script);
      InvokePhaseCursor(chain[i], c, script);
      Owed(chain, i, c, d, goal);
      if !d.paused {
        p := InvokeCursor(chain, i + 1, d, goal, script);
      }
    }
  }

  predicate InvokeSettled(chain: seq<PhaseState>, i: nat, c: Ctx, p: nat, r: (bool, Ctx), goal: seq<Event>) {
    && r.0
    && Settled(chain, p, r.1, goal)
    && (r.1.paused ==> p >= i && |r.1.log| > |c.log|)
    && (!r.1.paused ==> r.1.phaseName == if i < |chain| then Some(chain[|chain| - 1].name) else c.phaseName)
  }

  /** Having run a phase, or owing the rest of it, leaves the chain's goal as it was. */
  lemma Owed(chain: seq<PhaseState>, i: nat, c: Ctx, d: Ctx, goal: seq<Event>)
    requires i < |chain| && c.log + FlatFrom(chain, i) == goal
    ensures d.log + Rest(chain[i], d.index) == c.log + Full(chain[i])
        ==> d.log + Rest(chain[i], d.index) + FlatFrom(chain, i + 1) == goal
    ensures d.log == c.log + Full(chain[i]) ==> d.log + FlatFrom(chain, i + 1) == goal && |d.log| >= |c.log|
  {
    Assoc(c.log, Full(chain[i]), FlatFrom(chain, i + 1));
  }

  lemma {:induction false} ResumeListCursor(hs: seq<Handler>, i: nat, c: Ctx, script: Script)
    requires i <= |hs| && c.index == i
    ensures var d := ResumeList(hs, i, c, script);
      && d.phaseName == c.phaseName && d.index == |hs|
      && d.log == c.log + RunsFrom(hs, i)
      && (d.paused && !c.paused ==> |d.log| > |c.log|)
    decreases |hs| - i
  {
    if i < |hs| {
      var d := RunHandler(hs[i], c, script).1.(index := i + 1);
      ResumeListCursor(hs, i + 1, d, script);
      Assoc(c.log, [Ran(hs[i])], RunsFrom(hs, i + 1));
    }
  }

  lemma {:induction false} ResumeEmpty(i: int, c: Ctx, script: Script)
    ensures ResumeList([], i, c, script) == c
    decreases -i
  {
    if i < 0 { ResumeEmpty(i + 1, c, script); }
  }

  /** Skipping to the recorded phase by its name lands on its index. */
  lemma {:induction false} ResumeByName(chain: seq<PhaseState>, i: nat, p: nat, c: Ctx, script: Script)
    requires DistinctNames(chain) && i <= p < |chain| && !c.paused
    requires c.phaseName == Some(chain[p].name)
    ensures ResumeLoop(chain, i, false, c, script)
         == ResumeLoop(chain, p + 1, true, ResumePhase(chain[p], c.index, c, script), script)
    decreases p - i
  {
    if i < p { ResumeByName(chain, i + 1, p, c, script); }
  }

  /** Past the recorded phase a resume is an invocation of the remaining phases, as long as
      none of their handlers fails: it goes on to the next phase where an invocation stops. */
  lemma {:induction false} ResumeTail(chain: seq<PhaseState>, i: nat, c: Ctx, script: Script)
    requires DistinctNames(chain) && i <= |chain| && InvokePhases(chain, i, c, script).0
    requires forall j :: i <= j < |chain| ==> c.phaseName != Some(chain[j].name)
    ensures ResumeLoop(chain, i, true, c, script) == InvokePhases(chain, i, c, script).1
    decreases |chain| - i
  {
    if i < |chain| && !c.paused {
      InvokePhaseName(chain[i], c, script);
      ResumeTail(chain, i + 1, InvokePhase(chain[i], c, script).1, script);
    }
  }

  lemma {:induction false} InvokeListName(hs: seq<Handler>, i: nat, c: Ctx, script: Script)
    requires i <= |hs|
    ensures InvokeList(hs, i, c, script).1.phaseName == c.phaseName
    decreases |hs| - i
  {
    if i < |hs| && !c.paused && OutcomeAt(script, |c.log|).ok {
      InvokeListName(hs, i + 1, RunHandler(hs[i], c, script).1.(index := i + 1), script);
    }
  }

  lemma {:induction false} InvokePhaseName(p: PhaseState, c: Ctx, script: Script)
    ensures InvokePhase(p, c, script).1.phaseName == Some(p.name)
  {
    var c1 := c.(phaseName := Some(p.name));
    var c2 := if p.first.Some? then RunHandler(p.first.value, c1, script).1 else c1;
    InvokeListName(p.handlers, 0, c2, script);
  }

  lemma {:induction false} InvokePhasesOk(chain: seq<PhaseState>, i: nat, c: Ctx, script: Script)
    requires i <= |chain| && AllOk(script)
    ensures InvokePhases(chain, i, c, script).0
    decreases |chain| - i
  {
    if i < |chain| && !c.paused {
      InvokePhaseOk(chain[i], c, script);
      InvokePhasesOk(chain, i + 1, InvokePhase(chain[i], c, script).1, script);
    }
  }

  lemma {:induction false} InvokeListOk(hs: seq<Handler>, i: nat, c: Ctx, script: Script)
    requires i <= |hs| && AllOk(script)
    ensures InvokeList(hs, i, c, script).0 && InvokeList(hs, i, c, script).1.phaseName == c.phaseName
    decreases |hs| - i
  {
    if i < |hs| && !c.paused {
      InvokeListOk(hs, i + 1, RunHandler(hs[i], c, script).1.(index := i + 1), script);
    }
  }

  lemma {:induction false} InvokePhaseOk(p: PhaseState, c: Ctx, script: Script)
    requires AllOk(script)
    ensures InvokePhase(p, c, script).0 && InvokePhase(p, c, script).1.phaseName == Some(p.name)
  {
    var c1 := c.(phaseName := Some(p.name));
    var c2 := if p.first.Some? then RunHandler(p.first.value, c1, script).1 else c1;
    InvokeListOk(p.handlers, 0, c2, script);
  }

  /** A chain none of whose phases is the recorded one is passed over. */
  lemma {:induction false} ResumeElsewhere(chain: seq<PhaseState>, i: nat, c: Ctx, script: Script)
    requires i <= |chain|
    requires forall j :: i <= j < |chain| ==> c.phaseName != Some(chain[j].name)
    ensures ResumeLoop(chain, i, false, c, script) == c
    decreases |chain| - i
  {
    if i < |chain| && !c.paused { ResumeElsewhere(chain, i + 1, c, script); }
  }

  /** One resume: it owes exactly what is left, never goes back, and runs something
      whenever it pauses again. */
  lemma {:induction false} ResumeCursor(chain: seq<PhaseState>, p: nat, c: Ctx, goal: seq<Event>, script: Script)
      returns (q: nat)
    requires DistinctNames(chain) && AllSafe(chain) && AllOk(script)
    requires PausedAt(chain, p, c, goal)
    ensures var d := ResumePhases(chain, c, script);
      && Settled(chain, q, d, goal)
      && (d.paused ==> q >= p && |d.log| > |c.log|)
      && (!d.paused ==> d.phaseName == Some(chain[|chain| - 1].name))
  {
    var c0 := c.(paused := false);
    ResumeByName(chain, 0, p, c0, script);
    var c1 := ResumePhase(chain[p], c0.index, c0, script);
    if Plain(chain[p]) {
      ResumeListCursor(chain[p].handlers, c0.index, c0, script);
    } else {
      assert chain[p].handlers == [] by { assert |Order(chain[p])| <= 1; }
      ResumeEmpty(c0.index, c0, script);
    }
    assert c1.log == c.log + Rest(chain[p], c.index);
    InvokePhasesOk(chain, p + 1, c1, script);
    ResumeTail(chain, p + 1, c1, script);
    if c1.paused {
      q := p;
      RunsFromLength(chain[p].handlers, |chain[p].handlers|);
      assert c1.log + Rest(chain[p], c1.index) == c1.log;
    } else {
      q := InvokeCursor(chain, p + 1, c1, goal, script);
    }
  }

  // ----- runs: one invoke, then resumes ---------------------------------------------

  /** A fresh message put through the chain, resumed n times if it stays paused. */
  function Run(chain: seq<PhaseState>, script: Script, n: nat): Ctx {
    if n == 0 then InvokePhases(chain, 0, FreshCtx, script).1
    else
      var c := Run(chain, script, n - 1);
      if c.paused then ResumePhases(chain, c, script) else c
  }

  lemma {:induction false} RunFollows(chain: seq<PhaseState>, a: Script, b: Script, n: nat)
    requires Agree(a, b, Run(chain, a, n).log)
    ensures Run(chain, b, n) == Run(chain, a, n)
  {
    if n == 0 {
      InvokeAgrees(chain, 0, FreshCtx, a, b);
    } else {
      var c := Run(chain, a, n - 1);
      if c.paused { ResumeAgrees(chain, c, a, b); }
      AgreeBefore(a, b, c.log, Run(chain, a, n).log);
      RunFollows(chain, a, b, n - 1);
    }
  }

  /** On a safe chain every reachable state in which no handler has failed has run exactly the
      part of the uninterrupted run that its cursor says, and n resumes that all pause have
      run more than n handlers. */
  lemma {:induction false} RunsKeepTheCursor(chain: seq<PhaseState>, script: Script, n: nat) returns (p: nat)
    requires DistinctNames(chain) && AllSafe(chain) && NoneFailed(script, Run(chain, script, n).log)
    ensures var c := Run(chain, script, n);
      && Settled(chain, p, c, Flat(chain))
      && c.log <= Flat(chain)
      && (c.paused ==> |c.log| > n)
  {
    var clean := Clean(script, Run(chain, script, n).log);
    RunFollows(chain, script, clean, n);
    p := RunsWhenOk(chain, clean, n);
  }

  lemma {:induction false} RunsWhenOk(chain: seq<PhaseState>, script: Script, n: nat) returns (p: nat)
    requires DistinctNames(chain) && AllSafe(chain) && AllOk(script)
    ensures var c := Run(chain, script, n);
      && Settled(chain, p, c, Flat(chain))
      && c.log <= Flat(chain)
      && (c.paused ==> |c.log| > n)
  {
    if n == 0 {
      assert FreshCtx.log + Flat(chain) == Flat(chain);
      p := InvokeCursor(chain, 0, FreshCtx, Flat(chain), script);
    } else {
      p := RunsWhenOk(chain, script, n - 1);
      var c := Run(chain, script, n - 1);
      if c.paused { p := ResumeCursor(chain, p, c, Flat(chain), script); }
    }
  }

  /** Every run of a safe chain ends: no more resumes are needed than there are handlers. */
  lemma {:induction false} RunsFinish(chain: seq<PhaseState>, script: Script, n: nat)
    requires DistinctNames(chain) && AllSafe(chain) && NoneFailed(script, Run(chain, script, n).log)
    requires n >= |Flat(chain)|
    ensures !Run(chain, script, n).paused && Run(chain, script, n).log == Flat(chain)
  {
    var p := RunsKeepTheCursor(chain, script, n);
  }

  // ----- unsafe phases break some run -----------------------------------------------

  predicate QuietIn(script: Script, a: nat, b: int) {
    forall k: nat :: a <= k < b ==> OutcomeAt(script, k) == Go
  }

  function Pausing(n: nat, halts: nat): Script {
    seq(n, _ => Go) + seq(halts, _ => Halt)
  }

  lemma {:induction false} QuietList(hs: seq<Handler>, i: nat, c: Ctx, script: Script)
    requires i <= |hs| && !c.paused && QuietIn(script, |c.log|, |c.log| + |hs| - i)
    ensures InvokeList(hs, i, c, script)
         == (true, c.(index := if i == |hs| then c.index else |hs|, log := c.log + RunsFrom(hs, i)))
    decreases |hs| - i
  {
    if i < |hs| {
      var d := RunHandler(hs[i], c, script).1.(index := i + 1);
      QuietList(hs, i + 1, d, script);
      Assoc(c.log, [Ran(hs[i])], RunsFrom(hs, i + 1));
    } else {
      assert c.log + [] == c.log;
    }
  }

  lemma {:induction false} QuietPhase(p: PhaseState, c: Ctx, script: Script)
    requires !c.paused && QuietIn(script, |c.log|, |c.log| + |Full(p)|)
    ensures InvokePhase(p, c, script)
         == (true, Ctx(false, Some(p.name), if p.handlers == [] then c.index else |p.handlers|, c.log + Full(p)))
  {
    RunsFromLength(p.handlers, 0);
    var c1 := c.(phaseName := Some(p.name));
    var (ok2, c2) := if p.first.Some? then RunHandler(p.first.value, c1, script) else (true, c1);
    assert ok2 && c2 == c1.(log := c.log + SlotRun(p.first));
    QuietList(p.handlers, 0, c2, script);
    var c3 := InvokeList(p.handlers, 0, c2, script).1;
    var (ok4, c4) := if p.last.Some? then RunHandler(p.last.value, c3, script) else (true, c3);
    assert ok4 && c4 == c3.(log := c3.log + SlotRun(p.last));
    assert c4.log == c.log + Full(p);
  }

  /** The handler index an uninterrupted run brings from phase i to phase j: the size of
      the last handler list it went through. */
  function QuietIndex(chain: seq<PhaseState>, i: nat, j: nat, k: int): (r: int)
    requires i <= j <= |chain|
    ensures k == -1 || k >= 1 ==> r == -1 || r >= 1
    decreases j - i
  {
    if i == j then k
    else QuietIndex(chain, i + 1, j, if chain[i].handlers == [] then k else |chain[i].handlers|)
  }

  lemma {:induction false} QuietPhases(chain: seq<PhaseState>, i: nat, j: nat, c: Ctx, script: Script)
      returns (d: Ctx)
    requires i <= j <= |chain| && !c.paused
    requires QuietIn(script, |c.log|, |c.log| + |FlatFrom(chain, i)| - |FlatFrom(chain, j)|)
    ensures !d.paused && d.log + FlatFrom(chain, j) == c.log + FlatFrom(chain, i)
    ensures InvokePhases(chain, i, c, script) == InvokePhases(chain, j, d, script)
    ensures d.index == QuietIndex(chain, i, j, c.index)
    decreases j - i
  {
    d := c;
    if i < j {
      FlatShrinks(chain, i + 1, j);
      QuietPhase(chain[i], c, script);
      var e := InvokePhase(chain[i], c, script).1;
      Owed(chain, i, c, e, c.log + FlatFrom(chain, i));
      d := QuietPhases(chain, i + 1, j, e, script);
    }
  }

  lemma {:induction false} FlatShrinks(chain: seq<PhaseState>, i: nat, j: nat)
    requires i <= j <= |chain|
    ensures |FlatFrom(chain, i)| >= |FlatFrom(chain, j)|
    decreases j - i
  {
    if i < j { FlatShrinks(chain, i + 1, j); }
  }

  lemma {:induction false} ResumeListLog(hs: seq<Handler>, i: int, c: Ctx, script: Script)
    ensures var d := ResumeList(hs, i, c, script);
      && d.log == c.log + RunsFrom(hs, i)
      && d.index == c.index + |RunsFrom(hs, i)|
      && d.phaseName == c.phaseName
    ensures |RunsFrom(hs, i)| == if i < 0 then |hs| else if i <= |hs| then |hs| - i else 0
    ensures QuietIn(script, |c.log|, |c.log| + |RunsFrom(hs, i)|) ==> ResumeList(hs, i, c, script).paused == c.paused
    decreases |hs| - i
  {
    if i >= |hs| {
      assert c.log + [] == c.log;
    } else if i < 0 {
      ResumeListLog(hs, i + 1, c, script);
    } else {
      var d := RunHandler(hs[i], c, script).1;
      ResumeListLog(hs, i + 1, d.(index := d.index + 1), script);
      Assoc(c.log, [Ran(hs[i])], RunsFrom(hs, i + 1));
    }
  }

  /** The first handler reached in a phase pauses the message: where that leaves the cursor. */
  lemma {:induction false} HaltInPhase(p: PhaseState, c: Ctx, script: Script)
    requires !c.paused && OutcomeAt(script, |c.log|) == Halt && !ResumeSafe(p)
    ensures var r := InvokePhase(p, c, script);
      && r.0 && r.1.paused && r.1.phaseName == Some(p.name) && |r.1.log| == |c.log| + 1
      && r.1.index == if p.first.Some? then c.index else 1
  {
    var c1 := c.(phaseName := Some(p.name));
    if p.first.Some? {
      var d := RunHandler(p.first.value, c1, script).1;
      assert InvokeList(p.handlers, 0, d, script) == (true, d);
    } else {
      assert |Order(p)| == |p.handlers| + |Slot(p.last)|;
      var d := RunHandler(p.handlers[0], c1, script).1.(index := 1);
      assert InvokeList(p.handlers, 1, d, script) == (true, d);
    }
  }

  /** A resume whose handlers are all quiet runs to the end of the chain. */
  lemma {:induction false} QuietResume(chain: seq<PhaseState>, p: nat, c: Ctx, script: Script)
    requires DistinctNames(chain) && p < |chain| && AllOk(script)
    requires c.phaseName == Some(chain[p].name)
    requires QuietIn(script, |c.log|, |c.log| + |RunsFrom(chain[p].handlers, c.index)| + |FlatFrom(chain, p + 1)|)
    ensures var d := ResumePhases(chain, c, script);
      !d.paused && |d.log| == |c.log| + |RunsFrom(chain[p].handlers, c.index)| + |FlatFrom(chain, p + 1)|
  {
    var c0 := c.(paused := false);
    ResumeByName(chain, 0, p, c0, script);
    ResumeListLog(chain[p].handlers, c.index, c0, script);
    var c1 := ResumePhase(chain[p], c.index, c0, script);
    InvokePhasesOk(chain, p + 1, c1, script);
    ResumeTail(chain, p + 1, c1, script);
    var d := QuietPhases(chain, p + 1, |chain|, c1, script);
  }

  /** Any phase that is not safe makes some run finish with a wrong record: pausing in it
      loses its last handler or the handlers before a stale index, or repeats one. */
  lemma {:induction false} UnsafeBreaks(chain: seq<PhaseState>, p: nat) returns (script: Script, n: nat)
    requires DistinctNames(chain) && p < |chain| && !ResumeSafe(chain[p])
    ensures AllOk(script) && !Run(chain, script, n).paused && Run(chain, script, n).log != Flat(chain)
  {
    if chain[p].last.None? && QuietIndex(chain, 0, p, -1) == -1 {
      n := 2;
      script := BreaksTwice(chain, p);
    } else {
      script, n := Pausing(LengthBefore(chain, p), 1), 1;
      var d := HaltAt(chain, p, script);
      ResumeListLog(chain[p].handlers, d.index, d.(paused := false), script);
      QuietResume(chain, p, d, script);
    }
  }

  /** Paused in the first slot and again at the head of the list, a phase that no list
      handler ran before repeats its last list handler. */
  lemma {:induction false} BreaksTwice(chain: seq<PhaseState>, p: nat) returns (script: Script)
    requires DistinctNames(chain) && p < |chain| && !ResumeSafe(chain[p])
    requires chain[p].last.None? && QuietIndex(chain, 0, p, -1) == -1
    ensures AllOk(script) && !Run(chain, script, 2).paused && Run(chain, script, 2).log != Flat(chain)
  {
    script := Pausing(LengthBefore(chain, p), 2);
    var d := HaltAt(chain, p, script);
    HaltedResume(chain, p, d, script);
    d := ResumePhases(chain, d, script);
    assert Run(chain, script, 1) == d;
    ResumeListLog(chain[p].handlers, d.index, d.(paused := false), script);
    QuietResume(chain, p, d, script);
  }

  function LengthBefore(chain: seq<PhaseState>, p: nat): nat
    requires p < |chain|
  {
    FlatShrinks(chain, 0, p);
    |Flat(chain)| - |FlatFrom(chain, p)|
  }

  /** A run quiet up to phase p, whose first handler pauses it. */
  lemma {:induction false} HaltAt(chain: seq<PhaseState>, p: nat, script: Script) returns (d: Ctx)
    requires p < |chain| && !ResumeSafe(chain[p])
    requires QuietIn(script, 0, LengthBefore(chain, p)) && OutcomeAt(script, LengthBefore(chain, p)) == Halt
    ensures d == Run(chain, script, 0) && d.paused && d.phaseName == Some(chain[p].name)
    ensures |d.log| == LengthBefore(chain, p) + 1
    ensures d.index == if chain[p].first.Some? then QuietIndex(chain, 0, p, -1) else 1
    ensures |Flat(chain)| == LengthBefore(chain, p) + |Order(chain[p])| + |FlatFrom(chain, p + 1)|
  {
    var c := QuietPhases(chain, 0, p, FreshCtx, script);
    HaltInPhase(chain[p], c, script);
    d := InvokePhase(chain[p], c, script).1;
    assert InvokePhases(chain, p, c, script) == InvokePhases(chain, p + 1, d, script) == (true, d);
    FullIsOrder(chain[p]);
  }

  /** Resumed from before the list, a phase whose first list handler pauses runs its whole
      list and leaves the index one short of it. */
  lemma {:induction false} HaltedResume(chain: seq<PhaseState>, p: nat, c: Ctx, script: Script)
    requires DistinctNames(chain) && p < |chain| && chain[p].handlers != []
    requires c.phaseName == Some(chain[p].name) && c.index == -1
    requires OutcomeAt(script, |c.log|) == Halt
    requires QuietIn(script, |c.log| + 1, |c.log| + |chain[p].handlers|)
    ensures var d := ResumePhases(chain, c, script);
      && d.paused && d.phaseName == c.phaseName
      && |d.log| == |c.log| + |chain[p].handlers| && d.index == |chain[p].handlers| - 1
  {
    var hs := chain[p].handlers;
    var c0 := c.(paused := false);
    ResumeByName(chain, 0, p, c0, script);
    ResumeListLog(hs, -1, c0, script);
    var c1 := RunHandler(hs[0], c0, script).1.(index := 0);
    assert ResumeList(hs, -1, c0, script) == ResumeList(hs, 1, c1, script);
    ResumeListLog(hs, 1, c1, script);
  }

  predicate AlwaysWhole(chain: seq<PhaseState>, script: Script, n: nat) {
    var c := Run(chain, script, n);
    NoneFailed(script, c.log) && !c.paused ==> c.log == Flat(chain)
  }

  /** Exactly the safe chains run every handler once and in order however they are paused,
      as long as no handler fails. */
  lemma {:induction false} ResumeIsExactOnSafeChains(chain: seq<PhaseState>)
    requires DistinctNames(chain)
    ensures AllSafe(chain) <==> forall script: Script, n: nat :: AlwaysWhole(chain, script, n)
  {
    if AllSafe(chain) {
      forall script: Script, n: nat ensures AlwaysWhole(chain, script, n) {
        if NoneFailed(script, Run(chain, script, n).log) { var p := RunsKeepTheCursor(chain, script, n); }
      }
    } else {
      var p :| 0 <= p < |chain| && !ResumeSafe(chain[p]);
      var script, n := UnsafeBreaks(chain, p);
      assert !AlwaysWhole(chain, script, n);
    }
  }

  /** Distinct names are needed: two phases of one name, paused in the first, and the
      resume starts the second at the first one's index. */
  lemma SameNamesSkip()
    ensures var h := Handler("h", Rule("p", None, None, false, false));
      var ph := PhaseState("p", None, [h], None, false);
      Run([ph, ph], [Halt], 1) == Ctx(false, Some("p"), 1, [Ran(h)])
  {
    var h := Handler("h", Rule("p", None, None, false, false));
    var ph := PhaseState("p", None, [h], None, false);
    var chain := [ph, ph];
    var c := Ctx(true, Some("p"), 1, [Ran(h)]);
    assert InvokeList([h], 1, c, [Halt]) == (true, c);
    var c1 := FreshCtx.(phaseName := Some("p"));
    assert c1.log + [Ran(h)] == [Ran(h)] && OutcomeAt([Halt], |c1.log|) == Halt;
    assert InvokeList([h], 0, c1, [Halt]) == (true, c);
    assert InvokePhase(ph, FreshCtx, [Halt]) == (true, c);
    assert InvokePhases(chain, 1, c, [Halt]) == (true, c);
    assert Run(chain, [Halt], 0) == c;
    var d := c.(paused := false);
    assert ResumePhase(ph, 1, d, [Halt]) == d;
    assert ResumeLoop(chain, 1, true, d, [Halt]) == ResumeLoop(chain, 2, true, d, [Halt]) == d;
  }
}
