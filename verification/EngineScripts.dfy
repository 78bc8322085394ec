/** A run looks at the outcomes of the handlers it runs and at nothing else in its script, so
    what holds of scripts without failures holds of every run in which no handler fails. */
module EngineScripts {
  import opened PhaseTypes
  import opened Engine

  /** The scripts agree about the handlers that the log says were run. */
  predicate Agree(a: Script, b: Script, log: seq<Event>) {
    forall k :: 0 <= k < |log| && log[k].Ran? ==> OutcomeAt(a, k) == OutcomeAt(b, k)
  }

  /** No handler that was run failed. */
  predicate NoneFailed(script: Script, log: seq<Event>) {
    forall k :: 0 <= k < |log| && log[k].Ran? ==> OutcomeAt(script, k).ok
  }

  /** The script with nothing in it but what the run looked at. */
  function Clean(script: Script, log: seq<Event>): (r: Script)
    ensures Agree(script, r, log)
    ensures NoneFailed(script, log) ==> AllOk(r)
  {
    seq(|log|, k requires 0 <= k < |log| => if log[k].Ran? then OutcomeAt(script, k) else Go)
  }

  lemma AgreeBefore(a: Script, b: Script, log: seq<Event>, more: seq<Event>)
    requires Agree(a, b, more) && log <= more
    ensures Agree(a, b, log)
  {
  }

  lemma RunAgrees(h: Handler, c: Ctx, a: Script, b: Script, log: seq<Event>)
    requires Agree(a, b, log) && RunHandler(h, c, a).1.log <= log
    ensures RunHandler(h, c, b) == RunHandler(h, c, a)
  {
    assert RunHandler(h, c, a).1.log[|c.log|] == Ran(h);
    assert log[|c.log|] == Ran(h);
  }

  lemma {:induction false} InvokeListAgrees(hs: seq<Handler>, i: nat, c: Ctx, a: Script, b: Script)
    requires i <= |hs|
    ensures c.log <= InvokeList(hs, i, c, a).1.log
    ensures Agree(a, b, InvokeList(hs, i, c, a).1.log) ==> InvokeList(hs, i, c, b) == InvokeList(hs, i, c, a)
    decreases |hs| - i
  {
    if i < |hs| && !c.paused {
      var (ok, d) := RunHandler(hs[i], c, a);
      var e := d.(index := i + 1);
      if ok { InvokeListAgrees(hs, i + 1, e, a, b); }
      if Agree(a, b, InvokeList(hs, i, c, a).1.log) { RunAgrees(hs[i], c, a, b, InvokeList(hs, i, c, a).1.log); }
    }
  }

  lemma {:induction false} InvokePhaseAgrees(p: PhaseState, c: Ctx, a: Script, b: Script)
    ensures c.log <= InvokePhase(p, c, a).1.log
    ensures Agree(a, b, InvokePhase(p, c, a).1.log) ==> InvokePhase(p, c, b) == InvokePhase(p, c, a)
  {
    var c1, whole := c.(phaseName := Some(p.name)), InvokePhase(p, c, a).1.log;
    if !(p.first.Some? && c1.paused) {
      var (ok2, c2) := if p.first.Some? then RunHandler(p.first.value, c1, a) else (true, c1);
      if ok2 {
        InvokeListAgrees(p.handlers, 0, c2, a, b);
        var (ok3, c3) := InvokeList(p.handlers, 0, c2, a);
        if Agree(a, b, whole) {
          AgreeBefore(a, b, c3.log, whole);
          if p.first.Some? { RunAgrees(p.first.value, c1, a, b, whole); }
          if ok3 && p.last.Some? && !c3.paused { RunAgrees(p.last.value, c3, a, b, whole); }
        }
      } else if Agree(a, b, whole) {
        RunAgrees(p.first.value, c1, a, b, whole);
      }
    }
  }

  lemma {:induction false} InvokeAgrees(chain: seq<PhaseState>, i: nat, c: Ctx, a: Script, b: Script)
    requires i <= |chain|
    ensures c.log <= InvokePhases(chain, i, c, a).1.log
    ensures Agree(a, b, InvokePhases(chain, i, c, a).1.log) ==> InvokePhases(chain, i, c, b) == InvokePhases(chain, i, c, a)
    decreases |chain| - i
  {
    if i < |chain| && !c.paused {
      var (ok, d) := InvokePhase(chain[i], c, a);
      InvokePhaseAgrees(chain[i], c, a, b);
      if ok { InvokeAgrees(chain, i + 1, d, a, b); }
    }
  }

  lemma {:induction false} ResumeListAgrees(hs: seq<Handler>, i: int, c: Ctx, a: Script, b: Script)
    ensures c.log <= ResumeList(hs, i, c, a).log
    ensures Agree(a, b, ResumeList(hs, i, c, a).log) ==> ResumeList(hs, i, c, b) == ResumeList(hs, i, c, a)
    decreases |hs| - i
  {
    if i < |hs| {
      if i < 0 {
        ResumeListAgrees(hs, i + 1, c, a, b);
      } else {
        var d := RunHandler(hs[i], c, a).1;
        ResumeListAgrees(hs, i + 1, d.(index := d.index + 1), a, b);
        if Agree(a, b, ResumeList(hs, i, c, a).log) { RunAgrees(hs[i], c, a, b, ResumeList(hs, i, c, a).log); }
      }
    }
  }

  lemma {:induction false} ResumeLoopAgrees(chain: seq<PhaseState>, i: nat, found: bool, c: Ctx, a: Script, b: Script)
    requires i <= |chain|
    ensures c.log <= ResumeLoop(chain, i, found, c, a).log
    ensures Agree(a, b, ResumeLoop(chain, i, found, c, a).log)
        ==> ResumeLoop(chain, i, found, c, b) == ResumeLoop(chain, i, found, c, a)
    decreases |chain| - i
  {
    if i < |chain| && !c.paused {
      if c.phaseName == Some(chain[i].name) {
        ResumeListAgrees(chain[i].handlers, c.index, c.(phaseName := Some(chain[i].name)), a, b);
        ResumeLoopAgrees(chain, i + 1, true, ResumePhase(chain[i], c.index, c, a), a, b);
      } else if found {
        InvokePhaseAgrees(chain[i], c, a, b);
        ResumeLoopAgrees(chain, i + 1, true, InvokePhase(chain[i], c, a).1, a, b);
      } else {
        ResumeLoopAgrees(chain, i + 1, false, c, a, b);
      }
    }
  }

  lemma ResumeAgrees(chain: seq<PhaseState>, c: Ctx, a: Script, b: Script)
    ensures c.log <= ResumePhases(chain, c, a).log
    ensures Agree(a, b, ResumePhases(chain, c, a).log) ==> ResumePhases(chain, c, b) == ResumePhases(chain, c, a)
  {
    ResumeLoopAgrees(chain, 0, false, c.(paused := false), a, b);
  }

  // ----- sending and receiving ------------------------------------------------------

  lemma {:induction false} TransmitAgrees(global: Option<seq<PhaseState>>, t: Transport, c: Ctx, a: Script, b: Script)
    ensures c.log <= Transmit(global, t, c, a).1.log
    ensures Agree(a, b, Transmit(global, t, c, a).1.log) ==> Transmit(global, t, c, b) == Transmit(global, t, c, a)
  {
    if global.Some? { InvokeAgrees(global.value, 0, c, a, b); }
    var d := if global.Some? then InvokePhases(global.value, 0, c, a).1 else c;
    assert d.log <= Transmit(global, t, c, a).1.log;
  }

  lemma {:induction false} SendAgrees(op: Option<seq<PhaseState>>, global: Option<seq<PhaseState>>, t: Transport,
                                      c: Ctx, a: Script, b: Script)
    ensures c.log <= Send(op, global, t, c, a).1.log
    ensures Agree(a, b, Send(op, global, t, c, a).1.log) ==> Send(op, global, t, c, b) == Send(op, global, t, c, a)
  {
    if op.Some? {
      if c.paused { ResumeAgrees(op.value, c, a, b); } else { InvokeAgrees(op.value, 0, c, a, b); }
      var (ok, c1) := if c.paused then (true, ResumePhases(op.value, c, a)) else InvokePhases(op.value, 0, c, a);
      if ok { TransmitAgrees(global, t, c1, a, b); }
      assert c1.log <= Send(op, global, t, c, a).1.log;
    }
  }

  lemma {:induction false} ResumeSendAgrees(op: Option<seq<PhaseState>>, t: Transport, c: Ctx, a: Script, b: Script)
    ensures c.log <= ResumeSend(op, t, c, a).1.log
    ensures Agree(a, b, ResumeSend(op, t, c, a).1.log) ==> ResumeSend(op, t, c, b) == ResumeSend(op, t, c, a)
  {
    if op.Some? {
      ResumeAgrees(op.value, c, a, b);
      assert ResumePhases(op.value, c, a).log <= ResumeSend(op, t, c, a).1.log;
    }
  }

  lemma {:induction false} ReceiveAgrees(pre: seq<PhaseState>, found: bool, flow: Option<seq<PhaseState>>, e: Endpoint,
                                         c: Ctx, a: Script, b: Script)
    ensures c.log <= Receive(pre, found, flow, e, c, a).1.log
    ensures Agree(a, b, Receive(pre, found, flow, e, c, a).1.log)
        ==> Receive(pre, found, flow, e, c, b) == Receive(pre, found, flow, e, c, a)
  {
    var whole := Receive(pre, found, flow, e, c, a).1.log;
    if c.paused {
      ResumeAgrees(pre, c, a, b);
      var c1 := ResumePhases(pre, c, a);
      if flow.Some? { ResumeAgrees(flow.value, c1, a, b); }
      assert c1.log <= whole;
    } else {
      InvokeAgrees(pre, 0, c, a, b);
      var c1 := InvokePhases(pre, 0, c, a).1;
      if flow.Some? { InvokeAgrees(flow.value, 0, c1, a, b); }
      assert c1.log <= whole;
    }
  }
}
