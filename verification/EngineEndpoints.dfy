/** Sending over any transport and receiving at any end: what is run, whether the message is
    sent or delivered, and which status comes back. */
module EngineEndpoints {
  import opened PhaseTypes
  import opened Engine
  import opened EngineScripts
  import opened EngineRuns
  import opened EngineFlows
  import opened EngineFailures

  function FlatOf(flow: Option<seq<PhaseState>>): Option<seq<Event>> {
    if flow.None? then None else Some(Flat(flow.value))
  }

  function Running(log: seq<Event>): View { View(true, false, log) }

  // ----- receiving ------------------------------------------------------------------

  /** A server that has found an operation with a receiver and understood the headers. */
  predicate Delivers(found: bool, e: Endpoint) {
    e.serverSide && e.understood && found && e.receiver.Some?
  }

  function Mark(found: bool, e: Endpoint): seq<Event> {
    if Delivers(found, e) then [Delivered] else []
  }

  /** The status once all phases are through: on a client that of the phases, on a server the
      receiver's, or failure without one. */
  function Verdict(found: bool, e: Endpoint, ok: bool): bool {
    if !e.serverSide then ok else Delivers(found, e) && e.receiver.value
  }

  /** The reference for the first receive of a message, over flat lists of handlers. A failure
      before the operation's in flow ends it on a server only; the operation's own flow is run
      at either end, and its failure, or its absence, ends it at either. */
  function FlatReceive(pre: seq<Event>, found: bool, flow: Option<seq<Event>>, e: Endpoint,
                       log: seq<Event>, script: Script): View
  {
    var v := RunAll(pre, Running(log), script);
    if e.serverSide && !v.ok then v
    else if v.paused then v.(ok := true)
    else if !found then View(Verdict(false, e, v.ok), false, v.log)
    else if flow.None? then View(false, false, v.log)
    else
      var w := RunAll(flow.value, Running(v.log), script);
      if !w.ok || w.paused then w else View(Verdict(true, e, true), false, w.log + Mark(true, e))
  }

  lemma {:induction false} FirstReceiveIsFlat(pre: seq<PhaseState>, found: bool, flow: Option<seq<PhaseState>>, e: Endpoint,
                                              c: Ctx, script: Script)
    requires !c.paused
    ensures ViewOf(Receive(pre, found, flow, e, c, script)) == FlatReceive(Flat(pre), found, FlatOf(flow), e, c.log, script)
  {
    InvokeIsFlat(pre, 0, c, script);
    var (ok1, c1) := InvokePhases(pre, 0, c, script);
    if flow.Some? && !c1.paused {
      InvokeIsFlat(flow.value, 0, c1, script);
      var d := InvokePhases(flow.value, 0, c1, script).1;
      assert d.log + [] == d.log;
    }
  }

  /** A message paused before its operation's in flow: the phases there are resumed, the
      operation's flow is not run at either end, and on a client the status is a failure even
      when all goes well. */
  lemma {:induction false} ReceiveAgainBefore(pre: seq<PhaseState>, found: bool, flow: Option<seq<PhaseState>>, e: Endpoint,
                                              c: Ctx, script: Script)
    requires c.paused && InPhase(pre, c) && (flow.Some? ==> Apart(pre, flow.value))
    ensures var d := ResumePhases(pre, c, script);
      Receive(pre, found, flow, e, c, script)
      == if d.paused then (true, d) else (Verdict(found, e, false), d.(log := d.log + Mark(found, e)))
  {
    var d := ResumePhases(pre, c, script);
    ResumeRecords(pre, 0, false, c.(paused := false), script);
    if flow.Some? && !d.paused { ResumeElsewhere(flow.value, 0, d, script); }
    assert d.log + [] == d.log;
  }

  /** One paused in its operation's in flow: that flow is resumed and the phases before it are
      not run again. */
  lemma {:induction false} ReceiveAgainInside(pre: seq<PhaseState>, flow: seq<PhaseState>, e: Endpoint, c: Ctx, script: Script)
    requires c.paused && InPhase(flow, c) && Apart(pre, flow)
    ensures var d := ResumePhases(flow, c, script);
      Receive(pre, true, Some(flow), e, c, script)
      == if d.paused then (true, d) else (Verdict(true, e, false), d.(log := d.log + Mark(true, e)))
  {
    ResumeElsewhere(pre, 0, c.(paused := false), script);
    var d := ResumePhases(flow, c, script);
    assert d.log + [] == d.log;
  }

  /** A fresh message received, and received again while it stays paused, with the status of
      the last call. */
  function ReceiveCalls(pre: seq<PhaseState>, found: bool, flow: Option<seq<PhaseState>>, e: Endpoint,
                        script: Script, n: nat): (bool, Ctx)
  {
    if n == 0 then Receive(pre, found, flow, e, FreshCtx, script)
    else
      var r := ReceiveCalls(pre, found, flow, e, script, n - 1);
      if r.1.paused then Receive(pre, found, flow, e, r.1, script) else r
  }

  /** What one call may leave, whatever it was given. */
  predicate ReceiveLeaves(found: bool, e: Endpoint, r: (bool, Ctx)) {
    && (OnlyRuns(r.1.log) || (Delivers(found, e) && !r.1.paused && EndsWith(r.1.log, Delivered) && r.0 == e.receiver.value))
    && (e.serverSide && !r.1.paused && OnlyRuns(r.1.log) ==> !r.0)
  }

  lemma {:induction false} EveryReceiveLeaves(pre: seq<PhaseState>, found: bool, flow: Option<seq<PhaseState>>, e: Endpoint,
                                              c: Ctx, script: Script)
    requires OnlyRuns(c.log)
    ensures ReceiveLeaves(found, e, Receive(pre, found, flow, e, c, script))
    ensures c.paused ==> var r := Receive(pre, found, flow, e, c, script);
      (r.1.paused ==> r.0) && (!e.serverSide && !r.1.paused ==> !r.0)
  {
    if c.paused {
      ResumeOnlyRuns(pre, 0, false, c.(paused := false), script);
      var c1 := ResumePhases(pre, c, script);
      if flow.Some? { ResumeOnlyRuns(flow.value, 0, false, c1.(paused := false), script); }
      var d := if found && flow.Some? then ResumePhases(flow.value, c1, script) else c1;
      assert (d.log + [Delivered])[..|d.log|] == d.log;
    } else {
      InvokeOnlyRuns(pre, 0, c, script);
      var c1 := InvokePhases(pre, 0, c, script).1;
      if flow.Some? { InvokeOnlyRuns(flow.value, 0, c1, script); }
      var d := if found && flow.Some? then InvokePhases(flow.value, 0, c1, script).1 else c1;
      assert (d.log + [Delivered])[..|d.log|] == d.log;
    }
  }

  /** For every end, operation and handler behaviour: a client never delivers; a server delivers
      at most once, last, and then answers the receiver's status; any other end of a run on a
      server answers failure; and so does every end of a run on a client that was paused. */
  lemma {:induction false} ReceiveAtEveryEnd(pre: seq<PhaseState>, found: bool, flow: Option<seq<PhaseState>>, e: Endpoint,
                                             script: Script, n: nat)
    ensures var r := ReceiveCalls(pre, found, flow, e, script, n);
      && ReceiveLeaves(found, e, r)
      && (n > 0 && ReceiveCalls(pre, found, flow, e, script, 0).1.paused ==>
            (r.1.paused ==> r.0) && (!e.serverSide && !r.1.paused ==> !r.0))
  {
    if n == 0 {
      EveryReceiveLeaves(pre, found, flow, e, FreshCtx, script);
    } else {
      ReceiveAtEveryEnd(pre, found, flow, e, script, n - 1);
      var r := ReceiveCalls(pre, found, flow, e, script, n - 1);
      if r.1.paused { EveryReceiveLeaves(pre, found, flow, e, r.1, script); }
      if n > 1 && !ReceiveCalls(pre, found, flow, e, script, 0).1.paused {
        StaysEnded(pre, found, flow, e, script, n);
      }
    }
  }

  lemma {:induction false} StaysEnded(pre: seq<PhaseState>, found: bool, flow: Option<seq<PhaseState>>, e: Endpoint,
                                      script: Script, n: nat)
    requires !ReceiveCalls(pre, found, flow, e, script, 0).1.paused
    ensures ReceiveCalls(pre, found, flow, e, script, n) == ReceiveCalls(pre, found, flow, e, script, 0)
  {
    if n > 0 { StaysEnded(pre, found, flow, e, script, n - 1); }
  }

  /** The record of a run at any end is that of a run on a server that delivers, but for the
      delivery; unless it is a client's that a failure before the operation did not end. */
  lemma {:induction false} EndsAlike(pre: seq<PhaseState>, op: seq<PhaseState>, e: Endpoint, script: Script, n: nat)
    requires e.serverSide || !FailsFirst(pre, script)
    ensures var a, b := ReceiveRun(pre, op, script, n), ReceiveCalls(pre, true, Some(op), e, script, n).1;
      if a.paused then b == a
      else !b.paused && b.log == if EndsWith(a.log, Delivered) then a.log[..|a.log| - 1] + Mark(true, e) else a.log
  {
    if n == 0 {
      AlikeFirst(pre, op, e, script);
    } else {
      EndsAlike(pre, op, e, script, n - 1);
      var a := ReceiveRun(pre, op, script, n - 1);
      ReceiveOnEveryScript(pre, op, script, n - 1);
      if a.paused { AlikeAgain(pre, op, e, a, script); }
    }
  }

  lemma {:induction false} AlikeFirst(pre: seq<PhaseState>, op: seq<PhaseState>, e: Endpoint, script: Script)
    requires e.serverSide || !FailsFirst(pre, script)
    ensures var a, b := ReceiveRun(pre, op, script, 0), ReceiveCalls(pre, true, Some(op), e, script, 0).1;
      if a.paused then b == a
      else !b.paused && b.log == if EndsWith(a.log, Delivered) then a.log[..|a.log| - 1] + Mark(true, e) else a.log
  {
    InvokeOnlyRuns(pre, 0, FreshCtx, script);
    var c := InvokePhases(pre, 0, FreshCtx, script).1;
    InvokeOnlyRuns(op, 0, c, script);
    var d := InvokePhases(op, 0, c, script).1;
    assert (d.log + [Delivered])[..|d.log|] == d.log && d.log + [] == d.log;
  }

  lemma {:induction false} AlikeAgain(pre: seq<PhaseState>, op: seq<PhaseState>, e: Endpoint, c: Ctx, script: Script)
    requires c.paused && OnlyRuns(c.log)
    ensures var a, b := Receive(pre, true, Some(op), Server, c, script).1, Receive(pre, true, Some(op), e, c, script).1;
      if a.paused then b == a
      else !b.paused && b.log == if EndsWith(a.log, Delivered) then a.log[..|a.log| - 1] + Mark(true, e) else a.log
  {
    ResumeOnlyRuns(pre, 0, false, c.(paused := false), script);
    var c1 := ResumePhases(pre, c, script);
    ResumeOnlyRuns(op, 0, false, c1.(paused := false), script);
    var d := ResumePhases(op, c1, script);
    assert (d.log + [Delivered])[..|d.log|] == d.log && d.log + [] == d.log;
  }

  predicate CallsWhole(pre: seq<PhaseState>, op: seq<PhaseState>, e: Endpoint, script: Script, n: nat) {
    var c := ReceiveCalls(pre, true, Some(op), e, script, n).1;
    NoneFailed(script, c.log) && !c.paused ==> c.log == Flat(pre) + Flat(op) + Mark(true, e)
  }

  /** Client or server: every receive without failures runs each handler of both flows once and
      in order exactly when one of them holds none and the other resumes correctly. */
  lemma {:induction false} ReceiveIsExactAtEveryEnd(pre: seq<PhaseState>, op: seq<PhaseState>, e: Endpoint)
    requires DistinctNames(pre) && DistinctNames(op) && Apart(pre, op)
    ensures (Flat(pre) == [] && AllSafe(op)) || (Flat(op) == [] && AllSafe(pre))
       <==> forall script: Script, n: nat :: CallsWhole(pre, op, e, script, n)
  {
    ReceiveIsExact(pre, op);
    if forall script: Script, n: nat :: ReceivesWhole(pre, op, script, n) {
      forall script: Script, n: nat ensures CallsWhole(pre, op, e, script, n) {
        assert ReceivesWhole(pre, op, script, n);
        WholeAlike(pre, op, e, script, n);
      }
    } else {
      var script: Script, n: nat :| !ReceivesWhole(pre, op, script, n);
      BrokenAlike(pre, op, e, script, n);
      assert !CallsWhole(pre, op, e, script, n);
    }
  }

  /** A first invocation that failed for good left a failed handler in the record. */
  lemma {:induction false} FailureShows(chain: seq<PhaseState>, script: Script, log: seq<Event>)
    requires FailsFirst(chain, script) && InvokePhases(chain, 0, FreshCtx, script).1.log <= log
    ensures !NoneFailed(script, log)
  {
    InvokeOkExactly(chain, FreshCtx, script);
    InvokeOnlyRuns(chain, 0, FreshCtx, script);
    var first := InvokePhases(chain, 0, FreshCtx, script).1.log;
    var k :| 0 <= k < |first| && !OutcomeAt(script, k).ok;
    assert log[k] == first[k];
  }

  lemma {:induction false} CallsStart(pre: seq<PhaseState>, op: seq<PhaseState>, e: Endpoint, script: Script, n: nat)
    ensures InvokePhases(pre, 0, FreshCtx, script).1.log <= ReceiveCalls(pre, true, Some(op), e, script, n).1.log
  {
    if n == 0 {
      var c1 := InvokePhases(pre, 0, FreshCtx, script).1;
      InvokeAgrees(op, 0, c1, script, script);
    } else {
      CallsStart(pre, op, e, script, n - 1);
      ReceiveAgrees(pre, true, Some(op), e, ReceiveCalls(pre, true, Some(op), e, script, n - 1).1, script, script);
    }
  }

  lemma {:induction false} WholeAlike(pre: seq<PhaseState>, op: seq<PhaseState>, e: Endpoint, script: Script, n: nat)
    requires ReceivesWhole(pre, op, script, n)
    ensures CallsWhole(pre, op, e, script, n)
  {
    var a, b := ReceiveRun(pre, op, script, n), ReceiveCalls(pre, true, Some(op), e, script, n).1;
    CallsStart(pre, op, e, script, n);
    if NoneFailed(script, b.log) && !b.paused {
      if FailsFirst(pre, script) { FailureShows(pre, script, b.log); }
      EndsAlike(pre, op, e, script, n);
      var all := Flat(pre) + Flat(op);
      FlatOnlyRuns(pre, 0);
      FlatOnlyRuns(op, 0);
      assert (all + [Delivered])[..|all|] == all;
      assert NoneFailed(script, a.log) by {
        if EndsWith(a.log, Delivered) {
          forall k | 0 <= k < |a.log| && a.log[k].Ran? ensures OutcomeAt(script, k).ok { assert b.log[k] == a.log[k]; }
        }
      }
    }
  }

  lemma {:induction false} BrokenAlike(pre: seq<PhaseState>, op: seq<PhaseState>, e: Endpoint, script: Script, n: nat)
    requires !ReceivesWhole(pre, op, script, n)
    ensures !CallsWhole(pre, op, e, script, n)
  {
    var a, b := ReceiveRun(pre, op, script, n), ReceiveCalls(pre, true, Some(op), e, script, n).1;
    CallsStart(pre, op, Server, script, n);
    ServerCalls(pre, op, script, n);
    if FailsFirst(pre, script) { FailureShows(pre, script, a.log); }
    EndsAlike(pre, op, e, script, n);
    ReceiveOnEveryScript(pre, op, script, n);
    FirstReceiveOk(pre, op, script);
    ReceiveBegins(pre, op, script, n);
    assert EndsWith(a.log, Delivered);
    var front, all := a.log[..|a.log| - 1], Flat(pre) + Flat(op);
    assert a.log == front + [Delivered] && b.log == front + Mark(true, e);
    forall k | 0 <= k < |b.log| && b.log[k].Ran? ensures OutcomeAt(script, k).ok { assert a.log[k] == b.log[k]; }
    Cancel(front, all, Mark(true, e));
  }

  lemma Cancel(a: seq<Event>, b: seq<Event>, mark: seq<Event>)
    ensures a + mark == b + mark ==> a == b
  {
    if a + mark == b + mark {
      assert (a + mark)[..|a|] == a && (b + mark)[..|b|] == b;
    }
  }

  lemma {:induction false} ServerCalls(pre: seq<PhaseState>, op: seq<PhaseState>, script: Script, n: nat)
    ensures ReceiveCalls(pre, true, Some(op), Server, script, n).1 == ReceiveRun(pre, op, script, n)
  {
    if n > 0 { ServerCalls(pre, op, script, n - 1); }
  }

  // ----- resuming a receive ---------------------------------------------------------

  /** resume_receive of a message paused before its operation's in flow leaves what a further
      receive would leave. Its status differs twice: it is a failure for a message that is
      paused again, and a success for one that found no operation. */
  lemma {:induction false} ResumeReceiveIsReceive(pre: seq<PhaseState>, found: bool, flow: Option<seq<PhaseState>>, e: Endpoint,
                                                  c: Ctx, script: Script)
    requires c.paused && InPhase(pre, c) && (flow.Some? ==> Apart(pre, flow.value))
    ensures var (ok, d) := Receive(pre, found, flow, e, c, script);
      ResumeReceive(pre, found, e, c, script)
      == (if d.paused then false else if e.serverSide && e.understood && !found then true else ok, d)
  {
    ReceiveAgainBefore(pre, found, flow, e, c, script);
    var d := ResumePhases(pre, c, script);
    assert d.log + [] == d.log;
  }

  /** Of a message paused anywhere else it runs nothing. */
  lemma {:induction false} ResumeReceiveElsewhere(pre: seq<PhaseState>, found: bool, e: Endpoint, c: Ctx, script: Script)
    requires !InPhase(pre, c)
    ensures ResumeReceive(pre, found, e, c, script).1 == c.(paused := false, log := c.log + Mark(found, e))
  {
    ResumeElsewhere(pre, 0, c.(paused := false), script);
    assert c.log + [] == c.log;
  }

  // ----- sending --------------------------------------------------------------------

  function SentBy(t: Transport): seq<Event> { if t.Sender? then [Sent] else [] }

  /** The reference for what follows the out flow: the global phases, whose failures do not
      count, and unless one of them pauses, the sender, whose status is the send's. */
  function FlatTransmit(global: Option<seq<Event>>, t: Transport, log: seq<Event>, script: Script): View {
    var v := if global.Some? then RunAll(global.value, Running(log), script) else Running(log);
    if v.paused then v.(ok := true) else View(t.Sender? && t.ok, false, v.log + SentBy(t))
  }

  function FlatSend(op: Option<seq<Event>>, global: Option<seq<Event>>, t: Transport, log: seq<Event>, script: Script): View {
    if op.None? then View(false, false, log)
    else
      var v := RunAll(op.value, Running(log), script);
      if !v.ok || v.paused then v else FlatTransmit(global, t, v.log, script)
  }

  lemma {:induction false} TransmitIsFlat(global: Option<seq<PhaseState>>, t: Transport, c: Ctx, script: Script)
    requires !c.paused
    ensures ViewOf(Transmit(global, t, c, script)) == FlatTransmit(FlatOf(global), t, c.log, script)
  {
    if global.Some? { InvokeIsFlat(global.value, 0, c, script); }
    var d := if global.Some? then InvokePhases(global.value, 0, c, script).1 else c;
    assert d.log + [] == d.log;
  }

  lemma {:induction false} FirstSendIsFlat(op: Option<seq<PhaseState>>, global: Option<seq<PhaseState>>, t: Transport,
                                           c: Ctx, script: Script)
    requires !c.paused
    ensures ViewOf(Send(op, global, t, c, script)) == FlatSend(FlatOf(op), FlatOf(global), t, c.log, script)
  {
    if op.Some? {
      InvokeIsFlat(op.value, 0, c, script);
      var (ok, d) := InvokePhases(op.value, 0, c, script);
      if ok && d.paused {
        assert global.Some? ==> InvokePhases(global.value, 0, d, script) == (true, d);
      } else if ok {
        TransmitIsFlat(global, t, d, script);
      }
    }
  }

  /** A further send resumes the out flow, whose failures no longer count, and then goes on like
      the first; without an operation it fails. */
  lemma {:induction false} SendAgainIsFlat(op: Option<seq<PhaseState>>, global: Option<seq<PhaseState>>, t: Transport,
                                           c: Ctx, script: Script)
    requires c.paused
    ensures op.None? ==> Send(op, global, t, c, script) == (false, c)
    ensures op.Some? ==> var d := ResumePhases(op.value, c, script);
      if d.paused then Send(op, global, t, c, script) == (true, d)
      else ViewOf(Send(op, global, t, c, script)) == FlatTransmit(FlatOf(global), t, d.log, script)
  {
    if op.Some? {
      var d := ResumePhases(op.value, c, script);
      if d.paused {
        assert global.Some? ==> InvokePhases(global.value, 0, d, script) == (true, d);
      } else {
        TransmitIsFlat(global, t, d, script);
      }
    }
  }

  /** A fresh message sent, and sent again while it stays paused, with the last status. */
  function SendCalls(op: seq<PhaseState>, global: seq<PhaseState>, t: Transport, script: Script, n: nat): (bool, Ctx) {
    if n == 0 then Send(Some(op), Some(global), t, FreshCtx, script)
    else
      var r := SendCalls(op, global, t, script, n - 1);
      if r.1.paused then Send(Some(op), Some(global), t, r.1, script) else r
  }

  /** With any transport a run is that with a sender that succeeds, but for the sending: it is
      sent if there is a sender, and then the status is the sender's; without one, or when the
      first invocation failed for good, the run ends in failure. */
  lemma {:induction false} TransportRuns(op: seq<PhaseState>, global: seq<PhaseState>, t: Transport, script: Script, n: nat)
    ensures var a, r := SendRun(op, global, script, n), SendCalls(op, global, t, script, n);
      if a.paused then r.1 == a && (r.0 || n == 0)
      else if FailsFirst(op, script) then !r.0 && r.1 == a
      else !r.1.paused && |a.log| > 0 && r.1.log == a.log[..|a.log| - 1] + SentBy(t) && r.0 == (t.Sender? && t.ok)
  {
    SendOnEveryScript(op, global, script, n);
    if n == 0 {
      var (ok, c) := InvokePhases(op, 0, FreshCtx, script);
      if ok { TransportAlike(global, t, c, script); }
    } else {
      TransportRuns(op, global, t, script, n - 1);
      SendOnEveryScript(op, global, script, n - 1);
      var a := SendRun(op, global, script, n - 1);
      if a.paused {
        NotFailedFirst(op, global, script, n - 1);
        TransportAlike(global, t, ResumePhases(op, a, script), script);
      }
    }
  }

  lemma {:induction false} NotFailedFirst(op: seq<PhaseState>, global: seq<PhaseState>, script: Script, n: nat)
    requires SendRun(op, global, script, n).paused
    ensures !FailsFirst(op, script)
  {
    SendOnEveryScript(op, global, script, n);
  }

  lemma {:induction false} TransportAlike(global: seq<PhaseState>, t: Transport, c: Ctx, script: Script)
    ensures var (ok, a) := Transmit(Some(global), Sender(true), c, script);
      var (ok1, b) := Transmit(Some(global), t, c, script);
      if a.paused then ok1 && b == a
      else !b.paused && |a.log| > 0 && b.log == a.log[..|a.log| - 1] + SentBy(t) && ok1 == (t.Sender? && t.ok)
  {
    var d := InvokePhases(global, 0, c, script).1;
    assert (d.log + [Sent])[..|d.log|] == d.log && d.log + [] == d.log;
  }

  /** resume_send over any transport: sent if the resume ends unpaused and there is a sender,
      with the sender's status; a failure otherwise, also for a message paused again. Without
      an operation a paused message stays as it is. */
  lemma {:induction false} ResumeSendAnyTransport(op: seq<PhaseState>, t: Transport, c: Ctx, script: Script)
    ensures var d, r := ResumePhases(op, c, script), ResumeSend(Some(op), t, c, script);
      && r.0 == (!d.paused && t.Sender? && t.ok)
      && r.1 == if d.paused then d else d.(log := d.log + SentBy(t))
    ensures c.paused ==> ResumeSend(None, t, c, script) == (false, c)
  {
    var d := ResumePhases(op, c, script);
    assert d.log + [] == d.log;
  }
}
