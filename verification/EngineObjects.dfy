/** The engine's functions over a mutable message context, each proved against Engine. */
module EngineObjects {
  import opened PhaseTypes
  import opened Engine
  import opened PhaseObjects

  function States(phases: seq<Phase>): (r: seq<PhaseState>)
    reads phases
    ensures |r| == |phases| && forall i :: 0 <= i < |phases| ==> r[i] == phases[i].State()
  {
    if phases == [] then [] else [phases[0].State()] + States(phases[1..])
  }

  function Flow(phases: Option<seq<Phase>>): Option<seq<PhaseState>>
    reads if phases.Some? then phases.value else []
  {
    if phases.None? then None else Some(States(phases.value))
  }

  method RunPhases(phases: Option<seq<Phase>>, c: MsgCtx) returns (ok: bool)
    modifies c
    ensures phases.None? ==> !ok && c.State() == old(c.State())
    ensures phases.Some? ==>
      (ok, c.State()) == InvokePhases(States(phases.value), 0, old(c.State()), c.script)
  {
    if phases.None? { return false; }
    ok := RunAllPhases(phases.value, c);
  }

  method RunAllPhases(phases: seq<Phase>, c: MsgCtx) returns (ok: bool)
    modifies c
    ensures (ok, c.State()) == InvokePhases(States(phases), 0, old(c.State()), c.script)
  {
    ghost var chain := States(phases);
    var i := 0;
    while i < |phases| && !c.paused
      invariant i <= |phases| && States(phases) == chain
      invariant InvokePhases(chain, i, c.State(), c.script) == InvokePhases(chain, 0, old(c.State()), c.script)
    {
      ok := phases[i].Invoke(c);
      if !ok { return; }
      i := i + 1;
    }
    ok := true;
  }

  method ResumeInvocationPhases(phases: Option<seq<Phase>>, c: MsgCtx) returns (ok: bool)
    modifies c
    ensures ok == phases.Some?
    ensures c.State() == if ok then ResumePhases(States(phases.value), old(c.State()), c.script) else old(c.State())
  {
    if phases.None? { return false; }
    c.paused := false;
    var i, found := 0, false;
    while i < |phases.value| && !c.paused
      invariant i <= |phases.value|
      invariant ResumeLoop(States(phases.value), i, found, c.State(), c.script)
             == ResumePhases(States(phases.value), old(c.State()), c.script)
    {
      var phase := phases.value[i];
      if c.pausedPhaseName == Some(phase.name) {
        found := true;
        phase.InvokeStartFromHandler(c.currentHandlerIndex, c);
      } else if found {
        var _ := phase.Invoke(c);
      }
      i := i + 1;
    }
    ok := true;
  }

  method SendMessage(op: Option<seq<Phase>>, global: Option<seq<Phase>>, t: Transport, c: MsgCtx) returns (ok: bool)
    modifies c
    ensures (ok, c.State()) == Send(Flow(op), Flow(global), t, old(c.State()), c.script)
  {
    if c.paused {
      ok := ResumeInvocationPhases(op, c);
    } else {
      ok := RunPhases(op, c);
    }
    if !ok { return; }
    ok := SendOn(global, t, c);
  }

  /** The second half of sending: the global out phases, then the wire. */
  method SendOn(global: Option<seq<Phase>>, t: Transport, c: MsgCtx) returns (ok: bool)
    modifies c
    ensures (ok, c.State()) == Transmit(Flow(global), t, old(c.State()), c.script)
  {
    if global.Some? {
      var _ := RunPhases(global, c);
    }
    if !c.paused {
      if !t.Sender? { return false; }
      c.log := c.log + [Sent];
      return t.ok;
    }
    ok := true;
  }

  method ResumeSendMessage(op: Option<seq<Phase>>, t: Transport, c: MsgCtx) returns (ok: bool)
    modifies c
    ensures (ok, c.State()) == ResumeSend(Flow(op), t, old(c.State()), c.script)
  {
    ok := false;
    var _ := ResumeInvocationPhases(op, c);
    if !c.paused && t.Sender? {
      c.log := c.log + [Sent];
      ok := t.ok;
    }
  }

  method ReceiveMessage(pre: seq<Phase>, found: bool, flow: Option<seq<Phase>>, e: Endpoint, c: MsgCtx) returns (ok: bool)
    modifies c
    ensures (ok, c.State()) == Receive(States(pre), found, Flow(flow), e, old(c.State()), c.script)
  {
    if c.paused {
      ok := ReceiveAgain(pre, found, flow, e, c);
    } else {
      ok := ReceiveFirst(pre, found, flow, e, c);
    }
  }

  method ReceiveAgain(pre: seq<Phase>, found: bool, flow: Option<seq<Phase>>, e: Endpoint, c: MsgCtx) returns (ok: bool)
    requires c.paused
    modifies c
    ensures (ok, c.State()) == Receive(States(pre), found, Flow(flow), e, old(c.State()), c.script)
  {
    var _ := ResumeInvocationPhases(Some(pre), c);
    if c.paused { return true; }
    ok := ReceiveOnAgain(found, flow, e, c);
  }

  method ReceiveOnAgain(found: bool, flow: Option<seq<Phase>>, e: Endpoint, c: MsgCtx) returns (ok: bool)
    requires !c.paused
    modifies c
    ensures (ok, c.State()) == ResumeInFlow(found, Flow(flow), e, old(c.State()), c.script)
  {
    if found {
      var _ := ResumeInvocationPhases(flow, c);
      if c.paused { return true; }
    }
    ok := DeliverMessage(found, e, false, c);
  }

  method ReceiveFirst(pre: seq<Phase>, found: bool, flow: Option<seq<Phase>>, e: Endpoint, c: MsgCtx) returns (ok: bool)
    requires !c.paused
    modifies c
    ensures (ok, c.State()) == Receive(States(pre), found, Flow(flow), e, old(c.State()), c.script)
  {
    ok := RunAllPhases(pre, c);
    if !ok && e.serverSide { return; }
    if c.paused { return true; }
    ok := ReceiveOn(found, flow, e, ok, c);
  }

  method ReceiveOn(found: bool, flow: Option<seq<Phase>>, e: Endpoint, status: bool, c: MsgCtx) returns (ok: bool)
    requires !c.paused
    modifies c
    ensures (ok, c.State()) == ReceiveInFlow(found, Flow(flow), e, status, old(c.State()), c.script)
  {
    ok := status;
    if found {
      ok := RunPhases(flow, c);
      if !ok { return; }
      if c.paused { return true; }
    }
    ok := DeliverMessage(found, e, ok, c);
  }

  method DeliverMessage(found: bool, e: Endpoint, status: bool, c: MsgCtx) returns (ok: bool)
    modifies c
    ensures (ok, c.State()) == Deliver(found, e, status, old(c.State()))
  {
    ok := status;
    if e.serverSide && !c.paused {
      if !e.understood || !found || e.receiver.None? { return false; }
      c.log := c.log + [Delivered];
      ok := e.receiver.value;
    }
  }

  method ResumeReceiveMessage(pre: seq<Phase>, found: bool, e: Endpoint, c: MsgCtx) returns (ok: bool)
    modifies c
    ensures (ok, c.State()) == ResumeReceive(States(pre), found, e, old(c.State()), c.script)
  {
    ok := false;
    var _ := ResumeInvocationPhases(Some(pre), c);
    if e.serverSide && !c.paused {
      if !e.understood { return false; }
      ok := true;
      if found {
        if e.receiver.None? { return false; }
        c.log := c.log + [Delivered];
        ok := e.receiver.value;
      }
    }
  }
}
