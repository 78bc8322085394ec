/** The execution engine on values: what one call of each engine function does to the
    cursor of a message context (paused flag, paused phase name, current handler index)
    and to the record of what has run. */
module Engine {
  import opened PhaseTypes

  /** What has happened to a message: handlers run, transport sender and message receiver called. */
  datatype Event = Ran(handler: Handler) | Sent | Delivered

  /** A handler may leave the paused flag alone, set it or clear it. */
  datatype PauseAction = Leave | Pause | Unpause

  /** What one handler invocation does: its status and what it does to the paused flag. */
  datatype Outcome = Outcome(ok: bool, pause: PauseAction)

  /** Outcome number k belongs to the event number k of the run; past the end every
      handler succeeds without touching the flag. Every finite run of any handlers is one script. */
  type Script = seq<Outcome>

  datatype Ctx = Ctx(paused: bool, phaseName: Option<string>, index: int, log: seq<Event>)

  const FreshCtx := Ctx(false, None, -1, [])
  const Go := Outcome(true, Leave)
  const Halt := Outcome(true, Pause)

  function OutcomeAt(script: Script, k: nat): Outcome {
    if k < |script| then script[k] else Go
  }

  predicate AllOk(script: Script) {
    forall k :: 0 <= k < |script| ==> script[k].ok
  }

  function Flag(a: PauseAction, paused: bool): bool {
    match a
    case Leave => paused
    case Pause => true
    case Unpause => false
  }

  function RunHandler(h: Handler, c: Ctx, script: Script): (bool, Ctx) {
    var o := OutcomeAt(script, |c.log|);
    (o.ok, c.(paused := Flag(o.pause, c.paused), log := c.log + [Ran(h)]))
  }

  // ----- invoking -------------------------------------------------------------------

  /** The loop of axis2_phase_invoke over the handler list. */
  function InvokeList(hs: seq<Handler>, i: nat, c: Ctx, script: Script): (bool, Ctx)
    requires i <= |hs|
    decreases |hs| - i
  {
    if i == |hs| || c.paused then (true, c)
    else
      var (ok, d) := RunHandler(hs[i], c, script);
      if !ok then (false, d) else InvokeList(hs, i + 1, d.(index := i + 1), script)
  }

  function InvokePhase(p: PhaseState, c: Ctx, script: Script): (bool, Ctx) {
    var c1 := c.(phaseName := Some(p.name));
    if p.first.Some? && c1.paused then (true, c1)
    else
      var (ok2, c2) := if p.first.Some? then RunHandler(p.first.value, c1, script) else (true, c1);
      if !ok2 then (false, c2)
      else
        var (ok3, c3) := InvokeList(p.handlers, 0, c2, script);
        if !ok3 then (false, c3)
        else if p.last.Some? && !c3.paused then RunHandler(p.last.value, c3, script)
        else (true, c3)
  }

  function InvokePhases(chain: seq<PhaseState>, i: nat, c: Ctx, script: Script): (bool, Ctx)
    requires i <= |chain|
    decreases |chain| - i
  {
    if i == |chain| || c.paused then (true, c)
    else
      var (ok, d) := InvokePhase(chain[i], c, script);
      if !ok then (false, d) else InvokePhases(chain, i + 1, d, script)
  }

  // ----- resuming -------------------------------------------------------------------

  /** The loop of axis2_phase_invoke_start_from_handler: positions below zero hold no handler,
      statuses and the paused flag are not looked at. */
  function ResumeList(hs: seq<Handler>, i: int, c: Ctx, script: Script): Ctx
    decreases |hs| - i
  {
    if i >= |hs| then c
    else if i < 0 then ResumeList(hs, i + 1, c, script)
    else
      var d := RunHandler(hs[i], c, script).1;
      ResumeList(hs, i + 1, d.(index := d.index + 1), script)
  }

  function ResumePhase(p: PhaseState, k: int, c: Ctx, script: Script): Ctx {
    ResumeList(p.handlers, k, c.(phaseName := Some(p.name)), script)
  }

  function ResumeLoop(chain: seq<PhaseState>, i: nat, found: bool, c: Ctx, script: Script): Ctx
    requires i <= |chain|
    decreases |chain| - i
  {
    if i == |chain| || c.paused then c
    else if c.phaseName == Some(chain[i].name) then
      ResumeLoop(chain, i + 1, true, ResumePhase(chain[i], c.index, c, script), script)
    else if found then
      ResumeLoop(chain, i + 1, true, InvokePhase(chain[i], c, script).1, script)
    else
      ResumeLoop(chain, i + 1, false, c, script)
  }

  function ResumePhases(chain: seq<PhaseState>, c: Ctx, script: Script): Ctx {
    ResumeLoop(chain, 0, false, c.(paused := false), script)
  }

  // ----- sending and receiving ------------------------------------------------------

  /** What the message context's transport-out description leads to. */
  datatype Transport = NoTransportOut | NoSender | Sender(ok: bool)

  /** axis2_engine_send: the operation's out flow (None: no operation), then the
      configuration's out phases, then the transport sender. */
  function Send(op: Option<seq<PhaseState>>, global: Option<seq<PhaseState>>, t: Transport,
                c: Ctx, script: Script): (bool, Ctx)
  {
    if op.None? then (false, c)
    else
      var (ok, c1) := if c.paused then (true, ResumePhases(op.value, c, script))
                      else InvokePhases(op.value, 0, c, script);
      if !ok then (false, c1) else Transmit(global, t, c1, script)
  }

  /** The rest of a send: the status of the global out phases is not looked at. */
  function Transmit(global: Option<seq<PhaseState>>, t: Transport, c: Ctx, script: Script): (bool, Ctx) {
    var d := if global.Some? then InvokePhases(global.value, 0, c, script).1 else c;
    if d.paused then (true, d)
    else if !t.Sender? then (false, d)
    else (t.ok, d.(log := d.log + [Sent]))
  }

  /** axis2_engine_resume_send. */
  function ResumeSend(op: Option<seq<PhaseState>>, t: Transport, c: Ctx, script: Script): (bool, Ctx) {
    var c1 := if op.Some? then ResumePhases(op.value, c, script) else c;
    if c1.paused || !t.Sender? then (false, c1)
    else (t.ok, c1.(log := c1.log + [Sent]))
  }

  /** The server side's facts about a message: whether its must-understand headers were
      dealt with, and the operation's message receiver with the status it will return. */
  datatype Endpoint = Endpoint(serverSide: bool, understood: bool, receiver: Option<bool>)

  function Deliver(found: bool, e: Endpoint, status: bool, c: Ctx): (bool, Ctx) {
    if !e.serverSide || c.paused then (status, c)
    else if !e.understood || !found || e.receiver.None? then (false, c)
    else (e.receiver.value, c.(log := c.log + [Delivered]))
  }

  /** axis2_engine_receive: the phases up to post-dispatch, then the in flow of the operation
      they dispatched to, then the message receiver. They may have found no operation, and an
      operation may have no in flow. */
  function Receive(pre: seq<PhaseState>, found: bool, flow: Option<seq<PhaseState>>, e: Endpoint,
                   c: Ctx, script: Script): (bool, Ctx)
  {
    if c.paused then
      var c1 := ResumePhases(pre, c, script);
      if c1.paused then (true, c1) else ResumeInFlow(found, flow, e, c1, script)
    else
      var (ok1, c1) := InvokePhases(pre, 0, c, script);
      if !ok1 && e.serverSide then (false, c1)
      else if c1.paused then (true, c1)
      else ReceiveInFlow(found, flow, e, ok1, c1, script)
  }

  /** The rest of a receive of a paused message, from the operation's in flow on. */
  function ResumeInFlow(found: bool, flow: Option<seq<PhaseState>>, e: Endpoint, c: Ctx, script: Script): (bool, Ctx) {
    var d := if found && flow.Some? then ResumePhases(flow.value, c, script) else c;
    if d.paused then (true, d) else Deliver(found, e, false, d)
  }

  /** The rest of a first receive, from the operation's in flow on. */
  function ReceiveInFlow(found: bool, flow: Option<seq<PhaseState>>, e: Endpoint, ok: bool, c: Ctx, script: Script): (bool, Ctx) {
    var (ok1, d) := if !found then (ok, c) else if flow.None? then (false, c) else InvokePhases(flow.value, 0, c, script);
    if found && !ok1 then (false, d)
    else if d.paused then (true, d)
    else Deliver(found, e, ok1, d)
  }

  /** axis2_engine_resume_receive: it resumes the phases up to post-dispatch only. */
  function ResumeReceive(pre: seq<PhaseState>, found: bool, e: Endpoint, c: Ctx, script: Script): (bool, Ctx) {
    var c1 := ResumePhases(pre, c, script);
    if !e.serverSide || c1.paused then (false, c1)
    else if !e.understood then (false, c1)
    else if !found then (true, c1)
    else if e.receiver.None? then (false, c1)
    else (e.receiver.value, c1.(log := c1.log + [Delivered]))
  }
}
