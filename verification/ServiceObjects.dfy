/** The resolver's passes over all operations of a service, in place. */
module ServiceObjects {
  import opened PhaseTypes
  import opened PhaseObjects
  import opened EngineObjects
  import opened ResolverObjects
  import R = Resolver

  /** All phase objects of the operations. */
  ghost function AllPhases(ops: seq<Operation>): set<Phase>
    reads ops
  {
    set i, p | 0 <= i < |ops| && p in PhasesOf(ops[i].flows) :: p
  }

  /** Operations are distinct objects with all four flows' slots, and share no phase object
      with each other or with the system phases. */
  ghost predicate Apart(ops: seq<Operation>, sys: seq<Phase>)
    reads ops
  {
    && NoRepeats(sys)
    && (forall i :: 0 <= i < |ops| ==> |ops[i].flows| == R.FLOW_TYPES && Separate(ops[i].flows, sys))
    && (forall i, p :: 0 <= i < |ops| && p in sys ==> p !in PhasesOf(ops[i].flows))
    && (forall i, j :: 0 <= i < |ops| && 0 <= j < |ops| && i != j ==>
          ops[i] != ops[j] && PhasesOf(ops[i].flows) !! PhasesOf(ops[j].flows))
  }

  /** The operations' flows and engaged modules are those of `states`. */
  ghost predicate Are(ops: seq<Operation>, states: seq<R.Op>)
    reads ops, AllPhases(ops)
  {
    && |states| == |ops|
    && forall i :: 0 <= i < |ops| ==>
      (forall p :: p in PhasesOf(ops[i].flows) ==> p in AllPhases(ops)) &&
      ValueOf(ops[i]) == states[i]
  }

  function Flows(ops: seq<Operation>): (r: seq<seq<Option<seq<Phase>>>>)
    reads ops
    ensures |r| == |ops| && forall k :: 0 <= k < |ops| ==> r[k] == ops[k].flows
  {
    if ops == [] then [] else [ops[0].flows] + Flows(ops[1..])
  }

  ghost predicate AllWithin(ops: seq<Operation>, all: set<Phase>)
    reads ops
  {
    forall k :: 0 <= k < |ops| ==> PhasesOf(ops[k].flows) <= all
  }

  lemma AllWithinAll(ops: seq<Operation>)
    ensures AllWithin(ops, AllPhases(ops))
  {
    forall k | 0 <= k < |ops| ensures PhasesOf(ops[k].flows) <= AllPhases(ops) { PhasesInAll(ops, k); }
  }

  ghost predicate Represent(ops: seq<Operation>, sys: seq<Phase>, states: seq<R.Op>)
    reads ops, AllPhases(ops)
  {
    Apart(ops, sys) && Are(ops, states)
  }

  lemma PhasesInAll(ops: seq<Operation>, i: nat)
    requires i < |ops|
    ensures PhasesOf(ops[i].flows) <= AllPhases(ops)
  {
  }

  // ----- engaging globally: the handlers for the operations' own phases -------------

  /** The module's handlers for the configuration's phases, or its others. */
  function Part(hs: seq<Handler>, system: bool): seq<Handler> {
    if system then R.SystemOnly(hs) else R.UserOnly(hs)
  }

  function AddPartFlows(flows: seq<Option<R.Phases>>, m: R.Module, system: bool, t: nat): (bool, seq<Option<R.Phases>>)
    requires |flows| == |m.flows| == R.FLOW_TYPES && t <= R.FLOW_TYPES
  {
    if system then R.AddSystemFlows(flows, m, t) else R.AddUserFlows(flows, m, t)
  }

  lemma PartStep(hs: seq<Handler>, system: bool)
    requires hs != []
    ensures Part(hs, system)
         == if system == R.IsSystem(hs[0].rule.phase) then [hs[0]] + Part(hs[1..], system) else Part(hs[1..], system)
  {
  }

  method AddPart(ps: seq<Phase>, hs: seq<Handler>, system: bool) returns (ok: bool)
    requires NoRepeats(ps)
    modifies ps
    ensures (ok, States(ps)) == R.AddAll(old(States(ps)), Part(hs, system))
  {
    var j := 0;
    while j < |hs|
      invariant j <= |hs|
      invariant R.AddAll(States(ps), Part(hs[j..], system)) == R.AddAll(old(States(ps)), Part(hs, system))
    {
      assert hs[j..][1..] == hs[j + 1..];
      PartStep(hs[j..], system);
      if system == R.IsSystem(hs[j].rule.phase) {
        assert ([hs[j]] + Part(hs[j + 1..], system))[1..] == Part(hs[j + 1..], system);
        ok := HolderAddHandler(ps, hs[j]);
        if !ok { return; }
      }
      j := j + 1;
    }
    ok := true;
  }

  method AddPartTo(flows: seq<Option<seq<Phase>>>, t: nat, hs: seq<Handler>, system: bool) returns (ok: bool)
    requires t < |flows| && flows[t].Some? && Separate(flows, [])
    modifies flows[t].value
    ensures var (ok1, ps) := R.AddAll(old(States(flows[t].value)), Part(hs, system));
      ok == ok1 && FlowStates(flows) == old(FlowStates(flows))[t := Some(ps)]
  {
    ghost var before := FlowStates(flows);
    ok := AddPart(flows[t].value, hs, system);
    FlowUpdated(flows, t, before);
  }

  lemma PartUnfolds(flows: seq<Option<R.Phases>>, m: R.Module, system: bool, t: nat)
    requires |flows| == |m.flows| == R.FLOW_TYPES && t < R.FLOW_TYPES
    ensures AddPartFlows(flows, m, system, t) ==
      if flows[t].None? || m.flows[t].None? then AddPartFlows(flows, m, system, t + 1)
      else
        var (ok, ps) := R.AddAll(flows[t].value, Part(m.flows[t].value, system));
        if !ok then (false, flows[t := Some(ps)]) else AddPartFlows(flows[t := Some(ps)], m, system, t + 1)
  {
  }

  method AddPartAt(flows: seq<Option<seq<Phase>>>, t: nat, m: R.Module, system: bool) returns (ok: bool)
    requires t < |flows| == |m.flows| == R.FLOW_TYPES && Separate(flows, [])
    modifies PhasesOf(flows)
    ensures AddPartFlows(old(FlowStates(flows)), m, system, t)
         == if ok then AddPartFlows(FlowStates(flows), m, system, t + 1) else (false, FlowStates(flows))
  {
    PartUnfolds(FlowStates(flows), m, system, t);
    ok := true;
    if flows[t].Some? && m.flows[t].Some? {
      FlowInside(flows, t);
      ok := AddPartTo(flows, t, m.flows[t].value, system);
    }
  }

  /** One part of the module's handlers, flow by flow: the configuration's lists take the
      system part, an operation's flows the other. */
  method AddModuleToFlows(flows: seq<Option<seq<Phase>>>, m: R.Module, system: bool) returns (ok: bool)
    requires |flows| == |m.flows| == R.FLOW_TYPES && Separate(flows, [])
    modifies PhasesOf(flows)
    ensures (ok, FlowStates(flows)) == AddPartFlows(old(FlowStates(flows)), m, system, 0)
  {
    ghost var whole := AddPartFlows(FlowStates(flows), m, system, 0);
    var t := 0;
    while t < R.FLOW_TYPES
      invariant t <= R.FLOW_TYPES && AddPartFlows(FlowStates(flows), m, system, t) == whole
    {
      ok := AddPartAt(flows, t, m, system);
      if !ok { return; }
      t := t + 1;
    }
    ok := true;
  }

  // ----- what one step does to the list of operations -------------------------------

  ghost function ValueOf(op: Operation): R.Op
    reads op, PhasesOf(op.flows)
  {
    R.Op(FlowStates(op.flows), op.engaged)
  }

  /** Only operation i having changed, the values are the earlier ones updated there. */
  lemma OthersKept(ops: seq<Operation>, i: nat, before: seq<R.Op>)
    requires i < |ops| == |before|
    requires forall k :: 0 <= k < |ops| && k != i ==> ValueOf(ops[k]) == before[k]
    ensures Are(ops, before[i := ValueOf(ops[i])])
  {
    forall k | 0 <= k < |ops| ensures PhasesOf(ops[k].flows) <= AllPhases(ops) { PhasesInAll(ops, k); }
  }

  method SetEngaged(op: Operation, names: seq<string>, ghost sys: seq<Phase>)
    modifies op`engaged
    ensures op.engaged == names
    ensures FlowStates(op.flows) == old(FlowStates(op.flows)) && States(sys) == old(States(sys))
  {
    op.engaged := names;
  }

  /** The operation's flows are the same phase objects as before. */
  method AddModuleGlobally(op: Operation, m: R.Module) returns (ok: bool)
    requires |op.flows| == |m.flows| == R.FLOW_TYPES && Separate(op.flows, []) && m.name !in op.engaged
    modifies op`engaged, PhasesOf(op.flows)
    ensures op.flows == old(op.flows)
    ensures (ok, FlowStates(op.flows)) == R.AddUserFlows(old(FlowStates(op.flows)), m, 0)
    ensures op.engaged == if ok then R.AddName(old(op.engaged), m.name) else old(op.engaged)
  {
    ok := AddModuleToFlows(op.flows, m, false);
    if ok {
      SetEngaged(op, op.engaged + [m.name], []);
    }
  }

  method EngageGlobalAt(ops: seq<Operation>, i: nat, m: R.Module, ghost now: seq<R.Op>) returns (ok: bool)
    requires i < |ops| && |m.flows| == R.FLOW_TYPES && Represent(ops, [], now)
    requires m.name !in ops[i].engaged
    modifies ops[i], PhasesOf(ops[i].flows)
    ensures forall k :: 0 <= k < |ops| ==> ops[k].flows == old(ops[k].flows)
    ensures Are(ops, now[i := ValueOf(ops[i])])
    ensures |now[i].flows| == R.FLOW_TYPES
    ensures (ok, ValueOf(ops[i]).flows) == R.AddUserFlows(now[i].flows, m, 0)
    ensures ValueOf(ops[i]).engaged == if ok then R.AddName(now[i].engaged, m.name) else now[i].engaged
  {
    assert ValueOf(ops[i]) == now[i];
    ok := AddModuleGlobally(ops[i], m);
    forall k | 0 <= k < |ops| && k != i ensures ValueOf(ops[k]) == now[k] {
      assert unchanged(ops[k]) && unchanged(PhasesOf(ops[k].flows));
    }
    OthersKept(ops, i, now);
  }

  /** The pass's visit to operation i, which it leaves alone once `engaged` was set. */
  method GlobalVisit(ops: seq<Operation>, i: nat, ghost all: set<Phase>, engaged: bool, m: R.Module,
      ghost start: seq<R.Op>, ghost now: seq<R.Op>)
      returns (ok: bool, found: bool, ghost later: seq<R.Op>)
    requires i < |ops| && |m.flows| == R.FLOW_TYPES && Represent(ops, [], now)
    requires GlobalLeft(start, now, i, engaged, m)
    requires AllWithin(ops, all)
    modifies ops, all
    ensures AllWithin(ops, all) && forall k :: 0 <= k < |ops| ==> ops[k].flows == old(ops[k].flows)
    ensures Represent(ops, [], later)
    ensures ok ==> GlobalLeft(start, later, i + 1, found, m)
    ensures !ok ==> R.EngageGlobal(start, false, m) == (false, later)
  {
    found := engaged || m.name in ops[i].engaged;
    if found {
      GlobalSkip(start, now, i, engaged, m);
      return true, true, now;
    }
    ok := EngageGlobalAt(ops, i, m, now);
    GlobalStep(start, now, i, ValueOf(ops[i]), m);
    later := now[i := ValueOf(ops[i])];
  }

  /** add_module_handlers_to_user_defined_phases over the operations in the order visited. */
  method EngageGlobally(ops: seq<Operation>, m: R.Module, ghost states: seq<R.Op>) returns (ok: bool)
    requires |m.flows| == R.FLOW_TYPES && Represent(ops, [], states) && R.AllWellFormed(states, m)
    modifies ops, AllPhases(ops)
    ensures forall k :: 0 <= k < |ops| ==> ops[k].flows == old(ops[k].flows)
    ensures ok == R.EngageGlobal(states, false, m).0 && Represent(ops, [], R.EngageGlobal(states, false, m).1)
  {
    ghost var now, all := states, AllPhases(ops);
    forall k | 0 <= k < |ops| ensures PhasesOf(ops[k].flows) <= all { PhasesInAll(ops, k); }
    assert AllWithin(ops, all);
    GlobalStart(states, m);
    var engaged, i := false, 0;
    while i < |ops|
      invariant i <= |ops| && Represent(ops, [], now)
      invariant forall k :: 0 <= k < |ops| ==> ops[k].flows == old(ops[k].flows)
      invariant AllWithin(ops, all)
      invariant GlobalLeft(states, now, i, engaged, m)
    {
      ok, engaged, now := GlobalVisit(ops, i, all, engaged, m, states, now);
      if !ok { return; }
      i := i + 1;
    }
    GlobalDone(states, now, engaged, m);
    ok := true;
  }

  /** The pass over all of `start` comes to what is done (now[..i]) and the pass over the rest. */
  ghost predicate GlobalLeft(start: seq<R.Op>, now: seq<R.Op>, i: nat, engaged: bool, m: R.Module) {
    && i <= |now| && R.AllWellFormed(start, m) && R.AllWellFormed(now[i..], m)
    && var (ok, rest) := R.EngageGlobal(now[i..], engaged, m);
       R.EngageGlobal(start, false, m) == (ok, now[..i] + rest)
  }

  lemma GlobalStart(start: seq<R.Op>, m: R.Module)
    requires R.AllWellFormed(start, m)
    ensures GlobalLeft(start, start, 0, false, m)
  {
    assert start[0..] == start && forall rest: seq<R.Op> :: start[..0] + rest == rest;
  }

  lemma GlobalDone(start: seq<R.Op>, now: seq<R.Op>, engaged: bool, m: R.Module)
    requires GlobalLeft(start, now, |now|, engaged, m)
    ensures R.EngageGlobal(start, false, m) == (true, now)
  {
    assert now[..|now|] + [] == now;
  }

  lemma GlobalSkip(start: seq<R.Op>, now: seq<R.Op>, i: nat, engaged: bool, m: R.Module)
    requires i < |now| && GlobalLeft(start, now, i, engaged, m) && (engaged || m.name in now[i].engaged)
    ensures GlobalLeft(start, now, i + 1, true, m)
  {
    Unfold(now, now, i);
  }

  lemma GlobalStep(start: seq<R.Op>, now: seq<R.Op>, i: nat, next: R.Op, m: R.Module)
    requires i < |now| && GlobalLeft(start, now, i, false, m) && m.name !in now[i].engaged
    requires R.WellFormed(now[i], m)
    requires next.flows == R.AddUserFlows(now[i].flows, m, 0).1
    requires next.engaged
          == if R.AddUserFlows(now[i].flows, m, 0).0 then R.AddName(now[i].engaged, m.name) else now[i].engaged
    ensures if R.AddUserFlows(now[i].flows, m, 0).0 then GlobalLeft(start, now[i := next], i + 1, false, m)
            else R.EngageGlobal(start, false, m) == (false, now[i := next])
  {
    Unfold(now, now[i := next], i);
  }

  lemma Unfold(now: seq<R.Op>, later: seq<R.Op>, i: nat)
    requires i < |now| == |later| && later == now[i := later[i]]
    ensures now[i..][0] == now[i] && now[i..][1..] == now[i + 1..] == later[i + 1..]
    ensures now[i..] == [now[i]] + now[i + 1..]
    ensures later == now[..i] + ([later[i]] + now[i + 1..])
    ensures forall rest: seq<R.Op> :: now[..i] + ([later[i]] + rest) == later[..i + 1] + rest
  {
  }

  // ----- engaging to every operation of a service -----

  method EngageNamed(op: Operation, sys: seq<Phase>, m: R.Module) returns (ok: bool)
    requires |op.flows| == |m.flows| == R.FLOW_TYPES && Separate(op.flows, sys)
    requires m.name !in op.engaged
    modifies op`engaged, PhasesOf(op.flows), sys
    ensures op.flows == old(op.flows)
    ensures (ok, FlowStates(op.flows), States(sys))
         == R.EngageFlows(old(FlowStates(op.flows)), old(States(sys)), m, 0)
    ensures op.engaged == if ok then R.AddName(old(op.engaged), m.name) else old(op.engaged)
  {
    ok := EngageModuleToOp(op, sys, m);
    if ok {
      SetEngaged(op, op.engaged + [m.name], sys);
    }
  }

  method EngageAt(ops: seq<Operation>, i: nat, sys: seq<Phase>, m: R.Module, ghost now: seq<R.Op>) returns (ok: bool)
    requires i < |ops| && |m.flows| == R.FLOW_TYPES && Represent(ops, sys, now)
    requires m.name !in ops[i].engaged
    modifies ops[i], PhasesOf(ops[i].flows), sys
    ensures forall k :: 0 <= k < |ops| ==> ops[k].flows == old(ops[k].flows)
    ensures Are(ops, now[i := ValueOf(ops[i])])
    ensures |now[i].flows| == R.FLOW_TYPES
    ensures (ok, ValueOf(ops[i]).flows, States(sys)) == R.EngageFlows(now[i].flows, old(States(sys)), m, 0)
    ensures ValueOf(ops[i]).engaged == if ok then R.AddName(now[i].engaged, m.name) else now[i].engaged
  {
    assert ValueOf(ops[i]) == now[i];
    ok := EngageNamed(ops[i], sys, m);
    forall k | 0 <= k < |ops| && k != i ensures ValueOf(ops[k]) == now[k] {
      assert unchanged(ops[k]) && unchanged(PhasesOf(ops[k].flows));
    }
    OthersKept(ops, i, now);
  }

  /** The pass over all of `start` comes to what is done and the pass over the rest. */
  ghost predicate EngageLeft(start: seq<R.Op>, sys0: R.Phases, now: seq<R.Op>, sys: R.Phases, i: nat, m: R.Module) {
    && i <= |now| && R.AllWellFormed(start, m) && R.AllWellFormed(now[i..], m)
    && var (ok, rest, s) := R.EngageSvc(now[i..], sys, m);
       R.EngageSvc(start, sys0, m) == (ok, now[..i] + rest, s)
  }

  lemma EngageStart(start: seq<R.Op>, sys0: R.Phases, m: R.Module)
    requires R.AllWellFormed(start, m)
    ensures EngageLeft(start, sys0, start, sys0, 0, m)
  {
    assert start[0..] == start && forall rest: seq<R.Op> :: start[..0] + rest == rest;
  }

  lemma EngageDone(start: seq<R.Op>, sys0: R.Phases, now: seq<R.Op>, sys: R.Phases, m: R.Module)
    requires EngageLeft(start, sys0, now, sys, |now|, m)
    ensures R.EngageSvc(start, sys0, m) == (true, now, sys)
  {
    assert now[..|now|] + [] == now;
  }

  lemma EngageSkip(start: seq<R.Op>, sys0: R.Phases, now: seq<R.Op>, sys: R.Phases, i: nat, m: R.Module)
    requires i < |now| && EngageLeft(start, sys0, now, sys, i, m) && m.name in now[i].engaged
    ensures EngageLeft(start, sys0, now, sys, i + 1, m)
  {
    Unfold(now, now, i);
  }

  lemma EngageStep(start: seq<R.Op>, sys0: R.Phases, now: seq<R.Op>, sys: R.Phases, i: nat, next: R.Op, m: R.Module)
    requires i < |now| && EngageLeft(start, sys0, now, sys, i, m) && m.name !in now[i].engaged
    requires R.WellFormed(now[i], m)
    requires next.flows == R.EngageFlows(now[i].flows, sys, m, 0).1
    requires next.engaged
          == if R.EngageFlows(now[i].flows, sys, m, 0).0 then R.AddName(now[i].engaged, m.name) else now[i].engaged
    ensures var (ok, fs, s) := R.EngageFlows(now[i].flows, sys, m, 0);
      if ok then EngageLeft(start, sys0, now[i := next], s, i + 1, m)
      else R.EngageSvc(start, sys0, m) == (false, now[i := next], s)
  {
    Unfold(now, now[i := next], i);
  }

  /** The pass has come to operation i. */
  ghost predicate EngageMid(ops: seq<Operation>, i: nat, all: set<Phase>, sys: seq<Phase>, m: R.Module,
      start: seq<R.Op>, sys0: R.Phases, now: seq<R.Op>)
    reads ops, AllPhases(ops), sys
  {
    Represent(ops, sys, now) && AllWithin(ops, all) && EngageLeft(start, sys0, now, States(sys), i, m)
  }

  method EngageVisit(ops: seq<Operation>, i: nat, ghost all: set<Phase>, sys: seq<Phase>, m: R.Module,
      ghost start: seq<R.Op>, ghost sys0: R.Phases, ghost now: seq<R.Op>) returns (ok: bool, ghost later: seq<R.Op>)
    requires i < |ops| && |m.flows| == R.FLOW_TYPES && EngageMid(ops, i, all, sys, m, start, sys0, now)
    modifies ops, all, sys
    ensures Flows(ops) == old(Flows(ops))
    ensures ok ==> EngageMid(ops, i + 1, all, sys, m, start, sys0, later)
    ensures !ok ==> Are(ops, later) && R.EngageSvc(start, sys0, m) == (false, later, States(sys))
  {
    ghost var s := States(sys);
    if m.name in ops[i].engaged {
      EngageSkip(start, sys0, now, s, i, m);
      return true, now;
    }
    ok := EngageAt(ops, i, sys, m, now);
    EngageStep(start, sys0, now, s, i, ValueOf(ops[i]), m);
    later := now[i := ValueOf(ops[i])];
  }

  method EngagePass(ops: seq<Operation>, ghost all: set<Phase>, sys: seq<Phase>, m: R.Module,
      ghost start: seq<R.Op>, ghost sys0: R.Phases) returns (ok: bool, ghost now: seq<R.Op>)
    requires |m.flows| == R.FLOW_TYPES && EngageMid(ops, 0, all, sys, m, start, sys0, start)
    modifies ops, all, sys
    ensures Flows(ops) == old(Flows(ops))
    ensures ok ==> EngageMid(ops, |ops|, all, sys, m, start, sys0, now)
    ensures !ok ==> Are(ops, now) && R.EngageSvc(start, sys0, m) == (false, now, States(sys))
  {
    now := start;
    var i := 0;
    while i < |ops|
      invariant i <= |ops| && Flows(ops) == old(Flows(ops)) && EngageMid(ops, i, all, sys, m, start, sys0, now)
    {
      ok, now := EngageVisit(ops, i, all, sys, m, start, sys0, now);
      if !ok { return; }
      i := i + 1;
    }
    ok := true;
  }

  /** engage_module_to_svc over the operations in the order visited. */
  method EngageService(ops: seq<Operation>, sys: seq<Phase>, m: R.Module, ghost states: seq<R.Op>) returns (ok: bool)
    requires |m.flows| == R.FLOW_TYPES && Represent(ops, sys, states) && R.AllWellFormed(states, m)
    modifies ops, AllPhases(ops), sys
    ensures Flows(ops) == old(Flows(ops))
    ensures var (ok1, now, s) := R.EngageSvc(states, old(States(sys)), m);
      ok == ok1 && Are(ops, now) && States(sys) == s
  {
    ghost var all, sys0, now := AllPhases(ops), States(sys), states;
    AllWithinAll(ops);
    EngageStart(states, sys0, m);
    ok, now := EngagePass(ops, all, sys, m, states, sys0);
    if ok { EngageDone(states, sys0, now, States(sys), m); }
  }

  // ----- disengaging from every operation of a service -----

  method DisengageNamed(op: Operation, sys: seq<Phase>, m: R.Module) returns (ok: bool)
    requires |op.flows| == |m.flows| == R.FLOW_TYPES && Separate(op.flows, sys)
    requires m.name in op.engaged
    modifies op`engaged, PhasesOf(op.flows), sys
    ensures op.flows == old(op.flows)
    ensures (ok, FlowStates(op.flows), States(sys))
         == R.DisengageFlows(old(FlowStates(op.flows)), old(States(sys)), m, 0)
    ensures op.engaged == if ok then R.DropName(old(op.engaged), m.name) else old(op.engaged)
  {
    ok := DisengageModuleFromOp(op, sys, m);
    if ok {
      SetEngaged(op, R.DropName(op.engaged, m.name), sys);
    }
  }

  method DisengageAt(ops: seq<Operation>, i: nat, sys: seq<Phase>, m: R.Module, ghost now: seq<R.Op>) returns (ok: bool)
    requires i < |ops| && |m.flows| == R.FLOW_TYPES && Represent(ops, sys, now)
    requires m.name in ops[i].engaged
    modifies ops[i], PhasesOf(ops[i].flows), sys
    ensures forall k :: 0 <= k < |ops| ==> ops[k].flows == old(ops[k].flows)
    ensures Are(ops, now[i := ValueOf(ops[i])])
    ensures |now[i].flows| == R.FLOW_TYPES
    ensures (ok, ValueOf(ops[i]).flows, States(sys)) == R.DisengageFlows(now[i].flows, old(States(sys)), m, 0)
    ensures ValueOf(ops[i]).engaged == if ok then R.DropName(now[i].engaged, m.name) else now[i].engaged
  {
    assert ValueOf(ops[i]) == now[i];
    ok := DisengageNamed(ops[i], sys, m);
    forall k | 0 <= k < |ops| && k != i ensures ValueOf(ops[k]) == now[k] {
      assert unchanged(ops[k]) && unchanged(PhasesOf(ops[k].flows));
    }
    OthersKept(ops, i, now);
  }

  /** The pass over all of `start` comes to what is done and the pass over the rest. */
  ghost predicate DisengageLeft(start: seq<R.Op>, sys0: R.Phases, now: seq<R.Op>, sys: R.Phases, i: nat, m: R.Module) {
    && i <= |now| && R.AllWellFormed(start, m) && R.AllWellFormed(now[i..], m)
    && var (ok, rest, s) := R.DisengageSvc(now[i..], sys, m);
       R.DisengageSvc(start, sys0, m) == (ok, now[..i] + rest, s)
  }

  lemma DisengageStart(start: seq<R.Op>, sys0: R.Phases, m: R.Module)
    requires R.AllWellFormed(start, m)
    ensures DisengageLeft(start, sys0, start, sys0, 0, m)
  {
    assert start[0..] == start && forall rest: seq<R.Op> :: start[..0] + rest == rest;
  }

  lemma DisengageDone(start: seq<R.Op>, sys0: R.Phases, now: seq<R.Op>, sys: R.Phases, m: R.Module)
    requires DisengageLeft(start, sys0, now, sys, |now|, m)
    ensures R.DisengageSvc(start, sys0, m) == (true, now, sys)
  {
    assert now[..|now|] + [] == now;
  }

  lemma DisengageSkip(start: seq<R.Op>, sys0: R.Phases, now: seq<R.Op>, sys: R.Phases, i: nat, m: R.Module)
    requires i < |now| && DisengageLeft(start, sys0, now, sys, i, m) && m.name !in now[i].engaged
    ensures DisengageLeft(start, sys0, now, sys, i + 1, m)
  {
    Unfold(now, now, i);
  }

  lemma DisengageStep(start: seq<R.Op>, sys0: R.Phases, now: seq<R.Op>, sys: R.Phases, i: nat, next: R.Op, m: R.Module)
    requires i < |now| && DisengageLeft(start, sys0, now, sys, i, m) && m.name in now[i].engaged
    requires R.WellFormed(now[i], m)
    requires next.flows == R.DisengageFlows(now[i].flows, sys, m, 0).1
    requires next.engaged
          == if R.DisengageFlows(now[i].flows, sys, m, 0).0 then R.DropName(now[i].engaged, m.name) else now[i].engaged
    ensures var (ok, fs, s) := R.DisengageFlows(now[i].flows, sys, m, 0);
      if ok then DisengageLeft(start, sys0, now[i := next], s, i + 1, m)
      else R.DisengageSvc(start, sys0, m) == (false, now[i := next], s)
  {
    Unfold(now, now[i := next], i);
  }

  /** The pass has come to operation i. */
  ghost predicate DisengageMid(ops: seq<Operation>, i: nat, all: set<Phase>, sys: seq<Phase>, m: R.Module,
      start: seq<R.Op>, sys0: R.Phases, now: seq<R.Op>)
    reads ops, AllPhases(ops), sys
  {
    Represent(ops, sys, now) && AllWithin(ops, all) && DisengageLeft(start, sys0, now, States(sys), i, m)
  }

  method DisengageVisit(ops: seq<Operation>, i: nat, ghost all: set<Phase>, sys: seq<Phase>, m: R.Module,
      ghost start: seq<R.Op>, ghost sys0: R.Phases, ghost now: seq<R.Op>) returns (ok: bool, ghost later: seq<R.Op>)
    requires i < |ops| && |m.flows| == R.FLOW_TYPES && DisengageMid(ops, i, all, sys, m, start, sys0, now)
    modifies ops, all, sys
    ensures Flows(ops) == old(Flows(ops))
    ensures ok ==> DisengageMid(ops, i + 1, all, sys, m, start, sys0, later)
    ensures !ok ==> Are(ops, later) && R.DisengageSvc(start, sys0, m) == (false, later, States(sys))
  {
    ghost var s := States(sys);
    if m.name !in ops[i].engaged {
      DisengageSkip(start, sys0, now, s, i, m);
      return true, now;
    }
    ok := DisengageAt(ops, i, sys, m, now);
    DisengageStep(start, sys0, now, s, i, ValueOf(ops[i]), m);
    later := now[i := ValueOf(ops[i])];
  }

  method DisengagePass(ops: seq<Operation>, ghost all: set<Phase>, sys: seq<Phase>, m: R.Module,
      ghost start: seq<R.Op>, ghost sys0: R.Phases) returns (ok: bool, ghost now: seq<R.Op>)
    requires |m.flows| == R.FLOW_TYPES && DisengageMid(ops, 0, all, sys, m, start, sys0, start)
    modifies ops, all, sys
    ensures Flows(ops) == old(Flows(ops))
    ensures ok ==> DisengageMid(ops, |ops|, all, sys, m, start, sys0, now)
    ensures !ok ==> Are(ops, now) && R.DisengageSvc(start, sys0, m) == (false, now, States(sys))
  {
    now := start;
    var i := 0;
    while i < |ops|
      invariant i <= |ops| && Flows(ops) == old(Flows(ops)) && DisengageMid(ops, i, all, sys, m, start, sys0, now)
    {
      ok, now := DisengageVisit(ops, i, all, sys, m, start, sys0, now);
      if !ok { return; }
      i := i + 1;
    }
    ok := true;
  }

  /** disengage_module_from_svc over the operations in the order visited. */
  method DisengageService(ops: seq<Operation>, sys: seq<Phase>, m: R.Module, ghost states: seq<R.Op>) returns (ok: bool)
    requires |m.flows| == R.FLOW_TYPES && Represent(ops, sys, states) && R.AllWellFormed(states, m)
    modifies ops, AllPhases(ops), sys
    ensures Flows(ops) == old(Flows(ops))
    ensures var (ok1, now, s) := R.DisengageSvc(states, old(States(sys)), m);
      ok == ok1 && Are(ops, now) && States(sys) == s
  {
    ghost var all, sys0, now := AllPhases(ops), States(sys), states;
    AllWithinAll(ops);
    DisengageStart(states, sys0, m);
    ok, now := DisengagePass(ops, all, sys, m, states, sys0);
    if ok { DisengageDone(states, sys0, now, States(sys), m); }
  }

  // ----- a service that arrives late ------------------------------------------------

  /** add_to_handler_list: appends the module's user-phase handlers for flow t. */
  method AddToHandlerList(list: seq<Handler>, m: R.Module, t: nat) returns (hs: seq<Handler>)
    requires t < R.FLOW_TYPES == |m.flows|
    ensures hs == list + if m.flows[t].Some? then R.UserOnly(m.flows[t].value) else []
  {
    hs := list;
    if m.flows[t].None? { return; }
    var brought := m.flows[t].value;
    var j := 0;
    while j < |brought|
      invariant j <= |brought|
      invariant hs + R.UserOnly(brought[j..]) == list + R.UserOnly(brought)
    {
      var add := if R.IsSystem(brought[j].rule.phase) then [] else [brought[j]];
      assert brought[j..][1..] == brought[j + 1..];
      Assoc(hs, add, R.UserOnly(brought[j + 1..]));
      hs := hs + add;
      j := j + 1;
    }
    assert hs + [] == hs;
  }

  method AddHandlers(ps: seq<Phase>, hs: seq<Handler>) returns (ok: bool)
    requires NoRepeats(ps)
    modifies ps
    ensures (ok, States(ps)) == R.AddAll(old(States(ps)), hs)
  {
    var j := 0;
    while j < |hs|
      invariant j <= |hs| && R.AddAll(States(ps), hs[j..]) == R.AddAll(old(States(ps)), hs)
    {
      assert hs[j..][1..] == hs[j + 1..];
      ok := HolderAddHandler(ps, hs[j]);
      if !ok { return; }
      j := j + 1;
    }
    ok := true;
  }

  method GatherHandlers(ms: seq<R.Module>, t: nat) returns (hs: seq<Handler>)
    requires t < R.FLOW_TYPES && forall i :: 0 <= i < |ms| ==> |ms[i].flows| == R.FLOW_TYPES
    ensures hs == R.Gather(ms, t)
  {
    hs := [];
    var i := 0;
    while i < |ms|
      invariant i <= |ms| && hs + R.Gather(ms[i..], t) == R.Gather(ms, t)
    {
      assert ms[i..][1..] == ms[i + 1..];
      Assoc(hs, if ms[i].flows[t].Some? then R.UserOnly(ms[i].flows[t].value) else [], R.Gather(ms[i + 1..], t));
      hs := AddToHandlerList(hs, ms[i], t);
      i := i + 1;
    }
    assert hs + [] == hs;
  }

  /** build_execution_chains_for_op for flow t, with the configuration's modules followed by
      the service's. */
  method BuildChain(flow: Option<seq<Phase>>, ms: seq<R.Module>, t: nat) returns (ok: bool)
    requires t < R.FLOW_TYPES && forall i :: 0 <= i < |ms| ==> |ms[i].flows| == R.FLOW_TYPES
    requires flow.Some? ==> NoRepeats(flow.value)
    modifies if flow.Some? then flow.value else []
    ensures (ok, Flow(flow)) == R.BuildFlow(old(Flow(flow)), ms, t)
  {
    var hs := GatherHandlers(ms, t);
    if flow.None? || hs == [] { return true; }
    ok := AddHandlers(flow.value, hs);
  }

  /** axis2_op_add_to_engaged_module_list for each of the modules. */
  method MarkEngaged(op: Operation, ms: seq<R.Module>)
    modifies op`engaged
    ensures op.engaged == R.AddNames(old(op.engaged), ms)
    ensures FlowStates(op.flows) == old(FlowStates(op.flows))
  {
    var i := 0;
    while i < |ms|
      invariant i <= |ms| && R.AddNames(op.engaged, ms[i..]) == R.AddNames(old(op.engaged), ms)
      invariant FlowStates(op.flows) == old(FlowStates(op.flows))
    {
      assert ms[i..][1..] == ms[i + 1..];
      if ms[i].name !in op.engaged { SetEngaged(op, op.engaged + [ms[i].name], []); }
      i := i + 1;
    }
  }

  /** build_execution_chains_for_op: the modules are marked engaged, whatever becomes of their
      handlers, and one flow is given them. */
  method BuildForOp(op: Operation, ms: seq<R.Module>, t: nat) returns (ok: bool)
    requires |op.flows| == R.FLOW_TYPES && t < R.FLOW_TYPES && Separate(op.flows, [])
    requires forall i :: 0 <= i < |ms| ==> |ms[i].flows| == R.FLOW_TYPES
    modifies op`engaged, PhasesOf(op.flows)
    ensures op.engaged == R.AddNames(old(op.engaged), ms)
    ensures var (ok1, f) := R.BuildFlow(old(FlowStates(op.flows))[t], ms, t);
      ok == ok1 && FlowStates(op.flows) == old(FlowStates(op.flows))[t := f]
  {
    MarkEngaged(op, ms);
    ok := BuildChainIn(op.flows, ms, t);
  }

  method BuildChainIn(flows: seq<Option<seq<Phase>>>, ms: seq<R.Module>, t: nat) returns (ok: bool)
    requires |flows| == R.FLOW_TYPES && t < R.FLOW_TYPES && Separate(flows, [])
    requires forall i :: 0 <= i < |ms| ==> |ms[i].flows| == R.FLOW_TYPES
    modifies PhasesOf(flows)
    ensures var (ok1, f) := R.BuildFlow(old(FlowStates(flows))[t], ms, t);
      ok == ok1 && FlowStates(flows) == old(FlowStates(flows))[t := f]
  {
    ghost var before := FlowStates(flows);
    if flows[t].Some? { FlowInside(flows, t); }
    ok := BuildChain(flows[t], ms, t);
    if flows[t].Some? {
      FlowUpdated(flows, t, before);
    } else {
      assert FlowStates(flows) == before[t := None];
    }
  }
}
