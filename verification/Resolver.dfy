/** The phase resolver on values: engaging a module to operations, taking it away again,
    and building the chains of a service that arrives late. */
module Resolver {
  import opened PhaseTypes
  import opened Placement

  type Phases = seq<PhaseState>

  /** In, out, fault-in and fault-out flow; an operation or a module may lack any of them. */
  const FLOW_TYPES := 4

  /** A module description: per flow type, the handlers it brings. */
  datatype Module = Module(name: string, flows: seq<Option<seq<Handler>>>)

  /** An operation: its own flows and the names of the modules engaged to it. */
  datatype Op = Op(flows: seq<Option<Phases>>, engaged: seq<string>)

  predicate IsSystem(phase: string) {
    phase == "Transport" || phase == "PreDispatch" || phase == "Dispatch" || phase == "PostDispatch"
  }

  // ----- the phase holder -----------------------------------------------------------

  /** The first phase of that name, or the number of phases. */
  function Find(ps: Phases, n: string): (i: nat)
    ensures i <= |ps|
    ensures i < |ps| ==> ps[i].name == n
    ensures forall j :: 0 <= j < i ==> ps[j].name != n
  {
    if ps == [] || ps[0].name == n then 0 else 1 + Find(ps[1..], n)
  }

  function HolderAdd(ps: Phases, h: Handler): (r: (bool, Phases))
    ensures |r.1| == |ps|
  {
    var i := Find(ps, h.rule.phase);
    if i == |ps| then (false, ps)
    else (AddDesc(ps[i], h).0, ps[i := AddDesc(ps[i], h).1])
  }

  function HolderRemove(ps: Phases, h: Handler): (r: (bool, Phases))
    ensures |r.1| == |ps|
  {
    var i := Find(ps, h.rule.phase);
    if i == |ps| then (false, ps) else (true, ps[i := RemoveDesc(ps[i], h)])
  }

  function AddAll(ps: Phases, hs: seq<Handler>): (r: (bool, Phases))
    ensures |r.1| == |ps|
    decreases |hs|
  {
    if hs == [] then (true, ps)
    else
      var (ok, qs) := HolderAdd(ps, hs[0]);
      if !ok then (false, qs) else AddAll(qs, hs[1..])
  }

  function RemoveAll(ps: Phases, hs: seq<Handler>): (r: (bool, Phases))
    ensures |r.1| == |ps|
    decreases |hs|
  {
    if hs == [] then (true, ps)
    else
      var (ok, qs) := HolderRemove(ps, hs[0]);
      if !ok then (false, qs) else RemoveAll(qs, hs[1..])
  }

  /** The handlers of a flow meant for the operation's own phases. */
  function UserOnly(hs: seq<Handler>): seq<Handler> {
    if hs == [] then []
    else (if IsSystem(hs[0].rule.phase) then [] else [hs[0]]) + UserOnly(hs[1..])
  }

  /** Those meant for the configuration's phases. */
  function SystemOnly(hs: seq<Handler>): seq<Handler> {
    if hs == [] then []
    else (if IsSystem(hs[0].rule.phase) then [hs[0]] else []) + SystemOnly(hs[1..])
  }

  // ----- one operation --------------------------------------------------------------

  /** One flow of engage_module_to_op: handlers of system phases go to the configuration's
      in phases, whatever the flow; the first failure stops everything. */
  function EngageHandlers(ps: Phases, sys: Phases, hs: seq<Handler>): (r: (bool, Phases, Phases))
    ensures |r.1| == |ps| && |r.2| == |sys|
    decreases |hs|
  {
    if hs == [] then (true, ps, sys)
    else if IsSystem(hs[0].rule.phase) then
      var (ok, s) := HolderAdd(sys, hs[0]);
      if !ok then (false, ps, s) else EngageHandlers(ps, s, hs[1..])
    else
      var (ok, q) := HolderAdd(ps, hs[0]);
      if !ok then (false, q, sys) else EngageHandlers(q, sys, hs[1..])
  }

  function DisengageHandlers(ps: Phases, sys: Phases, hs: seq<Handler>): (r: (bool, Phases, Phases))
    ensures |r.1| == |ps| && |r.2| == |sys|
    decreases |hs|
  {
    if hs == [] then (true, ps, sys)
    else if IsSystem(hs[0].rule.phase) then
      var (ok, s) := HolderRemove(sys, hs[0]);
      if !ok then (false, ps, s) else DisengageHandlers(ps, s, hs[1..])
    else
      var (ok, q) := HolderRemove(ps, hs[0]);
      if !ok then (false, q, sys) else DisengageHandlers(q, sys, hs[1..])
  }

  function EngageFlows(flows: seq<Option<Phases>>, sys: Phases, m: Module, t: nat)
      : (r: (bool, seq<Option<Phases>>, Phases))
    requires |flows| == |m.flows| == FLOW_TYPES && t <= FLOW_TYPES
    ensures |r.1| == FLOW_TYPES && |r.2| == |sys|
    decreases FLOW_TYPES - t
  {
    if t == FLOW_TYPES then (true, flows, sys)
    else if flows[t].None? || m.flows[t].None? then EngageFlows(flows, sys, m, t + 1)
    else
      var (ok, ps, s) := EngageHandlers(flows[t].value, sys, m.flows[t].value);
      if !ok then (false, flows[t := Some(ps)], s) else EngageFlows(flows[t := Some(ps)], s, m, t + 1)
  }

  function DisengageFlows(flows: seq<Option<Phases>>, sys: Phases, m: Module, t: nat)
      : (r: (bool, seq<Option<Phases>>, Phases))
    requires |flows| == |m.flows| == FLOW_TYPES && t <= FLOW_TYPES
    ensures |r.1| == FLOW_TYPES && |r.2| == |sys|
    decreases FLOW_TYPES - t
  {
    if t == FLOW_TYPES then (true, flows, sys)
    else if flows[t].None? || m.flows[t].None? then DisengageFlows(flows, sys, m, t + 1)
    else
      var (ok, ps, s) := DisengageHandlers(flows[t].value, sys, m.flows[t].value);
      if !ok then (false, flows[t := Some(ps)], s) else DisengageFlows(flows[t := Some(ps)], s, m, t + 1)
  }

  function AddName(names: seq<string>, n: string): seq<string> {
    if n in names then names else names + [n]
  }

  /** Drops the first occurrence of a name. */
  function DropName(names: seq<string>, n: string): seq<string> {
    if names == [] then [] else if names[0] == n then names[1..] else [names[0]] + DropName(names[1..], n)
  }

  predicate WellFormed(op: Op, m: Module) { |op.flows| == |m.flows| == FLOW_TYPES }

  predicate AllWellFormed(ops: seq<Op>, m: Module) {
    forall i :: 0 <= i < |ops| ==> WellFormed(ops[i], m)
  }

  // ----- all operations of a service ------------------------------------------------

  /** engage_module_to_svc, over the operations in the order they are visited. */
  function EngageSvc(ops: seq<Op>, sys: Phases, m: Module): (r: (bool, seq<Op>, Phases))
    requires AllWellFormed(ops, m)
    ensures |r.1| == |ops|
    decreases |ops|
  {
    if ops == [] then (true, [], sys)
    else if m.name in ops[0].engaged then
      var (ok, rest, s) := EngageSvc(ops[1..], sys, m);
      (ok, [ops[0]] + rest, s)
    else
      assert WellFormed(ops[0], m);
      var (ok, flows, s) := EngageFlows(ops[0].flows, sys, m, 0);
      if !ok then (false, [ops[0].(flows := flows)] + ops[1..], s)
      else
        var (ok1, rest, s1) := EngageSvc(ops[1..], s, m);
        (ok1, [Op(flows, AddName(ops[0].engaged, m.name))] + rest, s1)
  }

  /** disengage_module_from_svc; its status is left out, being that of the last operation it changed. */
  function DisengageSvc(ops: seq<Op>, sys: Phases, m: Module): (r: (bool, seq<Op>, Phases))
    requires AllWellFormed(ops, m)
    ensures |r.1| == |ops|
    decreases |ops|
  {
    if ops == [] then (true, [], sys)
    else if m.name !in ops[0].engaged then
      var (ok, rest, s) := DisengageSvc(ops[1..], sys, m);
      (ok, [ops[0]] + rest, s)
    else
      assert WellFormed(ops[0], m);
      var (ok, flows, s) := DisengageFlows(ops[0].flows, sys, m, 0);
      if !ok then (false, [ops[0].(flows := flows)] + ops[1..], s)
      else
        var (ok1, rest, s1) := DisengageSvc(ops[1..], s, m);
        (ok1, [Op(flows, DropName(ops[0].engaged, m.name))] + rest, s1)
  }

  /** The flows of one operation in add_module_handlers_to_user_defined_phases. */
  function AddUserFlows(flows: seq<Option<Phases>>, m: Module, t: nat): (r: (bool, seq<Option<Phases>>))
    requires |flows| == |m.flows| == FLOW_TYPES && t <= FLOW_TYPES
    ensures |r.1| == FLOW_TYPES
    decreases FLOW_TYPES - t
  {
    if t == FLOW_TYPES then (true, flows)
    else if flows[t].None? || m.flows[t].None? then AddUserFlows(flows, m, t + 1)
    else
      var (ok, ps) := AddAll(flows[t].value, UserOnly(m.flows[t].value));
      if !ok then (false, flows[t := Some(ps)]) else AddUserFlows(flows[t := Some(ps)], m, t + 1)
  }

  /** add_module_handlers_to_user_defined_phases: `engaged` is set when an operation already
      has the module and is never cleared for the operations after it. */
  function EngageGlobal(ops: seq<Op>, engaged: bool, m: Module): (r: (bool, seq<Op>))
    requires AllWellFormed(ops, m)
    ensures |r.1| == |ops|
    decreases |ops|
  {
    if ops == [] then (true, [])
    else if engaged || m.name in ops[0].engaged then
      var (ok, rest) := EngageGlobal(ops[1..], true, m);
      (ok, [ops[0]] + rest)
    else
      assert WellFormed(ops[0], m);
      var (ok, flows) := AddUserFlows(ops[0].flows, m, 0);
      if !ok then (false, [ops[0].(flows := flows)] + ops[1..])
      else
        var (ok1, rest) := EngageGlobal(ops[1..], false, m);
        (ok1, [Op(flows, AddName(ops[0].engaged, m.name))] + rest)
  }

  // ----- the whole configuration ----------------------------------------------------

  /** add_module_handlers_to_system_defined_phases: the module's system handlers of each flow
      go to the configuration's own phases for that flow, which may have no list at all. */
  function AddSystemFlows(conf: seq<Option<Phases>>, m: Module, t: nat): (r: (bool, seq<Option<Phases>>))
    requires |conf| == |m.flows| == FLOW_TYPES && t <= FLOW_TYPES
    ensures |r.1| == FLOW_TYPES
    decreases FLOW_TYPES - t
  {
    if t == FLOW_TYPES then (true, conf)
    else if conf[t].None? || m.flows[t].None? then AddSystemFlows(conf, m, t + 1)
    else
      var (ok, ps) := AddAll(conf[t].value, SystemOnly(m.flows[t].value));
      if !ok then (false, conf[t := Some(ps)]) else AddSystemFlows(conf[t := Some(ps)], m, t + 1)
  }

  predicate ServicesWellFormed(svcs: seq<seq<Op>>, m: Module) {
    |m.flows| == FLOW_TYPES && forall s :: 0 <= s < |svcs| ==> AllWellFormed(svcs[s], m)
  }

  /** The user-phase pass over the services in the order they are visited. */
  function EngageGlobalSvcs(svcs: seq<seq<Op>>, m: Module): (r: (bool, seq<seq<Op>>))
    requires ServicesWellFormed(svcs, m)
    ensures |r.1| == |svcs|
    decreases |svcs|
  {
    if svcs == [] then (true, [])
    else
      assert AllWellFormed(svcs[0], m);
      var (ok, ops) := EngageGlobal(svcs[0], false, m);
      if !ok then (false, [ops] + svcs[1..])
      else
        var (ok1, rest) := EngageGlobalSvcs(svcs[1..], m);
        (ok1, [ops] + rest)
  }

  /** engage_module_globally. */
  function EngageConf(conf: seq<Option<Phases>>, svcs: seq<seq<Op>>, m: Module)
      : (r: (bool, seq<Option<Phases>>, seq<seq<Op>>))
    requires |conf| == FLOW_TYPES && ServicesWellFormed(svcs, m)
    ensures |r.2| == |svcs|
  {
    var (ok, conf1) := AddSystemFlows(conf, m, 0);
    if !ok then (false, conf1, svcs)
    else
      var (ok1, svcs1) := EngageGlobalSvcs(svcs, m);
      (ok1, conf1, svcs1)
  }

  /** engage_module_to_svc for one service after the other. */
  function EngageSvcs(svcs: seq<seq<Op>>, sys: Phases, m: Module): (r: (bool, seq<seq<Op>>, Phases))
    requires ServicesWellFormed(svcs, m)
    ensures |r.1| == |svcs|
    decreases |svcs|
  {
    if svcs == [] then (true, [], sys)
    else
      assert AllWellFormed(svcs[0], m);
      var (ok, ops, s) := EngageSvc(svcs[0], sys, m);
      if !ok then (false, [ops] + svcs[1..], s)
      else
        var (ok1, rest, s1) := EngageSvcs(svcs[1..], s, m);
        (ok1, [ops] + rest, s1)
  }

  // ----- a service that arrives late ------------------------------------------------

  /** The user-phase handlers of the modules for one flow, module by module. */
  function Gather(ms: seq<Module>, t: nat): seq<Handler>
    requires t < FLOW_TYPES && forall i :: 0 <= i < |ms| ==> |ms[i].flows| == FLOW_TYPES
  {
    if ms == [] then []
    else (if ms[0].flows[t].Some? then UserOnly(ms[0].flows[t].value) else []) + Gather(ms[1..], t)
  }

  /** The engaged modules of an operation after the chains were built for these. */
  function AddNames(names: seq<string>, ms: seq<Module>): seq<string>
    decreases |ms|
  {
    if ms == [] then names else AddNames(AddName(names, ms[0].name), ms[1..])
  }

  /** build_execution_chains_for_op for one flow. */
  function BuildFlow(flow: Option<Phases>, ms: seq<Module>, t: nat): (bool, Option<Phases>)
    requires t < FLOW_TYPES && forall i :: 0 <= i < |ms| ==> |ms[i].flows| == FLOW_TYPES
  {
    var hs := Gather(ms, t);
    if flow.None? || hs == [] then (true, flow)
    else
      var (ok, ps) := AddAll(flow.value, hs);
      (ok, Some(ps))
  }
}
