/** A deployed engine: the phases the configuration is made with, operations as built from the
    phase lists of the configuration file, and everything that engaging and disengaging modules
    can do to them. */
module Deployed {
  import opened PhaseTypes
  import opened PhaseObjects
  import opened Engine
  import opened EngineObjects
  import opened EngineRuns
  import opened EngineScripts
  import opened EngineFlows
  import P = Placement
  import opened Resolver
  import opened ResolverObjects
  import opened LateServiceLaws

  // ----- what a history of engagements does to one phase ----------------------------

  /** What module handlers may be: of these names, and if `plain`, none marked first or last. */
  predicate Brings(hs: seq<Handler>, names: set<string>, plain: bool) {
    forall h :: h in hs ==> h.name in names && (plain ==> !h.rule.first && !h.rule.last)
  }

  predicate BringsOnly(m: Module, names: set<string>, plain: bool) {
    && |m.flows| == FLOW_TYPES
    && forall t :: 0 <= t < FLOW_TYPES && m.flows[t].Some? ==> Brings(m.flows[t].value, names, plain)
  }

  /** q is p later: the same name, all its handlers of other names, and still no end slots if
      it had none and `plain`. */
  predicate Later(p: PhaseState, q: PhaseState, names: set<string>, plain: bool) {
    && q.name == p.name
    && (plain && Plain(p) ==> Plain(q))
    && forall h :: h in p.handlers && h.name !in names ==> h in q.handlers
  }

  predicate AllLater(ps: Phases, qs: Phases, names: set<string>, plain: bool) {
    |ps| == |qs| && forall i :: 0 <= i < |ps| ==> Later(ps[i], qs[i], names, plain)
  }

  lemma AddIsLater(p: PhaseState, h: Handler, names: set<string>, plain: bool)
    requires Brings([h], names, plain)
    ensures Later(p, P.AddDesc(p, h).1, names, plain)
  {
    assert h in [h];
  }

  lemma RemoveIsLater(p: PhaseState, h: Handler, names: set<string>, plain: bool)
    requires Brings([h], names, plain)
    ensures Later(p, P.RemoveDesc(p, h), names, plain)
  {
    assert h in [h];
    var i := P.IndexOf(p.handlers, h.name);
    if i < |p.handlers| { assert p.handlers == p.handlers[..i] + [p.handlers[i]] + p.handlers[i + 1..]; }
  }

  lemma AddedIsLater(ps: Phases, h: Handler, names: set<string>, plain: bool)
    requires Brings([h], names, plain)
    ensures AllLater(ps, HolderAdd(ps, h).1, names, plain) && AllLater(ps, HolderRemove(ps, h).1, names, plain)
  {
    var i := Find(ps, h.rule.phase);
    if i < |ps| {
      AddIsLater(ps[i], h, names, plain);
      RemoveIsLater(ps[i], h, names, plain);
    }
  }

  lemma {:induction false} AddAllIsLater(ps: Phases, hs: seq<Handler>, names: set<string>, plain: bool)
    requires Brings(hs, names, plain)
    ensures AllLater(ps, AddAll(ps, hs).1, names, plain)
    decreases |hs|
  {
    if hs != [] {
      AddedIsLater(ps, hs[0], names, plain);
      if HolderAdd(ps, hs[0]).0 { AddAllIsLater(HolderAdd(ps, hs[0]).1, hs[1..], names, plain); }
    }
  }

  lemma {:induction false} EngagedIsLater(ps: Phases, sys: Phases, hs: seq<Handler>, names: set<string>, plain: bool)
    requires Brings(hs, names, plain)
    ensures var r := EngageHandlers(ps, sys, hs); AllLater(ps, r.1, names, plain) && AllLater(sys, r.2, names, plain)
    decreases |hs|
  {
    if hs != [] {
      AddedIsLater(ps, hs[0], names, plain);
      AddedIsLater(sys, hs[0], names, plain);
      if IsSystem(hs[0].rule.phase) {
        if HolderAdd(sys, hs[0]).0 { EngagedIsLater(ps, HolderAdd(sys, hs[0]).1, hs[1..], names, plain); }
      } else {
        if HolderAdd(ps, hs[0]).0 { EngagedIsLater(HolderAdd(ps, hs[0]).1, sys, hs[1..], names, plain); }
      }
    }
  }

  lemma {:induction false} DisengagedIsLater(ps: Phases, sys: Phases, hs: seq<Handler>, names: set<string>, plain: bool)
    requires Brings(hs, names, plain)
    ensures var r := DisengageHandlers(ps, sys, hs); AllLater(ps, r.1, names, plain) && AllLater(sys, r.2, names, plain)
    decreases |hs|
  {
    if hs != [] {
      AddedIsLater(ps, hs[0], names, plain);
      AddedIsLater(sys, hs[0], names, plain);
      if IsSystem(hs[0].rule.phase) {
        if HolderRemove(sys, hs[0]).0 { DisengagedIsLater(ps, HolderRemove(sys, hs[0]).1, hs[1..], names, plain); }
      } else {
        if HolderRemove(ps, hs[0]).0 { DisengagedIsLater(HolderRemove(ps, hs[0]).1, sys, hs[1..], names, plain); }
      }
    }
  }

  // ----- flows, operations, services ------------------------------------------------

  predicate FlowsLater(a: seq<Option<Phases>>, b: seq<Option<Phases>>, names: set<string>, plain: bool) {
    && |a| == |b|
    && forall t :: 0 <= t < |a| ==> a[t].Some? == b[t].Some? && (a[t].Some? ==> AllLater(a[t].value, b[t].value, names, plain))
  }

  lemma {:induction false} EngageFlowsLater(flows: seq<Option<Phases>>, sys: Phases, m: Module, t: nat, names: set<string>, plain: bool)
    requires |flows| == FLOW_TYPES && t <= FLOW_TYPES && BringsOnly(m, names, plain)
    ensures var r := EngageFlows(flows, sys, m, t); FlowsLater(flows, r.1, names, plain) && AllLater(sys, r.2, names, plain)
    decreases FLOW_TYPES - t
  {
    if t < FLOW_TYPES {
      if flows[t].None? || m.flows[t].None? {
        EngageFlowsLater(flows, sys, m, t + 1, names, plain);
      } else {
        var (ok, ps, s) := EngageHandlers(flows[t].value, sys, m.flows[t].value);
        EngagedIsLater(flows[t].value, sys, m.flows[t].value, names, plain);
        if ok {
          EngageFlowsLater(flows[t := Some(ps)], s, m, t + 1, names, plain);
          FlowsLaterStill(flows, flows[t := Some(ps)], EngageFlows(flows[t := Some(ps)], s, m, t + 1).1, names, plain);
        }
      }
    }
  }

  lemma FlowsLaterStill(a: seq<Option<Phases>>, b: seq<Option<Phases>>, c: seq<Option<Phases>>, names: set<string>, plain: bool)
    requires FlowsLater(a, b, names, plain) && FlowsLater(b, c, names, plain)
    ensures FlowsLater(a, c, names, plain)
  {
  }

  lemma {:induction false} DisengageFlowsLater(flows: seq<Option<Phases>>, sys: Phases, m: Module, t: nat, names: set<string>, plain: bool)
    requires |flows| == FLOW_TYPES && t <= FLOW_TYPES && BringsOnly(m, names, plain)
    ensures var r := DisengageFlows(flows, sys, m, t); FlowsLater(flows, r.1, names, plain) && AllLater(sys, r.2, names, plain)
    decreases FLOW_TYPES - t
  {
    if t < FLOW_TYPES {
      if flows[t].None? || m.flows[t].None? {
        DisengageFlowsLater(flows, sys, m, t + 1, names, plain);
      } else {
        var (ok, ps, s) := DisengageHandlers(flows[t].value, sys, m.flows[t].value);
        DisengagedIsLater(flows[t].value, sys, m.flows[t].value, names, plain);
        if ok {
          DisengageFlowsLater(flows[t := Some(ps)], s, m, t + 1, names, plain);
          FlowsLaterStill(flows, flows[t := Some(ps)], DisengageFlows(flows[t := Some(ps)], s, m, t + 1).1, names, plain);
        }
      }
    }
  }

  lemma {:induction false} PartBrings(hs: seq<Handler>, names: set<string>, plain: bool)
    requires Brings(hs, names, plain)
    ensures Brings(UserOnly(hs), names, plain) && Brings(SystemOnly(hs), names, plain)
  {
    if hs != [] { PartBrings(hs[1..], names, plain); }
  }

  lemma {:induction false} UserFlowsLater(flows: seq<Option<Phases>>, m: Module, t: nat, names: set<string>, plain: bool)
    requires |flows| == FLOW_TYPES && t <= FLOW_TYPES && BringsOnly(m, names, plain)
    ensures FlowsLater(flows, AddUserFlows(flows, m, t).1, names, plain)
    decreases FLOW_TYPES - t
  {
    if t < FLOW_TYPES {
      if flows[t].None? || m.flows[t].None? {
        UserFlowsLater(flows, m, t + 1, names, plain);
      } else {
        var hs := UserOnly(m.flows[t].value);
        var next := flows[t := Some(AddAll(flows[t].value, hs).1)];
        PartBrings(m.flows[t].value, names, plain);
        AddAllIsLater(flows[t].value, hs, names, plain);
        if AddAll(flows[t].value, hs).0 {
          UserFlowsLater(next, m, t + 1, names, plain);
          FlowsLaterStill(flows, next, AddUserFlows(next, m, t + 1).1, names, plain);
        }
      }
    }
  }

  lemma {:induction false} SystemFlowsLater(conf: seq<Option<Phases>>, m: Module, t: nat, names: set<string>, plain: bool)
    requires |conf| == FLOW_TYPES && t <= FLOW_TYPES && BringsOnly(m, names, plain)
    ensures FlowsLater(conf, AddSystemFlows(conf, m, t).1, names, plain)
    decreases FLOW_TYPES - t
  {
    if t < FLOW_TYPES {
      if conf[t].None? || m.flows[t].None? {
        SystemFlowsLater(conf, m, t + 1, names, plain);
      } else {
        var hs := SystemOnly(m.flows[t].value);
        var next := conf[t := Some(AddAll(conf[t].value, hs).1)];
        PartBrings(m.flows[t].value, names, plain);
        AddAllIsLater(conf[t].value, hs, names, plain);
        if AddAll(conf[t].value, hs).0 {
          SystemFlowsLater(next, m, t + 1, names, plain);
          FlowsLaterStill(conf, next, AddSystemFlows(next, m, t + 1).1, names, plain);
        }
      }
    }
  }

  predicate OpsLater(a: seq<Op>, b: seq<Op>, names: set<string>, plain: bool) {
    |a| == |b| && forall i :: 0 <= i < |a| ==> FlowsLater(a[i].flows, b[i].flows, names, plain)
  }

  lemma OneMoreOp(head: Op, now: Op, a: seq<Op>, b: seq<Op>, names: set<string>, plain: bool)
    requires FlowsLater(head.flows, now.flows, names, plain) && OpsLater(a, b, names, plain)
    ensures OpsLater([head] + a, [now] + b, names, plain)
  {
  }

  lemma {:induction false} EngageSvcLater(ops: seq<Op>, sys: Phases, m: Module, names: set<string>, plain: bool)
    requires AllWellFormed(ops, m) && BringsOnly(m, names, plain)
    ensures var r := EngageSvc(ops, sys, m); OpsLater(ops, r.1, names, plain) && AllLater(sys, r.2, names, plain)
    decreases |ops|
  {
    if ops != [] {
      var op, rest := ops[0], ops[1..];
      assert WellFormed(op, m) && ops == [op] + rest;
      if m.name in op.engaged {
        EngageSvcLater(rest, sys, m, names, plain);
        OneMoreOp(op, op, rest, EngageSvc(rest, sys, m).1, names, plain);
      } else {
        var (ok, flows, s) := EngageFlows(op.flows, sys, m, 0);
        EngageFlowsLater(op.flows, sys, m, 0, names, plain);
        if ok {
          EngageSvcLater(rest, s, m, names, plain);
          OneMoreOp(op, Op(flows, AddName(op.engaged, m.name)), rest, EngageSvc(rest, s, m).1, names, plain);
        } else {
          OneMoreOp(op, op.(flows := flows), rest, rest, names, plain);
        }
      }
    }
  }

  lemma {:induction false} DisengageSvcLater(ops: seq<Op>, sys: Phases, m: Module, names: set<string>, plain: bool)
    requires AllWellFormed(ops, m) && BringsOnly(m, names, plain)
    ensures var r := DisengageSvc(ops, sys, m); OpsLater(ops, r.1, names, plain) && AllLater(sys, r.2, names, plain)
    decreases |ops|
  {
    if ops != [] {
      var op, rest := ops[0], ops[1..];
      assert WellFormed(op, m) && ops == [op] + rest;
      if m.name !in op.engaged {
        DisengageSvcLater(rest, sys, m, names, plain);
        OneMoreOp(op, op, rest, DisengageSvc(rest, sys, m).1, names, plain);
      } else {
        var (ok, flows, s) := DisengageFlows(op.flows, sys, m, 0);
        DisengageFlowsLater(op.flows, sys, m, 0, names, plain);
        if ok {
          DisengageSvcLater(rest, s, m, names, plain);
          OneMoreOp(op, Op(flows, DropName(op.engaged, m.name)), rest, DisengageSvc(rest, s, m).1, names, plain);
        } else {
          OneMoreOp(op, op.(flows := flows), rest, rest, names, plain);
        }
      }
    }
  }

  lemma {:induction false} EngageGlobalLater(ops: seq<Op>, engaged: bool, m: Module, names: set<string>, plain: bool)
    requires AllWellFormed(ops, m) && BringsOnly(m, names, plain)
    ensures OpsLater(ops, EngageGlobal(ops, engaged, m).1, names, plain)
    decreases |ops|
  {
    if ops != [] {
      var op, rest := ops[0], ops[1..];
      assert WellFormed(op, m) && ops == [op] + rest;
      if engaged || m.name in op.engaged {
        EngageGlobalLater(rest, true, m, names, plain);
        OneMoreOp(op, op, rest, EngageGlobal(rest, true, m).1, names, plain);
      } else {
        var (ok, flows) := AddUserFlows(op.flows, m, 0);
        UserFlowsLater(op.flows, m, 0, names, plain);
        if ok {
          EngageGlobalLater(rest, false, m, names, plain);
          OneMoreOp(op, Op(flows, AddName(op.engaged, m.name)), rest, EngageGlobal(rest, false, m).1, names, plain);
        } else {
          OneMoreOp(op, op.(flows := flows), rest, rest, names, plain);
        }
      }
    }
  }

  predicate SvcsLater(a: seq<seq<Op>>, b: seq<seq<Op>>, names: set<string>, plain: bool) {
    |a| == |b| && forall k :: 0 <= k < |a| ==> OpsLater(a[k], b[k], names, plain)
  }

  lemma {:induction false} GlobalSvcsLater(svcs: seq<seq<Op>>, m: Module, names: set<string>, plain: bool)
    requires ServicesWellFormed(svcs, m) && BringsOnly(m, names, plain)
    ensures SvcsLater(svcs, EngageGlobalSvcs(svcs, m).1, names, plain)
    decreases |svcs|
  {
    if svcs != [] {
      assert AllWellFormed(svcs[0], m);
      EngageGlobalLater(svcs[0], false, m, names, plain);
      if EngageGlobal(svcs[0], false, m).0 { GlobalSvcsLater(svcs[1..], m, names, plain); }
    }
  }

  lemma {:induction false} GatheredBrings(ms: seq<Module>, t: nat, names: set<string>, plain: bool)
    requires t < FLOW_TYPES && FullModules(ms) && forall i :: 0 <= i < |ms| ==> BringsOnly(ms[i], names, plain)
    ensures Brings(Gather(ms, t), names, plain)
  {
    if ms != [] {
      assert BringsOnly(ms[0], names, plain);
      if ms[0].flows[t].Some? { PartBrings(ms[0].flows[t].value, names, plain); }
      GatheredBrings(ms[1..], t, names, plain);
    }
  }

  // ----- every history of engagements -----------------------------------------------

  /** The configuration's lists of phases, one for each flow, and the services' operations. */
  datatype Site = Site(conf: seq<Option<Phases>>, svcs: seq<seq<Op>>)

  /** Engage a module to service k; take it off service k; engage it globally; build the chain
      of flow t of operation i of service k for some modules. Any of these may fail half-way,
      and what it leaves then is where the next one starts. */
  datatype Step =
    | ToService(k: nat, m: Module)
    | OffService(k: nat, m: Module)
    | Globally(m: Module)
    | Chains(k: nat, i: nat, t: nat, ms: seq<Module>)

  predicate Full(ops: seq<Op>) {
    forall i :: 0 <= i < |ops| ==> |ops[i].flows| == FLOW_TYPES
  }

  predicate Whole(s: Site) {
    && |s.conf| == FLOW_TYPES && s.conf[0].Some?
    && forall k :: 0 <= k < |s.svcs| ==> Full(s.svcs[k])
  }

  function ModulesOf(st: Step): seq<Module> {
    if st.Chains? then st.ms else [st.m]
  }

  /** What a step for something that is there leaves; any other leaves all as it is. */
  function Apply(s: Site, st: Step): Site
    requires Whole(s) && FullModules(ModulesOf(st))
  {
    match st
    case ToService(k, m) =>
      if k >= |s.svcs| then s
      else
        assert m == ModulesOf(st)[0] && Full(s.svcs[k]);
        var (ok, ops, sys) := EngageSvc(s.svcs[k], s.conf[0].value, m);
        Site(s.conf[0 := Some(sys)], s.svcs[k := ops])
    case OffService(k, m) =>
      if k >= |s.svcs| then s
      else
        assert m == ModulesOf(st)[0] && Full(s.svcs[k]);
        var (ok, ops, sys) := DisengageSvc(s.svcs[k], s.conf[0].value, m);
        Site(s.conf[0 := Some(sys)], s.svcs[k := ops])
    case Globally(m) =>
      assert m == ModulesOf(st)[0] && ServicesWellFormed(s.svcs, m);
      var (ok, conf, svcs) := EngageConf(s.conf, s.svcs, m);
      Site(conf, svcs)
    case Chains(k, i, t, ms) =>
      if k >= |s.svcs| || i >= |s.svcs[k]| || t >= FLOW_TYPES then s
      else
        assert Full(s.svcs[k]);
        var op := s.svcs[k][i];
        var now := Op(op.flows[t := BuildFlow(op.flows[t], ms, t).1], AddNames(op.engaged, ms));
        s.(svcs := s.svcs[k := s.svcs[k][i := now]])
  }

  predicate StepBrings(st: Step, names: set<string>, plain: bool) {
    FullModules(ModulesOf(st)) && forall j :: 0 <= j < |ModulesOf(st)| ==> BringsOnly(ModulesOf(st)[j], names, plain)
  }

  predicate SiteLater(a: Site, b: Site, names: set<string>, plain: bool) {
    FlowsLater(a.conf, b.conf, names, plain) && SvcsLater(a.svcs, b.svcs, names, plain)
  }

  lemma LaterIsWhole(a: Site, b: Site, names: set<string>, plain: bool)
    requires Whole(a) && SiteLater(a, b, names, plain)
    ensures Whole(b)
  {
    forall k | 0 <= k < |b.svcs| ensures Full(b.svcs[k]) {
      assert OpsLater(a.svcs[k], b.svcs[k], names, plain) && Full(a.svcs[k]);
      forall i | 0 <= i < |b.svcs[k]| ensures |b.svcs[k][i].flows| == FLOW_TYPES {
        assert FlowsLater(a.svcs[k][i].flows, b.svcs[k][i].flows, names, plain);
      }
    }
  }

  lemma SiteLaterStill(a: Site, b: Site, c: Site, names: set<string>, plain: bool)
    requires SiteLater(a, b, names, plain) && SiteLater(b, c, names, plain)
    ensures SiteLater(a, c, names, plain)
  {
    FlowsLaterStill(a.conf, b.conf, c.conf, names, plain);
    forall k | 0 <= k < |a.svcs| ensures OpsLater(a.svcs[k], c.svcs[k], names, plain) {
      assert OpsLater(a.svcs[k], b.svcs[k], names, plain) && OpsLater(b.svcs[k], c.svcs[k], names, plain);
      forall i | 0 <= i < |a.svcs[k]| ensures FlowsLater(a.svcs[k][i].flows, c.svcs[k][i].flows, names, plain) {
        FlowsLaterStill(a.svcs[k][i].flows, b.svcs[k][i].flows, c.svcs[k][i].flows, names, plain);
      }
    }
  }

  lemma OneSvcLater(s: Site, k: nat, sys: Phases, ops: seq<Op>, names: set<string>, plain: bool)
    requires Whole(s) && k < |s.svcs| && OpsLater(s.svcs[k], ops, names, plain) && AllLater(s.conf[0].value, sys, names, plain)
    ensures SiteLater(s, Site(s.conf[0 := Some(sys)], s.svcs[k := ops]), names, plain)
  {
  }

  lemma OneFlowLater(ops: seq<Op>, i: nat, now: Op, t: nat, names: set<string>, plain: bool)
    requires Full(ops) && i < |ops| && t < FLOW_TYPES && |now.flows| == FLOW_TYPES && now.flows == ops[i].flows[t := now.flows[t]]
    requires ops[i].flows[t].Some? == now.flows[t].Some?
    requires ops[i].flows[t].Some? ==> AllLater(ops[i].flows[t].value, now.flows[t].value, names, plain)
    ensures OpsLater(ops, ops[i := now], names, plain)
  {
    assert FlowsLater(ops[i].flows, now.flows, names, plain);
  }

  /** One step, whether it succeeds, fails or fails half-way. */
  lemma {:induction false} StepLater(s: Site, st: Step, names: set<string>, plain: bool)
    requires Whole(s) && StepBrings(st, names, plain)
    ensures SiteLater(s, Apply(s, st), names, plain)
  {
    match st
    case ToService(k, m) =>
      if k < |s.svcs| {
        assert m == ModulesOf(st)[0] && Full(s.svcs[k]);
        EngageSvcLater(s.svcs[k], s.conf[0].value, m, names, plain);
        var r := EngageSvc(s.svcs[k], s.conf[0].value, m);
        OneSvcLater(s, k, r.2, r.1, names, plain);
      }
    case OffService(k, m) =>
      if k < |s.svcs| {
        assert m == ModulesOf(st)[0] && Full(s.svcs[k]);
        DisengageSvcLater(s.svcs[k], s.conf[0].value, m, names, plain);
        var r := DisengageSvc(s.svcs[k], s.conf[0].value, m);
        OneSvcLater(s, k, r.2, r.1, names, plain);
      }
    case Globally(m) =>
      assert m == ModulesOf(st)[0] && ServicesWellFormed(s.svcs, m);
      SystemFlowsLater(s.conf, m, 0, names, plain);
      GlobalSvcsLater(s.svcs, m, names, plain);
    case Chains(k, i, t, ms) => ChainsLater(s, st, names, plain);
  }

  lemma ChainsLater(s: Site, st: Step, names: set<string>, plain: bool)
    requires Whole(s) && st.Chains? && StepBrings(st, names, plain)
    ensures SiteLater(s, Apply(s, st), names, plain)
  {
    var k, i, t, ms := st.k, st.i, st.t, st.ms;
    if k < |s.svcs| && i < |s.svcs[k]| && t < FLOW_TYPES {
      assert Full(s.svcs[k]);
      var op := s.svcs[k][i];
      GatheredBrings(ms, t, names, plain);
      if op.flows[t].Some? { AddAllIsLater(op.flows[t].value, Gather(ms, t), names, plain); }
      var now := Op(op.flows[t := BuildFlow(op.flows[t], ms, t).1], AddNames(op.engaged, ms));
      OneFlowLater(s.svcs[k], i, now, t, names, plain);
      OneSvcLater(s, k, s.conf[0].value, s.svcs[k][i := now], names, plain);
      assert s.conf[0 := Some(s.conf[0].value)] == s.conf;
    }
  }

  function StepNames(st: Step): set<string> {
    set j, t, h | 0 <= j < |ModulesOf(st)| && 0 <= t < |ModulesOf(st)[j].flows| && ModulesOf(st)[j].flows[t].Some?
      && h in ModulesOf(st)[j].flows[t].value :: h.name
  }

  lemma ApplyIsWhole(s: Site, st: Step)
    requires Whole(s) && FullModules(ModulesOf(st))
    ensures Whole(Apply(s, st))
  {
    forall j | 0 <= j < |ModulesOf(st)| ensures BringsOnly(ModulesOf(st)[j], StepNames(st), false) {
      assert |ModulesOf(st)[j].flows| == FLOW_TYPES;
    }
    StepLater(s, st, StepNames(st), false);
    LaterIsWhole(s, Apply(s, st), StepNames(st), false);
  }

  function After(s: Site, steps: seq<Step>): (r: Site)
    requires Whole(s) && forall j :: 0 <= j < |steps| ==> FullModules(ModulesOf(steps[j]))
    ensures Whole(r)
    decreases |steps|
  {
    if steps == [] then s
    else
      ApplyIsWhole(s, steps[0]);
      After(Apply(s, steps[0]), steps[1..])
  }

  predicate AllBring(steps: seq<Step>, names: set<string>, plain: bool) {
    forall j :: 0 <= j < |steps| ==> StepBrings(steps[j], names, plain)
  }

  /** Every phase of the configuration and of every operation is, after any history, what it
      was but for handlers of the modules' names, and has no end slots filled unless one of
      them was marked. */
  lemma {:induction false} AfterLater(s: Site, steps: seq<Step>, names: set<string>, plain: bool)
    requires Whole(s) && AllBring(steps, names, plain)
    ensures forall j :: 0 <= j < |steps| ==> FullModules(ModulesOf(steps[j]))
    ensures SiteLater(s, After(s, steps), names, plain)
    decreases |steps|
  {
    assert forall j :: 0 <= j < |steps| ==> StepBrings(steps[j], names, plain);
    if steps != [] {
      var next := Apply(s, steps[0]);
      StepLater(s, steps[0], names, plain);
      LaterIsWhole(s, next, names, plain);
      AfterLater(next, steps[1..], names, plain);
      SiteLaterStill(s, next, After(s, steps), names, plain);
    }
  }

  // ----- what is deployed -----------------------------------------------------------

  function Own(name: string): Handler {
    Handler(name, Rule("", None, None, false, false))
  }

  const CHECKER := "dispatch_post_conditions_evaluator"

  function OwnPhase(name: string, handlers: seq<Handler>): PhaseState {
    PhaseState(name, None, handlers, None, false)
  }

  /** The phases up to post-dispatch, with the dispatchers that the configuration file lists or
      with the default ones, which bring one more handler behind the dispatch. */
  function InPhases(custom: Option<seq<Handler>>): Phases {
    [OwnPhase("Transport", [Own("request_uri_based_dispatcher"), Own("addressing_based_dispatcher")]),
     OwnPhase("PreDispatch", []),
     OwnPhase("Dispatch",
              if custom.Some? then custom.value
              else [Own("rest_dispatcher"), Own("soap_message_body_based_dispatcher"), Own("soap_action_based_dispatcher")]),
     OwnPhase("PostDispatch", if custom.Some? then [Own(CHECKER)] else [Own(CHECKER), Own("context_handler")])]
  }

  method NewPhase(name: string, handlers: seq<Handler>) returns (p: Phase)
    ensures fresh(p) && p.State() == OwnPhase(name, handlers)
  {
    p := new Phase(name);
    var count := 0;
    while count < |handlers|
      invariant count <= |handlers| && p.State() == OwnPhase(name, handlers[..count])
    {
      var ok := p.AddAt(count, handlers[count]);
      count := count + 1;
    }
    assert handlers[..count] == handlers;
  }

  predicate Bare(p: PhaseState) { p == OwnPhase(p.name, p.handlers) }

  /** New phase objects in these states, each handler added at the next index. */
  method NewPhases(all: Phases) returns (ps: seq<Phase>)
    requires forall i :: 0 <= i < |all| ==> Bare(all[i])
    ensures States(ps) == all
    ensures NoRepeats(ps) && forall p :: p in ps ==> fresh(p)
  {
    ps := [];
    var i := 0;
    while i < |all|
      invariant i <= |all| && |ps| == i && NoRepeats(ps)
      invariant forall p :: p in ps ==> fresh(p)
      invariant forall j :: 0 <= j < i ==> ps[j].State() == all[j]
    {
      assert Bare(all[i]);
      var p := NewPhase(all[i].name, all[i].handlers);
      ps := ps + [p];
      i := i + 1;
    }
  }

  lemma InPhasesBare(custom: Option<seq<Handler>>)
    ensures forall i :: 0 <= i < |InPhases(custom)| ==> Bare(InPhases(custom)[i])
  {
  }

  method NewInPhases(custom: Option<seq<Handler>>) returns (ps: seq<Phase>)
    ensures States(ps) == InPhases(custom)
    ensures NoRepeats(ps) && forall p :: p in ps ==> fresh(p)
  {
    InPhasesBare(custom);
    ps := NewPhases(InPhases(custom));
  }

  /** Just deployed: no out flow and no fault-in flow of the configuration's own, its fault-out
      flow and all operations built from the phase lists of the configuration file. */
  predicate Deploys(s: Site, custom: Option<seq<Handler>>, info: PhasesInfo) {
    && (custom.Some? ==> custom.value != [])
    && |s.conf| == FLOW_TYPES && s.conf[0] == Some(InPhases(custom)) && s.conf[1].None? && s.conf[2].None?
    && s.conf[3] == BuiltFlows(info)[3]
    && forall k, i :: 0 <= k < |s.svcs| && 0 <= i < |s.svcs[k]| ==> s.svcs[k][i].flows == BuiltFlows(info)
  }

  predicate NoDouble(names: seq<string>) {
    forall i, j :: 0 <= i < j < |names| ==> names[i] != names[j]
  }

  /** A site just deployed, from phase lists without doubles, and what is done to it. */
  predicate History(s: Site, custom: Option<seq<Handler>>, info: PhasesInfo, steps: seq<Step>, names: set<string>, plain: bool) {
    && Whole(s) && Deploys(s, custom, info) && NoDouble(info.inPhases) && NoDouble(info.outPhases)
    && AllBring(steps, names, plain) && forall j :: 0 <= j < |steps| ==> FullModules(ModulesOf(steps[j]))
  }

  lemma {:induction false} UserNamesNoDouble(names: seq<string>)
    requires NoDouble(names)
    ensures NoDouble(UserNames(names))
  {
    if names != [] {
      var front := names[..|names| - 1];
      UserNamesNoDouble(front);
      UserNamesMembers(front, names[|names| - 1]);
    }
  }

  /** The phases named in the resolver are those that the configuration is made with. */
  lemma SystemPhasesAreOwn(custom: Option<seq<Handler>>, n: string)
    ensures IsSystem(n) <==> exists i :: 0 <= i < |InPhases(custom)| && InPhases(custom)[i].name == n
  {
    var ps := InPhases(custom);
    assert ps[0].name == "Transport" && ps[1].name == "PreDispatch" && ps[2].name == "Dispatch" && ps[3].name == "PostDispatch";
  }

  /** An operation's flows and the configuration's phases after any history of engagements. */
  lemma {:induction false} DeployedFlows(s: Site, custom: Option<seq<Handler>>, info: PhasesInfo, steps: seq<Step>,
      names: set<string>, plain: bool, k: nat, i: nat)
    requires History(s, custom, info, steps, names, plain) && k < |s.svcs| && i < |s.svcs[k]|
    ensures var now := After(s, steps);
      && k < |now.svcs| && i < |now.svcs[k]| && |now.svcs[k][i].flows| == FLOW_TYPES
      && now.conf[1].None? && now.svcs[k][i].flows[0].Some? && now.svcs[k][i].flows[1].Some?
      && var pre, own, out := now.conf[0].value, now.svcs[k][i].flows[0].value, now.svcs[k][i].flows[1].value;
         && DistinctNames(pre) && DistinctNames(own) && DistinctNames(out) && Apart(pre, own)
         && (plain ==> AllSafe(pre) && AllSafe(own) && AllSafe(out))
         && (CHECKER !in names ==> Flat(pre) != [])
  {
    AfterLater(s, steps, names, plain);
    var now := After(s, steps);
    assert OpsLater(s.svcs[k], now.svcs[k], names, plain);
    assert FlowsLater(s.svcs[k][i].flows, now.svcs[k][i].flows, names, plain);
    var own0, out0 := EmptyPhases(UserNames(info.inPhases)), EmptyPhases(info.outPhases);
    var pre, own, out := now.conf[0].value, now.svcs[k][i].flows[0].value, now.svcs[k][i].flows[1].value;
    UserNamesNoDouble(info.inPhases);
    InPhasesDistinct(custom);
    LaterIsDistinct(InPhases(custom), pre, names, plain);
    LaterIsDistinct(own0, own, names, plain);
    LaterIsDistinct(out0, out, names, plain);
    OwnNamesApart(custom, info, pre, own, names, plain);
    if CHECKER !in names { CheckerStays(custom, pre, names, plain); }
  }

  lemma InPhasesDistinct(custom: Option<seq<Handler>>)
    ensures DistinctNames(InPhases(custom)) && forall i :: 0 <= i < |InPhases(custom)| ==> Plain(InPhases(custom)[i])
  {
  }

  lemma OwnNamesApart(custom: Option<seq<Handler>>, info: PhasesInfo, pre: Phases, own: Phases, names: set<string>, plain: bool)
    requires AllLater(InPhases(custom), pre, names, plain) && AllLater(EmptyPhases(UserNames(info.inPhases)), own, names, plain)
    ensures Apart(pre, own)
  {
    forall a, b | 0 <= a < |pre| && 0 <= b < |own| ensures pre[a].name != own[b].name {
      UserNamesMembers(info.inPhases, UserNames(info.inPhases)[b]);
      SystemPhasesAreOwn(custom, own[b].name);
      assert own[b].name == UserNames(info.inPhases)[b] && pre[a].name == InPhases(custom)[a].name;
    }
  }

  lemma LaterIsDistinct(ps: Phases, qs: Phases, names: set<string>, plain: bool)
    requires DistinctNames(ps) && AllLater(ps, qs, names, plain) && forall i :: 0 <= i < |ps| ==> Plain(ps[i])
    ensures DistinctNames(qs) && (plain ==> AllSafe(qs))
  {
  }

  lemma CheckerStays(custom: Option<seq<Handler>>, pre: Phases, names: set<string>, plain: bool)
    requires AllLater(InPhases(custom), pre, names, plain) && CHECKER !in names
    ensures Flat(pre) != []
  {
    assert Later(InPhases(custom)[3], pre[3], names, plain);
    assert Own(CHECKER) in pre[3].handlers;
    assert !IdleFrom(pre, 0) by { assert !Idle(pre[3]); }
    if Flat(pre) == [] { NothingToRun(pre, 0); }
  }

  // ----- whole messages over a deployed engine --------------------------------------

  /** The configuration has no out flow of its own: the same as one without phases. */
  lemma NoOutFlow(op: Option<seq<PhaseState>>, t: Transport, c: Ctx, script: Script)
    ensures Send(op, None, t, c, script) == Send(op, Some([]), t, c, script)
  {
  }

  /** Whatever was engaged and taken away before: every send without failures runs each handler
      of its operation's out flow once and in order exactly when each of that flow's phases
      resumes correctly, which they all do while no handler is marked first or last. */
  lemma {:induction false} SendsExactly(s: Site, custom: Option<seq<Handler>>, info: PhasesInfo, steps: seq<Step>,
      names: set<string>, plain: bool, k: nat, i: nat)
    requires History(s, custom, info, steps, names, plain) && k < |s.svcs| && i < |s.svcs[k]|
    ensures var now := After(s, steps);
      && k < |now.svcs| && i < |now.svcs[k]| && |now.svcs[k][i].flows| == FLOW_TYPES
      && now.svcs[k][i].flows[1].Some? && now.conf[1].None?
      && var out := now.svcs[k][i].flows[1].value;
         && (AllSafe(out) <==> forall script: Script, n: nat :: SendsWhole(out, [], script, n))
         && (plain ==> AllSafe(out))
  {
    DeployedFlows(s, custom, info, steps, names, plain, k, i);
    SendIsExact(After(s, steps).svcs[k][i].flows[1].value, []);
  }

  /** Whatever was engaged and taken away before, unless a module brings a handler of the
      dispatch checker's name: every receive without failures runs each handler once and in
      order before delivery exactly when the operation's own in flow holds no handler and the
      phases up to post-dispatch resume correctly. */
  lemma {:induction false} ReceivesExactly(s: Site, custom: Option<seq<Handler>>, info: PhasesInfo, steps: seq<Step>,
      names: set<string>, plain: bool, k: nat, i: nat)
    requires History(s, custom, info, steps, names, plain) && k < |s.svcs| && i < |s.svcs[k]| && CHECKER !in names
    ensures var now := After(s, steps);
      && k < |now.svcs| && i < |now.svcs[k]| && |now.svcs[k][i].flows| == FLOW_TYPES && now.svcs[k][i].flows[0].Some?
      && var pre, own := now.conf[0].value, now.svcs[k][i].flows[0].value;
         && (Flat(own) == [] && AllSafe(pre) <==> forall script: Script, n: nat :: ReceivesWhole(pre, own, script, n))
         && (plain ==> AllSafe(pre))
  {
    DeployedFlows(s, custom, info, steps, names, plain, k, i);
    ReceiveIsExact(After(s, steps).conf[0].value, After(s, steps).svcs[k][i].flows[0].value);
  }

  /** While no handler is marked first or last, a message that is no longer paused has been
      delivered once, after all phases up to post-dispatch, and with its operation's in flow run
      whole before that, or not at all if it was first paused before it. */
  lemma {:induction false} Delivers(s: Site, custom: Option<seq<Handler>>, info: PhasesInfo, steps: seq<Step>,
      names: set<string>, k: nat, i: nat, script: Script, n: nat)
    requires History(s, custom, info, steps, names, true) && k < |s.svcs| && i < |s.svcs[k]|
    ensures var now := After(s, steps);
      && k < |now.svcs| && i < |now.svcs[k]| && |now.svcs[k][i].flows| == FLOW_TYPES && now.svcs[k][i].flows[0].Some?
      && var pre, own := now.conf[0].value, now.svcs[k][i].flows[0].value;
         var c := ReceiveRun(pre, own, script, n);
         NoneFailed(script, c.log) ==>
           if c.paused then |c.log| > n
           else c.log == Flat(pre) + (if PausesEarly(pre, script) then [] else Flat(own)) + [Delivered]
  {
    DeployedFlows(s, custom, info, steps, names, true, k, i);
    var pre, own := After(s, steps).conf[0].value, After(s, steps).svcs[k][i].flows[0].value;
    if NoneFailed(script, ReceiveRun(pre, own, script, n).log) {
      var _ := ReceiveRuns(pre, own, script, n);
      assert Flat(pre) + [] == Flat(pre);
    }
  }
}
