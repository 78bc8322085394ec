/** Engaging a module to the whole configuration, in place. */
module ConfigurationObjects {
  import opened PhaseTypes
  import opened PhaseObjects
  import opened EngineObjects
  import opened ResolverObjects
  import opened ServiceObjects
  import R = Resolver

  ghost function OpsOf(svcs: seq<seq<Operation>>): set<Operation> {
    set s, i | 0 <= s < |svcs| && 0 <= i < |svcs[s]| :: svcs[s][i]
  }

  ghost function PhasesOfAll(svcs: seq<seq<Operation>>): set<Phase>
    reads OpsOf(svcs)
  {
    set s, p | 0 <= s < |svcs| && p in AllPhases(svcs[s]) :: p
  }

  ghost predicate TwoApart(a: seq<Operation>, b: seq<Operation>)
    reads a, b
  {
    (forall i, j :: 0 <= i < |a| && 0 <= j < |b| ==> a[i] != b[j]) && AllPhases(a) !! AllPhases(b)
  }

  /** Services share no operation and no phase object. */
  ghost predicate ServicesApart(svcs: seq<seq<Operation>>)
    reads OpsOf(svcs)
  {
    forall s, u :: 0 <= s < |svcs| && 0 <= u < |svcs| && s != u ==> TwoApart(svcs[s], svcs[u])
  }

  ghost predicate SvcIs(svcs: seq<seq<Operation>>, s: nat, states: seq<seq<R.Op>>)
    requires s < |svcs| == |states|
    reads svcs[s], AllPhases(svcs[s])
  {
    Represent(svcs[s], [], states[s])
  }

  ghost predicate AllSvcsAre(svcs: seq<seq<Operation>>, states: seq<seq<R.Op>>)
    reads OpsOf(svcs), PhasesOfAll(svcs)
  {
    |states| == |svcs| && forall s :: 0 <= s < |svcs| ==>
      (forall p :: p in AllPhases(svcs[s]) ==> p in PhasesOfAll(svcs)) && SvcIs(svcs, s, states)
  }

  ghost predicate Bounded(svcs: seq<seq<Operation>>, all: set<Phase>)
    reads OpsOf(svcs)
  {
    forall s :: 0 <= s < |svcs| ==> AllPhases(svcs[s]) <= all
  }

  /** The pass over all services comes to what is done and the pass over the rest. */
  ghost predicate SvcsLeft(start: seq<seq<R.Op>>, now: seq<seq<R.Op>>, s: nat, m: R.Module) {
    && s <= |now| && R.ServicesWellFormed(start, m) && R.ServicesWellFormed(now[s..], m)
    && var (ok, rest) := R.EngageGlobalSvcs(now[s..], m);
       R.EngageGlobalSvcs(start, m) == (ok, now[..s] + rest)
  }

  lemma SvcsStart(start: seq<seq<R.Op>>, m: R.Module)
    requires R.ServicesWellFormed(start, m)
    ensures SvcsLeft(start, start, 0, m)
  {
    assert start[0..] == start && forall rest: seq<seq<R.Op>> :: start[..0] + rest == rest;
  }

  lemma SvcsDone(start: seq<seq<R.Op>>, now: seq<seq<R.Op>>, m: R.Module)
    requires SvcsLeft(start, now, |now|, m)
    ensures R.EngageGlobalSvcs(start, m) == (true, now)
  {
    assert now[..|now|] + [] == now;
  }

  lemma SvcsStep(start: seq<seq<R.Op>>, now: seq<seq<R.Op>>, s: nat, next: seq<R.Op>, m: R.Module)
    requires s < |now| && SvcsLeft(start, now, s, m) && R.AllWellFormed(now[s], m)
    requires next == R.EngageGlobal(now[s], false, m).1
    ensures if R.EngageGlobal(now[s], false, m).0 then SvcsLeft(start, now[s := next], s + 1, m)
            else R.EngageGlobalSvcs(start, m) == (false, now[s := next])
  {
    var later := now[s := next];
    assert now[s..][0] == now[s] && now[s..][1..] == now[s + 1..] == later[s + 1..];
    assert later == now[..s] + ([next] + now[s + 1..]);
    assert forall rest: seq<seq<R.Op>> :: now[..s] + ([next] + rest) == later[..s + 1] + rest;
  }

  lemma SamePhases(ops: seq<Operation>, flows: seq<seq<Option<seq<Phase>>>>, before: set<Phase>)
    requires |flows| == |ops| && forall k :: 0 <= k < |ops| ==> ops[k].flows == flows[k]
    requires before == set i, p | 0 <= i < |ops| && p in PhasesOf(flows[i]) :: p
    ensures AllPhases(ops) == before
  {
  }

  /** EngageGlobally changes none of the phase lists themselves. */
  method EngageSvcGlobally(ops: seq<Operation>, m: R.Module, ghost states: seq<R.Op>) returns (ok: bool)
    requires |m.flows| == R.FLOW_TYPES && Represent(ops, [], states) && R.AllWellFormed(states, m)
    modifies ops, AllPhases(ops)
    ensures AllPhases(ops) == old(AllPhases(ops))
    ensures ok == R.EngageGlobal(states, false, m).0 && Represent(ops, [], R.EngageGlobal(states, false, m).1)
  {
    ghost var flows, before := Flows(ops), AllPhases(ops);
    ok := EngageGlobally(ops, m, states);
    SamePhases(ops, flows, before);
  }

  /** One service's pass leaves others as they were. */
  method EngageBesideSvcs(ops: seq<Operation>, m: R.Module, ghost states: seq<R.Op>,
      ghost others: seq<seq<Operation>>, ghost now: seq<seq<R.Op>>) returns (ok: bool)
    requires |m.flows| == R.FLOW_TYPES && Represent(ops, [], states) && R.AllWellFormed(states, m)
    requires |others| == |now| && forall u :: 0 <= u < |others| ==> TwoApart(ops, others[u]) && SvcIs(others, u, now)
    modifies ops, AllPhases(ops)
    ensures AllPhases(ops) == old(AllPhases(ops))
    ensures ok == R.EngageGlobal(states, false, m).0 && Represent(ops, [], R.EngageGlobal(states, false, m).1)
    ensures forall u :: 0 <= u < |others| ==> AllPhases(others[u]) == old(AllPhases(others[u])) && SvcIs(others, u, now)
  {
    ok := EngageSvcGlobally(ops, m, states);
    forall u | 0 <= u < |others|
      ensures AllPhases(others[u]) == old(AllPhases(others[u])) && SvcIs(others, u, now)
    {
      assert old(TwoApart(ops, others[u]) && SvcIs(others, u, now));
    }
  }

  /** All services but s. */
  function Others<T>(list: seq<T>, s: nat): (r: seq<T>)
    requires s < |list|
    ensures |r| == |list| - 1 && forall u :: 0 <= u < |r| ==> r[u] == list[if u < s then u else u + 1]
  {
    list[..s] + list[s + 1..]
  }

  lemma OthersAre(svcs: seq<seq<Operation>>, s: nat, now: seq<seq<R.Op>>)
    requires s < |svcs| && ServicesApart(svcs) && AllSvcsAre(svcs, now)
    ensures var others, rest := Others(svcs, s), Others(now, s);
      forall u :: 0 <= u < |others| ==> TwoApart(svcs[s], others[u]) && SvcIs(others, u, rest)
  {
    var others, rest := Others(svcs, s), Others(now, s);
    forall u | 0 <= u < |others| ensures TwoApart(svcs[s], others[u]) && SvcIs(others, u, rest) {
      assert SvcIs(svcs, if u < s then u else u + 1, now);
    }
  }

  lemma AllAre(svcs: seq<seq<Operation>>, s: nat, now: seq<seq<R.Op>>, next: seq<R.Op>)
    requires s < |svcs| == |now| && Represent(svcs[s], [], next)
    requires var others, rest := Others(svcs, s), Others(now, s);
      forall u :: 0 <= u < |others| ==> SvcIs(others, u, rest)
    ensures AllSvcsAre(svcs, now[s := next])
  {
    AllPhasesInside(svcs);
    var later := now[s := next];
    forall u | 0 <= u < |svcs| ensures SvcIs(svcs, u, later) {
      if u != s { assert SvcIs(Others(svcs, s), if u < s then u else u - 1, Others(now, s)); }
    }
  }

  lemma AllPhasesInside(svcs: seq<seq<Operation>>)
    ensures forall s :: 0 <= s < |svcs| ==> AllPhases(svcs[s]) <= PhasesOfAll(svcs)
  {
  }

  /** The pass's visit to service s. */
  method SvcVisit(svcs: seq<seq<Operation>>, s: nat, m: R.Module, ghost all: set<Phase>,
      ghost start: seq<seq<R.Op>>, ghost now: seq<seq<R.Op>>) returns (ok: bool, ghost later: seq<seq<R.Op>>)
    requires s < |svcs| && |m.flows| == R.FLOW_TYPES && ServicesApart(svcs) && AllSvcsAre(svcs, now)
    requires Bounded(svcs, all) && SvcsLeft(start, now, s, m)
    modifies OpsOf(svcs), all
    ensures ServicesApart(svcs) && AllSvcsAre(svcs, later) && Bounded(svcs, all)
    ensures ok ==> SvcsLeft(start, later, s + 1, m)
    ensures !ok ==> R.EngageGlobalSvcs(start, m) == (false, later)
  {
    ghost var next := R.EngageGlobal(now[s], false, m).1;
    assert SvcIs(svcs, s, now) && R.AllWellFormed(now[s..][0], m);
    SvcsStep(start, now, s, next, m);
    later := now[s := next];
    OthersAre(svcs, s, now);
    ok := EngageBesideSvcs(svcs[s], m, now[s], Others(svcs, s), Others(now, s));
    AllAre(svcs, s, now, next);
    forall u | 0 <= u < |svcs| ensures AllPhases(svcs[u]) == old(AllPhases(svcs[u])) {
      if u != s { assert svcs[u] == Others(svcs, s)[if u < s then u else u - 1]; }
    }
  }

  method EngageSvcsGlobally(svcs: seq<seq<Operation>>, m: R.Module, ghost states: seq<seq<R.Op>>) returns (ok: bool)
    requires |m.flows| == R.FLOW_TYPES && ServicesApart(svcs) && AllSvcsAre(svcs, states)
    requires R.ServicesWellFormed(states, m)
    modifies OpsOf(svcs), PhasesOfAll(svcs)
    ensures ok == R.EngageGlobalSvcs(states, m).0 && AllSvcsAre(svcs, R.EngageGlobalSvcs(states, m).1)
  {
    ghost var now, all := states, PhasesOfAll(svcs);
    AllPhasesInside(svcs);
    SvcsStart(states, m);
    var s := 0;
    while s < |svcs|
      invariant s <= |svcs| && ServicesApart(svcs) && AllSvcsAre(svcs, now) && Bounded(svcs, all)
      invariant SvcsLeft(states, now, s, m)
    {
      ok, now := SvcVisit(svcs, s, m, all, states, now);
      if !ok { return; }
      s := s + 1;
    }
    SvcsDone(states, now, m);
    ok := true;
  }

  /** The configuration's phases are none of the services'. */
  method AddToConf(conf: seq<Option<seq<Phase>>>, svcs: seq<seq<Operation>>, m: R.Module, ghost states: seq<seq<R.Op>>)
      returns (ok: bool)
    requires |conf| == |m.flows| == R.FLOW_TYPES && Separate(conf, []) && PhasesOf(conf) !! PhasesOfAll(svcs)
    requires AllSvcsAre(svcs, states)
    modifies PhasesOf(conf)
    ensures AllSvcsAre(svcs, states) && PhasesOfAll(svcs) == old(PhasesOfAll(svcs))
    ensures ok == R.AddSystemFlows(old(FlowStates(conf)), m, 0).0
    ensures FlowStates(conf) == R.AddSystemFlows(old(FlowStates(conf)), m, 0).1
  {
    ok := AddModuleToFlows(conf, m, true);
    assert AllSvcsAre(svcs, states) == old(AllSvcsAre(svcs, states));
  }

  method EngageSvcsBeside(conf: seq<Option<seq<Phase>>>, svcs: seq<seq<Operation>>, m: R.Module, ghost states: seq<seq<R.Op>>)
      returns (ok: bool)
    requires |m.flows| == R.FLOW_TYPES && PhasesOf(conf) !! PhasesOfAll(svcs)
    requires ServicesApart(svcs) && AllSvcsAre(svcs, states) && R.ServicesWellFormed(states, m)
    modifies OpsOf(svcs), PhasesOfAll(svcs)
    ensures FlowStates(conf) == old(FlowStates(conf))
    ensures ok == R.EngageGlobalSvcs(states, m).0 && AllSvcsAre(svcs, R.EngageGlobalSvcs(states, m).1)
  {
    ok := EngageSvcsGlobally(svcs, m, states);
  }

  /** engage_module_globally: the configuration's own phases, then every service. */
  method EngageConfiguration(conf: seq<Option<seq<Phase>>>, svcs: seq<seq<Operation>>, m: R.Module,
      ghost states: seq<seq<R.Op>>) returns (ok: bool)
    requires |conf| == |m.flows| == R.FLOW_TYPES && Separate(conf, []) && PhasesOf(conf) !! PhasesOfAll(svcs)
    requires ServicesApart(svcs) && AllSvcsAre(svcs, states) && R.ServicesWellFormed(states, m)
    modifies PhasesOf(conf), OpsOf(svcs), PhasesOfAll(svcs)
    ensures var (ok1, conf1, svcs1) := R.EngageConf(old(FlowStates(conf)), states, m);
      ok == ok1 && FlowStates(conf) == conf1 && AllSvcsAre(svcs, svcs1)
  {
    ok := AddToConf(conf, svcs, m, states);
    if !ok { return; }
    ok := EngageSvcsBeside(conf, svcs, m, states);
  }
}
