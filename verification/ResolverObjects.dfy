/** The resolver over the phase objects that operations and the configuration hold, each
    method proved against Resolver; what it may change is what its modifies clause names. */
module ResolverObjects {
  import opened PhaseTypes
  import opened PhaseObjects
  import opened EngineObjects
  import R = Resolver

  class Operation {
    var flows: seq<Option<seq<Phase>>>
    var engaged: seq<string>

    constructor (flows: seq<Option<seq<Phase>>>)
      ensures this.flows == flows && engaged == []
    {
      this.flows := flows;
      engaged := [];
    }
  }

  /** All phase objects of an operation's flows. */
  ghost function PhasesOf(flows: seq<Option<seq<Phase>>>): set<Phase> {
    set t, p | 0 <= t < |flows| && flows[t].Some? && p in flows[t].value :: p
  }

  ghost predicate NoRepeats(ps: seq<Phase>) {
    forall i, j :: 0 <= i < j < |ps| ==> ps[i] != ps[j]
  }

  ghost predicate Disjoint(a: seq<Phase>, b: seq<Phase>) {
    forall i, j :: 0 <= i < |a| && 0 <= j < |b| ==> a[i] != b[j]
  }

  /** No phase object is used twice among the four flows and the system phases. */
  ghost predicate Separate(flows: seq<Option<seq<Phase>>>, sys: seq<Phase>) {
    && NoRepeats(sys)
    && (forall t :: 0 <= t < |flows| && flows[t].Some? ==> NoRepeats(flows[t].value) && Disjoint(flows[t].value, sys))
    && (forall t, u :: 0 <= t < |flows| && 0 <= u < |flows| && t != u && flows[t].Some? && flows[u].Some?
          ==> Disjoint(flows[t].value, flows[u].value))
  }

  ghost function FlowStates(flows: seq<Option<seq<Phase>>>): (r: seq<Option<R.Phases>>)
    reads PhasesOf(flows)
    ensures |r| == |flows|
    ensures forall t :: 0 <= t < |flows| ==> r[t] == Flow(flows[t])
  {
    if flows == [] then [] else
      assert forall t :: 0 <= t < |flows[1..]| ==> flows[1..][t] == flows[t + 1];
      assert flows[0].Some? ==> forall p :: p in flows[0].value ==> p in PhasesOf(flows);
      [Flow(flows[0])] + FlowStates(flows[1..])
  }

  // ----- the phase holder -----------------------------------------------------------

  method FindPhase(ps: seq<Phase>, n: string) returns (i: nat)
    ensures i == R.Find(States(ps), n)
  {
    i := 0;
    while i < |ps| && ps[i].name != n
      invariant i <= |ps| && forall j :: 0 <= j < i ==> ps[j].name != n
    {
      i := i + 1;
    }
  }

  lemma OneChanged(ps: seq<Phase>, i: nat, before: seq<PhaseState>)
    requires i < |ps| == |before|
    requires forall j :: 0 <= j < |ps| && j != i ==> ps[j].State() == before[j]
    ensures States(ps) == before[i := ps[i].State()]
  {
  }

  method HolderAddHandler(ps: seq<Phase>, h: Handler) returns (ok: bool)
    requires NoRepeats(ps)
    modifies ps
    ensures (ok, States(ps)) == R.HolderAdd(old(States(ps)), h)
  {
    var i := FindPhase(ps, h.rule.phase);
    if i == |ps| { return false; }
    ghost var before := States(ps);
    ok := ps[i].AddHandlerDesc(h);
    OneChanged(ps, i, before);
  }

  method HolderRemoveHandler(ps: seq<Phase>, h: Handler) returns (ok: bool)
    requires NoRepeats(ps)
    modifies ps
    ensures (ok, States(ps)) == R.HolderRemove(old(States(ps)), h)
  {
    var i := FindPhase(ps, h.rule.phase);
    if i == |ps| { return false; }
    ghost var before := States(ps);
    ps[i].RemoveHandlerDesc(h);
    OneChanged(ps, i, before);
    ok := true;
  }

  // ----- engaging and disengaging one operation -------------------------------------

  method EngageOne(ps: seq<Phase>, sys: seq<Phase>, h: Handler) returns (ok: bool)
    requires NoRepeats(ps) && NoRepeats(sys) && Disjoint(ps, sys)
    modifies ps, sys
    ensures if R.IsSystem(h.rule.phase)
      then (ok, States(sys)) == R.HolderAdd(old(States(sys)), h) && States(ps) == old(States(ps))
      else (ok, States(ps)) == R.HolderAdd(old(States(ps)), h) && States(sys) == old(States(sys))
  {
    if R.IsSystem(h.rule.phase) {
      ok := HolderAddHandler(sys, h);
    } else {
      ok := HolderAddHandler(ps, h);
    }
  }

  method EngageFlow(ps: seq<Phase>, sys: seq<Phase>, hs: seq<Handler>) returns (ok: bool)
    requires NoRepeats(ps) && NoRepeats(sys) && Disjoint(ps, sys)
    modifies ps, sys
    ensures (ok, States(ps), States(sys)) == R.EngageHandlers(old(States(ps)), old(States(sys)), hs)
  {
    var j := 0;
    while j < |hs|
      invariant j <= |hs|
      invariant R.EngageHandlers(States(ps), States(sys), hs[j..])
             == R.EngageHandlers(old(States(ps)), old(States(sys)), hs)
    {
      ok := EngageOne(ps, sys, hs[j]);
      if !ok { return; }
      assert hs[j..][1..] == hs[j + 1..];
      j := j + 1;
    }
    ok := true;
  }

  method DisengageOne(ps: seq<Phase>, sys: seq<Phase>, h: Handler) returns (ok: bool)
    requires NoRepeats(ps) && NoRepeats(sys) && Disjoint(ps, sys)
    modifies ps, sys
    ensures if R.IsSystem(h.rule.phase)
      then (ok, States(sys)) == R.HolderRemove(old(States(sys)), h) && States(ps) == old(States(ps))
      else (ok, States(ps)) == R.HolderRemove(old(States(ps)), h) && States(sys) == old(States(sys))
  {
    if R.IsSystem(h.rule.phase) {
      ok := HolderRemoveHandler(sys, h);
    } else {
      ok := HolderRemoveHandler(ps, h);
    }
  }

  method DisengageFlow(ps: seq<Phase>, sys: seq<Phase>, hs: seq<Handler>) returns (ok: bool)
    requires NoRepeats(ps) && NoRepeats(sys) && Disjoint(ps, sys)
    modifies ps, sys
    ensures (ok, States(ps), States(sys)) == R.DisengageHandlers(old(States(ps)), old(States(sys)), hs)
  {
    var j := 0;
    while j < |hs|
      invariant j <= |hs|
      invariant R.DisengageHandlers(States(ps), States(sys), hs[j..])
             == R.DisengageHandlers(old(States(ps)), old(States(sys)), hs)
    {
      ok := DisengageOne(ps, sys, hs[j]);
      if !ok { return; }
      assert hs[j..][1..] == hs[j + 1..];
      j := j + 1;
    }
    ok := true;
  }

  lemma FlowInside(flows: seq<Option<seq<Phase>>>, t: nat)
    requires t < |flows| && flows[t].Some?
    ensures forall p :: p in flows[t].value ==> p in PhasesOf(flows)
  {
  }

  method EngageFlowOf(flows: seq<Option<seq<Phase>>>, t: nat, sys: seq<Phase>, hs: seq<Handler>) returns (ok: bool)
    requires t < |flows| && flows[t].Some? && Separate(flows, sys)
    modifies flows[t].value, sys
    ensures var (ok1, ps, s) := R.EngageHandlers(old(States(flows[t].value)), old(States(sys)), hs);
      ok == ok1 && FlowStates(flows) == old(FlowStates(flows))[t := Some(ps)] && States(sys) == s
  {
    ghost var before := FlowStates(flows);
    ok := EngageFlow(flows[t].value, sys, hs);
    FlowUpdated(flows, t, before);
  }

  lemma EngageUnfolds(flows: seq<Option<R.Phases>>, sys: R.Phases, m: R.Module, t: nat)
    requires |flows| == |m.flows| == R.FLOW_TYPES && t < R.FLOW_TYPES
    ensures R.EngageFlows(flows, sys, m, t) ==
      if flows[t].None? || m.flows[t].None? then R.EngageFlows(flows, sys, m, t + 1)
      else
        var (ok, ps, s) := R.EngageHandlers(flows[t].value, sys, m.flows[t].value);
        if !ok then (false, flows[t := Some(ps)], s) else R.EngageFlows(flows[t := Some(ps)], s, m, t + 1)
  {
  }

  method EngageAllFlows(flows: seq<Option<seq<Phase>>>, sys: seq<Phase>, m: R.Module) returns (ok: bool)
    requires |flows| == |m.flows| == R.FLOW_TYPES && Separate(flows, sys)
    modifies PhasesOf(flows), sys
    ensures (ok, FlowStates(flows), States(sys))
         == R.EngageFlows(old(FlowStates(flows)), old(States(sys)), m, 0)
  {
    var t := 0;
    while t < R.FLOW_TYPES
      invariant t <= R.FLOW_TYPES
      invariant R.EngageFlows(FlowStates(flows), States(sys), m, t)
             == R.EngageFlows(old(FlowStates(flows)), old(States(sys)), m, 0)
    {
      ghost var before, sys0 := FlowStates(flows), States(sys);
      EngageUnfolds(before, sys0, m, t);
      if flows[t].Some? && m.flows[t].Some? {
        FlowInside(flows, t);
        ok := EngageFlowOf(flows, t, sys, m.flows[t].value);
        if !ok { return; }
      }
      t := t + 1;
    }
    ok := true;
  }

  method EngageModuleToOp(op: Operation, sys: seq<Phase>, m: R.Module) returns (ok: bool)
    requires |op.flows| == |m.flows| == R.FLOW_TYPES && Separate(op.flows, sys)
    modifies PhasesOf(op.flows), sys
    ensures (ok, FlowStates(op.flows), States(sys))
         == R.EngageFlows(old(FlowStates(op.flows)), old(States(sys)), m, 0)
  {
    ok := EngageAllFlows(op.flows, sys, m);
  }

  method DisengageFlowOf(flows: seq<Option<seq<Phase>>>, t: nat, sys: seq<Phase>, hs: seq<Handler>) returns (ok: bool)
    requires t < |flows| && flows[t].Some? && Separate(flows, sys)
    modifies flows[t].value, sys
    ensures var (ok1, ps, s) := R.DisengageHandlers(old(States(flows[t].value)), old(States(sys)), hs);
      ok == ok1 && FlowStates(flows) == old(FlowStates(flows))[t := Some(ps)] && States(sys) == s
  {
    ghost var before := FlowStates(flows);
    ok := DisengageFlow(flows[t].value, sys, hs);
    FlowUpdated(flows, t, before);
  }

  lemma DisengageUnfolds(flows: seq<Option<R.Phases>>, sys: R.Phases, m: R.Module, t: nat)
    requires |flows| == |m.flows| == R.FLOW_TYPES && t < R.FLOW_TYPES
    ensures R.DisengageFlows(flows, sys, m, t) ==
      if flows[t].None? || m.flows[t].None? then R.DisengageFlows(flows, sys, m, t + 1)
      else
        var (ok, ps, s) := R.DisengageHandlers(flows[t].value, sys, m.flows[t].value);
        if !ok then (false, flows[t := Some(ps)], s) else R.DisengageFlows(flows[t := Some(ps)], s, m, t + 1)
  {
  }

  method DisengageAllFlows(flows: seq<Option<seq<Phase>>>, sys: seq<Phase>, m: R.Module) returns (ok: bool)
    requires |flows| == |m.flows| == R.FLOW_TYPES && Separate(flows, sys)
    modifies PhasesOf(flows), sys
    ensures (ok, FlowStates(flows), States(sys))
         == R.DisengageFlows(old(FlowStates(flows)), old(States(sys)), m, 0)
  {
    var t := 0;
    while t < R.FLOW_TYPES
      invariant t <= R.FLOW_TYPES
      invariant R.DisengageFlows(FlowStates(flows), States(sys), m, t)
             == R.DisengageFlows(old(FlowStates(flows)), old(States(sys)), m, 0)
    {
      ghost var before, sys0 := FlowStates(flows), States(sys);
      DisengageUnfolds(before, sys0, m, t);
      if flows[t].Some? && m.flows[t].Some? {
        FlowInside(flows, t);
        ok := DisengageFlowOf(flows, t, sys, m.flows[t].value);
        if !ok { return; }
      }
      t := t + 1;
    }
    ok := true;
  }

  method DisengageModuleFromOp(op: Operation, sys: seq<Phase>, m: R.Module) returns (ok: bool)
    requires |op.flows| == |m.flows| == R.FLOW_TYPES && Separate(op.flows, sys)
    modifies PhasesOf(op.flows), sys
    ensures (ok, FlowStates(op.flows), States(sys))
         == R.DisengageFlows(old(FlowStates(op.flows)), old(States(sys)), m, 0)
  {
    ok := DisengageAllFlows(op.flows, sys, m);
  }

  /** Only flow t having changed, the states are the earlier ones updated there. */
  lemma FlowUpdated(flows: seq<Option<seq<Phase>>>, t: nat, before: seq<Option<R.Phases>>)
    requires t < |flows| == |before| && flows[t].Some?
    requires forall u :: 0 <= u < |flows| && u != t ==> Flow(flows[u]) == before[u]
    ensures FlowStates(flows) == before[t := Some(States(flows[t].value))]
  {
  }

  // ----- separate phase instances ---------------------------------------------------

  /** axis2_phases_info_get_op_in_phases: one new phase object per user phase name. */
  method GetOpInPhases(names: seq<string>) returns (ps: seq<Phase>)
    ensures NoRepeats(ps) && forall p :: p in ps ==> fresh(p)
    ensures AllEmpty(ps, UserNames(names))
  {
    ps := [];
    var i := 0;
    assert names[..0] == [];
    while i < |names|
      invariant i <= |names| && NoRepeats(ps)
      invariant forall p :: p in ps ==> fresh(p)
      invariant AllEmpty(ps, UserNames(names[..i]))
    {
      UserNamesStep(names, i);
      if !R.IsSystem(names[i]) {
        var p := new Phase(names[i]);
        ps := ps + [p];
      }
      i := i + 1;
    }
    assert names[..|names|] == names;
  }

  function UserNames(names: seq<string>): seq<string> {
    if names == [] then []
    else UserNames(names[..|names| - 1]) + if R.IsSystem(names[|names| - 1]) then [] else [names[|names| - 1]]
  }

  /** The phases carry the names, in order, and hold no handler. */
  ghost predicate AllEmpty(ps: seq<Phase>, names: seq<string>)
    reads ps
  {
    && |ps| == |names|
    && forall i :: 0 <= i < |ps| ==> ps[i].State() == PhaseState(names[i], None, [], None, false)
  }

  lemma UserNamesStep(names: seq<string>, i: nat)
    requires i < |names|
    ensures UserNames(names[..i + 1]) == UserNames(names[..i]) + if R.IsSystem(names[i]) then [] else [names[i]]
  {
    assert names[..i + 1][..i] == names[..i];
  }

  /** The out and fault flow getters: one new phase object per name, whatever the name. */
  method GetOpPhases(names: seq<string>) returns (ps: seq<Phase>)
    ensures NoRepeats(ps) && forall p :: p in ps ==> fresh(p)
    ensures AllEmpty(ps, names)
  {
    ps := [];
    var i := 0;
    while i < |names|
      invariant i <= |names| && NoRepeats(ps)
      invariant forall p :: p in ps ==> fresh(p)
      invariant AllEmpty(ps, names[..i])
    {
      var p := new Phase(names[i]);
      ps := ps + [p];
      i := i + 1;
    }
    assert names[..|names|] == names;
  }

  /** The phase names of axis2.xml, flow by flow. */
  datatype PhasesInfo = PhasesInfo(inPhases: seq<string>, outPhases: seq<string>,
                                   inFaultPhases: seq<string>, outFaultPhases: seq<string>)

  function EmptyPhases(names: seq<string>): (r: R.Phases)
    ensures |r| == |names| && forall i :: 0 <= i < |names| ==> r[i] == PhaseState(names[i], None, [], None, false)
  {
    seq(|names|, i requires 0 <= i < |names| => PhaseState(names[i], None, [], None, false))
  }

  /** The flows of an operation just built: no list at all for a fault flow without phases. */
  function BuiltFlows(info: PhasesInfo): (r: seq<Option<R.Phases>>)
    ensures |r| == R.FLOW_TYPES
  {
    [Some(EmptyPhases(UserNames(info.inPhases))), Some(EmptyPhases(info.outPhases)),
     if info.inFaultPhases == [] then None else Some(EmptyPhases(info.inFaultPhases)),
     if info.outFaultPhases == [] then None else Some(EmptyPhases(info.outFaultPhases))]
  }

  /** The shipped in flow with one phase of its own behind the configuration's four. */
  lemma ShippedInFlow()
    ensures UserNames(["Transport", "PreDispatch", "Dispatch", "PostDispatch", "Security"]) == ["Security"]
    ensures UserNames(["MessageOut", "transport", ""]) == ["MessageOut", "transport", ""]
  {
    var names := ["Transport", "PreDispatch", "Dispatch", "PostDispatch", "Security"];
    UserNamesStep(names, 0);
    UserNamesStep(names, 1);
    UserNamesStep(names, 2);
    UserNamesStep(names, 3);
    UserNamesStep(names, 4);
    assert names[..0] == [] && names[..5] == names && UserNames([]) == [];
    var others := ["MessageOut", "transport", ""];
    UserNamesStep(others, 0);
    UserNamesStep(others, 1);
    UserNamesStep(others, 2);
    assert others[..0] == [] && others[..3] == others;
  }

  /** The names a flow is built from, by number. */
  function NamesFor(info: PhasesInfo, t: nat): seq<string>
    requires t < R.FLOW_TYPES
  {
    if t == 0 then info.inPhases else if t == 1 then info.outPhases
    else if t == 2 then info.inFaultPhases else info.outFaultPhases
  }

  lemma {:induction false} UserNamesMembers(names: seq<string>, n: string)
    ensures n in UserNames(names) <==> n in names && !R.IsSystem(n)
  {
    if names != [] {
      var front := names[..|names| - 1];
      UserNamesMembers(front, n);
      assert names == front + [names[|names| - 1]];
    }
  }

  lemma {:induction false} EmptyTakes(names: seq<string>, h: Handler)
    requires !h.rule.first && !h.rule.last && h.rule.before.None? && h.rule.after.None?
    ensures R.HolderAdd(EmptyPhases(names), h).0 <==> h.rule.phase in names
  {
    var ps := EmptyPhases(names);
    var i := R.Find(ps, h.rule.phase);
    if h.rule.phase in names {
      var j :| 0 <= j < |names| && names[j] == h.rule.phase;
      assert ps[j].name == h.rule.phase && i <= j;
    }
    if i < |ps| { assert names[i] == h.rule.phase; }
  }

  /** A module with handlers for one flow only. */
  lemma {:induction false} OneFlowOnly(flows: seq<Option<R.Phases>>, sys: R.Phases, m: R.Module, t: nat, u: nat)
    requires |flows| == |m.flows| == R.FLOW_TYPES && u <= R.FLOW_TYPES && t < R.FLOW_TYPES
    requires forall v :: 0 <= v < R.FLOW_TYPES && v != t ==> m.flows[v].None?
    requires m.flows[t].Some?
    ensures R.EngageFlows(flows, sys, m, u).0 <==>
      (u > t || flows[t].None? || R.EngageHandlers(flows[t].value, sys, m.flows[t].value).0)
    decreases R.FLOW_TYPES - u
  {
    if u < R.FLOW_TYPES {
      EngageUnfolds(flows, sys, m, u);
      if u == t && flows[t].Some? {
        var (ok, ps, s) := R.EngageHandlers(flows[t].value, sys, m.flows[t].value);
        OneFlowOnly(flows[t := Some(ps)], s, m, t, u + 1);
      } else {
        OneFlowOnly(flows, sys, m, t, u + 1);
      }
    }
  }

  /** Each flow of a built operation is built from its own list of names: it takes a module's
      handler without a rule exactly when the handler's phase is on that list, or, for a fault
      flow, when there is no such list and so nothing to add to. */
  lemma {:induction false} BuiltTakes(info: PhasesInfo, sys: R.Phases, m: R.Module, t: nat, h: Handler)
    requires |m.flows| == R.FLOW_TYPES && t < R.FLOW_TYPES && m.flows[t] == Some([h])
    requires forall v :: 0 <= v < R.FLOW_TYPES && v != t ==> m.flows[v].None?
    requires !h.rule.first && !h.rule.last && h.rule.before.None? && h.rule.after.None? && !R.IsSystem(h.rule.phase)
    ensures R.EngageFlows(BuiltFlows(info), sys, m, 0).0
       <==> h.rule.phase in NamesFor(info, t) || (t >= 2 && NamesFor(info, t) == [])
  {
    OneFlowOnly(BuiltFlows(info), sys, m, t, 0);
    UserNamesMembers(info.inPhases, h.rule.phase);
    var names := if t == 0 then UserNames(info.inPhases) else NamesFor(info, t);
    EmptyTakes(names, h);
    assert [h][1..] == [];
  }

  /** The list of one flow, new objects all of them. */
  method NewFlow(names: seq<string>, filtered: bool, optional: bool) returns (f: Option<seq<Phase>>)
    ensures f.Some? ==> NoRepeats(f.value) && forall p :: p in f.value ==> fresh(p)
    ensures Flow(f) == if optional && names == [] then None
                       else Some(EmptyPhases(if filtered then UserNames(names) else names))
  {
    if optional && names == [] { return None; }
    var ps;
    if filtered {
      ps := GetOpInPhases(names);
    } else {
      ps := GetOpPhases(names);
    }
    assert States(ps) == EmptyPhases(if filtered then UserNames(names) else names);
    f := Some(ps);
  }

  /** One more flow of phase objects that none of the others uses. */
  lemma OneMoreFlow(flows: seq<Option<seq<Phase>>>, f: Option<seq<Phase>>)
    requires Separate(flows, [])
    requires f.Some? ==> NoRepeats(f.value) && forall p :: p in f.value ==> p !in PhasesOf(flows)
    ensures Separate(flows + [f], [])
    ensures forall p :: p in PhasesOf(flows + [f]) ==> p in PhasesOf(flows) || (f.Some? && p in f.value)
  {
    if f.Some? {
      forall t | 0 <= t < |flows| && flows[t].Some?
        ensures Disjoint(flows[t].value, f.value) && Disjoint(f.value, flows[t].value)
      {
        FlowInside(flows, t);
        forall i, j | 0 <= i < |flows[t].value| && 0 <= j < |f.value| ensures flows[t].value[i] != f.value[j] {
          assert flows[t].value[i] in flows[t].value && f.value[j] in f.value;
        }
      }
    }
  }

  method AddNewFlow(flows: seq<Option<seq<Phase>>>, names: seq<string>, filtered: bool, optional: bool)
      returns (more: seq<Option<seq<Phase>>>)
    requires Separate(flows, [])
    ensures |more| == |flows| + 1 && Separate(more, [])
    ensures forall p :: p in PhasesOf(more) ==> p in PhasesOf(flows) || fresh(p)
    ensures FlowStates(more) == old(FlowStates(flows)) + [if optional && names == [] then None
      else Some(EmptyPhases(if filtered then UserNames(names) else names))]
  {
    var f := NewFlow(names, filtered, optional);
    OneMoreFlow(flows, f);
    more := flows + [f];
  }

  /** axis2_phases_info_set_op_phases: all phase objects of the flows are new. */
  method BuildFlows(info: PhasesInfo) returns (flows: seq<Option<seq<Phase>>>)
    ensures |flows| == R.FLOW_TYPES && Separate(flows, []) && forall p :: p in PhasesOf(flows) ==> fresh(p)
    ensures FlowStates(flows) == BuiltFlows(info)
  {
    flows := [];
    var t := 0;
    while t < R.FLOW_TYPES
      invariant t <= R.FLOW_TYPES && |flows| == t && Separate(flows, [])
      invariant forall p :: p in PhasesOf(flows) ==> fresh(p)
      invariant FlowStates(flows) == BuiltFlows(info)[..t]
    {
      flows := BuildFlowAt(info, flows);
      t := t + 1;
    }
  }

  /** The next one of the four. */
  method BuildFlowAt(info: PhasesInfo, flows: seq<Option<seq<Phase>>>) returns (more: seq<Option<seq<Phase>>>)
    requires |flows| < R.FLOW_TYPES && Separate(flows, []) && FlowStates(flows) == BuiltFlows(info)[..|flows|]
    ensures |more| == |flows| + 1 && Separate(more, []) && FlowStates(more) == BuiltFlows(info)[..|more|]
    ensures forall p :: p in PhasesOf(more) ==> p in PhasesOf(flows) || fresh(p)
  {
    ghost var t := |flows|;
    assert BuiltFlows(info)[..t + 1] == BuiltFlows(info)[..t] + [BuiltFlows(info)[t]];
    match |flows| {
      case 0 => more := AddNewFlow(flows, info.inPhases, true, false);
      case 1 => more := AddNewFlow(flows, info.outPhases, false, false);
      case 2 => more := AddNewFlow(flows, info.inFaultPhases, false, true);
      case _ => more := AddNewFlow(flows, info.outFaultPhases, false, true);
    }
  }

  /** An operation that is built this way. */
  method BuildOperation(info: PhasesInfo) returns (op: Operation)
    ensures fresh(op) && |op.flows| == R.FLOW_TYPES && op.engaged == []
    ensures Separate(op.flows, []) && forall p :: p in PhasesOf(op.flows) ==> fresh(p)
    ensures FlowStates(op.flows) == BuiltFlows(info)
  {
    var flows := BuildFlows(info);
    op := new Operation(flows);
  }

  method BuildTwo(info: PhasesInfo, ghost sys: seq<Phase>) returns (op1: Operation, op2: Operation)
    requires NoRepeats(sys)
    ensures |op1.flows| == |op2.flows| == R.FLOW_TYPES && Separate(op1.flows, sys) && Separate(op2.flows, sys)
    ensures PhasesOf(op1.flows) !! PhasesOf(op2.flows)
    ensures forall p :: p in PhasesOf(op1.flows) || p in PhasesOf(op2.flows) ==> fresh(p)
    ensures FlowStates(op1.flows) == FlowStates(op2.flows) == BuiltFlows(info)
  {
    op1 := BuildOperation(info);
    op2 := BuildOperation(info);
    SeparateFrom(op1.flows, sys);
    SeparateFrom(op2.flows, sys);
  }

  /** Engaging a module to one operation, while the other holds phase objects of its own. */
  method EngageBesides(op: Operation, other: Operation, sys: seq<Phase>, m: R.Module) returns (ok: bool)
    requires |op.flows| == |m.flows| == R.FLOW_TYPES && Separate(op.flows, sys)
    requires PhasesOf(op.flows) !! PhasesOf(other.flows)
    requires forall p :: p in sys ==> p !in PhasesOf(other.flows)
    modifies PhasesOf(op.flows), sys
    ensures FlowStates(other.flows) == old(FlowStates(other.flows))
    ensures (ok, FlowStates(op.flows), States(sys))
         == R.EngageFlows(old(FlowStates(op.flows)), old(States(sys)), m, 0)
  {
    ok := EngageModuleToOp(op, sys, m);
  }

  /** Two operations built from the same phase names, one module engaged to each: neither
      engagement reaches the flows of the other operation; only the system phases are shared. */
  method EngageApart(info: PhasesInfo, sys: seq<Phase>, m1: R.Module, m2: R.Module)
      returns (op1: Operation, op2: Operation, ok1: bool, ok2: bool)
    requires NoRepeats(sys) && |m1.flows| == |m2.flows| == R.FLOW_TYPES
    modifies sys
    ensures var (b1, flows1, sys1) := R.EngageFlows(BuiltFlows(info), old(States(sys)), m1, 0);
      var (b2, flows2, sys2) := R.EngageFlows(BuiltFlows(info), sys1, m2, 0);
      && (ok1, ok2) == (b1, b2)
      && FlowStates(op1.flows) == flows1 && FlowStates(op2.flows) == flows2 && States(sys) == sys2
  {
    op1, op2 := BuildTwo(info, sys);
    ok1 := EngageBesides(op1, op2, sys, m1);
    ok2 := EngageBesides(op2, op1, sys, m2);
  }

  lemma SeparateFrom(flows: seq<Option<seq<Phase>>>, sys: seq<Phase>)
    requires Separate(flows, []) && NoRepeats(sys) && forall p :: p in sys ==> p !in PhasesOf(flows)
    ensures Separate(flows, sys)
  {
    forall t | 0 <= t < |flows| && flows[t].Some? ensures Disjoint(flows[t].value, sys) {
      FlowInside(flows, t);
      forall i, j | 0 <= i < |flows[t].value| && 0 <= j < |sys| ensures flows[t].value[i] != sys[j] {
        assert flows[t].value[i] in flows[t].value && sys[j] in sys;
      }
    }
  }
}
