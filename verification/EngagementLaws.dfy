/** What engaging and disengaging modules does to whole operations, services and configurations. */
module EngagementLaws {
  import opened PhaseTypes
  import opened Placement
  import opened Resolver
  import opened ResolverLaws

  // ----- what a successful engagement is --------------------------------------------

  lemma {:induction false} AddAllConcat(ps: Phases, a: seq<Handler>, b: seq<Handler>)
    ensures AddAll(ps, a + b) == if AddAll(ps, a).0 then AddAll(AddAll(ps, a).1, b) else AddAll(ps, a)
    decreases |a|
  {
    if a == [] {
      assert a + b == b;
    } else {
      assert (a + b)[1..] == a[1..] + b;
      AddAllConcat(HolderAdd(ps, a[0]).1, a[1..], b);
    }
  }

  lemma {:induction false} RemoveAllConcat(ps: Phases, a: seq<Handler>, b: seq<Handler>)
    ensures RemoveAll(ps, a + b) == if RemoveAll(ps, a).0 then RemoveAll(RemoveAll(ps, a).1, b) else RemoveAll(ps, a)
    decreases |a|
  {
    if a == [] {
      assert a + b == b;
    } else {
      assert (a + b)[1..] == a[1..] + b;
      RemoveAllConcat(HolderRemove(ps, a[0]).1, a[1..], b);
    }
  }

  lemma Drop1(h: Handler, hs: seq<Handler>)
    ensures ([h] + hs)[1..] == hs && [] + hs == hs
  {
  }

  /** One flow succeeds exactly when its two halves do, each on its own list of phases. */
  lemma {:induction false} EngageSplits(ps: Phases, sys: Phases, hs: seq<Handler>)
    ensures var u, s := AddAll(ps, UserOnly(hs)), AddAll(sys, SystemOnly(hs));
      && (EngageHandlers(ps, sys, hs).0 <==> u.0 && s.0)
      && (u.0 && s.0 ==> EngageHandlers(ps, sys, hs) == (true, u.1, s.1))
    decreases |hs|
  {
    if hs != [] {
      Drop1(hs[0], UserOnly(hs[1..]));
      Drop1(hs[0], SystemOnly(hs[1..]));
      if IsSystem(hs[0].rule.phase) {
        EngageSplits(ps, HolderAdd(sys, hs[0]).1, hs[1..]);
      } else {
        EngageSplits(HolderAdd(ps, hs[0]).1, sys, hs[1..]);
      }
    }
  }

  lemma {:induction false} DisengageSplits(ps: Phases, sys: Phases, hs: seq<Handler>)
    ensures var u, s := RemoveAll(ps, UserOnly(hs)), RemoveAll(sys, SystemOnly(hs));
      u.0 && s.0 ==> DisengageHandlers(ps, sys, hs) == (true, u.1, s.1)
    decreases |hs|
  {
    if hs != [] {
      Drop1(hs[0], UserOnly(hs[1..]));
      Drop1(hs[0], SystemOnly(hs[1..]));
      if IsSystem(hs[0].rule.phase) {
        DisengageSplits(ps, HolderRemove(sys, hs[0]).1, hs[1..]);
      } else {
        DisengageSplits(HolderRemove(ps, hs[0]).1, sys, hs[1..]);
      }
    }
  }

  predicate Fits(flows: seq<Option<Phases>>, m: Module) { |flows| == |m.flows| == FLOW_TYPES }

  predicate Both(flows: seq<Option<Phases>>, m: Module, t: nat)
    requires Fits(flows, m) && t < FLOW_TYPES
  {
    flows[t].Some? && m.flows[t].Some?
  }

  /** The user-phase handlers module m adds to flow t of an operation. */
  function UserPart(flows: seq<Option<Phases>>, m: Module, t: nat): seq<Handler>
    requires Fits(flows, m) && t < FLOW_TYPES
  {
    if Both(flows, m, t) then UserOnly(m.flows[t].value) else []
  }

  /** The system-phase handlers it adds to the configuration, from flow t on. */
  function SystemPart(flows: seq<Option<Phases>>, m: Module, t: nat): seq<Handler>
    requires Fits(flows, m) && t <= FLOW_TYPES
    decreases FLOW_TYPES - t
  {
    if t == FLOW_TYPES then []
    else (if Both(flows, m, t) then SystemOnly(m.flows[t].value) else []) + SystemPart(flows, m, t + 1)
  }

  /** A flow after its additions all succeeded. */
  function Grown(flow: Option<Phases>, hs: seq<Handler>): Option<Phases> {
    if flow.None? then None else Some(AddAll(flow.value, hs).1)
  }

  predicate Accepts(flow: Option<Phases>, hs: seq<Handler>) {
    flow.Some? ==> AddAll(flow.value, hs).0
  }

  /** Each flow of a successful engagement is the old one with the module's handlers added. */
  lemma {:induction false} EngageFlowAt(flows: seq<Option<Phases>>, sys: Phases, m: Module, t: nat, j: nat)
    requires Fits(flows, m) && t <= FLOW_TYPES && j < FLOW_TYPES && EngageFlows(flows, sys, m, t).0
    ensures j < t ==> EngageFlows(flows, sys, m, t).1[j] == flows[j]
    ensures j >= t ==> EngageFlows(flows, sys, m, t).1[j] == Grown(flows[j], UserPart(flows, m, j))
    ensures j >= t ==> Accepts(flows[j], UserPart(flows, m, j))
    decreases FLOW_TYPES - t
  {
    if t < FLOW_TYPES {
      if !Both(flows, m, t) {
        EngageFlowAt(flows, sys, m, t + 1, j);
      } else {
        EngageSplits(flows[t].value, sys, m.flows[t].value);
        var (ok, ps, s) := EngageHandlers(flows[t].value, sys, m.flows[t].value);
        EngageFlowAt(flows[t := Some(ps)], s, m, t + 1, j);
      }
    }
  }

  lemma {:induction false} EngageSystem(flows: seq<Option<Phases>>, sys: Phases, m: Module, t: nat)
    requires Fits(flows, m) && t <= FLOW_TYPES && EngageFlows(flows, sys, m, t).0
    ensures AddAll(sys, SystemPart(flows, m, t)) == (true, EngageFlows(flows, sys, m, t).2)
    decreases FLOW_TYPES - t
  {
    if t < FLOW_TYPES {
      if !Both(flows, m, t) {
        EngageSystem(flows, sys, m, t + 1);
        assert [] + SystemPart(flows, m, t + 1) == SystemPart(flows, m, t + 1);
      } else {
        EngageSplits(flows[t].value, sys, m.flows[t].value);
        var (ok, ps, s) := EngageHandlers(flows[t].value, sys, m.flows[t].value);
        var fs := flows[t := Some(ps)];
        EngageSystem(fs, s, m, t + 1);
        SystemPartSame(flows, fs, m, t + 1);
        AddAllConcat(sys, SystemOnly(m.flows[t].value), SystemPart(flows, m, t + 1));
      }
    }
  }

  lemma {:induction false} SystemPartSame(a: seq<Option<Phases>>, b: seq<Option<Phases>>, m: Module, t: nat)
    requires Fits(a, m) && Fits(b, m) && t <= FLOW_TYPES
    requires forall j :: t <= j < FLOW_TYPES ==> a[j].Some? == b[j].Some?
    ensures SystemPart(a, m, t) == SystemPart(b, m, t)
    decreases FLOW_TYPES - t
  {
    if t < FLOW_TYPES { SystemPartSame(a, b, m, t + 1); }
  }

  /** A flow after handlers were taken away. */
  function Shrunk(flow: Option<Phases>, hs: seq<Handler>): Option<Phases> {
    if flow.None? then None else Some(RemoveAll(flow.value, hs).1)
  }

  /** The flows behind flow t, and the system phases they reach, are as before the step at t. */
  lemma AfterStep(flows: seq<Option<Phases>>, sys: Phases, s: Phases, m: Module, t: nat, ps: Phases)
      returns (fs: seq<Option<Phases>>)
    requires Fits(flows, m) && t < FLOW_TYPES && flows[t].Some? && SameNames(sys, s)
    requires forall j :: t <= j < FLOW_TYPES ==> Reaches(flows[j], UserPart(flows, m, j))
    requires AllFound(sys, SystemPart(flows, m, t + 1))
    ensures fs == flows[t := Some(ps)]
    ensures forall j :: t + 1 <= j < FLOW_TYPES ==> Reaches(fs[j], UserPart(fs, m, j))
    ensures AllFound(s, SystemPart(fs, m, t + 1))
  {
    fs := flows[t := Some(ps)];
    SystemPartSame(flows, fs, m, t + 1);
    FoundSame(sys, s, SystemPart(flows, m, t + 1));
    forall j | t + 1 <= j < FLOW_TYPES ensures Reaches(fs[j], UserPart(fs, m, j)) {
      assert Reaches(flows[j], UserPart(flows, m, j));
    }
  }

  /** A disengagement succeeds when the phases of all handlers are there. */
  lemma {:induction false} DisengageOk(flows: seq<Option<Phases>>, sys: Phases, m: Module, t: nat)
    requires Fits(flows, m) && t <= FLOW_TYPES
    requires forall j :: t <= j < FLOW_TYPES ==> Reaches(flows[j], UserPart(flows, m, j))
    requires AllFound(sys, SystemPart(flows, m, t))
    ensures DisengageFlows(flows, sys, m, t).0
    decreases FLOW_TYPES - t
  {
    if t < FLOW_TYPES {
      if !Both(flows, m, t) {
        assert [] + SystemPart(flows, m, t + 1) == SystemPart(flows, m, t + 1);
        DisengageOk(flows, sys, m, t + 1);
      } else {
        FoundParts(sys, SystemOnly(m.flows[t].value), SystemPart(flows, m, t + 1));
        assert Reaches(flows[t], UserPart(flows, m, t));
        DisengageStep(flows[t].value, sys, m.flows[t].value);
        var (ok, ps, s) := DisengageHandlers(flows[t].value, sys, m.flows[t].value);
        var fs := AfterStep(flows, sys, s, m, t, ps);
        DisengageOk(fs, s, m, t + 1);
      }
    }
  }

  lemma {:induction false} DisengageSystem(flows: seq<Option<Phases>>, sys: Phases, m: Module, t: nat)
    requires Fits(flows, m) && t <= FLOW_TYPES && DisengageFlows(flows, sys, m, t).0
    ensures RemoveAll(sys, SystemPart(flows, m, t)) == (true, DisengageFlows(flows, sys, m, t).2)
    decreases FLOW_TYPES - t
  {
    if t < FLOW_TYPES {
      if !Both(flows, m, t) {
        assert [] + SystemPart(flows, m, t + 1) == SystemPart(flows, m, t + 1);
        DisengageSystem(flows, sys, m, t + 1);
      } else {
        DisengageParts(flows[t].value, sys, m.flows[t].value);
        var (ok, ps, s) := DisengageHandlers(flows[t].value, sys, m.flows[t].value);
        var fs := flows[t := Some(ps)];
        DisengageSystem(fs, s, m, t + 1);
        SystemPartSame(flows, fs, m, t + 1);
        RemoveAllConcat(sys, SystemOnly(m.flows[t].value), SystemPart(flows, m, t + 1));
      }
    }
  }

  predicate Reaches(flow: Option<Phases>, hs: seq<Handler>) {
    flow.Some? ==> AllFound(flow.value, hs)
  }

  lemma FoundParts(ps: Phases, a: seq<Handler>, b: seq<Handler>)
    requires AllFound(ps, a + b)
    ensures AllFound(ps, a) && AllFound(ps, b)
  {
    forall h | h in a || h in b ensures h in a + b {
    }
  }

  lemma FoundSame(a: Phases, b: Phases, hs: seq<Handler>)
    requires SameNames(a, b) && AllFound(a, hs)
    ensures AllFound(b, hs)
  {
    forall h | h in hs ensures Find(b, h.rule.phase) < |b| { FindSame(a, b, h.rule.phase); }
  }

  lemma {:induction false} DisengageStep(ps: Phases, sys: Phases, hs: seq<Handler>)
    requires AllFound(ps, UserOnly(hs)) && AllFound(sys, SystemOnly(hs))
    ensures DisengageHandlers(ps, sys, hs)
         == (true, RemoveAll(ps, UserOnly(hs)).1, RemoveAll(sys, SystemOnly(hs)).1)
    ensures RemoveAll(sys, SystemOnly(hs)).0 && SameNames(sys, RemoveAll(sys, SystemOnly(hs)).1)
  {
    RemoveAllOk(ps, UserOnly(hs));
    RemoveAllOk(sys, SystemOnly(hs));
    DisengageSplits(ps, sys, hs);
  }

  lemma {:induction false} DisengageFlowAt(flows: seq<Option<Phases>>, sys: Phases, m: Module, t: nat, j: nat)
    requires Fits(flows, m) && t <= FLOW_TYPES && j < FLOW_TYPES && DisengageFlows(flows, sys, m, t).0
    ensures j < t ==> DisengageFlows(flows, sys, m, t).1[j] == flows[j]
    ensures j >= t ==> DisengageFlows(flows, sys, m, t).1[j] == Shrunk(flows[j], UserPart(flows, m, j))
    decreases FLOW_TYPES - t
  {
    if t < FLOW_TYPES {
      if !Both(flows, m, t) {
        DisengageFlowAt(flows, sys, m, t + 1, j);
      } else {
        DisengageParts(flows[t].value, sys, m.flows[t].value);
        var (ok, ps, s) := DisengageHandlers(flows[t].value, sys, m.flows[t].value);
        var fs := flows[t := Some(ps)];
        assert DisengageFlows(flows, sys, m, t) == DisengageFlows(fs, s, m, t + 1);
        DisengageFlowAt(fs, s, m, t + 1, j);
        assert j > t ==> fs[j] == flows[j] && UserPart(fs, m, j) == UserPart(flows, m, j);
      }
    }
  }

  lemma {:induction false} DisengageParts(ps: Phases, sys: Phases, hs: seq<Handler>)
    requires DisengageHandlers(ps, sys, hs).0
    ensures DisengageHandlers(ps, sys, hs).1 == RemoveAll(ps, UserOnly(hs)).1
    ensures RemoveAll(sys, SystemOnly(hs)) == (true, DisengageHandlers(ps, sys, hs).2)
    decreases |hs|
  {
    if hs != [] {
      Drop1(hs[0], UserOnly(hs[1..]));
      Drop1(hs[0], SystemOnly(hs[1..]));
      if IsSystem(hs[0].rule.phase) {
        DisengageParts(ps, HolderRemove(sys, hs[0]).1, hs[1..]);
      } else {
        DisengageParts(HolderRemove(ps, hs[0]).1, sys, hs[1..]);
      }
    }
  }

  // ----- engage, then disengage -----------------------------------------------------

  /** No phase of the operation already holds a handler with the name of one the module
      would put into that phase. */
  predicate FreshUsers(flows: seq<Option<Phases>>, m: Module)
    requires Fits(flows, m)
  {
    forall t :: 0 <= t < FLOW_TYPES && flows[t].Some? ==> FreshAll(flows[t].value, UserPart(flows, m, t))
  }

  predicate MiddlingUsers(flows: seq<Option<Phases>>, m: Module)
    requires Fits(flows, m)
  {
    forall t :: 0 <= t < FLOW_TYPES ==> AllMiddling(UserPart(flows, m, t))
  }

  lemma {:induction false} FlowUndone(flow: Option<Phases>, hs: seq<Handler>)
    requires Accepts(flow, hs) && (flow.Some? ==> FreshAll(flow.value, hs)) && (flow.None? ==> hs == [])
    ensures Shrunk(Grown(flow, hs), hs) == flow <==> AllMiddling(hs)
  {
    if flow.Some? { RemoveAllUndoesAddAll(flow.value, hs); }
  }

  /** The phases flow j needs for taking the handlers away are there after the engagement. */
  lemma {:induction false} FlowReaches(flows: seq<Option<Phases>>, sys: Phases, m: Module, j: nat)
    requires Fits(flows, m) && EngageFlows(flows, sys, m, 0).0 && j < FLOW_TYPES
    ensures var fs, us := EngageFlows(flows, sys, m, 0).1, UserPart(flows, m, j);
      fs[j].Some? == flows[j].Some? && UserPart(fs, m, j) == us && Reaches(fs[j], us)
  {
    EngageFlowAt(flows, sys, m, 0, j);
    if flows[j].Some? { AddAllFound(flows[j].value, UserPart(flows, m, j)); }
  }

  /** Flow j after a successful engagement, and after taking the same handlers away again. */
  lemma {:induction false} FlowBack(flows: seq<Option<Phases>>, sys: Phases, m: Module, j: nat)
    requires Fits(flows, m) && FreshUsers(flows, m) && EngageFlows(flows, sys, m, 0).0 && j < FLOW_TYPES
    ensures var fs, us := EngageFlows(flows, sys, m, 0).1, UserPart(flows, m, j);
      Shrunk(fs[j], us) == flows[j] <==> AllMiddling(us)
  {
    EngageFlowAt(flows, sys, m, 0, j);
    FlowUndone(flows[j], UserPart(flows, m, j));
  }

  /** Disengaging after a successful engagement succeeds, whatever has been added to the
      system phases meanwhile and whatever the phases held before. */
  lemma {:induction false} DisengageWorks(flows: seq<Option<Phases>>, sys: Phases, now: Phases, m: Module)
    requires Fits(flows, m) && EngageFlows(flows, sys, m, 0).0 && SameNames(sys, now)
    ensures var fs := EngageFlows(flows, sys, m, 0).1;
      && DisengageFlows(fs, now, m, 0).0
      && SystemPart(fs, m, 0) == SystemPart(flows, m, 0)
      && SameNames(now, DisengageFlows(fs, now, m, 0).2)
  {
    var fs := EngageFlows(flows, sys, m, 0).1;
    EngageSystem(flows, sys, m, 0);
    AddAllFound(sys, SystemPart(flows, m, 0));
    forall j | 0 <= j < FLOW_TYPES
      ensures fs[j].Some? == flows[j].Some? && Reaches(fs[j], UserPart(fs, m, j))
    {
      FlowReaches(flows, sys, m, j);
    }
    SystemPartSame(flows, fs, m, 0);
    FoundSame(sys, now, SystemPart(flows, m, 0));
    DisengageOk(fs, now, m, 0);
    DisengageSystem(fs, now, m, 0);
    RemoveAllOk(now, SystemPart(fs, m, 0));
  }

  /** Disengaging after a successful engagement gives all four flows of the operation back
      exactly when no handler the module put into them was marked first or last. */
  lemma {:induction false} DisengageRestoresFlows(flows: seq<Option<Phases>>, sys: Phases, now: Phases, m: Module)
    requires Fits(flows, m) && FreshUsers(flows, m) && EngageFlows(flows, sys, m, 0).0 && SameNames(sys, now)
    ensures var d := DisengageFlows(EngageFlows(flows, sys, m, 0).1, now, m, 0);
      d.0 && (d.1 == flows <==> MiddlingUsers(flows, m))
  {
    DisengageWorks(flows, sys, now, m);
    var fs := EngageFlows(flows, sys, m, 0).1;
    var d := DisengageFlows(fs, now, m, 0).1;
    forall j | 0 <= j < FLOW_TYPES ensures d[j] == flows[j] <==> AllMiddling(UserPart(flows, m, j)) {
      DisengageFlowAt(fs, now, m, 0, j);
      FlowReaches(flows, sys, m, j);
      FlowBack(flows, sys, m, j);
    }
    assert d == flows <==> forall j :: 0 <= j < FLOW_TYPES ==> d[j] == flows[j];
  }

  /** Disengaging right after a successful engagement gives the configuration's system phases
      back exactly when no handler the module put into them was marked first or last. */
  lemma {:induction false} DisengageRestoresSystem(flows: seq<Option<Phases>>, sys: Phases, m: Module)
    requires Fits(flows, m) && FreshAll(sys, SystemPart(flows, m, 0)) && EngageFlows(flows, sys, m, 0).0
    ensures var e := EngageFlows(flows, sys, m, 0);
      DisengageFlows(e.1, e.2, m, 0).2 == sys <==> AllMiddling(SystemPart(flows, m, 0))
  {
    var e := EngageFlows(flows, sys, m, 0);
    EngageSystem(flows, sys, m, 0);
    AddAllFound(sys, SystemPart(flows, m, 0));
    DisengageWorks(flows, sys, e.2, m);
    DisengageSystem(e.1, e.2, m, 0);
    RemoveAllUndoesAddAll(sys, SystemPart(flows, m, 0));
  }

  // ----- other modules' handlers ----------------------------------------------------

  /** What is left of a list of phases when handlers of the given names are not looked at. */
  predicate SameBut(a: Phases, b: Phases, names: set<string>) {
    && SameNames(a, b)
    && forall i :: 0 <= i < |a| ==>
      && Keep(a[i].handlers, names) == Keep(b[i].handlers, names)
      && a[i].first == b[i].first && a[i].last == b[i].last && a[i].single == b[i].single
  }

  lemma {:induction false} RemoveSameBut(ps: Phases, h: Handler, names: set<string>)
    requires h.name in names
    ensures SameBut(ps, HolderRemove(ps, h).1, names)
  {
    var i := Find(ps, h.rule.phase);
    if i < |ps| { RemoveKeeps(ps[i].handlers, h, names, ""); }
  }

  lemma SameButTrans(a: Phases, b: Phases, c: Phases, names: set<string>)
    requires SameBut(a, b, names) && SameBut(b, c, names)
    ensures SameBut(a, c, names)
  {
  }

  /** Taking a module away, from any state and even half-way, removes and reorders nothing
      that does not carry the name of one of its handlers. */
  lemma {:induction false} DisengageTouchesNoOther(ps: Phases, sys: Phases, hs: seq<Handler>, names: set<string>)
    requires forall h :: h in hs ==> h.name in names
    ensures var d := DisengageHandlers(ps, sys, hs); SameBut(ps, d.1, names) && SameBut(sys, d.2, names)
    decreases |hs|
  {
    if hs != [] {
      assert hs[0] in hs;
      var d := DisengageHandlers(ps, sys, hs);
      if IsSystem(hs[0].rule.phase) {
        var s := HolderRemove(sys, hs[0]).1;
        RemoveSameBut(sys, hs[0], names);
        DisengageTouchesNoOther(ps, s, hs[1..], names);
        SameButTrans(sys, s, DisengageHandlers(ps, s, hs[1..]).2, names);
      } else {
        var q := HolderRemove(ps, hs[0]).1;
        RemoveSameBut(ps, hs[0], names);
        DisengageTouchesNoOther(q, sys, hs[1..], names);
        SameButTrans(ps, q, DisengageHandlers(q, sys, hs[1..]).1, names);
      }
    }
  }
}
