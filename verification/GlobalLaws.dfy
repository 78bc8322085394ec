/** Engaging a module to the whole configuration, and engaging it to each of its services. */
module GlobalLaws {
  import opened PhaseTypes
  import opened Placement
  import opened Resolver
  import opened ResolverLaws
  import opened EngagementLaws
  import opened ServiceLaws

  // ----- the system phases, which come first ----------------------------------------

  /** The phase h is meant for is there and takes it. */
  predicate Room(ps: Phases, h: Handler) {
    var i := Find(ps, h.rule.phase); i < |ps| && Takes(ps[i], h)
  }

  /** There is room for each handler when its turn comes. */
  predicate RoomInTurn(ps: Phases, hs: seq<Handler>)
    decreases |hs|
  {
    hs == [] || (Room(ps, hs[0]) && RoomInTurn(HolderAdd(ps, hs[0]).1, hs[1..]))
  }

  lemma {:induction false} AddAllExactly(ps: Phases, hs: seq<Handler>)
    ensures AddAll(ps, hs).0 <==> RoomInTurn(ps, hs)
    decreases |hs|
  {
    if hs != [] {
      var i := Find(ps, hs[0].rule.phase);
      if i < |ps| { AcceptsExactly(ps[i], hs[0]); }
      AddAllExactly(HolderAdd(ps, hs[0]).1, hs[1..]);
    }
  }

  /** A handler for the list that names at most one neighbour. */
  predicate OneSided(h: Handler) { Middling(h) && (h.rule.before.None? || h.rule.after.None?) }

  /** For such handlers it is enough to look at the phases as they are before the first is
      added: each is there, not closed, and neither is its last handler the one to come after
      nor its first handler the one to come before. */
  lemma {:induction false} OneSidedUpFront(ps: Phases, hs: seq<Handler>)
    requires forall h :: h in hs ==> OneSided(h)
    ensures RoomInTurn(ps, hs) <==> forall h :: h in hs ==> Room(ps, h)
    decreases |hs|
  {
    if hs != [] {
      var h := hs[0];
      assert h in hs;
      if Room(ps, h) {
        var qs := HolderAdd(ps, h).1;
        OneSidedUpFront(qs, hs[1..]);
        forall g | g in hs[1..] ensures Room(qs, g) <==> Room(ps, g) { FindSame(ps, qs, g.rule.phase); }
      }
      assert forall g :: g in hs <==> g == h || g in hs[1..];
    }
  }

  /** Each flow's list of the configuration has room for the system handlers of that flow. */
  predicate SystemAccepted(conf: seq<Option<Phases>>, m: Module)
    requires |conf| == |m.flows| == FLOW_TYPES
  {
    forall t :: 0 <= t < FLOW_TYPES ==> FlowAccepted(conf, m, t)
  }

  predicate FlowAccepted(conf: seq<Option<Phases>>, m: Module, t: nat)
    requires |conf| == |m.flows| == FLOW_TYPES && t < FLOW_TYPES
  {
    conf[t].Some? && m.flows[t].Some? ==> RoomInTurn(conf[t].value, SystemOnly(m.flows[t].value))
  }

  lemma {:induction false} SystemFlowsExactly(conf: seq<Option<Phases>>, m: Module, t: nat)
    requires |conf| == |m.flows| == FLOW_TYPES && t <= FLOW_TYPES
    ensures AddSystemFlows(conf, m, t).0 <==> forall j :: t <= j < FLOW_TYPES ==> FlowAccepted(conf, m, j)
    decreases FLOW_TYPES - t
  {
    if t < FLOW_TYPES {
      if conf[t].Some? && m.flows[t].Some? {
        var (ok, ps) := AddAll(conf[t].value, SystemOnly(m.flows[t].value));
        AddAllExactly(conf[t].value, SystemOnly(m.flows[t].value));
        if ok {
          var next := conf[t := Some(ps)];
          assert FlowAccepted(conf, m, t) && AddSystemFlows(conf, m, t) == AddSystemFlows(next, m, t + 1);
          SystemFlowsExactly(next, m, t + 1);
          assert forall j :: t + 1 <= j < FLOW_TYPES ==> (FlowAccepted(next, m, j) <==> FlowAccepted(conf, m, j));
        } else {
          assert !FlowAccepted(conf, m, t);
        }
      } else {
        SystemFlowsExactly(conf, m, t + 1);
        assert FlowAccepted(conf, m, t);
      }
    }
  }

  /** Each list of the configuration after the system half succeeded: the old one with the
      system handlers of its own flow added, in order. */
  lemma {:induction false} SystemFlowAt(conf: seq<Option<Phases>>, m: Module, t: nat, j: nat)
    requires |conf| == |m.flows| == FLOW_TYPES && t <= FLOW_TYPES && j < FLOW_TYPES && AddSystemFlows(conf, m, t).0
    ensures AddSystemFlows(conf, m, t).1[j]
         == if j >= t && conf[j].Some? && m.flows[j].Some? then Some(AddAll(conf[j].value, SystemOnly(m.flows[j].value)).1)
            else conf[j]
    decreases FLOW_TYPES - t
  {
    if t < FLOW_TYPES {
      if conf[t].Some? && m.flows[t].Some? {
        var next := conf[t := Some(AddAll(conf[t].value, SystemOnly(m.flows[t].value)).1)];
        assert AddSystemFlows(conf, m, t) == AddSystemFlows(next, m, t + 1);
        SystemFlowAt(next, m, t + 1, j);
      } else {
        SystemFlowAt(conf, m, t + 1, j);
      }
    }
  }

  // ----- one service, whether or not its phases take everything ---------------------

  /** No operation that lacks the module is visited after one that has it. */
  predicate NoGap(ops: seq<Op>, m: Module) {
    forall i, j :: 0 <= i < j < |ops| && Has(ops, m, i) ==> Has(ops, m, j)
  }

  lemma {:induction false} EngageGlobalAny(ops: seq<Op>, engaged: bool, m: Module, i: nat)
    requires AllWellFormed(ops, m) && i < |ops| && EngageGlobal(ops, engaged, m).0
    ensures WellFormed(ops[i], m)
    ensures EngageGlobal(ops, engaged, m).1[i] == if engaged || Stuck(ops, m, i) then ops[i] else EachOp(ops[i], m)
    ensures !engaged && !Stuck(ops, m, i) ==> AcceptsAll(ops[i].flows, m)
    decreases |ops|
  {
    assert WellFormed(ops[0], m);
    var first := Has(ops, m, 0);
    if !first { AddUserFlowsGrow(ops[0].flows, m); }
    if i > 0 {
      StuckTail(ops, m, i);
      EngageGlobalAny(ops[1..], engaged || first, m, i - 1);
    }
  }

  predicate AllEach(ops: seq<Op>, now: seq<Op>, m: Module)
    requires AllWellFormed(ops, m)
  {
    |now| == |ops| && forall i :: 0 <= i < |ops| ==> WellFormed(ops[i], m) && now[i] == EachOp(ops[i], m)
  }

  lemma {:induction false} EachChanges(op: Op, m: Module)
    requires WellFormed(op, m) && m.name !in op.engaged
    ensures EachOp(op, m) != op
  {
    AddNameGrows(op.engaged, m.name);
  }

  /** The flows of an operation have room for the module's user-phase handlers, each in turn. */
  predicate OpRoom(flows: seq<Option<Phases>>, m: Module)
    requires Fits(flows, m)
  {
    forall t :: 0 <= t < FLOW_TYPES ==> FlowRoom(flows, m, t)
  }

  predicate FlowRoom(flows: seq<Option<Phases>>, m: Module, t: nat)
    requires Fits(flows, m) && t < FLOW_TYPES
  {
    flows[t].Some? ==> RoomInTurn(flows[t].value, UserPart(flows, m, t))
  }

  /** So do those of all operations of a service that lack the module. */
  predicate SvcRoom(ops: seq<Op>, m: Module)
    requires AllWellFormed(ops, m)
  {
    forall i :: 0 <= i < |ops| && !Has(ops, m, i) ==> WellFormed(ops[i], m) && OpRoom(ops[i].flows, m)
  }

  lemma {:induction false} OpRoomExactly(flows: seq<Option<Phases>>, m: Module)
    requires Fits(flows, m)
    ensures AcceptsAll(flows, m) <==> OpRoom(flows, m)
  {
    forall t | 0 <= t < FLOW_TYPES ensures Accepts(flows[t], UserPart(flows, m, t)) <==> FlowRoom(flows, m, t) {
      if flows[t].Some? { AddAllExactly(flows[t].value, UserPart(flows, m, t)); }
    }
  }

  lemma {:induction false} SvcRoomExactly(ops: seq<Op>, m: Module)
    requires AllWellFormed(ops, m)
    ensures Willing(ops, m) <==> SvcRoom(ops, m)
  {
    forall i | 0 <= i < |ops| && !Has(ops, m, i)
      ensures WellFormed(ops[i], m) && (AcceptsAll(ops[i].flows, m) <==> OpRoom(ops[i].flows, m))
    {
      OpRoomExactly(ops[i].flows, m);
    }
  }

  /** The pass over one service succeeds and gives every operation what engaging to it alone
      would exactly when all operations that lack the module have room for its handlers and
      none of these operations is visited after one that has it. */
  lemma {:induction false} GlobalSvcExactly(ops: seq<Op>, m: Module)
    requires AllWellFormed(ops, m)
    ensures EngageGlobal(ops, false, m).0 && AllEach(ops, EngageGlobal(ops, false, m).1, m)
       <==> SvcRoom(ops, m) && NoGap(ops, m)
  {
    SvcRoomExactly(ops, m);
    var (ok, now) := EngageGlobal(ops, false, m);
    if ok && AllEach(ops, now, m) {
      forall j | 0 <= j < |ops| && !Has(ops, m, j)
        ensures WellFormed(ops[j], m) && !Stuck(ops, m, j) && AcceptsAll(ops[j].flows, m)
      {
        EngageGlobalAny(ops, false, m, j);
        EachChanges(ops[j], m);
      }
      forall i, j | 0 <= i < j < |ops| && Has(ops, m, i) ensures Has(ops, m, j) {
        assert Stuck(ops, m, j);
      }
    }
    if Willing(ops, m) && NoGap(ops, m) {
      if ops != [] { EngageGlobalAt(ops, false, m, 0); }
      GlobalIsEachExactly(ops, m);
    }
  }

  // ----- all services ---------------------------------------------------------------

  lemma {:induction false} GlobalSvcsAt(svcs: seq<seq<Op>>, m: Module)
    requires ServicesWellFormed(svcs, m)
    ensures EngageGlobalSvcs(svcs, m).0 <==> forall s :: 0 <= s < |svcs| ==> EngageGlobal(svcs[s], false, m).0
    ensures EngageGlobalSvcs(svcs, m).0 ==>
      forall s :: 0 <= s < |svcs| ==> EngageGlobalSvcs(svcs, m).1[s] == EngageGlobal(svcs[s], false, m).1
    decreases |svcs|
  {
    if svcs != [] {
      GlobalSvcsAt(svcs[1..], m);
      assert forall s :: 0 < s < |svcs| ==> svcs[s] == svcs[1..][s - 1];
    }
  }

  /** Every operation of every service is what engaging the module to it alone gives. */
  predicate EverywhereEach(svcs: seq<seq<Op>>, now: seq<seq<Op>>, m: Module)
    requires ServicesWellFormed(svcs, m)
  {
    |now| == |svcs| && forall s :: 0 <= s < |svcs| ==> AllWellFormed(svcs[s], m) && AllEach(svcs[s], now[s], m)
  }

  predicate Ready(svcs: seq<seq<Op>>, m: Module)
    requires ServicesWellFormed(svcs, m)
  {
    forall s :: 0 <= s < |svcs| ==> AllWellFormed(svcs[s], m) && SvcRoom(svcs[s], m) && NoGap(svcs[s], m)
  }

  /** Engaging globally succeeds and gives every operation of every service what engaging to
      it alone would, in whatever order they are visited, exactly when the configuration's own
      lists have room for the module's system handlers, all operations that lack the module
      have room for its others, and in no service such an operation follows one that has it. */
  lemma {:induction false} GlobalExactly(conf: seq<Option<Phases>>, svcs: seq<seq<Op>>, m: Module)
    requires |conf| == FLOW_TYPES && ServicesWellFormed(svcs, m)
    ensures var r := EngageConf(conf, svcs, m);
      r.0 && EverywhereEach(svcs, r.2, m) <==> SystemAccepted(conf, m) && Ready(svcs, m)
  {
    SystemFlowsExactly(conf, m, 0);
    GlobalSvcsAt(svcs, m);
    forall s | 0 <= s < |svcs|
      ensures AllWellFormed(svcs[s], m)
      ensures EngageGlobal(svcs[s], false, m).0 && AllEach(svcs[s], EngageGlobal(svcs[s], false, m).1, m)
         <==> SvcRoom(svcs[s], m) && NoGap(svcs[s], m)
    {
      GlobalSvcExactly(svcs[s], m);
    }
  }

  lemma {:induction false} EngageSvcsIsEach(svcs: seq<seq<Op>>, sys: Phases, m: Module)
    requires ServicesWellFormed(svcs, m) && EngageSvcs(svcs, sys, m).0
    ensures EverywhereEach(svcs, EngageSvcs(svcs, sys, m).1, m)
    ensures forall s :: 0 <= s < |svcs| ==> AllWellFormed(svcs[s], m) && SvcRoom(svcs[s], m)
    decreases |svcs|
  {
    if svcs != [] {
      var (ok, ops, s1) := EngageSvc(svcs[0], sys, m);
      ServiceWilling(svcs[0], sys, m);
      SvcRoomExactly(svcs[0], m);
      forall i | 0 <= i < |ops| ensures WellFormed(svcs[0][i], m) && ops[i] == EachOp(svcs[0][i], m) {
        EngageSvcIsEach(svcs[0], sys, m, i);
      }
      EngageSvcsIsEach(svcs[1..], s1, m);
      assert forall s :: 0 < s < |svcs| ==> svcs[s] == svcs[1..][s - 1];
    }
  }

  /** Where engaging each service succeeds, engaging globally succeeds and leaves all their
      operations the same exactly when the configuration's own lists have room for the module's
      system handlers and no operation without the module is visited after one that has it. */
  lemma {:induction false} GlobalIsEachService(conf: seq<Option<Phases>>, svcs: seq<seq<Op>>, sys: Phases, m: Module)
    requires |conf| == FLOW_TYPES && ServicesWellFormed(svcs, m) && EngageSvcs(svcs, sys, m).0
    ensures var r := EngageConf(conf, svcs, m);
      r.0 && r.2 == EngageSvcs(svcs, sys, m).1
      <==> SystemAccepted(conf, m) && forall s :: 0 <= s < |svcs| ==> NoGap(svcs[s], m)
  {
    GlobalExactly(conf, svcs, m);
    EngageSvcsIsEach(svcs, sys, m);
    SameEach(svcs, EngageConf(conf, svcs, m).2, EngageSvcs(svcs, sys, m).1, m);
  }

  lemma SameEach(svcs: seq<seq<Op>>, a: seq<seq<Op>>, b: seq<seq<Op>>, m: Module)
    requires ServicesWellFormed(svcs, m) && EverywhereEach(svcs, b, m)
    ensures EverywhereEach(svcs, a, m) <==> a == b
  {
    if EverywhereEach(svcs, a, m) {
      forall s | 0 <= s < |svcs| ensures a[s] == b[s] {
        assert AllEach(svcs[s], a[s], m) && AllEach(svcs[s], b[s], m);
      }
    }
  }

  // ----- modules whose handlers name at most one neighbour each ---------------------

  predicate OneSidedModule(m: Module) {
    forall t, h :: 0 <= t < |m.flows| && m.flows[t].Some? && h in m.flows[t].value ==> OneSided(h)
  }

  predicate RoomForAll(ps: Phases, hs: seq<Handler>) {
    forall h :: h in hs ==> Room(ps, h)
  }

  predicate SystemUpFront(conf: seq<Option<Phases>>, m: Module)
    requires |conf| == |m.flows| == FLOW_TYPES
  {
    forall t :: 0 <= t < FLOW_TYPES && conf[t].Some? && m.flows[t].Some? ==>
      RoomForAll(conf[t].value, SystemOnly(m.flows[t].value))
  }

  predicate OpUpFront(flows: seq<Option<Phases>>, m: Module)
    requires Fits(flows, m)
  {
    forall t :: 0 <= t < FLOW_TYPES && flows[t].Some? ==> RoomForAll(flows[t].value, UserPart(flows, m, t))
  }

  predicate SvcUpFront(ops: seq<Op>, m: Module)
    requires AllWellFormed(ops, m)
  {
    forall i :: 0 <= i < |ops| && !Has(ops, m, i) ==> WellFormed(ops[i], m) && OpUpFront(ops[i].flows, m)
  }

  lemma {:induction false} PartsInside(hs: seq<Handler>, h: Handler)
    ensures h in UserOnly(hs) || h in SystemOnly(hs) ==> h in hs
  {
    if hs != [] { PartsInside(hs[1..], h); }
  }

  /** For such modules all conditions can be checked before anything is added. */
  lemma {:induction false} UpFrontExactly(conf: seq<Option<Phases>>, m: Module)
    requires |conf| == |m.flows| == FLOW_TYPES && OneSidedModule(m)
    ensures SystemAccepted(conf, m) <==> SystemUpFront(conf, m)
  {
    forall t | 0 <= t < FLOW_TYPES && conf[t].Some? && m.flows[t].Some?
      ensures FlowAccepted(conf, m, t) <==> RoomForAll(conf[t].value, SystemOnly(m.flows[t].value))
    {
      forall h | h in SystemOnly(m.flows[t].value) ensures OneSided(h) { PartsInside(m.flows[t].value, h); }
      OneSidedUpFront(conf[t].value, SystemOnly(m.flows[t].value));
    }
  }

  lemma {:induction false} OpUpFrontExactly(flows: seq<Option<Phases>>, m: Module)
    requires Fits(flows, m) && OneSidedModule(m)
    ensures OpRoom(flows, m) <==> OpUpFront(flows, m)
  {
    forall t | 0 <= t < FLOW_TYPES && flows[t].Some?
      ensures FlowRoom(flows, m, t) <==> RoomForAll(flows[t].value, UserPart(flows, m, t))
    {
      forall h | h in UserPart(flows, m, t) ensures OneSided(h) { PartsInside(m.flows[t].value, h); }
      OneSidedUpFront(flows[t].value, UserPart(flows, m, t));
    }
  }

  lemma {:induction false} SvcUpFrontExactly(ops: seq<Op>, m: Module)
    requires AllWellFormed(ops, m) && OneSidedModule(m)
    ensures SvcRoom(ops, m) <==> SvcUpFront(ops, m)
  {
    forall i | 0 <= i < |ops| && !Has(ops, m, i)
      ensures WellFormed(ops[i], m) && (OpRoom(ops[i].flows, m) <==> OpUpFront(ops[i].flows, m))
    {
      OpUpFrontExactly(ops[i].flows, m);
    }
  }

  /** For a module whose handlers are for the list and name at most one neighbour each, as the
      addressing module's do: what to look at before engaging it globally. */
  lemma {:induction false} GlobalExactlyUpFront(conf: seq<Option<Phases>>, svcs: seq<seq<Op>>, m: Module)
    requires |conf| == FLOW_TYPES && ServicesWellFormed(svcs, m) && OneSidedModule(m)
    ensures var r := EngageConf(conf, svcs, m);
      r.0 && EverywhereEach(svcs, r.2, m)
      <==> SystemUpFront(conf, m) && forall s :: 0 <= s < |svcs| ==>
             AllWellFormed(svcs[s], m) && SvcUpFront(svcs[s], m) && NoGap(svcs[s], m)
  {
    GlobalExactly(conf, svcs, m);
    UpFrontExactly(conf, m);
    forall s | 0 <= s < |svcs| ensures AllWellFormed(svcs[s], m) && (SvcRoom(svcs[s], m) <==> SvcUpFront(svcs[s], m)) {
      SvcUpFrontExactly(svcs[s], m);
    }
  }

  /** The same for engaging globally and to each service. */
  lemma {:induction false} GlobalIsEachServiceUpFront(conf: seq<Option<Phases>>, svcs: seq<seq<Op>>, sys: Phases, m: Module)
    requires |conf| == FLOW_TYPES && ServicesWellFormed(svcs, m) && EngageSvcs(svcs, sys, m).0 && OneSidedModule(m)
    ensures var r := EngageConf(conf, svcs, m);
      r.0 && r.2 == EngageSvcs(svcs, sys, m).1
      <==> SystemUpFront(conf, m) && forall s :: 0 <= s < |svcs| ==> NoGap(svcs[s], m)
  {
    GlobalIsEachService(conf, svcs, sys, m);
    UpFrontExactly(conf, m);
  }

  // ----- where the two differ -------------------------------------------------------

  /** A module with a handler for the transport phase in its out fault flow: the global pass
      looks for that phase among the out fault phases and fails before it reaches any service,
      while engaging to the service puts the handler into the in phases. */
  lemma FaultOutTransport()
    ensures var h := Handler("h", Rule("Transport", None, None, false, false));
      var m := Module("m", [None, None, None, Some([h])]);
      var op := Op([Some([]), Some([]), Some([]), Some([])], []);
      var ins := [PhaseState("Transport", None, [], None, false)];
      var conf := [Some(ins), None, None, Some([PhaseState("MessageOut", None, [], None, false)])];
      && EngageConf(conf, [[op]], m) == (false, conf, [[op]])
      && EngageSvcs([[op]], ins, m)
         == (true, [[op.(engaged := ["m"])]], [PhaseState("Transport", None, [h], None, false)])
  {
    var h := Handler("h", Rule("Transport", None, None, false, false));
    var m := Module("m", [None, None, None, Some([h])]);
    var op := Op([Some([]), Some([]), Some([]), Some([])], []);
    var ins, later := [PhaseState("Transport", None, [], None, false)], [PhaseState("Transport", None, [h], None, false)];
    var outs := [PhaseState("MessageOut", None, [], None, false)];
    var conf := [Some(ins), None, None, Some(outs)];
    assert SystemOnly([h]) == [h] + [] == [h];
    assert Find(outs, "Transport") == 1 && HolderAdd(outs, h) == (false, outs) && AddAll(outs, [h]) == (false, outs);
    assert conf[3 := Some(outs)] == conf;
    assert AddSystemFlows(conf, m, 3) == (false, conf) && AddSystemFlows(conf, m, 2) == (false, conf);
    assert AddSystemFlows(conf, m, 1) == (false, conf) && AddSystemFlows(conf, m, 0) == (false, conf);
    assert AddDesc(ins[0], h) == (true, later[0]) by { assert AddUnique([], h) == [h]; }
    assert ins[0 := later[0]] == later && HolderAdd(ins, h) == (true, later);
    assert EngageHandlers([], later, []) == (true, [], later) && [h][1..] == [];
    assert EngageHandlers([], ins, [h]) == (true, [], later);
    assert op.flows[3 := Some([])] == op.flows;
    assert EngageFlows(op.flows, later, m, 4) == (true, op.flows, later);
    assert EngageFlows(op.flows, ins, m, 3) == (true, op.flows, later);
    assert EngageFlows(op.flows, ins, m, 2) == (true, op.flows, later);
    assert EngageFlows(op.flows, ins, m, 1) == (true, op.flows, later);
    assert EngageSvc([], later, m) == (true, [], later);
    SvcStep(op, [], ins, later, m, []);
    assert [op] + [] == [op] && [op.(engaged := ["m"])] + [] == [op.(engaged := ["m"])];
    assert EngageSvc([op], ins, m) == (true, [op.(engaged := ["m"])], later);
    assert [[op]][1..] == [] && EngageSvcs([], later, m) == (true, [], later);
    assert [[op.(engaged := ["m"])]] + [] == [[op.(engaged := ["m"])]];
  }
}
