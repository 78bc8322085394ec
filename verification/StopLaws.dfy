/** Engagements and disengagements that fail: they stop at the first handler for which there is
    no room, and leave what doing it up to there would leave. */
module StopLaws {
  import opened PhaseTypes
  import opened Placement
  import opened Resolver
  import opened ResolverLaws
  import opened EngagementLaws
  import opened ServiceLaws
  import opened GlobalLaws

  // ----- one list of handlers -------------------------------------------------------

  lemma HolderRefuses(ps: Phases, h: Handler)
    ensures HolderAdd(ps, h).0 <==> Room(ps, h)
    ensures !HolderAdd(ps, h).0 ==> HolderAdd(ps, h).1 == ps
  {
    var i := Find(ps, h.rule.phase);
    if i < |ps| { AcceptsExactly(ps[i], h); }
  }

  lemma Prefix<T>(s: seq<T>, k: nat)
    requires 0 < k <= |s|
    ensures s[..k][0] == s[0] && s[..k][1..] == s[1..][..k - 1]
  {
  }

  /** One flow of an operation. */
  lemma {:induction false} EngageHandlersStops(ps: Phases, sys: Phases, hs: seq<Handler>) returns (k: nat)
    requires !EngageHandlers(ps, sys, hs).0
    ensures k < |hs|
    ensures var (ok, q, s) := EngageHandlers(ps, sys, hs[..k]);
      && ok && EngageHandlers(ps, sys, hs) == (false, q, s)
      && !Room(if IsSystem(hs[k].rule.phase) then s else q, hs[k])
    decreases |hs|
  {
    var h := hs[0];
    var list := if IsSystem(h.rule.phase) then sys else ps;
    HolderRefuses(list, h);
    if HolderAdd(list, h).0 {
      var next := HolderAdd(list, h).1;
      var j: nat;
      if IsSystem(h.rule.phase) {
        j := EngageHandlersStops(ps, next, hs[1..]);
      } else {
        j := EngageHandlersStops(next, sys, hs[1..]);
      }
      k := j + 1;
      Prefix(hs, k);
    } else {
      k := 0;
    }
  }

  /** A removal fails at the first handler whose phase is missing. */
  lemma {:induction false} DisengageHandlersStops(ps: Phases, sys: Phases, hs: seq<Handler>) returns (k: nat)
    requires !DisengageHandlers(ps, sys, hs).0
    ensures k < |hs|
    ensures var (ok, q, s) := DisengageHandlers(ps, sys, hs[..k]);
      && ok && DisengageHandlers(ps, sys, hs) == (false, q, s)
      && var list := if IsSystem(hs[k].rule.phase) then s else q; Find(list, hs[k].rule.phase) == |list|
    decreases |hs|
  {
    var h := hs[0];
    var list := if IsSystem(h.rule.phase) then sys else ps;
    if HolderRemove(list, h).0 {
      var next := HolderRemove(list, h).1;
      var j: nat;
      if IsSystem(h.rule.phase) {
        j := DisengageHandlersStops(ps, next, hs[1..]);
      } else {
        j := DisengageHandlersStops(next, sys, hs[1..]);
      }
      k := j + 1;
      Prefix(hs, k);
    } else {
      k := 0;
    }
  }

  // ----- the flows of one operation -------------------------------------------------

  /** The module cut off before handler k of flow t. */
  function Cut(m: Module, t: nat, k: nat): (r: Module)
    requires |m.flows| == FLOW_TYPES && t < FLOW_TYPES && m.flows[t].Some? && k <= |m.flows[t].value|
    ensures |r.flows| == FLOW_TYPES && r.name == m.name
    ensures forall v :: 0 <= v < FLOW_TYPES ==>
      r.flows[v] == if v < t then m.flows[v] else if v == t then Some(m.flows[t].value[..k]) else None
  {
    Module(m.name, seq(FLOW_TYPES, v requires 0 <= v < FLOW_TYPES =>
      if v < t then m.flows[v] else if v == t then Some(m.flows[t].value[..k]) else None))
  }

  lemma {:induction false} NothingMore(flows: seq<Option<Phases>>, sys: Phases, m: Module, u: nat)
    requires Fits(flows, m) && u <= FLOW_TYPES && forall v :: u <= v < FLOW_TYPES ==> m.flows[v].None?
    ensures EngageFlows(flows, sys, m, u) == (true, flows, sys)
    ensures DisengageFlows(flows, sys, m, u) == (true, flows, sys)
    ensures AddUserFlows(flows, m, u) == (true, flows) && AddSystemFlows(flows, m, u) == (true, flows)
    decreases FLOW_TYPES - u
  {
    if u < FLOW_TYPES { NothingMore(flows, sys, m, u + 1); }
  }

  /** Handler k of flow t is the first without room: what is left is what engaging the module
      cut off before it leaves. */
  predicate EngageStopsAt(flows: seq<Option<Phases>>, sys: Phases, m: Module, u: nat, t: nat, k: nat)
    requires Fits(flows, m) && u <= FLOW_TYPES
  {
    && u <= t < FLOW_TYPES && flows[t].Some? && m.flows[t].Some? && k < |m.flows[t].value|
    && var (ok, fs, s) := EngageFlows(flows, sys, Cut(m, t, k), u);
       && ok && EngageFlows(flows, sys, m, u) == (false, fs, s) && fs[t].Some?
       && var h := m.flows[t].value[k]; !Room(if IsSystem(h.rule.phase) then s else fs[t].value, h)
  }

  lemma {:induction false} EngageFlowsStops(flows: seq<Option<Phases>>, sys: Phases, m: Module, u: nat)
      returns (t: nat, k: nat)
    requires Fits(flows, m) && u <= FLOW_TYPES && !EngageFlows(flows, sys, m, u).0
    ensures EngageStopsAt(flows, sys, m, u, t, k)
    decreases FLOW_TYPES - u
  {
    if flows[u].None? || m.flows[u].None? {
      t, k := EngageFlowsStops(flows, sys, m, u + 1);
      var c := Cut(m, t, k);
      assert EngageFlows(flows, sys, c, u) == EngageFlows(flows, sys, c, u + 1);
    } else {
      var (ok, ps, s) := EngageHandlers(flows[u].value, sys, m.flows[u].value);
      if ok {
        var next := flows[u := Some(ps)];
        t, k := EngageFlowsStops(next, s, m, u + 1);
        var c := Cut(m, t, k);
        assert EngageFlows(flows, sys, c, u) == EngageFlows(next, s, c, u + 1);
      } else {
        t := u;
        k := EngageHandlersStops(flows[u].value, sys, m.flows[u].value);
        NothingMore(flows[u := Some(ps)], s, Cut(m, u, k), u + 1);
      }
    }
  }

  predicate DisengageStopsAt(flows: seq<Option<Phases>>, sys: Phases, m: Module, u: nat, t: nat, k: nat)
    requires Fits(flows, m) && u <= FLOW_TYPES
  {
    && u <= t < FLOW_TYPES && flows[t].Some? && m.flows[t].Some? && k < |m.flows[t].value|
    && var (ok, fs, s) := DisengageFlows(flows, sys, Cut(m, t, k), u);
       && ok && DisengageFlows(flows, sys, m, u) == (false, fs, s) && fs[t].Some?
       && var h := m.flows[t].value[k];
          var list := if IsSystem(h.rule.phase) then s else fs[t].value; Find(list, h.rule.phase) == |list|
  }

  lemma {:induction false} DisengageFlowsStops(flows: seq<Option<Phases>>, sys: Phases, m: Module, u: nat)
      returns (t: nat, k: nat)
    requires Fits(flows, m) && u <= FLOW_TYPES && !DisengageFlows(flows, sys, m, u).0
    ensures DisengageStopsAt(flows, sys, m, u, t, k)
    decreases FLOW_TYPES - u
  {
    if flows[u].None? || m.flows[u].None? {
      t, k := DisengageFlowsStops(flows, sys, m, u + 1);
      var c := Cut(m, t, k);
      assert DisengageFlows(flows, sys, c, u) == DisengageFlows(flows, sys, c, u + 1);
    } else {
      var (ok, ps, s) := DisengageHandlers(flows[u].value, sys, m.flows[u].value);
      if ok {
        var next := flows[u := Some(ps)];
        t, k := DisengageFlowsStops(next, s, m, u + 1);
        var c := Cut(m, t, k);
        assert DisengageFlows(flows, sys, c, u) == DisengageFlows(next, s, c, u + 1);
      } else {
        t := u;
        k := DisengageHandlersStops(flows[u].value, sys, m.flows[u].value);
        NothingMore(flows[u := Some(ps)], s, Cut(m, u, k), u + 1);
      }
    }
  }

  /** Handler k of flow t, one of the system handlers, is the first that the configuration's
      list for its flow has no room for. */
  predicate SystemStopsAt(conf: seq<Option<Phases>>, m: Module, u: nat, t: nat, k: nat)
    requires |conf| == |m.flows| == FLOW_TYPES && u <= FLOW_TYPES
  {
    && u <= t < FLOW_TYPES && m.flows[t].Some? && k < |m.flows[t].value| && IsSystem(m.flows[t].value[k].rule.phase)
    && var (ok, fs) := AddSystemFlows(conf, Cut(m, t, k), u);
       && ok && AddSystemFlows(conf, m, u) == (false, fs) && fs[t].Some? && !Room(fs[t].value, m.flows[t].value[k])
  }

  lemma AddSystemStep(ps: Phases, hs: seq<Handler>)
    requires hs != []
    ensures AddAll(ps, SystemOnly(hs))
      == if !IsSystem(hs[0].rule.phase) then AddAll(ps, SystemOnly(hs[1..]))
         else if HolderAdd(ps, hs[0]).0 then AddAll(HolderAdd(ps, hs[0]).1, SystemOnly(hs[1..]))
         else (false, HolderAdd(ps, hs[0]).1)
  {
    var rest := SystemOnly(hs[1..]);
    assert [] + rest == rest && ([hs[0]] + rest)[1..] == rest;
  }

  lemma {:induction false} SystemOnlyStops(ps: Phases, hs: seq<Handler>) returns (k: nat)
    requires !AddAll(ps, SystemOnly(hs)).0
    ensures k < |hs| && IsSystem(hs[k].rule.phase) && AddAll(ps, SystemOnly(hs[..k])).0
    ensures !Room(AddAll(ps, SystemOnly(hs[..k])).1, hs[k])
    ensures AddAll(ps, SystemOnly(hs)).1 == AddAll(ps, SystemOnly(hs[..k])).1
    decreases |hs|
  {
    HolderRefuses(ps, hs[0]);
    AddSystemStep(ps, hs);
    if IsSystem(hs[0].rule.phase) && !HolderAdd(ps, hs[0]).0 {
      k := 0;
    } else {
      var j := SystemOnlyStops(if IsSystem(hs[0].rule.phase) then HolderAdd(ps, hs[0]).1 else ps, hs[1..]);
      k := j + 1;
      Prefix(hs, k);
      AddSystemStep(ps, hs[..k]);
    }
  }

  lemma {:induction false} AddSystemFlowsStops(conf: seq<Option<Phases>>, m: Module, u: nat) returns (t: nat, k: nat)
    requires |conf| == |m.flows| == FLOW_TYPES && u <= FLOW_TYPES && !AddSystemFlows(conf, m, u).0
    ensures SystemStopsAt(conf, m, u, t, k)
    decreases FLOW_TYPES - u
  {
    if conf[u].None? || m.flows[u].None? {
      t, k := AddSystemFlowsStops(conf, m, u + 1);
      var c := Cut(m, t, k);
      assert AddSystemFlows(conf, c, u) == AddSystemFlows(conf, c, u + 1);
    } else {
      var (ok, ps) := AddAll(conf[u].value, SystemOnly(m.flows[u].value));
      if ok {
        var next := conf[u := Some(ps)];
        t, k := AddSystemFlowsStops(next, m, u + 1);
        var c := Cut(m, t, k);
        assert AddSystemFlows(conf, c, u) == AddSystemFlows(next, c, u + 1);
      } else {
        t := u;
        k := SystemOnlyStops(conf[u].value, m.flows[u].value);
        NothingMoreSystem(conf[u := Some(ps)], Cut(m, u, k), u + 1);
      }
    }
  }

  lemma {:induction false} NothingMoreSystem(conf: seq<Option<Phases>>, m: Module, u: nat)
    requires |conf| == |m.flows| == FLOW_TYPES && u <= FLOW_TYPES && forall v :: u <= v < FLOW_TYPES ==> m.flows[v].None?
    ensures AddSystemFlows(conf, m, u) == (true, conf)
    decreases FLOW_TYPES - u
  {
    if u < FLOW_TYPES { NothingMoreSystem(conf, m, u + 1); }
  }

  /** The same for an operation in the user-phase pass. */
  predicate UserStopsAt(flows: seq<Option<Phases>>, m: Module, u: nat, t: nat, k: nat)
    requires Fits(flows, m) && u <= FLOW_TYPES
  {
    && u <= t < FLOW_TYPES && m.flows[t].Some? && k < |m.flows[t].value| && !IsSystem(m.flows[t].value[k].rule.phase)
    && var (ok, fs) := AddUserFlows(flows, Cut(m, t, k), u);
       && ok && AddUserFlows(flows, m, u) == (false, fs) && fs[t].Some? && !Room(fs[t].value, m.flows[t].value[k])
  }

  lemma AddUserStep(ps: Phases, hs: seq<Handler>)
    requires hs != []
    ensures AddAll(ps, UserOnly(hs))
      == if IsSystem(hs[0].rule.phase) then AddAll(ps, UserOnly(hs[1..]))
         else if HolderAdd(ps, hs[0]).0 then AddAll(HolderAdd(ps, hs[0]).1, UserOnly(hs[1..]))
         else (false, HolderAdd(ps, hs[0]).1)
  {
    var rest := UserOnly(hs[1..]);
    assert [] + rest == rest && ([hs[0]] + rest)[1..] == rest;
  }

  lemma {:induction false} UserOnlyStops(ps: Phases, hs: seq<Handler>) returns (k: nat)
    requires !AddAll(ps, UserOnly(hs)).0
    ensures k < |hs| && !IsSystem(hs[k].rule.phase) && AddAll(ps, UserOnly(hs[..k])).0
    ensures !Room(AddAll(ps, UserOnly(hs[..k])).1, hs[k])
    ensures AddAll(ps, UserOnly(hs)).1 == AddAll(ps, UserOnly(hs[..k])).1
    decreases |hs|
  {
    HolderRefuses(ps, hs[0]);
    AddUserStep(ps, hs);
    if !IsSystem(hs[0].rule.phase) && !HolderAdd(ps, hs[0]).0 {
      k := 0;
    } else {
      var j := UserOnlyStops(if !IsSystem(hs[0].rule.phase) then HolderAdd(ps, hs[0]).1 else ps, hs[1..]);
      k := j + 1;
      Prefix(hs, k);
      AddUserStep(ps, hs[..k]);
    }
  }

  lemma {:induction false} AddUserFlowsStops(flows: seq<Option<Phases>>, m: Module, u: nat) returns (t: nat, k: nat)
    requires Fits(flows, m) && u <= FLOW_TYPES && !AddUserFlows(flows, m, u).0
    ensures UserStopsAt(flows, m, u, t, k)
    decreases FLOW_TYPES - u
  {
    if flows[u].None? || m.flows[u].None? {
      t, k := AddUserFlowsStops(flows, m, u + 1);
      var c := Cut(m, t, k);
      assert AddUserFlows(flows, c, u) == AddUserFlows(flows, c, u + 1);
    } else {
      var (ok, ps) := AddAll(flows[u].value, UserOnly(m.flows[u].value));
      if ok {
        var next := flows[u := Some(ps)];
        t, k := AddUserFlowsStops(next, m, u + 1);
        var c := Cut(m, t, k);
        assert AddUserFlows(flows, c, u) == AddUserFlows(next, c, u + 1);
      } else {
        t := u;
        k := UserOnlyStops(flows[u].value, m.flows[u].value);
        NothingMore(flows[u := Some(ps)], [], Cut(m, u, k), u + 1);
      }
    }
  }

  // ----- all operations of a service ------------------------------------------------

  /** The operations before the i-th are done, that one has what its flows took and is not
      marked engaged, and those behind it are as they were. */
  predicate SvcStopsAt(ops: seq<Op>, sys: Phases, m: Module, i: nat)
    requires AllWellFormed(ops, m)
  {
    && i < |ops| && AllWellFormed(ops[..i], m) && WellFormed(ops[i], m) && !Has(ops, m, i)
    && var (ok, done, s) := EngageSvc(ops[..i], sys, m);
       var (ok1, flows, s1) := EngageFlows(ops[i].flows, s, m, 0);
       && ok && !ok1
       && EngageSvc(ops, sys, m) == (false, done + ([ops[i].(flows := flows)] + ops[i + 1..]), s1)
  }

  lemma Joined(head: Op, done: seq<Op>, rest: seq<Op>)
    ensures ([head] + done) + rest == [head] + (done + rest)
  {
  }

  lemma EngageSvcStep(op: Op, rest: seq<Op>, sys: Phases, m: Module)
    requires WellFormed(op, m) && AllWellFormed(rest, m) && AllWellFormed([op] + rest, m)
    ensures var (ok, flows, s) := EngageFlows(op.flows, sys, m, 0);
      EngageSvc([op] + rest, sys, m)
      == if m.name in op.engaged then
           (EngageSvc(rest, sys, m).0, [op] + EngageSvc(rest, sys, m).1, EngageSvc(rest, sys, m).2)
         else if !ok then (false, [op.(flows := flows)] + rest, s)
         else
           (EngageSvc(rest, s, m).0, [Op(flows, AddName(op.engaged, m.name))] + EngageSvc(rest, s, m).1,
            EngageSvc(rest, s, m).2)
  {
    assert ([op] + rest)[1..] == rest;
  }

  lemma {:induction false} EngageSvcJoins(a: seq<Op>, b: seq<Op>, sys: Phases, m: Module)
    requires AllWellFormed(a, m) && AllWellFormed(b, m) && AllWellFormed(a + b, m) && EngageSvc(a, sys, m).0
    ensures var (ok, done, s) := EngageSvc(a, sys, m);
      var (ok1, rest, s1) := EngageSvc(b, s, m);
      EngageSvc(a + b, sys, m) == (ok1, done + rest, s1)
    decreases |a|
  {
    if a == [] {
      assert [] + b == b && [] + EngageSvc(b, sys, m).1 == EngageSvc(b, sys, m).1;
    } else {
      var op, tail := a[0], a[1..];
      assert WellFormed(op, m) && a == [op] + tail && a + b == [op] + (tail + b);
      assert AllWellFormed(tail + b, m) by { assert tail + b == (a + b)[1..]; }
      EngageSvcStep(op, tail, sys, m);
      EngageSvcStep(op, tail + b, sys, m);
      if !Has(a, m, 0) {
        var (_, flows, s) := EngageFlows(op.flows, sys, m, 0);
        EngageSvcJoins(tail, b, s, m);
        Joined(Op(flows, AddName(op.engaged, m.name)), EngageSvc(tail, s, m).1, EngageSvc(b, EngageSvc(tail, s, m).2, m).1);
      } else {
        EngageSvcJoins(tail, b, sys, m);
        Joined(op, EngageSvc(tail, sys, m).1, EngageSvc(b, EngageSvc(tail, sys, m).2, m).1);
      }
    }
  }

  lemma {:induction false} EngageSvcStops(ops: seq<Op>, sys: Phases, m: Module, from: nat) returns (i: nat)
    requires AllWellFormed(ops, m) && !EngageSvc(ops, sys, m).0
    requires from <= |ops| && EngageSvc(ops[..from], sys, m).0
    ensures from <= i && SvcStopsAt(ops, sys, m, i)
    decreases |ops| - from
  {
    assert ops[..from] + ops[from..] == ops;
    EngageSvcJoins(ops[..from], ops[from..], sys, m);
    assert from < |ops| && WellFormed(ops[from], m);
    var s := EngageSvc(ops[..from], sys, m).2;
    if Has(ops, m, from) || EngageFlows(ops[from].flows, s, m, 0).0 {
      EngageSvcJoins(ops[..from], [ops[from]], sys, m);
      assert ops[..from] + [ops[from]] == ops[..from + 1];
      assert EngageSvc([], s, m).0 && [ops[from]][1..] == [];
      i := EngageSvcStops(ops, sys, m, from + 1);
    } else {
      i := from;
      assert ops[from..][1..] == ops[from + 1..];
      var (_, flows, s1) := EngageFlows(ops[from].flows, s, m, 0);
      assert EngageSvc(ops[from..], s, m) == (false, [ops[from].(flows := flows)] + ops[from + 1..], s1);
    }
  }

  predicate DisengageSvcStopsAt(ops: seq<Op>, sys: Phases, m: Module, i: nat)
    requires AllWellFormed(ops, m)
  {
    && i < |ops| && AllWellFormed(ops[..i], m) && WellFormed(ops[i], m) && Has(ops, m, i)
    && var (ok, done, s) := DisengageSvc(ops[..i], sys, m);
       var (ok1, flows, s1) := DisengageFlows(ops[i].flows, s, m, 0);
       && ok && !ok1
       && DisengageSvc(ops, sys, m) == (false, done + ([ops[i].(flows := flows)] + ops[i + 1..]), s1)
  }

  lemma DisengageSvcStep(op: Op, rest: seq<Op>, sys: Phases, m: Module)
    requires WellFormed(op, m) && AllWellFormed(rest, m) && AllWellFormed([op] + rest, m)
    ensures var (ok, flows, s) := DisengageFlows(op.flows, sys, m, 0);
      DisengageSvc([op] + rest, sys, m)
      == if m.name !in op.engaged then
           (DisengageSvc(rest, sys, m).0, [op] + DisengageSvc(rest, sys, m).1, DisengageSvc(rest, sys, m).2)
         else if !ok then (false, [op.(flows := flows)] + rest, s)
         else
           (DisengageSvc(rest, s, m).0, [Op(flows, DropName(op.engaged, m.name))] + DisengageSvc(rest, s, m).1,
            DisengageSvc(rest, s, m).2)
  {
    assert ([op] + rest)[1..] == rest;
  }

  lemma {:induction false} DisengageSvcJoins(a: seq<Op>, b: seq<Op>, sys: Phases, m: Module)
    requires AllWellFormed(a, m) && AllWellFormed(b, m) && AllWellFormed(a + b, m) && DisengageSvc(a, sys, m).0
    ensures var (ok, done, s) := DisengageSvc(a, sys, m);
      var (ok1, rest, s1) := DisengageSvc(b, s, m);
      DisengageSvc(a + b, sys, m) == (ok1, done + rest, s1)
    decreases |a|
  {
    if a == [] {
      assert [] + b == b && [] + DisengageSvc(b, sys, m).1 == DisengageSvc(b, sys, m).1;
    } else {
      var op, tail := a[0], a[1..];
      assert WellFormed(op, m) && a == [op] + tail && a + b == [op] + (tail + b);
      assert AllWellFormed(tail + b, m) by { assert tail + b == (a + b)[1..]; }
      DisengageSvcStep(op, tail, sys, m);
      DisengageSvcStep(op, tail + b, sys, m);
      if Has(a, m, 0) {
        var (_, flows, s) := DisengageFlows(op.flows, sys, m, 0);
        DisengageSvcJoins(tail, b, s, m);
        Joined(Op(flows, DropName(op.engaged, m.name)), DisengageSvc(tail, s, m).1, DisengageSvc(b, DisengageSvc(tail, s, m).2, m).1);
      } else {
        DisengageSvcJoins(tail, b, sys, m);
        Joined(op, DisengageSvc(tail, sys, m).1, DisengageSvc(b, DisengageSvc(tail, sys, m).2, m).1);
      }
    }
  }

  lemma {:induction false} DisengageSvcStops(ops: seq<Op>, sys: Phases, m: Module, from: nat) returns (i: nat)
    requires AllWellFormed(ops, m) && !DisengageSvc(ops, sys, m).0
    requires from <= |ops| && DisengageSvc(ops[..from], sys, m).0
    ensures from <= i && DisengageSvcStopsAt(ops, sys, m, i)
    decreases |ops| - from
  {
    assert ops[..from] + ops[from..] == ops;
    DisengageSvcJoins(ops[..from], ops[from..], sys, m);
    assert from < |ops| && WellFormed(ops[from], m);
    var s := DisengageSvc(ops[..from], sys, m).2;
    if !Has(ops, m, from) || DisengageFlows(ops[from].flows, s, m, 0).0 {
      DisengageSvcJoins(ops[..from], [ops[from]], sys, m);
      assert ops[..from] + [ops[from]] == ops[..from + 1];
      assert DisengageSvc([], s, m).0 && [ops[from]][1..] == [];
      i := DisengageSvcStops(ops, sys, m, from + 1);
    } else {
      i := from;
      assert ops[from..][1..] == ops[from + 1..];
      var (_, flows, s1) := DisengageFlows(ops[from].flows, s, m, 0);
      assert DisengageSvc(ops[from..], s, m) == (false, [ops[from].(flows := flows)] + ops[from + 1..], s1);
    }
  }

  /** The user-phase pass over one service, which can only stop before it meets an operation
      that has the module. */
  predicate GlobalStopsAt(ops: seq<Op>, m: Module, i: nat)
    requires AllWellFormed(ops, m)
  {
    && i < |ops| && AllWellFormed(ops[..i], m) && WellFormed(ops[i], m) && !Stuck(ops, m, i)
    && var (ok, done) := EngageGlobal(ops[..i], false, m);
       var (ok1, flows) := AddUserFlows(ops[i].flows, m, 0);
       && ok && !ok1
       && EngageGlobal(ops, false, m) == (false, done + ([ops[i].(flows := flows)] + ops[i + 1..]))
  }

  lemma {:induction false} GlobalJoins(a: seq<Op>, b: seq<Op>, m: Module)
    requires AllWellFormed(a, m) && AllWellFormed(b, m) && EngageGlobal(a, false, m).0
    requires forall i :: 0 <= i < |a| ==> !Has(a, m, i)
    ensures AllWellFormed(a + b, m)
    ensures EngageGlobal(a + b, false, m)
      == (EngageGlobal(b, false, m).0, EngageGlobal(a, false, m).1 + EngageGlobal(b, false, m).1)
    decreases |a|
  {
    if a == [] {
      assert [] + b == b && [] + EngageGlobal(b, false, m).1 == EngageGlobal(b, false, m).1;
    } else {
      assert WellFormed(a[0], m) && (a + b)[0] == a[0] && (a + b)[1..] == a[1..] + b && !Has(a, m, 0);
      forall i | 0 <= i < |a[1..]| ensures !Has(a[1..], m, i) { assert !Has(a, m, i + 1); }
      GlobalJoins(a[1..], b, m);
      var head := Op(AddUserFlows(a[0].flows, m, 0).1, AddName(a[0].engaged, m.name));
      Joined(head, EngageGlobal(a[1..], false, m).1, EngageGlobal(b, false, m).1);
      assert EngageGlobal(a + b, false, m).1 == [head] + EngageGlobal(a[1..] + b, false, m).1;
    }
  }

  lemma {:induction false} EngageGlobalStops(ops: seq<Op>, m: Module, from: nat) returns (i: nat)
    requires AllWellFormed(ops, m) && !EngageGlobal(ops, false, m).0
    requires from <= |ops| && EngageGlobal(ops[..from], false, m).0
    requires forall i :: 0 <= i < from ==> !Has(ops, m, i)
    ensures from <= i && GlobalStopsAt(ops, m, i)
    decreases |ops| - from
  {
    assert ops[..from] + ops[from..] == ops;
    forall i | 0 <= i < from ensures !Has(ops[..from], m, i) { assert !Has(ops, m, i); }
    GlobalJoins(ops[..from], ops[from..], m);
    assert from < |ops| && WellFormed(ops[from], m);
    assert !Has(ops, m, from) by {
      if Has(ops, m, from) { StuckNeverFails(ops[from..][1..], m); }
    }
    if AddUserFlows(ops[from].flows, m, 0).0 {
      GlobalJoins(ops[..from], [ops[from]], m);
      assert ops[..from] + [ops[from]] == ops[..from + 1];
      assert EngageGlobal([], false, m).0 && [ops[from]][1..] == [];
      i := EngageGlobalStops(ops, m, from + 1);
    } else {
      i := from;
      assert ops[from..][1..] == ops[from + 1..];
      var (_, flows) := AddUserFlows(ops[from].flows, m, 0);
      assert EngageGlobal(ops[from..], false, m) == (false, [ops[from].(flows := flows)] + ops[from + 1..]);
    }
  }

  lemma {:induction false} StuckNeverFails(ops: seq<Op>, m: Module)
    requires AllWellFormed(ops, m)
    ensures EngageGlobal(ops, true, m) == (true, ops)
    decreases |ops|
  {
    if ops != [] {
      StuckNeverFails(ops[1..], m);
      assert [ops[0]] + ops[1..] == ops;
    }
  }

  // ----- the whole configuration ----------------------------------------------------

  /** Engaging globally fails in the system half with no service touched, or in one service
      with those before it done and those behind it as they were. */
  lemma {:induction false} EngageConfStops(conf: seq<Option<Phases>>, svcs: seq<seq<Op>>, m: Module) returns (i: nat)
    requires |conf| == FLOW_TYPES && ServicesWellFormed(svcs, m) && !EngageConf(conf, svcs, m).0
    ensures var r := EngageConf(conf, svcs, m);
      && r.1 == AddSystemFlows(conf, m, 0).1
      && if !AddSystemFlows(conf, m, 0).0 then r.2 == svcs
         else
           && i < |svcs| && AllWellFormed(svcs[i], m) && !EngageGlobal(svcs[i], false, m).0
           && r.2[i] == EngageGlobal(svcs[i], false, m).1
           && (forall s :: 0 <= s < i ==> AllWellFormed(svcs[s], m) && EngageGlobal(svcs[s], false, m) == (true, r.2[s]))
           && (forall s :: i < s < |svcs| ==> r.2[s] == svcs[s])
  {
    i := 0;
    if AddSystemFlows(conf, m, 0).0 { i := SvcsStop(svcs, m); }
  }

  lemma {:induction false} SvcsStop(svcs: seq<seq<Op>>, m: Module) returns (i: nat)
    requires ServicesWellFormed(svcs, m) && !EngageGlobalSvcs(svcs, m).0
    ensures var r := EngageGlobalSvcs(svcs, m).1;
      && i < |svcs| && AllWellFormed(svcs[i], m) && !EngageGlobal(svcs[i], false, m).0
      && r[i] == EngageGlobal(svcs[i], false, m).1
      && (forall s :: 0 <= s < i ==> AllWellFormed(svcs[s], m) && EngageGlobal(svcs[s], false, m) == (true, r[s]))
      && (forall s :: i < s < |svcs| ==> r[s] == svcs[s])
    decreases |svcs|
  {
    assert AllWellFormed(svcs[0], m);
    i := 0;
    if EngageGlobal(svcs[0], false, m).0 {
      var j := SvcsStop(svcs[1..], m);
      i := j + 1;
      assert forall s :: 0 < s < |svcs| ==> svcs[s] == svcs[1..][s - 1];
    }
  }
}
