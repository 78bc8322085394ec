/** Engagement over all operations of a service. */
module ServiceLaws {
  import opened PhaseTypes
  import opened Placement
  import opened Resolver
  import opened ResolverLaws
  import opened EngagementLaws

  // ----- what one operation should get ----------------------------------------------

  function GrownFlows(flows: seq<Option<Phases>>, m: Module): (r: seq<Option<Phases>>)
    requires Fits(flows, m)
    ensures |r| == FLOW_TYPES && forall j :: 0 <= j < FLOW_TYPES ==> r[j] == Grown(flows[j], UserPart(flows, m, j))
  {
    seq(FLOW_TYPES, j requires 0 <= j < FLOW_TYPES => Grown(flows[j], UserPart(flows, m, j)))
  }

  /** The operation with the module engaged to it alone, unless it has it already. */
  function EachOp(op: Op, m: Module): Op
    requires WellFormed(op, m)
  {
    if m.name in op.engaged then op else Op(GrownFlows(op.flows, m), AddName(op.engaged, m.name))
  }

  predicate AcceptsAll(flows: seq<Option<Phases>>, m: Module)
    requires Fits(flows, m)
  {
    forall j :: 0 <= j < FLOW_TYPES ==> Accepts(flows[j], UserPart(flows, m, j))
  }

  lemma {:induction false} EngageFlowsGrow(flows: seq<Option<Phases>>, sys: Phases, m: Module)
    requires Fits(flows, m) && EngageFlows(flows, sys, m, 0).0
    ensures EngageFlows(flows, sys, m, 0).1 == GrownFlows(flows, m) && AcceptsAll(flows, m)
  {
    var fs := EngageFlows(flows, sys, m, 0).1;
    forall j | 0 <= j < FLOW_TYPES
      ensures fs[j] == GrownFlows(flows, m)[j] && Accepts(flows[j], UserPart(flows, m, j))
    {
      EngageFlowAt(flows, sys, m, 0, j);
    }
  }

  /** Engaging to a service is engaging to each of its operations. */
  lemma {:induction false} EngageSvcIsEach(ops: seq<Op>, sys: Phases, m: Module, i: nat)
    requires AllWellFormed(ops, m) && EngageSvc(ops, sys, m).0 && i < |ops|
    ensures EngageSvc(ops, sys, m).1[i] == EachOp(ops[i], m)
    ensures m.name !in ops[i].engaged ==> AcceptsAll(ops[i].flows, m)
    decreases |ops|
  {
    assert WellFormed(ops[0], m);
    var s := sys;
    if m.name !in ops[0].engaged {
      EngageFlowsGrow(ops[0].flows, sys, m);
      s := EngageFlows(ops[0].flows, sys, m, 0).2;
    }
    if i > 0 { EngageSvcIsEach(ops[1..], s, m, i - 1); }
  }

  // ----- engaging globally ----------------------------------------------------------

  lemma {:induction false} AddUserFlowsAt(flows: seq<Option<Phases>>, m: Module, t: nat, j: nat)
    requires Fits(flows, m) && t <= FLOW_TYPES && j < FLOW_TYPES && AddUserFlows(flows, m, t).0
    ensures j < t ==> AddUserFlows(flows, m, t).1[j] == flows[j]
    ensures j >= t ==> AddUserFlows(flows, m, t).1[j] == Grown(flows[j], UserPart(flows, m, j))
    ensures j >= t ==> Accepts(flows[j], UserPart(flows, m, j))
    decreases FLOW_TYPES - t
  {
    if t < FLOW_TYPES {
      if Both(flows, m, t) {
        AddUserFlowsAt(flows[t := Some(AddAll(flows[t].value, UserOnly(m.flows[t].value)).1)], m, t + 1, j);
      } else {
        AddUserFlowsAt(flows, m, t + 1, j);
      }
    }
  }

  lemma {:induction false} AddUserFlowsOk(flows: seq<Option<Phases>>, m: Module, t: nat)
    requires Fits(flows, m) && t <= FLOW_TYPES
    requires forall j :: t <= j < FLOW_TYPES ==> Accepts(flows[j], UserPart(flows, m, j))
    ensures AddUserFlows(flows, m, t).0
    decreases FLOW_TYPES - t
  {
    if t < FLOW_TYPES {
      if Both(flows, m, t) {
        assert Accepts(flows[t], UserPart(flows, m, t));
        var fs := flows[t := Some(AddAll(flows[t].value, UserOnly(m.flows[t].value)).1)];
        forall j | t + 1 <= j < FLOW_TYPES ensures Accepts(fs[j], UserPart(fs, m, j)) {
          assert Accepts(flows[j], UserPart(flows, m, j));
        }
        AddUserFlowsOk(fs, m, t + 1);
      } else {
        AddUserFlowsOk(flows, m, t + 1);
      }
    }
  }

  lemma {:induction false} AddUserFlowsGrow(flows: seq<Option<Phases>>, m: Module)
    requires Fits(flows, m)
    ensures AddUserFlows(flows, m, 0).0 <==> AcceptsAll(flows, m)
    ensures AcceptsAll(flows, m) ==> AddUserFlows(flows, m, 0).1 == GrownFlows(flows, m)
  {
    if AcceptsAll(flows, m) { AddUserFlowsOk(flows, m, 0); }
    var (ok, fs) := AddUserFlows(flows, m, 0);
    if ok {
      forall j | 0 <= j < FLOW_TYPES
        ensures fs[j] == GrownFlows(flows, m)[j] && Accepts(flows[j], UserPart(flows, m, j))
      {
        AddUserFlowsAt(flows, m, 0, j);
      }
    }
  }

  predicate Has(ops: seq<Op>, m: Module, i: nat)
    requires i < |ops|
  {
    m.name in ops[i].engaged
  }

  /** Some operation up to the i-th already has the module. */
  predicate Stuck(ops: seq<Op>, m: Module, i: nat)
    requires i < |ops|
  {
    exists j :: 0 <= j <= i && Has(ops, m, j)
  }

  predicate Willing(ops: seq<Op>, m: Module)
    requires AllWellFormed(ops, m)
  {
    forall i :: 0 <= i < |ops| && !Has(ops, m, i) ==> WellFormed(ops[i], m) && AcceptsAll(ops[i].flows, m)
  }

  /** The global pass engages exactly the operations visited before the first one that has
      the module already. */
  lemma {:induction false} EngageGlobalAt(ops: seq<Op>, engaged: bool, m: Module, i: nat)
    requires AllWellFormed(ops, m) && Willing(ops, m) && i < |ops|
    ensures var r := EngageGlobal(ops, engaged, m);
      r.0 && r.1[i] == if engaged || Stuck(ops, m, i) then ops[i] else EachOp(ops[i], m)
    decreases |ops|
  {
    assert WellFormed(ops[0], m);
    var first := Has(ops, m, 0);
    if !first { AddUserFlowsGrow(ops[0].flows, m); }
    if |ops| > 1 {
      WillingTail(ops, m);
      EngageGlobalAt(ops[1..], engaged || first, m, if i > 0 then i - 1 else 0);
    }
    if i > 0 { StuckTail(ops, m, i); }
  }

  lemma WillingTail(ops: seq<Op>, m: Module)
    requires AllWellFormed(ops, m) && Willing(ops, m) && |ops| > 1
    ensures AllWellFormed(ops[1..], m) && Willing(ops[1..], m)
  {
    var rest := ops[1..];
    forall k | 0 <= k < |rest| && !Has(rest, m, k) ensures WellFormed(rest[k], m) && AcceptsAll(rest[k].flows, m) {
      assert !Has(ops, m, k + 1);
    }
  }

  lemma StuckTail(ops: seq<Op>, m: Module, i: nat)
    requires 0 < i < |ops|
    ensures Stuck(ops, m, i) <==> Has(ops, m, 0) || Stuck(ops[1..], m, i - 1)
  {
    var rest := ops[1..];
    if Stuck(ops, m, i) && !Has(ops, m, 0) {
      var j :| 0 <= j <= i && Has(ops, m, j);
      assert Has(rest, m, j - 1);
    }
    if Stuck(rest, m, i - 1) {
      var j :| 0 <= j <= i - 1 && Has(rest, m, j);
      assert Has(ops, m, j + 1);
    }
  }

  /** Engaging globally gives every operation what engaging to it alone would exactly when
      no operation without the module is visited after one that has it. */
  lemma {:induction false} GlobalIsEachExactly(ops: seq<Op>, m: Module)
    requires AllWellFormed(ops, m) && Willing(ops, m)
    ensures (forall i :: 0 <= i < |ops| ==> WellFormed(ops[i], m) && EngageGlobal(ops, false, m).1[i] == EachOp(ops[i], m))
       <==> (forall i, j :: 0 <= i < j < |ops| && Has(ops, m, i) ==> Has(ops, m, j))
  {
    var r := EngageGlobal(ops, false, m).1;
    forall i | 0 <= i < |ops|
      ensures WellFormed(ops[i], m) && (r[i] == EachOp(ops[i], m) <==> (Stuck(ops, m, i) ==> Has(ops, m, i)))
    {
      EngageGlobalAt(ops, false, m, i);
      if !Has(ops, m, i) { AddNameGrows(ops[i].engaged, m.name); }
    }
    if forall i :: 0 <= i < |ops| ==> r[i] == EachOp(ops[i], m) {
      forall i, j | 0 <= i < j < |ops| && Has(ops, m, i) ensures Has(ops, m, j) {
        assert Stuck(ops, m, j);
      }
    }
  }

  lemma AddNameGrows(names: seq<string>, n: string)
    requires n !in names
    ensures AddName(names, n) != names && DropName(AddName(names, n), n) == names
  {
    DropAppended(names, n);
  }

  lemma {:induction false} DropAppended(names: seq<string>, n: string)
    requires n !in names
    ensures DropName(names + [n], n) == names
  {
    if names != [] {
      assert (names + [n])[1..] == names[1..] + [n];
      DropAppended(names[1..], n);
    }
  }

  /** When no operation has the module, engaging it to the service and engaging it globally
      leave the same operations, in whatever order they are visited. */
  lemma {:induction false} ServiceAndGlobalAgree(ops: seq<Op>, sys: Phases, m: Module)
    requires AllWellFormed(ops, m) && EngageSvc(ops, sys, m).0
    requires forall i :: 0 <= i < |ops| ==> !Has(ops, m, i)
    ensures EngageGlobal(ops, false, m) == (true, EngageSvc(ops, sys, m).1)
  {
    ServiceWilling(ops, sys, m);
    var g, s := EngageGlobal(ops, false, m), EngageSvc(ops, sys, m).1;
    if ops != [] { EngageGlobalAt(ops, false, m, 0); }
    forall i | 0 <= i < |ops| ensures g.1[i] == s[i] {
      EngageSvcIsEach(ops, sys, m, i);
      EngageGlobalAt(ops, false, m, i);
    }
    assert g.0 && g.1 == s;
  }

  lemma {:induction false} ServiceWilling(ops: seq<Op>, sys: Phases, m: Module)
    requires AllWellFormed(ops, m) && EngageSvc(ops, sys, m).0
    ensures Willing(ops, m)
  {
    forall i | 0 <= i < |ops| && !Has(ops, m, i) ensures AcceptsAll(ops[i].flows, m) {
      EngageSvcIsEach(ops, sys, m, i);
    }
  }

  // ----- engage to a service, then disengage ----------------------------------------

  predicate AllMiddlingUsers(ops: seq<Op>, m: Module)
    requires AllWellFormed(ops, m)
  {
    forall i :: 0 <= i < |ops| ==> WellFormed(ops[i], m) && MiddlingUsers(ops[i].flows, m)
  }

  /** None of the operations has the module or a handler with the name of one of its own. */
  predicate New(ops: seq<Op>, m: Module)
    requires AllWellFormed(ops, m)
  {
    forall i :: 0 <= i < |ops| ==> !Has(ops, m, i) && WellFormed(ops[i], m) && FreshUsers(ops[i].flows, m)
  }

  lemma NewTail(ops: seq<Op>, m: Module)
    requires AllWellFormed(ops, m) && New(ops, m) && ops != []
    ensures !Has(ops, m, 0) && WellFormed(ops[0], m) && FreshUsers(ops[0].flows, m)
    ensures AllWellFormed(ops[1..], m) && New(ops[1..], m)
    ensures AllMiddlingUsers(ops, m) <==> MiddlingUsers(ops[0].flows, m) && AllMiddlingUsers(ops[1..], m)
  {
    assert !Has(ops, m, 0);
    forall i | 0 <= i < |ops[1..]| ensures !Has(ops[1..], m, i) && FreshUsers(ops[1..][i].flows, m) {
      assert !Has(ops, m, i + 1);
    }
    assert forall i :: 0 <= i < |ops[1..]| ==> ops[1..][i] == ops[i + 1];
  }

  /** A module new to a service, engaged to it and then disengaged: every operation gets its
      flows and its list of engaged modules back exactly when none of the handlers the module
      put into the operations was marked first or last. */
  lemma {:induction false} ServiceRestored(ops: seq<Op>, sys: Phases, now: Phases, m: Module)
    requires AllWellFormed(ops, m) && New(ops, m) && EngageSvc(ops, sys, m).0 && SameNames(sys, now)
    ensures var es := EngageSvc(ops, sys, m).1;
      && AllWellFormed(es, m)
      && DisengageSvc(es, now, m).0
      && (DisengageSvc(es, now, m).1 == ops <==> AllMiddlingUsers(ops, m))
    decreases |ops|
  {
    if ops != [] {
      NewTail(ops, m);
      var fs, s, gs, later := HeadBack(ops, sys, now, m);
      ServiceRestored(ops[1..], s, later, m);
      HeadRestored(ops, sys, now, m);
      var ds := DisengageSvc(EngageSvc(ops[1..], s, m).1, later, m).1;
      ConsEqual(Op(gs, ops[0].engaged), ds, ops);
    }
  }

  lemma ConsEqual(a: Op, b: seq<Op>, ops: seq<Op>)
    requires ops != []
    ensures [a] + b == ops <==> a == ops[0] && b == ops[1..]
  {
    if [a] + b == ops { assert ([a] + b)[1..] == b; }
    if a == ops[0] && b == ops[1..] { assert ops == [ops[0]] + ops[1..]; }
  }

  lemma {:induction false} HeadBack(ops: seq<Op>, sys: Phases, now: Phases, m: Module)
      returns (fs: seq<Option<Phases>>, s: Phases, gs: seq<Option<Phases>>, later: Phases)
    requires AllWellFormed(ops, m) && ops != [] && !Has(ops, m, 0) && WellFormed(ops[0], m)
    requires FreshUsers(ops[0].flows, m) && EngageSvc(ops, sys, m).0 && SameNames(sys, now)
    ensures EngageFlows(ops[0].flows, sys, m, 0) == (true, fs, s)
    ensures DisengageFlows(fs, now, m, 0) == (true, gs, later)
    ensures AllWellFormed(ops[1..], m) && EngageSvc(ops[1..], s, m).0 && SameNames(s, later)
    ensures gs == ops[0].flows <==> MiddlingUsers(ops[0].flows, m)
  {
    s := HeadEngaged(ops, sys, m);
    fs := EngageFlows(ops[0].flows, sys, m, 0).1;
    EngageSystem(ops[0].flows, sys, m, 0);
    AddAllFound(sys, SystemPart(ops[0].flows, m, 0));
    DisengageWorks(ops[0].flows, sys, now, m);
    DisengageRestoresFlows(ops[0].flows, sys, now, m);
    gs, later := DisengageFlows(fs, now, m, 0).1, DisengageFlows(fs, now, m, 0).2;
  }

  /** How engaging and disengaging a service unfold at its first operation. */
  lemma HeadRestored(ops: seq<Op>, sys: Phases, now: Phases, m: Module)
    requires AllWellFormed(ops, m) && ops != [] && !Has(ops, m, 0) && WellFormed(ops[0], m)
    requires EngageFlows(ops[0].flows, sys, m, 0).0
    requires DisengageFlows(EngageFlows(ops[0].flows, sys, m, 0).1, now, m, 0).0
    requires var e := EngageSvc(ops[1..], EngageFlows(ops[0].flows, sys, m, 0).2, m); e.0 && AllWellFormed(e.1, m)
    ensures var (ok, fs, s) := EngageFlows(ops[0].flows, sys, m, 0);
      var (ok1, gs, t) := DisengageFlows(fs, now, m, 0);
      var es, ds := EngageSvc(ops, sys, m), DisengageSvc(EngageSvc(ops[1..], s, m).1, t, m);
      && AllWellFormed(es.1, m)
      && DisengageSvc(es.1, now, m) == (ds.0, [Op(gs, ops[0].engaged)] + ds.1, ds.2)
  {
    var (ok, fs, s) := EngageFlows(ops[0].flows, sys, m, 0);
    var es := EngageSvc(ops, sys, m).1;
    AddNameGrows(ops[0].engaged, m.name);
    assert es == [Op(fs, AddName(ops[0].engaged, m.name))] + EngageSvc(ops[1..], s, m).1;
    assert es[1..] == EngageSvc(ops[1..], s, m).1;
    forall i | 0 <= i < |es| ensures WellFormed(es[i], m) {
      if i > 0 { assert es[i] == es[1..][i - 1]; }
    }
  }

  // ----- the lists of engaged modules -----------------------------------------------

  /** The first mention of the name goes, all others stay as they are. */
  lemma {:induction false} DropsFirstMention(a: seq<string>, n: string, b: seq<string>)
    requires n !in a
    ensures DropName(a + [n] + b, n) == a + b
  {
    if a == [] {
      assert [] + [n] + b == [n] + b && ([n] + b)[1..] == b == [] + b;
    } else {
      assert (a + [n] + b)[0] == a[0] && (a + [n] + b)[1..] == a[1..] + [n] + b;
      DropsFirstMention(a[1..], n, b);
    }
  }

  /** What disengaging from a service leaves of each operation: one without the module is as it
      was; one with it has its handlers taken from every flow and its name from the list. */
  lemma {:induction false} DisengageSvcAt(ops: seq<Op>, sys: Phases, m: Module, i: nat)
    requires AllWellFormed(ops, m) && DisengageSvc(ops, sys, m).0 && i < |ops|
    ensures WellFormed(ops[i], m)
    ensures var now := DisengageSvc(ops, sys, m).1[i];
      if m.name !in ops[i].engaged then now == ops[i]
      else
        && |now.flows| == FLOW_TYPES
        && (forall t :: 0 <= t < FLOW_TYPES ==> now.flows[t] == Shrunk(ops[i].flows[t], UserPart(ops[i].flows, m, t)))
        && now.engaged == DropName(ops[i].engaged, m.name)
    decreases |ops|
  {
    assert WellFormed(ops[0], m);
    if m.name !in ops[0].engaged {
      if i > 0 { DisengageSvcAt(ops[1..], sys, m, i - 1); }
    } else {
      var (ok, flows, s) := DisengageFlows(ops[0].flows, sys, m, 0);
      if i > 0 {
        DisengageSvcAt(ops[1..], s, m, i - 1);
      } else {
        forall t | 0 <= t < FLOW_TYPES ensures flows[t] == Shrunk(ops[0].flows[t], UserPart(ops[0].flows, m, t)) {
          DisengageFlowAt(ops[0].flows, sys, m, 0, t);
        }
      }
    }
  }

  /** The module disengaged is the one that goes from the lists, wherever it stands in them. */
  lemma {:induction false} DisengagesByName(ops: seq<Op>, sys: Phases, m: Module, i: nat, a: seq<string>, b: seq<string>)
    requires AllWellFormed(ops, m) && DisengageSvc(ops, sys, m).0 && i < |ops|
    ensures ops[i].engaged == a + [m.name] + b && m.name !in a ==> DisengageSvc(ops, sys, m).1[i].engaged == a + b
    ensures m.name !in ops[i].engaged ==> DisengageSvc(ops, sys, m).1[i] == ops[i]
  {
    DisengageSvcAt(ops, sys, m, i);
    if ops[i].engaged == a + [m.name] + b && m.name !in a {
      assert (a + [m.name] + b)[|a|] == m.name;
      DropsFirstMention(a, m.name, b);
    }
  }

  /** Engaging puts the module behind those engaged before. */
  lemma {:induction false} EngagesByName(ops: seq<Op>, sys: Phases, m: Module, i: nat)
    requires AllWellFormed(ops, m) && EngageSvc(ops, sys, m).0 && i < |ops|
    ensures EngageSvc(ops, sys, m).1[i].engaged == ops[i].engaged + if m.name in ops[i].engaged then [] else [m.name]
  {
    EngageSvcIsEach(ops, sys, m, i);
  }

  /** Engage one module, then another, and disengage the first: every operation that had neither
      has the second engaged and the first not. */
  lemma {:induction false} FirstGoesSecondStays(ops: seq<Op>, sys: Phases, m1: Module, m2: Module, i: nat)
    requires AllWellFormed(ops, m1) && EngageSvc(ops, sys, m1).0 && i < |ops| && m1.name != m2.name
    requires m1.name !in ops[i].engaged && m2.name !in ops[i].engaged
    requires var (ok, ops1, sys1) := EngageSvc(ops, sys, m1); AllWellFormed(ops1, m2) && EngageSvc(ops1, sys1, m2).0
    requires var (ok, ops1, sys1) := EngageSvc(ops, sys, m1);
      var (ok2, ops2, sys2) := EngageSvc(ops1, sys1, m2);
      AllWellFormed(ops2, m1) && DisengageSvc(ops2, sys2, m1).0
    ensures var (ok, ops1, sys1) := EngageSvc(ops, sys, m1);
      var (ok2, ops2, sys2) := EngageSvc(ops1, sys1, m2);
      DisengageSvc(ops2, sys2, m1).1[i].engaged == ops[i].engaged + [m2.name]
  {
    var (ok, ops1, sys1) := EngageSvc(ops, sys, m1);
    var (ok2, ops2, sys2) := EngageSvc(ops1, sys1, m2);
    EngagesByName(ops, sys, m1, i);
    EngagesByName(ops1, sys1, m2, i);
    DisengagesByName(ops2, sys2, m1, i, ops[i].engaged, [m2.name]);
  }

  // ----- end handlers of system phases ----------------------------------------------

  /** The phase h is meant for can take no end handler of h's kind any more. */
  predicate Blocked(ps: Phases, h: Handler) {
    var i := Find(ps, h.rule.phase);
    i == |ps| || ps[i].single || (h.rule.first && !h.rule.last && ps[i].first.Some?)
    || (h.rule.last && !h.rule.first && ps[i].last.Some?)
  }

  lemma {:induction false} StaysBlocked(ps: Phases, hs: seq<Handler>, h: Handler)
    requires Blocked(ps, h) && !Middling(h)
    ensures Blocked(AddAll(ps, hs).1, h) && (h in hs ==> !AddAll(ps, hs).0)
    decreases |hs|
  {
    if hs != [] {
      var qs := HolderAdd(ps, hs[0]).1;
      FindSame(ps, qs, h.rule.phase);
      assert h in hs <==> h == hs[0] || h in hs[1..];
      StaysBlocked(qs, hs[1..], h);
    }
  }

  lemma {:induction false} BlocksItself(ps: Phases, hs: seq<Handler>, h: Handler)
    requires h in hs && !Middling(h) && AddAll(ps, hs).0
    ensures Blocked(AddAll(ps, hs).1, h)
    decreases |hs|
  {
    var qs := HolderAdd(ps, hs[0]).1;
    FindSame(ps, qs, h.rule.phase);
    if hs[0] == h {
      StaysBlocked(qs, hs[1..], h);
    } else {
      BlocksItself(qs, hs[1..], h);
    }
  }

  /** Operation op, lacking m, would have m's handler h added to the system phases. */
  predicate Brings(op: Op, m: Module, h: Handler) {
    WellFormed(op, m) && m.name !in op.engaged && h in SystemPart(op.flows, m, 0)
  }

  /** The system phases a successful service engagement hands from its first operation on. */
  lemma {:induction false} HeadEngaged(ops: seq<Op>, sys: Phases, m: Module) returns (s: Phases)
    requires AllWellFormed(ops, m) && ops != [] && EngageSvc(ops, sys, m).0
    ensures WellFormed(ops[0], m) && EngageSvc(ops[1..], s, m).0
    ensures EngageSvc(ops, sys, m).2 == EngageSvc(ops[1..], s, m).2
    ensures if Has(ops, m, 0) then s == sys else AddAll(sys, SystemPart(ops[0].flows, m, 0)) == (true, s)
  {
    s := sys;
    if !Has(ops, m, 0) {
      EngageSystem(ops[0].flows, sys, m, 0);
      s := EngageFlows(ops[0].flows, sys, m, 0).2;
    }
  }

  /** How many operations, lacking m, would have its handler h added to the system phases. */
  function Bringers(ops: seq<Op>, m: Module, h: Handler): nat {
    if ops == [] then 0 else (if Brings(ops[0], m, h) then 1 else 0) + Bringers(ops[1..], m, h)
  }

  lemma {:induction false} BlockedSvcFails(ops: seq<Op>, sys: Phases, m: Module, h: Handler)
    requires AllWellFormed(ops, m) && Bringers(ops, m, h) >= 1 && Blocked(sys, h) && !Middling(h)
    ensures !EngageSvc(ops, sys, m).0
    decreases |ops|
  {
    if EngageSvc(ops, sys, m).0 {
      var s := HeadEngaged(ops, sys, m);
      if !Has(ops, m, 0) { StaysBlocked(sys, SystemPart(ops[0].flows, m, 0), h); }
      BlockedSvcFails(ops[1..], s, m, h);
    }
  }

  /** A module with a first or last handler for a system phase cannot be engaged to a service
      with two operations that lack it: the second one finds the slot taken. */
  lemma {:induction false} EndHandlerFailsTwice(ops: seq<Op>, sys: Phases, m: Module, h: Handler)
    requires AllWellFormed(ops, m) && Bringers(ops, m, h) >= 2 && !Middling(h)
    ensures !EngageSvc(ops, sys, m).0
    decreases |ops|
  {
    if EngageSvc(ops, sys, m).0 {
      var s := HeadEngaged(ops, sys, m);
      if Brings(ops[0], m, h) {
        BlocksItself(sys, SystemPart(ops[0].flows, m, 0), h);
        BlockedSvcFails(ops[1..], s, m, h);
      } else {
        EndHandlerFailsTwice(ops[1..], s, m, h);
      }
    }
  }

  // ----- what a service does to the system phases -----------------------------------

  /** The system-phase handlers the operations without the module bring, in visiting order. */
  function SystemOfAll(ops: seq<Op>, m: Module): seq<Handler>
    requires AllWellFormed(ops, m)
  {
    if ops == [] then []
    else
      assert WellFormed(ops[0], m);
      (if Has(ops, m, 0) then [] else SystemPart(ops[0].flows, m, 0)) + SystemOfAll(ops[1..], m)
  }

  /** Engaging to a service adds a module's system handlers once for each operation. */
  lemma {:induction false} EngageSvcSystem(ops: seq<Op>, sys: Phases, m: Module)
    requires AllWellFormed(ops, m) && EngageSvc(ops, sys, m).0
    ensures AddAll(sys, SystemOfAll(ops, m)) == (true, EngageSvc(ops, sys, m).2)
    decreases |ops|
  {
    if ops != [] {
      var s := HeadEngaged(ops, sys, m);
      EngageSvcSystem(ops[1..], s, m);
      if Has(ops, m, 0) {
        assert [] + SystemOfAll(ops[1..], m) == SystemOfAll(ops[1..], m);
      } else {
        AddAllConcat(sys, SystemPart(ops[0].flows, m, 0), SystemOfAll(ops[1..], m));
      }
    }
  }

  /** What the operations that have the module would have taken away. */
  function SystemOfHaving(ops: seq<Op>, m: Module): seq<Handler>
    requires AllWellFormed(ops, m)
  {
    if ops == [] then []
    else
      assert WellFormed(ops[0], m);
      (if Has(ops, m, 0) then SystemPart(ops[0].flows, m, 0) else []) + SystemOfHaving(ops[1..], m)
  }

  lemma {:induction false} DisengageSvcSystem(ops: seq<Op>, now: Phases, m: Module)
    requires AllWellFormed(ops, m) && DisengageSvc(ops, now, m).0
    ensures RemoveAll(now, SystemOfHaving(ops, m)) == (true, DisengageSvc(ops, now, m).2)
    decreases |ops|
  {
    if ops != [] {
      assert WellFormed(ops[0], m);
      if Has(ops, m, 0) {
        DisengageSystem(ops[0].flows, now, m, 0);
        var later := DisengageFlows(ops[0].flows, now, m, 0).2;
        DisengageSvcSystem(ops[1..], later, m);
        RemoveAllConcat(now, SystemPart(ops[0].flows, m, 0), SystemOfHaving(ops[1..], m));
      } else {
        DisengageSvcSystem(ops[1..], now, m);
        assert [] + SystemOfHaving(ops[1..], m) == SystemOfHaving(ops[1..], m);
      }
    }
  }

  /** What is taken away is what was brought. */
  lemma {:induction false} SameSystemParts(ops: seq<Op>, sys: Phases, m: Module)
    requires AllWellFormed(ops, m) && EngageSvc(ops, sys, m).0 && forall i :: 0 <= i < |ops| ==> !Has(ops, m, i)
    ensures AllWellFormed(EngageSvc(ops, sys, m).1, m)
    ensures SystemOfHaving(EngageSvc(ops, sys, m).1, m) == SystemOfAll(ops, m)
    decreases |ops|
  {
    if ops != [] {
      assert !Has(ops, m, 0) && WellFormed(ops[0], m);
      forall i | 0 <= i < |ops| - 1 ensures !Has(ops[1..], m, i) { assert !Has(ops, m, i + 1); }
      var (ok, fs, s) := EngageFlows(ops[0].flows, sys, m, 0);
      SameSystemParts(ops[1..], s, m);
      DisengageWorks(ops[0].flows, sys, sys, m);
      HavingFirst(Op(fs, AddName(ops[0].engaged, m.name)), EngageSvc(ops[1..], s, m).1, m);
    }
  }

  lemma HavingFirst(op: Op, rest: seq<Op>, m: Module)
    requires WellFormed(op, m) && AllWellFormed(rest, m) && m.name in op.engaged
    ensures AllWellFormed([op] + rest, m)
    ensures SystemOfHaving([op] + rest, m) == SystemPart(op.flows, m, 0) + SystemOfHaving(rest, m)
  {
    var ops := [op] + rest;
    assert ops[1..] == rest && ops[0] == op && Has(ops, m, 0);
    forall i | 0 <= i < |ops| ensures WellFormed(ops[i], m) { assert i > 0 ==> ops[i] == rest[i - 1]; }
  }

  /** A module new to a service, engaged to it and then disengaged, also gives the system
      phases back, however often it put a handler there, exactly when none of the handlers it
      put there was marked first or last. */
  lemma {:induction false} ServiceSystemRestored(ops: seq<Op>, sys: Phases, m: Module)
    requires AllWellFormed(ops, m) && New(ops, m) && EngageSvc(ops, sys, m).0 && FreshAll(sys, SystemOfAll(ops, m))
    ensures var (ok, es, s) := EngageSvc(ops, sys, m);
      AllWellFormed(es, m) && (DisengageSvc(es, s, m).2 == sys <==> AllMiddling(SystemOfAll(ops, m)))
  {
    var (ok, es, s) := EngageSvc(ops, sys, m);
    EngageSvcSystem(ops, sys, m);
    AddAllFound(sys, SystemOfAll(ops, m));
    ServiceRestored(ops, sys, s, m);
    assert forall i :: 0 <= i < |ops| ==> !Has(ops, m, i);
    SameSystemParts(ops, sys, m);
    DisengageSvcSystem(es, s, m);
    RemoveAllUndoesAddAll(sys, SystemOfAll(ops, m));
  }

  /** Adding h once more changes nothing: its name is there and its rule sends it to the end. */
  predicate Idle(ps: Phases, h: Handler) {
    var i := Find(ps, h.rule.phase);
    && i < |ps| && !ps[i].single && Middling(h)
    && Place(ps[i], h) == Append && !Absent(ps[i].handlers, h.name)
  }

  function Size(p: PhaseState): nat {
    |p.handlers| + |Slot(p.first)| + |Slot(p.last)| + if p.single then 1 else 0
  }

  function SizeAll(ps: Phases): nat {
    if ps == [] then 0 else Size(ps[0]) + SizeAll(ps[1..])
  }

  lemma {:induction false} SizeUpdated(ps: Phases, i: nat, q: PhaseState)
    requires i < |ps|
    ensures SizeAll(ps[i := q]) - SizeAll(ps) == Size(q) - Size(ps[i])
    decreases i
  {
    if i > 0 {
      assert ps[i := q][1..] == ps[1..][i - 1 := q];
      SizeUpdated(ps[1..], i - 1, q);
    }
  }

  lemma {:induction false} AddGrows(p: PhaseState, h: Handler)
    requires AddDesc(p, h).0
    ensures AddDesc(p, h).1 == p || Size(AddDesc(p, h).1) > Size(p)
    ensures AddDesc(p, h).1 == p <==> !p.single && Middling(h) && Place(p, h) == Append && !Absent(p.handlers, h.name)
  {
    assert Absent(p.handlers, h.name) <==> IndexOf(p.handlers, h.name) == |p.handlers|;
  }

  lemma {:induction false} HolderGrows(ps: Phases, h: Handler)
    requires HolderAdd(ps, h).0
    ensures HolderAdd(ps, h).1 == ps || SizeAll(HolderAdd(ps, h).1) > SizeAll(ps)
    ensures HolderAdd(ps, h).1 == ps <==> Idle(ps, h)
  {
    var i := Find(ps, h.rule.phase);
    AddGrows(ps[i], h);
    SizeUpdated(ps, i, AddDesc(ps[i], h).1);
    if AddDesc(ps[i], h).1 == ps[i] { assert ps[i := ps[i]] == ps; }
  }

  lemma {:induction false} AllGrow(ps: Phases, hs: seq<Handler>)
    requires AddAll(ps, hs).0
    ensures AddAll(ps, hs).1 == ps || SizeAll(AddAll(ps, hs).1) > SizeAll(ps)
    ensures AddAll(ps, hs).1 == ps <==> forall h :: h in hs ==> Idle(ps, h)
    decreases |hs|
  {
    if hs != [] {
      HolderGrows(ps, hs[0]);
      AllGrow(HolderAdd(ps, hs[0]).1, hs[1..]);
      assert forall h :: h in hs <==> h == hs[0] || h in hs[1..];
    }
  }

  /** The operations after the first leave the system phases as the first one left them exactly
      when all system handlers they bring are idle by then; each of the others is put there
      once more. */
  lemma {:induction false} SystemHandlersOnce(ops: seq<Op>, sys: Phases, m: Module) returns (s: Phases)
    requires AllWellFormed(ops, m) && ops != [] && EngageSvc(ops, sys, m).0
    ensures WellFormed(ops[0], m) && s == if Has(ops, m, 0) then sys else AddAll(sys, SystemPart(ops[0].flows, m, 0)).1
    ensures EngageSvc(ops, sys, m).2 == s <==> forall h :: h in SystemOfAll(ops[1..], m) ==> Idle(s, h)
  {
    s := HeadEngaged(ops, sys, m);
    EngageSvcSystem(ops[1..], s, m);
    AllGrow(s, SystemOfAll(ops[1..], m));
  }

  /** A handler with a rule about its neighbour, as the addressing module has, engaged to two
      operations: it runs twice for every message. */
  lemma BroughtTwice()
    ensures var a := Handler("a", Rule("Transport", None, None, false, false));
      var h := Handler("h", Rule("Transport", Some("a"), None, false, false));
      var m := Module("m", [Some([h]), None, None, None]);
      var op := Op([Some([]), None, None, None], []);
      EngageSvc([op, op], [PhaseState("Transport", None, [a], None, false)], m)
      == (true, [op.(engaged := ["m"]), op.(engaged := ["m"])], [PhaseState("Transport", None, [h, h, a], None, false)])
  {
    var a := Handler("a", Rule("Transport", None, None, false, false));
    var h := Handler("h", Rule("Transport", Some("a"), None, false, false));
    var m := Module("m", [Some([h]), None, None, None]);
    var op := Op([Some([]), None, None, None], []);
    var p0, p1, p2 := PhaseState("Transport", None, [a], None, false), PhaseState("Transport", None, [h, a], None, false),
      PhaseState("Transport", None, [h, h, a], None, false);
    assert AddDesc(p0, h) == (true, p1) by {
      assert IndexOf([a], "a") == 0;
      assert InsertAt([a], 0, h) == [h, a];
    }
    assert AddDesc(p1, h) == (true, p2) by {
      assert [h, a][1..] == [a] && IndexOf([h, a], "a") == 1;
      assert InsertAt([h, a], 1, h) == [h, h, a];
    }
    BringsOne(op, [p0], [p1], m, h);
    BringsOne(op, [p1], [p2], m, h);
    var done := op.(engaged := ["m"]);
    SvcStep(op, [], [p1], [p2], m, []);
    SvcStep(op, [op], [p0], [p1], m, [done]);
    assert [op] + [op] == [op, op] && [done] + [done] == [done, done] && [op] + [] == [op] && [done] + [] == [done];
  }

  /** A service whose first operation leaves its own flows as they are. */
  lemma SvcStep(op: Op, rest: seq<Op>, sys: Phases, s: Phases, m: Module, done: seq<Op>)
    requires WellFormed(op, m) && AllWellFormed(rest, m) && op.engaged == []
    requires EngageFlows(op.flows, sys, m, 0) == (true, op.flows, s)
    requires EngageSvc(rest, s, m).0 && EngageSvc(rest, s, m).1 == done
    ensures AllWellFormed([op] + rest, m)
    ensures EngageSvc([op] + rest, sys, m) == (true, [op.(engaged := [m.name])] + done, EngageSvc(rest, s, m).2)
  {
    assert ([op] + rest)[1..] == rest && AddName([], m.name) == [m.name];
  }

  /** A module that brings one system handler in its in flow, to an operation with no phases. */
  lemma BringsOne(op: Op, sys: Phases, later: Phases, m: Module, h: Handler)
    requires op.flows == [Some([]), None, None, None] && m.flows == [Some([h]), None, None, None]
    requires |sys| == |later| == 1 && IsSystem(h.rule.phase) && sys[0].name == h.rule.phase
    requires AddDesc(sys[0], h) == (true, later[0])
    ensures EngageFlows(op.flows, sys, m, 0) == (true, op.flows, later)
  {
    assert [h][1..] == [] && sys[0 := later[0]] == later;
    assert HolderAdd(sys, h) == (true, later);
    assert EngageHandlers([], sys, [h]) == (true, [], later);
    assert op.flows[0 := Some([])] == op.flows;
    assert EngageFlows(op.flows, later, m, 4) == (true, op.flows, later);
    assert EngageFlows(op.flows, later, m, 3) == (true, op.flows, later);
    assert EngageFlows(op.flows, later, m, 2) == (true, op.flows, later);
    assert EngageFlows(op.flows, later, m, 1) == (true, op.flows, later);
  }
}
