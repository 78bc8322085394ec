/** A service that arrives after modules were engaged, and catches up. */
module LateServiceLaws {
  import opened PhaseTypes
  import opened Placement
  import opened Resolver
  import opened ResolverLaws
  import opened EngagementLaws
  import opened ServiceLaws

  predicate FullModules(ms: seq<Module>) {
    forall i :: 0 <= i < |ms| ==> |ms[i].flows| == FLOW_TYPES
  }

  /** The reference: an operation that was there while the modules were engaged one after the
      other, each of them only if it was not engaged to the operation already. */
  function EachAll(op: Op, ms: seq<Module>): (r: Op)
    requires |op.flows| == FLOW_TYPES && FullModules(ms)
    ensures |r.flows| == FLOW_TYPES
    decreases |ms|
  {
    if ms == [] then op else EachAll(EachOp(op, ms[0]), ms[1..])
  }

  /** Every one of these engagements succeeds. */
  predicate AcceptsEach(op: Op, ms: seq<Module>)
    requires |op.flows| == FLOW_TYPES && FullModules(ms)
    decreases |ms|
  {
    ms == [] || ((ms[0].name in op.engaged || AcceptsAll(op.flows, ms[0])) && AcceptsEach(EachOp(op, ms[0]), ms[1..]))
  }

  /** The modules not engaged yet, each once. */
  function Unengaged(ms: seq<Module>, engaged: seq<string>): (r: seq<Module>)
    ensures FullModules(ms) ==> FullModules(r)
    decreases |ms|
  {
    if ms == [] then []
    else if ms[0].name in engaged then Unengaged(ms[1..], engaged)
    else [ms[0]] + Unengaged(ms[1..], engaged + [ms[0].name])
  }

  /** All modules are new to the operation and named differently. */
  predicate AllNew(ms: seq<Module>, engaged: seq<string>) {
    && (forall i :: 0 <= i < |ms| ==> ms[i].name !in engaged)
    && (forall i, j :: 0 <= i < j < |ms| ==> ms[i].name != ms[j].name)
  }

  lemma {:induction false} AllNewUnengaged(ms: seq<Module>, engaged: seq<string>)
    ensures AllNew(ms, engaged) <==> Unengaged(ms, engaged) == ms
    ensures |Unengaged(ms, engaged)| <= |ms|
    decreases |ms|
  {
    if ms != [] {
      var rest, e := ms[1..], engaged + [ms[0].name];
      if ms[0].name in engaged {
        AllNewUnengaged(rest, engaged);
      } else {
        AllNewUnengaged(rest, e);
        assert AllNew(ms, engaged) ==> AllNew(rest, e);
        if AllNew(rest, e) {
          forall i | 0 <= i < |ms| ensures ms[i].name !in engaged && (i > 0 ==> ms[i].name != ms[0].name) {
            if i > 0 { assert ms[i] == rest[i - 1]; }
          }
          assert forall i, j :: 0 < i < j < |ms| ==> ms[i] == rest[i - 1] && ms[j] == rest[j - 1];
        }
        assert [ms[0]] + rest == ms;
        assert Unengaged(ms, engaged)[1..] == Unengaged(rest, e);
      }
    }
  }

  /** One engagement after the other adds, flow by flow, what the modules not engaged yet bring. */
  lemma {:induction false} EachAllAdds(op: Op, ms: seq<Module>, t: nat)
    requires |op.flows| == FLOW_TYPES && FullModules(ms) && t < FLOW_TYPES && AcceptsEach(op, ms)
    ensures var hs := Gather(Unengaged(ms, op.engaged), t);
      Accepts(op.flows[t], hs) && EachAll(op, ms).flows[t] == Grown(op.flows[t], hs)
    decreases |ms|
  {
    if ms != [] {
      var next := EachOp(op, ms[0]);
      EachAllAdds(next, ms[1..], t);
      if ms[0].name !in op.engaged && op.flows[t].Some? {
        var us, rest := UserPart(op.flows, ms[0], t), Unengaged(ms[1..], next.engaged);
        GatherFirst(ms[0], rest, t);
        AddAllConcat(op.flows[t].value, us, Gather(rest, t));
      }
    }
  }

  lemma GatherFirst(m: Module, rest: seq<Module>, t: nat)
    requires |m.flows| == FLOW_TYPES && FullModules(rest) && t < FLOW_TYPES
    ensures FullModules([m] + rest)
    ensures Gather([m] + rest, t)
         == (if m.flows[t].Some? then UserOnly(m.flows[t].value) else []) + Gather(rest, t)
  {
    assert ([m] + rest)[1..] == rest;
  }

  lemma {:induction false} EachAllAccepts(op: Op, ms: seq<Module>)
    requires |op.flows| == FLOW_TYPES && FullModules(ms)
    requires forall t :: 0 <= t < FLOW_TYPES ==> Accepts(op.flows[t], Gather(Unengaged(ms, op.engaged), t))
    ensures AcceptsEach(op, ms)
    decreases |ms|
  {
    if ms != [] {
      var next := EachOp(op, ms[0]);
      if ms[0].name in op.engaged {
        EachAllAccepts(op, ms[1..]);
      } else {
        var rest := Unengaged(ms[1..], next.engaged);
        forall t | 0 <= t < FLOW_TYPES
          ensures Accepts(op.flows[t], UserPart(op.flows, ms[0], t)) && Accepts(next.flows[t], Gather(rest, t))
        {
          assert Accepts(op.flows[t], Gather(Unengaged(ms, op.engaged), t));
          if op.flows[t].Some? {
            GatherFirst(ms[0], rest, t);
            AddAllConcat(op.flows[t].value, UserPart(op.flows, ms[0], t), Gather(rest, t));
          }
        }
        EachAllAccepts(next, ms[1..]);
      }
    }
  }

  /** An operation that was there all along has, in every flow, the handlers that the chain
      builder would add to it for the modules it lacks, each taken once, and gets them exactly
      when the builder would succeed in all flows. So the builder, which does not look at what
      is engaged already, catches up when all modules are new to the operation and named
      differently. */
  lemma {:induction false} LateServiceCatchesUp(op: Op, ms: seq<Module>)
    requires |op.flows| == FLOW_TYPES && FullModules(ms)
    ensures var us := Unengaged(ms, op.engaged);
      && (AcceptsEach(op, ms) <==> forall t :: 0 <= t < FLOW_TYPES ==> BuildFlow(op.flows[t], us, t).0)
      && (AcceptsEach(op, ms) ==>
            forall t :: 0 <= t < FLOW_TYPES ==> EachAll(op, ms).flows[t] == BuildFlow(op.flows[t], us, t).1)
      && (AllNew(ms, op.engaged) ==> us == ms)
  {
    var us := Unengaged(ms, op.engaged);
    AllNewUnengaged(ms, op.engaged);
    forall t | 0 <= t < FLOW_TYPES
      ensures BuildFlow(op.flows[t], us, t).0 <==> Accepts(op.flows[t], Gather(us, t))
      ensures Accepts(op.flows[t], Gather(us, t)) ==> BuildFlow(op.flows[t], us, t).1 == Grown(op.flows[t], Gather(us, t))
    {
    }
    if AcceptsEach(op, ms) {
      forall t | 0 <= t < FLOW_TYPES
        ensures Accepts(op.flows[t], Gather(us, t)) && EachAll(op, ms).flows[t] == Grown(op.flows[t], Gather(us, t))
      {
        EachAllAdds(op, ms, t);
      }
    }
    if forall t :: 0 <= t < FLOW_TYPES ==> BuildFlow(op.flows[t], us, t).0 {
      forall t | 0 <= t < FLOW_TYPES ensures Accepts(op.flows[t], Gather(us, t)) {
        assert BuildFlow(op.flows[t], us, t).0;
      }
      EachAllAccepts(op, ms);
    }
  }

  /** The builder marks the modules that the operation present all along has, in that order. */
  lemma {:induction false} BuilderMarks(op: Op, ms: seq<Module>)
    requires |op.flows| == FLOW_TYPES && FullModules(ms)
    ensures AddNames(op.engaged, ms) == EachAll(op, ms).engaged
    ensures forall n :: n in AddNames(op.engaged, ms) <==> n in op.engaged || exists i :: 0 <= i < |ms| && ms[i].name == n
    decreases |ms|
  {
    if ms != [] {
      BuilderMarks(EachOp(op, ms[0]), ms[1..]);
      forall n ensures n in AddNames(op.engaged, ms) <==> n in op.engaged || exists i :: 0 <= i < |ms| && ms[i].name == n {
        if n in AddName(op.engaged, ms[0].name) && n !in op.engaged { assert ms[0].name == n; }
        if i :| 0 <= i < |ms| && ms[i].name == n { assert i > 0 ==> ms[1..][i - 1].name == n; }
        if i :| 0 <= i < |ms| - 1 && ms[1..][i].name == n { assert ms[i + 1].name == n; }
      }
    }
  }

  /** New modules named differently are put behind those engaged before, in order. */
  lemma {:induction false} BuilderAppends(names: seq<string>, ms: seq<Module>)
    requires AllNew(ms, names)
    ensures |AddNames(names, ms)| == |names| + |ms| && names <= AddNames(names, ms)
    ensures forall i :: 0 <= i < |ms| ==> AddNames(names, ms)[|names| + i] == ms[i].name
    decreases |ms|
  {
    if ms != [] {
      assert AddName(names, ms[0].name) == names + [ms[0].name];
      assert AllNew(ms[1..], names + [ms[0].name]);
      BuilderAppends(names + [ms[0].name], ms[1..]);
      forall i | 0 <= i < |ms| ensures AddNames(names, ms)[|names| + i] == ms[i].name {
        if i > 0 { assert ms[i] == ms[1..][i - 1]; }
      }
    }
  }

  lemma {:induction false} GatherConcat(a: seq<Module>, b: seq<Module>, t: nat)
    requires FullModules(a) && FullModules(b) && t < FLOW_TYPES
    ensures FullModules(a + b) && Gather(a + b, t) == Gather(a, t) + Gather(b, t)
    decreases |a|
  {
    if a == [] {
      assert a + b == b;
    } else {
      assert (a + b)[1..] == a[1..] + b;
      GatherConcat(a[1..], b, t);
      Assoc(if a[0].flows[t].Some? then UserOnly(a[0].flows[t].value) else [], Gather(a[1..], t), Gather(b, t));
    }
  }

  lemma {:induction false} IdleAdditions(ps: Phases, hs: seq<Handler>)
    ensures AddAll(ps, hs) == (true, ps) <==> forall h :: h in hs ==> Idle(ps, h)
    decreases |hs|
  {
    if AddAll(ps, hs).0 { AllGrow(ps, hs); }
    if hs != [] && forall h :: h in hs ==> Idle(ps, h) {
      assert Idle(ps, hs[0]);
      AcceptsExactly(ps[Find(ps, hs[0].rule.phase)], hs[0]);
      assert HolderAdd(ps, hs[0]).0;
      HolderGrows(ps, hs[0]);
      IdleAdditions(ps, hs[1..]);
    }
  }

  /** The builder as it is called: the configuration's modules `ms`, new to the operation, then
      the service's `own`, all of which are engaged to its operations already, since they are
      put on its list only after that. It gives a flow what the operation would have had all
      along exactly when each user-phase handler of the own modules is in its phase by then
      and its rule sends it to the end; any other is added again, or refused. */
  lemma {:induction false} OwnModulesExactly(op: Op, ms: seq<Module>, own: seq<Module>, t: nat)
    requires |op.flows| == FLOW_TYPES && FullModules(ms) && FullModules(own) && FullModules(ms + own) && t < FLOW_TYPES
    requires Unengaged(ms + own, op.engaged) == ms && AcceptsEach(op, ms + own) && op.flows[t].Some?
    ensures var flow := EachAll(op, ms + own).flows[t];
      && flow.Some?
      && (BuildFlow(op.flows[t], ms + own, t) == (true, flow) <==> forall h :: h in Gather(own, t) ==> Idle(flow.value, h))
  {
    EachAllAdds(op, ms + own, t);
    GatherConcat(ms, own, t);
    AddAllConcat(op.flows[t].value, Gather(ms, t), Gather(own, t));
    IdleAdditions(EachAll(op, ms + own).flows[t].value, Gather(own, t));
  }

  /** Those modules are indeed the ones to leave out. */
  lemma {:induction false} OwnAreEngaged(ms: seq<Module>, own: seq<Module>, engaged: seq<string>)
    requires AllNew(ms, engaged) && forall i :: 0 <= i < |own| ==> own[i].name in engaged
    ensures Unengaged(ms + own, engaged) == ms
    decreases |ms| + |own|
  {
    if ms != [] {
      assert (ms + own)[1..] == ms[1..] + own;
      OwnAreEngaged(ms[1..], own, engaged + [ms[0].name]);
    } else if own != [] {
      assert ms + own == own && own[1..] == [] + own[1..];
      OwnAreEngaged([], own[1..], engaged);
    }
  }

  lemma {:induction false} GatherLast(ms: seq<Module>, m: Module, t: nat)
    requires FullModules(ms) && |m.flows| == FLOW_TYPES && t < FLOW_TYPES
    ensures FullModules(ms + [m])
    ensures Gather(ms + [m], t) == Gather(ms, t) + if m.flows[t].Some? then UserOnly(m.flows[t].value) else []
    decreases |ms|
  {
    var own := if m.flows[t].Some? then UserOnly(m.flows[t].value) else [];
    if ms == [] {
      assert [] + [m] == [m] && Gather([m], t) == own + [] == [] + own;
    } else {
      assert (ms + [m])[1..] == ms[1..] + [m];
      GatherLast(ms[1..], m, t);
      Assoc(if ms[0].flows[t].Some? then UserOnly(ms[0].flows[t].value) else [], Gather(ms[1..], t), own);
    }
  }

  /** A module in both the configuration's and the service's list: the builder adds it again,
      and that changes a flow exactly when one of its handlers there is not idle by then. */
  lemma {:induction false} SecondMentionExactly(flow: Phases, ms: seq<Module>, m: Module, t: nat)
    requires FullModules(ms) && |m.flows| == FLOW_TYPES && t < FLOW_TYPES
    requires FullModules(ms + [m]) && BuildFlow(Some(flow), ms + [m], t).0
    ensures var built := AddAll(flow, Gather(ms, t)).1;
      BuildFlow(Some(flow), ms, t) == (true, Some(built))
      && (BuildFlow(Some(flow), ms + [m], t).1 == Some(built) <==>
            (m.flows[t].Some? ==> forall h :: h in UserOnly(m.flows[t].value) ==> Idle(built, h)))
  {
    GatherLast(ms, m, t);
    var own := if m.flows[t].Some? then UserOnly(m.flows[t].value) else [];
    AddAllConcat(flow, Gather(ms, t), own);
    AllGrow(AddAll(flow, Gather(ms, t)).1, own);
  }

  /** Such a module with a handler that goes before another one has it there twice. */
  lemma SecondMentionDoubles()
    ensures var x := Handler("x", Rule("p", None, None, false, false));
      var h := Handler("h", Rule("p", Some("x"), None, false, false));
      var m := Module("m", [Some([h]), None, None, None]);
      BuildFlow(Some([PhaseState("p", None, [x], None, false)]), [m, m], 0)
      == (true, Some([PhaseState("p", None, [h, h, x], None, false)]))
  {
    var x := Handler("x", Rule("p", None, None, false, false));
    var h := Handler("h", Rule("p", Some("x"), None, false, false));
    var m := Module("m", [Some([h]), None, None, None]);
    var p0, p1, p2 := PhaseState("p", None, [x], None, false), PhaseState("p", None, [h, x], None, false),
      PhaseState("p", None, [h, h, x], None, false);
    assert AddDesc(p0, h) == (true, p1) by {
      assert IndexOf([x], "x") == 0;
      assert InsertAt([x], 0, h) == [h, x];
    }
    assert AddDesc(p1, h) == (true, p2) by {
      assert [h, x][1..] == [x] && IndexOf([h, x], "x") == 1;
      assert InsertAt([h, x], 1, h) == [h, h, x];
    }
    assert [h][1..] == [] && UserOnly([h]) == [h] + [] == [h];
    assert [m, m][1..] == [m] && [m][1..] == [];
    assert Gather([m], 0) == [h] + [] == [h] && Gather([m, m], 0) == [h] + [h] == [h, h];
    assert [p0][0 := p1] == [p1] && [p1][0 := p2] == [p2];
    assert HolderAdd([p0], h) == (true, [p1]) && HolderAdd([p1], h) == (true, [p2]);
    assert [h, h][1..] == [h] && AddAll([p2], []) == (true, [p2]);
    assert AddAll([p1], [h]) == (true, [p2]);
  }
}
