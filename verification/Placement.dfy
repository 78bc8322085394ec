/** Rule-driven placement of handlers in a phase, on values. */
module Placement {
  import opened PhaseTypes

  // ----- the operations -------------------------------------------------------------

  /** The first position holding a handler of that name, or the length of the list. */
  function IndexOf(hs: seq<Handler>, n: string): (i: nat)
    ensures i <= |hs|
    ensures i < |hs| ==> hs[i].name == n
    ensures forall j :: 0 <= j < i ==> hs[j].name != n
  {
    if hs == [] || hs[0].name == n then 0 else 1 + IndexOf(hs[1..], n)
  }

  function InsertAt(hs: seq<Handler>, k: nat, h: Handler): seq<Handler>
    requires k <= |hs|
  {
    hs[..k] + [h] + hs[k..]
  }

  function AddUnique(hs: seq<Handler>, h: Handler): seq<Handler> {
    if IndexOf(hs, h.name) < |hs| then hs else hs + [h]
  }

  function RemoveUnique(hs: seq<Handler>, h: Handler): seq<Handler> {
    var i := IndexOf(hs, h.name);
    if i < |hs| then hs[..i] + hs[i + 1..] else hs
  }

  predicate Named(o: Option<Handler>, n: Option<string>) {
    o.Some? && n == Some(o.value.name)
  }

  /** Where a handler goes: nowhere, at an index whatever the list holds, or at the end
      unless its name is there already. */
  datatype Spot = Reject | At(k: nat) | Append

  /** axis2_phase_insert_before. */
  function SpotBefore(p: PhaseState, n: string): Spot {
    if Named(p.last, Some(n)) then Append
    else
      var i := IndexOf(p.handlers, n);
      if i < |p.handlers| then At(i) else Append
  }

  /** axis2_phase_insert_after. */
  function SpotAfter(p: PhaseState, n: string): Spot {
    if Named(p.first, Some(n)) then At(0)
    else
      var i := IndexOf(p.handlers, n);
      if i < |p.handlers| then (if i == |p.handlers| - 1 then Append else At(i + 1))
      else if |p.handlers| > 0 then At(0) else Append
  }

  /** The loop of axis2_phase_insert_before_and_after, from position i, with what has been
      found so far (-1: nothing). */
  function SpotBoth(hs: seq<Handler>, i: nat, after: int, before: int, a: string, b: string): Spot
    requires i <= |hs|
    decreases |hs| - i
  {
    if i == |hs| then Append
    else
      var after1 := if hs[i].name == a then i else after;
      var before1 := if hs[i].name == b then i else before;
      if after1 >= 0 && before1 >= 0 then
        if after1 > before1 then Reject
        else if after1 + 1 < |hs| then At(after1 + 1) else Append
      else SpotBoth(hs, i + 1, after1, before1, a, b)
  }

  /** axis2_phase_insert_before_and_after: the `before` name is compared with the phase's
      first handler and the `after` name with its last one. */
  function SpotBeforeAndAfter(p: PhaseState, b: string, a: string): Spot {
    if Named(p.first, Some(b)) && Named(p.last, Some(a)) then Append
    else
      SpotBoth(p.handlers, 0,
               if Named(p.last, Some(a)) then 0 else -1,
               if p.last.Some? && Named(p.first, Some(b)) then |p.handlers| else -1, a, b)
  }

  /** axis2_phase_insert_handler_desc. A rule naming one handler on both sides is meant to
      be refused, but its error code is that of a rule with two sides. */
  function Place(p: PhaseState, h: Handler): Spot {
    if Named(p.last, h.rule.after) || Named(p.first, h.rule.before) then Reject
    else if h.rule.before.Some? && h.rule.after.Some? then
      SpotBeforeAndAfter(p, h.rule.before.value, h.rule.after.value)
    else if h.rule.before.Some? then SpotBefore(p, h.rule.before.value)
    else if h.rule.after.Some? then SpotAfter(p, h.rule.after.value)
    else Append
  }

  function Put(hs: seq<Handler>, s: Spot, h: Handler): (r: (bool, seq<Handler>))
    ensures !r.0 ==> r.1 == hs
  {
    match s
    case Reject => (false, hs)
    case At(k) => if k <= |hs| then (true, InsertAt(hs, k, h)) else (false, hs)
    case Append => (true, AddUnique(hs, h))
  }

  predicate Anywhere(h: Handler) { h.rule.before.None? && h.rule.after.None? }

  /** axis2_phase_add_handler_desc. */
  function AddDesc(p: PhaseState, h: Handler): (bool, PhaseState) {
    if p.single then (false, p)
    else if h.rule.first && h.rule.last then
      if |p.handlers| > 0 then (false, p) else (true, p.(handlers := AddUnique(p.handlers, h), single := true))
    else if h.rule.first then
      if p.first.Some? || !Anywhere(h) then (false, p) else (true, p.(first := Some(h)))
    else if h.rule.last then
      if p.last.Some? || !Anywhere(h) then (false, p) else (true, p.(last := Some(h)))
    else
      var r := Put(p.handlers, Place(p, h), h);
      (r.0, p.(handlers := r.1))
  }

  /** axis2_phase_remove_handler_desc: the end slots and the one-handler flag stay. */
  function RemoveDesc(p: PhaseState, h: Handler): PhaseState {
    p.(handlers := RemoveUnique(p.handlers, h))
  }

  // ----- what placement promises ----------------------------------------------------

  /** Handler i of the order runs before and after those its rule names. */
  predicate Honoured(hs: seq<Handler>, i: nat, j: nat)
    requires i < |hs| && j < |hs|
  {
    && (hs[i].rule.before == Some(hs[j].name) ==> i < j)
    && (hs[i].rule.after == Some(hs[j].name) ==> j < i)
  }

  predicate RulesHold(hs: seq<Handler>) {
    forall i, j :: 0 <= i < |hs| && 0 <= j < |hs| ==> Honoured(hs, i, j)
  }

  predicate DistinctHandlers(hs: seq<Handler>) {
    forall i, j :: 0 <= i < j < |hs| ==> hs[i].name != hs[j].name
  }

  predicate Absent(hs: seq<Handler>, n: string) {
    forall i :: 0 <= i < |hs| ==> hs[i].name != n
  }

  /** The handlers in the end slots carry no rule about neighbours; all names differ; all rules hold. */
  predicate Ordered(p: PhaseState) {
    && (p.first.Some? ==> Anywhere(p.first.value))
    && (p.last.Some? ==> Anywhere(p.last.value))
    && DistinctHandlers(Order(p))
    && RulesHold(Order(p))
  }

  /** The combined insertion misses: its before-target is in the list but its after-target
      is not after-able there, being absent from the list or the very same handler. */
  predicate BothMiss(p: PhaseState, h: Handler) {
    && h.rule.before.Some? && h.rule.after.Some?
    && !Absent(p.handlers, h.rule.before.value)
    && (Absent(p.handlers, h.rule.after.value) || h.rule.before == h.rule.after)
  }

  /** No handler left of k wants to come after h, and none from k on wants to come before it. */
  predicate Unclaimed(hs: seq<Handler>, k: nat, h: Handler)
    requires k <= |hs|
  {
    && (forall j :: 0 <= j < k ==> hs[j].rule.after != Some(h.name))
    && (forall j :: k <= j < |hs| ==> hs[j].rule.before != Some(h.name))
  }

  predicate NamesItself(h: Handler) {
    h.rule.before == Some(h.name) || h.rule.after == Some(h.name)
  }

  /** The position in the list a fresh handler is given. */
  function Point(p: PhaseState, h: Handler): nat {
    var s := Place(p, h);
    if s.At? then s.k else |p.handlers|
  }

  lemma {:induction false} SpotBothFinds(hs: seq<Handler>, i: nat, after: int, before: int, a: string, b: string)
    requires i <= |hs| && a != b
    requires after == (if IndexOf(hs, a) < i then IndexOf(hs, a) else -1)
    requires before == (if IndexOf(hs, b) < i then IndexOf(hs, b) else -1)
    requires after < 0 || before < 0
    requires DistinctHandlers(hs)
    ensures var ia, ib := IndexOf(hs, a), IndexOf(hs, b);
      SpotBoth(hs, i, after, before, a, b)
      == if ia == |hs| || ib == |hs| then Append else if ia > ib then Reject else At(ia + 1)
    decreases |hs| - i
  {
    if i < |hs| {
      var after1 := if hs[i].name == a then i else after;
      var before1 := if hs[i].name == b then i else before;
      assert after1 == if IndexOf(hs, a) < i + 1 then IndexOf(hs, a) else -1;
      assert before1 == if IndexOf(hs, b) < i + 1 then IndexOf(hs, b) else -1;
      if !(after1 >= 0 && before1 >= 0) {
        SpotBothFinds(hs, i + 1, after1, before1, a, b);
      }
    }
  }

  lemma {:induction false} SpotSame(hs: seq<Handler>, i: nat, a: string)
    requires i <= |hs| && IndexOf(hs, a) >= i && DistinctHandlers(hs)
    ensures var ia := IndexOf(hs, a);
      SpotBoth(hs, i, -1, -1, a, a) == if ia + 1 < |hs| then At(ia + 1) else Append
    decreases |hs| - i
  {
    if i < IndexOf(hs, a) { SpotSame(hs, i + 1, a); }
  }

  /** With both targets in the list and distinct, the combined insertion succeeds exactly
      when the after-target comes first, and then lands right behind it, all else in place. */
  lemma {:induction false} BothBetween(p: PhaseState, h: Handler, ia: nat, ib: nat)
    requires Ordered(p) && !p.single && !h.rule.first && !h.rule.last
    requires ia < |p.handlers| && ib < |p.handlers| && ia != ib
    requires h.rule.after == Some(p.handlers[ia].name) && h.rule.before == Some(p.handlers[ib].name)
    ensures AddDesc(p, h) == if ia < ib then (true, p.(handlers := InsertAt(p.handlers, ia + 1, h))) else (false, p)
  {
    SlotsApart(p);
    SpotBothFinds(p.handlers, 0, -1, -1, h.rule.after.value, h.rule.before.value);
  }

  /** Names in the list differ from those in the end slots. */
  lemma SlotsApart(p: PhaseState)
    requires DistinctHandlers(Order(p))
    ensures DistinctHandlers(p.handlers)
    ensures p.first.Some? ==> Absent(p.handlers, p.first.value.name)
    ensures p.last.Some? ==> Absent(p.handlers, p.last.value.name)
    ensures p.first.Some? && p.last.Some? ==> p.first.value.name != p.last.value.name
  {
    ListInOrder(p);
  }

  /** Put at k, h has those it must precede from k on and those it must follow before k. */
  predicate OwnRule(hs: seq<Handler>, k: nat, h: Handler)
    requires k <= |hs|
  {
    && (forall j :: 0 <= j < k ==> h.rule.before != Some(hs[j].name))
    && (forall j :: k <= j < |hs| ==> h.rule.after != Some(hs[j].name))
  }

  lemma {:induction false} PointHonoursOwnRule(p: PhaseState, h: Handler)
    requires Ordered(p) && !Place(p, h).Reject?
    ensures Point(p, h) <= |p.handlers|
    ensures OwnRule(p.handlers, Point(p, h), h) <==> !BothMiss(p, h)
  {
    SlotsApart(p);
    var hs := p.handlers;
    if h.rule.before.Some? && h.rule.after.Some? {
      var b, a := h.rule.before.value, h.rule.after.value;
      if a == b {
        SpotSame(hs, 0, a);
        if !Absent(hs, a) { assert hs[IndexOf(hs, a)].name == a; }
      } else {
        SpotBothFinds(hs, 0, -1, -1, a, b);
        if !Absent(hs, b) { assert hs[IndexOf(hs, b)].name == b; }
      }
    }
  }

  /** Inserting a new name keeps all rules exactly when its own rule is met at that place
      and no handler's rule claims the other side. */
  lemma {:induction false} InsertKeepsRules(o: seq<Handler>, m: nat, h: Handler)
    requires m <= |o| && RulesHold(o) && Absent(o, h.name) && !NamesItself(h)
    ensures RulesHold(InsertAt(o, m, h)) <==> OwnRule(o, m, h) && Unclaimed(o, m, h)
  {
    var r := InsertAt(o, m, h);
    assert forall i :: 0 <= i < |o| ==> r[Shift(i, m)] == o[i];
    assert r[m] == h;
    if RulesHold(r) {
      forall j | 0 <= j < |o|
        ensures j < m ==> h.rule.before != Some(o[j].name) && o[j].rule.after != Some(h.name)
        ensures j >= m ==> h.rule.after != Some(o[j].name) && o[j].rule.before != Some(h.name)
      {
        assert Honoured(r, m, Shift(j, m)) && Honoured(r, Shift(j, m), m);
      }
    }
    if OwnRule(o, m, h) && Unclaimed(o, m, h) {
      forall i, j | 0 <= i < |r| && 0 <= j < |r| ensures Honoured(r, i, j) {
        if i != m && j != m {
          var i0, j0 := Unshift(i, m), Unshift(j, m);
          assert Honoured(o, i0, j0);
        } else if i == m && j != m {
          assert r[j] == o[Unshift(j, m)];
        } else if i != m {
          assert r[i] == o[Unshift(i, m)];
        }
      }
    }
  }

  function Shift(i: nat, m: nat): nat { if i < m then i else i + 1 }

  function Unshift(i: nat, m: nat): (k: nat)
    requires i != m
    ensures Shift(k, m) == i
  {
    if i < m then i else i - 1
  }

  /** Where the list and the end slots sit in the order. */
  lemma ListInOrder(p: PhaseState)
    ensures forall i :: 0 <= i < |p.handlers| ==> p.handlers[i] == Order(p)[|Slot(p.first)| + i]
    ensures p.first.Some? ==> Order(p)[0] == p.first.value
    ensures p.last.Some? ==> Order(p)[|Slot(p.first)| + |p.handlers|] == p.last.value
  {
  }

  lemma InsertMiddle(a: seq<Handler>, hs: seq<Handler>, b: seq<Handler>, k: nat, h: Handler)
    requires k <= |hs|
    ensures a + InsertAt(hs, k, h) + b == InsertAt(a + hs + b, |a| + k, h)
  {
    var o := a + hs + b;
    assert o[..|a| + k] == a + hs[..k];
    assert o[|a| + k..] == hs[k..] + b;
  }

  lemma OmitMiddle(a: seq<Handler>, hs: seq<Handler>, b: seq<Handler>, k: nat)
    requires k < |hs|
    ensures a + (hs[..k] + hs[k + 1..]) + b == Omit(a + hs + b, |a| + k)
  {
    var o := a + hs + b;
    assert o[..|a| + k] == a + hs[..k];
    assert o[|a| + k + 1..] == hs[k + 1..] + b;
  }

  function Omit(o: seq<Handler>, m: nat): seq<Handler>
    requires m < |o|
  {
    o[..m] + o[m + 1..]
  }

  lemma InsertKeepsDistinct(o: seq<Handler>, m: nat, h: Handler)
    requires m <= |o| && DistinctHandlers(o) && Absent(o, h.name)
    ensures DistinctHandlers(InsertAt(o, m, h))
  {
  }

  function OrderAt(p: PhaseState, i: nat): Handler
    requires i < |Order(p)|
  {
    var n := |Slot(p.first)|;
    if i < n then p.first.value else if i < n + |p.handlers| then p.handlers[i - n] else p.last.value
  }

  lemma OrderIs(p: PhaseState, i: nat)
    requires i < |Order(p)|
    ensures Order(p)[i] == OrderAt(p, i)
  {
  }

  /** The end slots do not break the rule of h. */
  lemma SlotsNeutral(p: PhaseState, k: nat, h: Handler)
    requires k <= |p.handlers| && !Named(p.last, h.rule.after) && !Named(p.first, h.rule.before)
    ensures OwnRule(Order(p), |Slot(p.first)| + k, h) <==> OwnRule(p.handlers, k, h)
  {
    var o, n, hs := Order(p), |Slot(p.first)|, p.handlers;
    if OwnRule(hs, k, h) {
      forall j | 0 <= j < |o|
        ensures if j < n + k then h.rule.before != Some(o[j].name) else h.rule.after != Some(o[j].name)
      {
        OrderIs(p, j);
      }
    }
    if OwnRule(o, n + k, h) {
      forall j | 0 <= j < |hs|
        ensures if j < k then h.rule.before != Some(hs[j].name) else h.rule.after != Some(hs[j].name)
      {
        OrderIs(p, n + j);
      }
    }
  }

  /** The end slots do not claim a side of h. */
  lemma SlotsClaimNothing(p: PhaseState, k: nat, h: Handler)
    requires p.first.Some? ==> Anywhere(p.first.value)
    requires p.last.Some? ==> Anywhere(p.last.value)
    requires k <= |p.handlers|
    ensures Unclaimed(Order(p), |Slot(p.first)| + k, h) <==> Unclaimed(p.handlers, k, h)
  {
    var o, n, hs := Order(p), |Slot(p.first)|, p.handlers;
    if Unclaimed(hs, k, h) {
      forall j | 0 <= j < |o|
        ensures if j < n + k then o[j].rule.after != Some(h.name) else o[j].rule.before != Some(h.name)
      {
        OrderIs(p, j);
      }
    }
    if Unclaimed(o, n + k, h) {
      forall j | 0 <= j < |hs|
        ensures if j < k then hs[j].rule.after != Some(h.name) else hs[j].rule.before != Some(h.name)
      {
        OrderIs(p, n + j);
      }
    }
  }

  // ----- which handlers a phase accepts ---------------------------------------------

  /** Both targets of a two-sided rule are in the list, the before-target first. */
  predicate Crossed(hs: seq<Handler>, a: string, b: string) {
    IndexOf(hs, b) < IndexOf(hs, a) < |hs|
  }

  /** The guard of an addition: what the phase must look like to take h. */
  predicate Takes(p: PhaseState, h: Handler) {
    && !p.single
    && (if h.rule.first && h.rule.last then p.handlers == []
        else if h.rule.first then p.first.None? && Anywhere(h)
        else if h.rule.last then p.last.None? && Anywhere(h)
        else
          && !Named(p.last, h.rule.after) && !Named(p.first, h.rule.before)
          && !(h.rule.before.Some? && h.rule.after.Some? && Crossed(p.handlers, h.rule.after.value, h.rule.before.value)))
  }

  /** The combined search refuses exactly the crossed targets, whatever else the list holds. */
  lemma {:induction false} SpotBothRejects(hs: seq<Handler>, i: nat, after: int, before: int, a: string, b: string)
    requires i <= |hs|
    requires -1 <= after < i && -1 <= before < i && (after < 0 || before < 0)
    requires after < 0 <==> IndexOf(hs, a) >= i
    requires before < 0 <==> IndexOf(hs, b) >= i
    ensures var s := SpotBoth(hs, i, after, before, a, b);
      (s.Reject? <==> Crossed(hs, a, b)) && (s.At? ==> s.k <= |hs|)
    decreases |hs| - i
  {
    if i < |hs| {
      var after1 := if hs[i].name == a then i else after;
      var before1 := if hs[i].name == b then i else before;
      assert after1 < 0 <==> IndexOf(hs, a) >= i + 1;
      assert before1 < 0 <==> IndexOf(hs, b) >= i + 1;
      if after1 < 0 || before1 < 0 { SpotBothRejects(hs, i + 1, after1, before1, a, b); }
    }
  }

  /** A phase accepts exactly the handlers it takes. */
  lemma {:induction false} AcceptsExactly(p: PhaseState, h: Handler)
    ensures AddDesc(p, h).0 <==> Takes(p, h)
  {
    if h.rule.before.Some? && h.rule.after.Some? {
      SpotBothRejects(p.handlers, 0, -1, -1, h.rule.after.value, h.rule.before.value);
    }
  }

  // ----- where an accepted handler lands --------------------------------------------

  /** At the end, unless the name is there already. */
  function AtEnd(hs: seq<Handler>, h: Handler): seq<Handler> {
    if exists i :: 0 <= i < |hs| && hs[i].name == h.name then hs else hs + [h]
  }

  /** Right behind hs[k], which behind the last one means at the end, unless its name is there. */
  function Behind(hs: seq<Handler>, k: nat, h: Handler): seq<Handler>
    requires k < |hs|
  {
    if k == |hs| - 1 then AtEnd(hs, h) else hs[..k + 1] + [h] + hs[k + 1..]
  }

  lemma AddUniqueAtEnd(hs: seq<Handler>, h: Handler)
    ensures AddUnique(hs, h) == AtEnd(hs, h)
  {
  }

  /** hs[i] is the first handler of that name. */
  predicate FirstAt(hs: seq<Handler>, i: nat, n: string) {
    i < |hs| && hs[i].name == n && forall j :: 0 <= j < i ==> hs[j].name != n
  }

  lemma {:induction false} FirstIsIndex(hs: seq<Handler>, i: nat, n: string)
    requires FirstAt(hs, i, n)
    ensures IndexOf(hs, n) == i
  {
  }

  lemma AbsentIsIndex(hs: seq<Handler>, n: string)
    requires Absent(hs, n)
    ensures IndexOf(hs, n) == |hs|
  {
  }

  /** The insertion before n, called directly: right before the first n in the list, all else in
      place; at the end if n is the last handler or is not there. */
  lemma {:induction false} InsertedBefore(p: PhaseState, h: Handler, n: string, i: nat)
    ensures !Named(p.last, Some(n)) && FirstAt(p.handlers, i, n) ==>
      Put(p.handlers, SpotBefore(p, n), h) == (true, p.handlers[..i] + [h] + p.handlers[i..])
    ensures Named(p.last, Some(n)) || Absent(p.handlers, n) ==>
      Put(p.handlers, SpotBefore(p, n), h) == (true, AtEnd(p.handlers, h))
  {
    AddUniqueAtEnd(p.handlers, h);
    if FirstAt(p.handlers, i, n) { FirstIsIndex(p.handlers, i, n); }
    if Absent(p.handlers, n) { AbsentIsIndex(p.handlers, n); }
  }

  /** The insertion after n, called directly: at the head of the list if n is the first handler,
      or is not there and the list is not empty; else right behind the first n in the list. */
  lemma {:induction false} InsertedAfter(p: PhaseState, h: Handler, n: string, i: nat)
    ensures Named(p.first, Some(n)) || Absent(p.handlers, n) ==>
      Put(p.handlers, SpotAfter(p, n), h) == (true, [h] + p.handlers)
    ensures !Named(p.first, Some(n)) && FirstAt(p.handlers, i, n) ==>
      Put(p.handlers, SpotAfter(p, n), h) == (true, Behind(p.handlers, i, h))
  {
    AddUniqueAtEnd(p.handlers, h);
    assert InsertAt(p.handlers, 0, h) == [h] + p.handlers && [] + [h] == [h] + [];
    if FirstAt(p.handlers, i, n) { FirstIsIndex(p.handlers, i, n); }
    if Absent(p.handlers, n) { AbsentIsIndex(p.handlers, n); }
  }

  /** A handler for the list, of a phase that is not closed, with one neighbour it must precede:
      refused if that is the first handler; else put right before the first of that name in
      the list, all else in place; at the end if that is the last handler or is not there. */
  lemma {:induction false} BeforePlaced(p: PhaseState, h: Handler, n: string, i: nat)
    requires !p.single && !h.rule.first && !h.rule.last && h.rule.before == Some(n) && h.rule.after.None?
    ensures Named(p.first, Some(n)) ==> AddDesc(p, h) == (false, p)
    ensures !Named(p.first, Some(n)) && !Named(p.last, Some(n)) && FirstAt(p.handlers, i, n) ==>
      AddDesc(p, h) == (true, p.(handlers := p.handlers[..i] + [h] + p.handlers[i..]))
    ensures !Named(p.first, Some(n)) && (Named(p.last, Some(n)) || Absent(p.handlers, n)) ==>
      AddDesc(p, h) == (true, p.(handlers := AtEnd(p.handlers, h)))
  {
    InsertedBefore(p, h, n, i);
  }

  /** With one neighbour it must follow: refused if that is the last handler; at the head of the
      list if that is the first handler or is not there; else right behind the first of that
      name in the list, which at its end means at the end. */
  lemma {:induction false} AfterPlaced(p: PhaseState, h: Handler, n: string, i: nat)
    requires !p.single && !h.rule.first && !h.rule.last && h.rule.after == Some(n) && h.rule.before.None?
    ensures Named(p.last, Some(n)) ==> AddDesc(p, h) == (false, p)
    ensures !Named(p.last, Some(n)) && (Named(p.first, Some(n)) || Absent(p.handlers, n)) ==>
      AddDesc(p, h) == (true, p.(handlers := [h] + p.handlers))
    ensures !Named(p.last, Some(n)) && !Named(p.first, Some(n)) && FirstAt(p.handlers, i, n) ==>
      AddDesc(p, h) == (true, p.(handlers := Behind(p.handlers, i, h)))
  {
    InsertedAfter(p, h, n, i);
  }

  /** Without a neighbour: at the end. */
  lemma AnywherePlaced(p: PhaseState, h: Handler)
    requires !p.single && !h.rule.first && !h.rule.last && Anywhere(h)
    ensures AddDesc(p, h) == (true, p.(handlers := AtEnd(p.handlers, h)))
  {
    AddUniqueAtEnd(p.handlers, h);
  }

  /** hs[j] is the last handler of that name before position i. */
  predicate LastBefore(hs: seq<Handler>, j: nat, i: nat, n: string) {
    j < i <= |hs| && hs[j].name == n && forall k :: j < k < i ==> hs[k].name != n
  }

  lemma {:induction false} SpotBothLands(hs: seq<Handler>, i: nat, after: int, a: string, b: string, ja: nat, ib: nat)
    requires i <= ib && a != b && FirstAt(hs, ib, b) && LastBefore(hs, ja, ib, a)
    requires i <= ja || after == ja
    ensures SpotBoth(hs, i, after, -1, a, b) == At(ja + 1)
    decreases ib - i
  {
    if i < ib { SpotBothLands(hs, i + 1, if hs[i].name == a then i else after, a, b, ja, ib); }
  }

  lemma {:induction false} SpotBothSame(hs: seq<Handler>, i: nat, after: int, before: int, a: string, ia: nat)
    requires i <= ia && FirstAt(hs, ia, a) && (after < 0 || before < 0)
    ensures SpotBoth(hs, i, after, before, a, a) == if ia + 1 < |hs| then At(ia + 1) else Append
    decreases ia - i
  {
    if i < ia { SpotBothSame(hs, i + 1, after, before, a, ia); }
  }

  /** With a taken for found at position 0 and nowhere before b. */
  lemma {:induction false} SpotBothFromHead(hs: seq<Handler>, i: nat, a: string, b: string, ib: nat)
    requires i <= ib && a != b && FirstAt(hs, ib, b) && forall k :: 0 <= k < ib ==> hs[k].name != a
    ensures SpotBoth(hs, i, 0, -1, a, b) == if 1 < |hs| then At(1) else Append
    decreases ib - i
  {
    if i < ib { SpotBothFromHead(hs, i + 1, a, b, ib); }
  }

  predicate Occurs(hs: seq<Handler>, i: nat, n: string)
    requires i <= |hs|
  {
    exists k :: 0 <= k < i && hs[k].name == n
  }

  /** With b taken for found past the end, unless it is found before a. */
  lemma {:induction false} SpotBothToTail(hs: seq<Handler>, i: nat, before: int, a: string, b: string, ja: nat)
    requires i <= ja && a != b && FirstAt(hs, ja, a)
    requires if Occurs(hs, i, b) then 0 <= before < i else before == |hs|
    ensures SpotBoth(hs, i, -1, before, a, b)
         == if Occurs(hs, ja, b) then Reject else if ja + 1 < |hs| then At(ja + 1) else Append
    decreases ja - i
  {
    if i < ja {
      if hs[i].name == b { assert Occurs(hs, i + 1, b); }
      if Occurs(hs, i, b) { assert Occurs(hs, i + 1, b); }
      SpotBothToTail(hs, i + 1, if hs[i].name == b then i else before, a, b, ja);
    }
  }

  lemma {:induction false} SpotBothMisses(hs: seq<Handler>, i: nat, after: int, before: int, a: string, b: string)
    requires i <= |hs| && (after < 0 || before < 0)
    requires (Absent(hs, a) && after < 0) || (Absent(hs, b) && before < 0)
    ensures SpotBoth(hs, i, after, before, a, b) == Append
    decreases |hs| - i
  {
    if i < |hs| {
      SpotBothMisses(hs, i + 1, if hs[i].name == a then i else after, if hs[i].name == b then i else before, a, b);
    }
  }

  /** The insertion after a and before b, called directly. It takes b for found behind the list
      if b is the first handler and there is a last one, and a for found at the head if a is the
      last handler; with both so it is at the end. Otherwise: at the end if one of them is not
      found; refused if the first b comes before the first a; right behind the last a before
      the first b, or behind the head if a was only taken for found. */
  lemma {:induction false} InsertedBetween(p: PhaseState, h: Handler, a: string, b: string, ja: nat, ib: nat)
    ensures var hs, r := p.handlers, Put(p.handlers, SpotBeforeAndAfter(p, b, a), h);
      var atHead, atTail := Named(p.last, Some(a)), p.last.Some? && Named(p.first, Some(b));
      && (atHead && atTail ==> r == (true, AtEnd(hs, h)))
      && (!atTail && Absent(hs, b) ==> r == (true, AtEnd(hs, h)))
      && (!atHead && Absent(hs, a) ==> r == (true, AtEnd(hs, h)))
      && (!(atHead && atTail) && a == b && FirstAt(hs, ja, a) ==> r == (true, Behind(hs, ja, h)))
      && (!atTail && a != b && FirstAt(hs, ib, b) && LastBefore(hs, ja, ib, a) ==>
            r == (true, hs[..ja + 1] + [h] + hs[ja + 1..]))
      && (atHead && !atTail && a != b && FirstAt(hs, ib, b) && !Occurs(hs, ib, a) ==> r == (true, Behind(hs, 0, h)))
      && (!atHead && a != b && FirstAt(hs, ja, a) && Occurs(hs, ja, b) ==> r == (false, hs))
      && (!atHead && atTail && a != b && FirstAt(hs, ja, a) && !Occurs(hs, ja, b) ==> r == (true, Behind(hs, ja, h)))
  {
    var hs := p.handlers;
    AddUniqueAtEnd(hs, h);
    var after := if Named(p.last, Some(a)) then 0 else -1;
    var before := if p.last.Some? && Named(p.first, Some(b)) then |hs| else -1;
    if after < 0 || before < 0 {
      if (Absent(hs, a) && after < 0) || (Absent(hs, b) && before < 0) { SpotBothMisses(hs, 0, after, before, a, b); }
      if a == b && FirstAt(hs, ja, a) { SpotBothSame(hs, 0, after, before, a, ja); }
      if a != b && before < 0 && FirstAt(hs, ib, b) {
        if LastBefore(hs, ja, ib, a) { SpotBothLands(hs, 0, after, a, b, ja, ib); }
        if after == 0 && !Occurs(hs, ib, a) { SpotBothFromHead(hs, 0, a, b, ib); }
      }
      if a != b && after < 0 && FirstAt(hs, ja, a) {
        if before < 0 && Occurs(hs, ja, b) {
          FirstIsIndex(hs, ja, a);
          assert IndexOf(hs, b) < ja;
          SpotBothRejects(hs, 0, -1, -1, a, b);
        }
        if before >= 0 { SpotBothToTail(hs, 0, before, a, b, ja); }
      }
    }
  }

  /** With a neighbour a to follow and another, b, to precede, neither refused outright: at the
      end if one of them is not in the list; refused if the first b comes before the first a;
      else right behind the last a before the first b. If a and b are one: right behind it. */
  lemma {:induction false} TwoSidedPlaced(p: PhaseState, h: Handler, a: string, b: string, ja: nat, ib: nat)
    requires !p.single && !h.rule.first && !h.rule.last && h.rule.after == Some(a) && h.rule.before == Some(b)
    requires !Named(p.last, Some(a)) && !Named(p.first, Some(b))
    ensures var hs := p.handlers;
      && (Absent(hs, a) || Absent(hs, b) ==> AddDesc(p, h) == (true, p.(handlers := AtEnd(hs, h))))
      && (a != b && FirstAt(hs, ja, a) && Occurs(hs, ja, b) ==> AddDesc(p, h) == (false, p))
      && (a != b && FirstAt(hs, ib, b) && LastBefore(hs, ja, ib, a) ==>
            AddDesc(p, h) == (true, p.(handlers := hs[..ja + 1] + [h] + hs[ja + 1..])))
      && (a == b && FirstAt(hs, ja, a) ==> AddDesc(p, h) == (true, p.(handlers := Behind(hs, ja, h))))
  {
    InsertedBetween(p, h, a, b, ja, ib);
  }

  // ----- every sequence of additions and removals -----------------------------------

  datatype Step = Add(h: Handler) | Remove(h: Handler)

  function Apply(p: PhaseState, s: Step): PhaseState {
    match s
    case Add(h) => AddDesc(p, h).1
    case Remove(h) => RemoveDesc(p, h)
  }

  function ApplyAll(p: PhaseState, steps: seq<Step>): PhaseState
    decreases |steps|
  {
    if steps == [] then p else ApplyAll(Apply(p, steps[0]), steps[1..])
  }

  /** What a caller must see to before adding h: a new name that no rule of a handler
      already there claims from the wrong side, and a place that meets h's own rule. */
  predicate Welcome(p: PhaseState, h: Handler) {
    && Absent(Order(p), h.name)
    && !NamesItself(h)
    && (if h.rule.first && h.rule.last then OwnRule(Order(p), |Slot(p.first)|, h) && Unclaimed(Order(p), |Slot(p.first)|, h)
        else if h.rule.first then Unclaimed(Order(p), 0, h)
        else if h.rule.last then Unclaimed(Order(p), |Order(p)|, h)
        else !BothMiss(p, h) && Point(p, h) <= |p.handlers| && Unclaimed(p.handlers, Point(p, h), h))
  }

  /** A refused addition, a removal, an addition that changes nothing, or a welcome one. */
  predicate Fine(p: PhaseState, s: Step) {
    s.Remove? || !AddDesc(p, s.h).0 || AddDesc(p, s.h).1 == p || Welcome(p, s.h)
  }

  /** Every step of the sequence is fine where it is taken. */
  predicate AllFine(p: PhaseState, steps: seq<Step>)
    decreases |steps|
  {
    steps == [] || (Fine(p, steps[0]) && AllFine(Apply(p, steps[0]), steps[1..]))
  }

  /** The phase is ordered at every moment of the sequence. */
  predicate AlwaysOrdered(p: PhaseState, steps: seq<Step>) {
    forall n :: 0 <= n <= |steps| ==> Ordered(ApplyAll(p, steps[..n]))
  }

  lemma {:induction false} RemoveKeepsOrdered(p: PhaseState, h: Handler)
    requires Ordered(p)
    ensures Ordered(RemoveDesc(p, h))
  {
    var i := IndexOf(p.handlers, h.name);
    if i < |p.handlers| {
      RemoveIsOmit(p, h);
      OmitKeepsRules(Order(p), |Slot(p.first)| + i);
    }
  }

  lemma RemoveIsOmit(p: PhaseState, h: Handler)
    requires IndexOf(p.handlers, h.name) < |p.handlers|
    ensures Order(RemoveDesc(p, h)) == Omit(Order(p), |Slot(p.first)| + IndexOf(p.handlers, h.name))
  {
    OmitMiddle(Slot(p.first), p.handlers, Slot(p.last), IndexOf(p.handlers, h.name));
  }

  lemma {:induction false} OmitKeepsRules(o: seq<Handler>, m: nat)
    requires m < |o| && RulesHold(o) && DistinctHandlers(o)
    ensures RulesHold(Omit(o, m)) && DistinctHandlers(Omit(o, m))
  {
    var r := Omit(o, m);
    assert forall a :: 0 <= a < |r| ==> r[a] == o[Shift(a, m)];
    forall a, b | 0 <= a < |r| && 0 <= b < |r| ensures Honoured(r, a, b) {
      assert Honoured(o, Shift(a, m), Shift(b, m));
    }
  }

  /** Where in the order of the phase an accepted handler goes. */
  function OrderPoint(p: PhaseState, h: Handler): nat {
    if h.rule.first && h.rule.last then |Slot(p.first)|
    else if h.rule.first then 0
    else if h.rule.last then |Order(p)|
    else |Slot(p.first)| + Point(p, h)
  }

  lemma {:induction false} InsertOrderedExactly(o: seq<Handler>, m: nat, h: Handler)
    requires m <= |o| && DistinctHandlers(o) && RulesHold(o)
    ensures var r := InsertAt(o, m, h);
      DistinctHandlers(r) && RulesHold(r)
      <==> Absent(o, h.name) && !NamesItself(h) && OwnRule(o, m, h) && Unclaimed(o, m, h)
  {
    var r := InsertAt(o, m, h);
    assert forall i :: 0 <= i < |o| ==> r[Shift(i, m)] == o[i];
    assert r[m] == h;
    if DistinctHandlers(r) && RulesHold(r) {
      assert Honoured(r, m, m);
      forall i | 0 <= i < |o| ensures o[i].name != h.name { assert r[Shift(i, m)].name != r[m].name; }
      InsertKeepsRules(o, m, h);
    }
    if Absent(o, h.name) && !NamesItself(h) {
      InsertKeepsDistinct(o, m, h);
      InsertKeepsRules(o, m, h);
    }
  }

  /** An accepted handler is put somewhere into the order, unless its name is in the list
      already and its rule sends it to the end. */
  lemma {:induction false} AcceptedInserts(p: PhaseState, h: Handler)
    requires AddDesc(p, h).0 && AddDesc(p, h).1 != p
    ensures OrderPoint(p, h) <= |Order(p)|
    ensures Order(AddDesc(p, h).1) == InsertAt(Order(p), OrderPoint(p, h), h)
  {
    var q := AddDesc(p, h).1;
    if h.rule.first && h.rule.last {
      assert q.handlers == [h] && InsertAt([], 0, h) == [h];
      InsertMiddle(Slot(p.first), [], Slot(p.last), 0, h);
    } else if !h.rule.first && !h.rule.last {
      var k := Point(p, h);
      assert InsertAt(p.handlers, |p.handlers|, h) == p.handlers + [h];
      assert q.handlers == InsertAt(p.handlers, k, h);
      InsertMiddle(Slot(p.first), p.handlers, Slot(p.last), k, h);
    }
  }

  /** The own rule of an accepted new handler is met exactly as Welcome says. */
  lemma {:induction false} OwnRuleWelcome(p: PhaseState, h: Handler)
    requires Ordered(p) && AddDesc(p, h).0 && AddDesc(p, h).1 != p && Absent(Order(p), h.name) && !NamesItself(h)
    requires OrderPoint(p, h) <= |Order(p)|
    ensures OwnRule(Order(p), OrderPoint(p, h), h) && Unclaimed(Order(p), OrderPoint(p, h), h) <==> Welcome(p, h)
  {
    if !h.rule.first && !h.rule.last {
      PointHonoursOwnRule(p, h);
      SlotsNeutral(p, Point(p, h), h);
      SlotsClaimNothing(p, Point(p, h), h);
    }
  }

  /** After an accepted addition the phase is ordered exactly when nothing changed or the
      handler was welcome: for handlers of every kind and name. */
  lemma {:induction false} AddOrderedExactly(p: PhaseState, h: Handler)
    requires Ordered(p) && AddDesc(p, h).0
    ensures Ordered(AddDesc(p, h).1) <==> AddDesc(p, h).1 == p || Welcome(p, h)
  {
    if AddDesc(p, h).1 != p {
      AcceptedInserts(p, h);
      InsertOrderedExactly(Order(p), OrderPoint(p, h), h);
      if Absent(Order(p), h.name) && !NamesItself(h) { OwnRuleWelcome(p, h); }
    }
  }

  /** Over any sequence of additions and removals, every handler is before and after those its
      rule names at every moment exactly when each accepted addition changes nothing or is
      welcome where it is made. */
  lemma {:induction false} RulesHoldThroughout(p: PhaseState, steps: seq<Step>)
    requires Ordered(p)
    ensures AlwaysOrdered(p, steps) <==> AllFine(p, steps)
    decreases |steps|
  {
    if steps != [] {
      var q := Apply(p, steps[0]);
      match steps[0] {
        case Add(h) => if AddDesc(p, h).0 { AddOrderedExactly(p, h); }
        case Remove(h) => RemoveKeepsOrdered(p, h);
      }
      assert Ordered(q) <==> Fine(p, steps[0]);
      PrefixesOrdered(p, steps);
      if Ordered(q) { RulesHoldThroughout(q, steps[1..]); }
    }
  }

  lemma {:induction false} PrefixesOrdered(p: PhaseState, steps: seq<Step>)
    requires Ordered(p) && steps != []
    ensures AlwaysOrdered(p, steps) <==> AlwaysOrdered(Apply(p, steps[0]), steps[1..])
    ensures AlwaysOrdered(p, steps) ==> Ordered(Apply(p, steps[0]))
  {
    var q, rest := Apply(p, steps[0]), steps[1..];
    forall n | 0 < n <= |steps| ensures ApplyAll(p, steps[..n]) == ApplyAll(q, rest[..n - 1]) {
      assert steps[..n][0] == steps[0] && steps[..n][1..] == rest[..n - 1];
    }
    assert rest[..0] == [] && steps[..0] == [] && ApplyAll(q, rest[..0]) == q;
    if AlwaysOrdered(p, steps) {
      forall n | 0 <= n <= |rest| ensures Ordered(ApplyAll(q, rest[..n])) { assert Ordered(ApplyAll(p, steps[..n + 1])); }
    }
    if AlwaysOrdered(q, rest) {
      forall n | 0 <= n <= |steps| ensures Ordered(ApplyAll(p, steps[..n])) {
        if n > 0 { assert Ordered(ApplyAll(q, rest[..n - 1])); }
      }
    }
  }

  /** A declared first or last handler keeps its end through every sequence of steps. */
  lemma {:induction false} EndsStay(p: PhaseState, steps: seq<Step>)
    ensures var q := ApplyAll(p, steps);
      && (p.first.Some? ==> q.first == p.first && Order(q)[0] == p.first.value)
      && (p.last.Some? ==> q.last == p.last && Order(q)[|Order(q)| - 1] == p.last.value)
      && (p.single ==> q.single)
    decreases |steps|
  {
    if steps != [] { EndsStay(Apply(p, steps[0]), steps[1..]); }
  }

  // ----- the two ways a rule is lost ------------------------------------------------

  function Neighbour(n: string, before: Option<string>, after: Option<string>): Handler {
    Handler(n, Rule("p", before, after, false, false))
  }

  /** A target that arrives after the handler naming it goes wherever its own rule sends it. */
  lemma LateTargetBreaksRule()
    ensures var p := PhaseState("p", None, [], None, false);
      var h, t := Neighbour("h", None, Some("t")), Neighbour("t", None, None);
      Order(ApplyAll(p, [Add(h), Add(t)])) == [h, t] && !RulesHold([h, t])
  {
    var p := PhaseState("p", None, [], None, false);
    var h, t := Neighbour("h", None, Some("t")), Neighbour("t", None, None);
    assert AddDesc(p, h).1.handlers == [h];
    var p1 := p.(handlers := [h]);
    assert AddUnique([h], t) == [h, t];
    assert ApplyAll(p1, [Add(t)]) == p1.(handlers := [h, t]);
    assert [Add(h), Add(t)][1..] == [Add(t)];
    assert !Honoured([h, t], 0, 1);
  }

  /** "After the phase's first handler and before x" is put behind x. */
  lemma CombinedRuleMissesFirst()
    ensures var f, x, h := Neighbour("f", None, None), Neighbour("x", None, None), Neighbour("h", Some("x"), Some("f"));
      var p := PhaseState("p", Some(f), [x], None, false);
      Ordered(p) && AddDesc(p, h) == (true, p.(handlers := [x, h])) && !RulesHold([f, x, h])
  {
    var f, x, h := Neighbour("f", None, None), Neighbour("x", None, None), Neighbour("h", Some("x"), Some("f"));
    var p := PhaseState("p", Some(f), [x], None, false);
    assert Order(p) == [f, x];
    assert SpotBoth([x], 1, -1, 0, "f", "x") == Append;
    assert Place(p, h) == Append;
    assert AddUnique([x], h) == [x, h];
    assert !Honoured([f, x, h], 2, 1);
  }
}
