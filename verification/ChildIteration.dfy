/** The AXIOM child iterators on values: a sibling list, the node to be yielded next and the
    node yielded last. */
module ChildIteration {
  import opened PhaseTypes

  datatype Iter<N> = Iter(
    list: seq<N>,
    first: Option<N>,
    cur: Option<N>,
    last: Option<N>,
    nextCalled: bool,
    removeCalled: bool)

  function Head<N>(list: seq<N>): Option<N> {
    if list == [] then None else Some(list[0])
  }

  /** A new iterator at position k of the list, or past its end. */
  function Fresh<N>(list: seq<N>, k: nat): Iter<N>
    requires k <= |list|
  {
    Iter(list, Head(list[k..]), Head(list[k..]), None, false, false)
  }

  /** The sibling after x; a detached node has none. */
  function After<N(==)>(list: seq<N>, x: N): Option<N> {
    if list == [] then None
    else if list[0] == x then Head(list[1..])
    else After(list[1..], x)
  }

  /** The list without the nodes of r. */
  function Without<N(==)>(list: seq<N>, r: seq<N>): seq<N> {
    if list == [] then [] else (if list[0] in r then [] else [list[0]]) + Without(list[1..], r)
  }

  function Next<N(==)>(s: Iter<N>): (Option<N>, Iter<N>) {
    var t := s.(nextCalled := true, removeCalled := false);
    if s.cur.None? then (None, t)
    else (s.cur, t.(cur := After(s.list, s.cur.value), last := s.cur))
  }

  function RemoveLast<N(==)>(s: Iter<N>): (bool, Iter<N>) {
    if !s.nextCalled || s.removeCalled then (false, s)
    else if s.last.None? then (false, s.(removeCalled := true))
    else (true, s.(removeCalled := true, list := Without(s.list, [s.last.value]), last := None))
  }

  function Reset<N>(s: Iter<N>): Iter<N> { s.(cur := s.first) }

  // ----- lists without repeats ------------------------------------------------------

  ghost predicate NoDup<N>(list: seq<N>) {
    forall i, j :: 0 <= i < j < |list| ==> list[i] != list[j]
  }

  lemma {:induction false} WithoutConcat<N>(a: seq<N>, b: seq<N>, r: seq<N>)
    ensures Without(a + b, r) == Without(a, r) + Without(b, r)
    decreases |a|
  {
    if a == [] {
      assert a + b == b;
    } else {
      assert (a + b)[1..] == a[1..] + b;
      WithoutConcat(a[1..], b, r);
    }
  }

  lemma {:induction false} WithoutTwice<N>(a: seq<N>, r: seq<N>, q: seq<N>)
    ensures Without(Without(a, r), q) == Without(a, r + q)
    decreases |a|
  {
    if a != [] {
      WithoutTwice(a[1..], r, q);
      WithoutConcat(if a[0] in r then [] else [a[0]], Without(a[1..], r), q);
    }
  }

  lemma {:induction false} WithoutNone<N>(a: seq<N>, r: seq<N>)
    requires forall x :: x in a ==> x !in r
    ensures Without(a, r) == a
    decreases |a|
  {
    if a != [] {
      assert forall x :: x in a[1..] ==> x in a;
      WithoutNone(a[1..], r);
    }
  }

  lemma {:induction false} WithoutMembers<N>(a: seq<N>, r: seq<N>, x: N)
    ensures x in Without(a, r) <==> x in a && x !in r
    decreases |a|
  {
    if a != [] {
      WithoutMembers(a[1..], r, x);
      assert a == [a[0]] + a[1..];
    }
  }

  lemma {:induction false} AfterConcat<N>(a: seq<N>, b: seq<N>, x: N)
    requires x !in a
    ensures After(a + b, x) == After(b, x)
    decreases |a|
  {
    if a == [] {
      assert a + b == b;
    } else {
      assert (a + b)[1..] == a[1..] + b;
      AfterConcat(a[1..], b, x);
    }
  }

  // ----- every run of next and remove -----------------------------------------------

  datatype Step = DoNext | DoRemove

  /** What one step yields and removes, and where it leaves the iterator. */
  function OneStep<N(==)>(s: Iter<N>, step: Step): (seq<N>, seq<N>, Iter<N>) {
    match step
    case DoNext => var (x, t) := Next(s); (if x.Some? then [x.value] else [], [], t)
    case DoRemove => var (ok, t) := RemoveLast(s); ([], if ok then [s.last.value] else [], t)
  }

  /** Which nodes a run yields and removes, in order, and where it leaves the iterator. */
  function Run<N(==)>(s: Iter<N>, steps: seq<Step>): (seq<N>, seq<N>, Iter<N>)
    decreases |steps|
  {
    if steps == [] then ([], [], s)
    else
      var (y, d, t) := OneStep(s, steps[0]);
      var (ys, ds, u) := Run(t, steps[1..]);
      (y + ys, d + ds, u)
  }

  /** What was yielded and removed so far and what the steps left will add come to `whole`. */
  predicate Left<N(==)>(y: seq<N>, d: seq<N>, s: Iter<N>, steps: seq<Step>, whole: (seq<N>, seq<N>, Iter<N>)) {
    var (ys, ds, t) := Run(s, steps);
    (y + ys, d + ds, t) == whole
  }

  lemma LeftStep<N>(y: seq<N>, d: seq<N>, s: Iter<N>, steps: seq<Step>, whole: (seq<N>, seq<N>, Iter<N>))
    requires steps != [] && Left(y, d, s, steps, whole)
    ensures var (y1, d1, t) := OneStep(s, steps[0]); Left(y + y1, d + d1, t, steps[1..], whole)
  {
    var (y1, d1, t) := OneStep(s, steps[0]);
    Assoc(y, y1, Run(t, steps[1..]).0);
    Assoc(d, d1, Run(t, steps[1..]).1);
  }

  function Nexts(steps: seq<Step>): nat {
    if steps == [] then 0 else (if steps[0].DoNext? then 1 else 0) + Nexts(steps[1..])
  }

  /** k nodes of the original list have been passed, of which those in r are gone. */
  ghost predicate Passed<N>(L: seq<N>, k: nat, r: seq<N>, list: seq<N>, cur: Option<N>, last: Option<N>) {
    && k <= |L|
    && list == Without(L[..k], r) + L[k..]
    && cur == Head(L[k..])
    && (forall x :: x in r ==> x in L[..k])
    && (last.Some? ==> last.value in L[..k] && last.value !in r)
  }

  lemma {:induction false} PassOne<N>(L: seq<N>, k: nat, r: seq<N>, list: seq<N>)
    requires NoDup(L) && k < |L| && list == Without(L[..k], r) + L[k..] && forall x :: x in r ==> x in L[..k]
    ensures list == Without(L[..k + 1], r) + L[k + 1..]
    ensures After(list, L[k]) == Head(L[k + 1..])
  {
    var x := L[k];
    assert x !in L[..k];
    WithoutMembers(L[..k], r, x);
    AfterConcat(Without(L[..k], r), L[k..], x);
    assert L[k..][1..] == L[k + 1..] && L[k..] == [x] + L[k + 1..];
    assert L[..k + 1] == L[..k] + [x];
    WithoutConcat(L[..k], [x], r);
    assert Without([x], r) == [x];
  }

  lemma {:induction false} DropOne<N>(L: seq<N>, k: nat, r: seq<N>, list: seq<N>, x: N)
    requires NoDup(L) && k <= |L| && list == Without(L[..k], r) + L[k..] && x in L[..k]
    ensures Without(list, [x]) == Without(L[..k], r + [x]) + L[k..]
  {
    WithoutConcat(Without(L[..k], r), L[k..], [x]);
    WithoutTwice(L[..k], r, [x]);
    assert forall y :: y in L[k..] ==> y != x;
    WithoutNone(L[k..], [x]);
  }

  /** What one next or one remove does to an iterator that has passed k nodes. */
  lemma {:induction false} StepPasses<N>(L: seq<N>, k: nat, r: seq<N>, s: Iter<N>)
    requires NoDup(L) && Passed(L, k, r, s.list, s.cur, s.last)
    ensures var t := Next(s).1;
      if k < |L| then s.cur == Some(L[k]) && Passed(L, k + 1, r, t.list, t.cur, t.last)
      else s.cur == None && Passed(L, k, r, t.list, t.cur, t.last)
    ensures var (ok, t) := RemoveLast(s);
      if ok then s.last.value !in r && Passed(L, k, r + [s.last.value], t.list, t.cur, t.last)
      else Passed(L, k, r, t.list, t.cur, t.last)
  {
    if k < |L| {
      PassOne(L, k, r, s.list);
      assert forall x :: x in L[..k] ==> x in L[..k + 1];
    }
    if s.last.Some? { DropOne(L, k, r, s.list, s.last.value); }
  }

  function Upto(n: nat, m: nat): nat { if n < m then n else m }

  lemma {:induction false} RunYields<N>(L: seq<N>, k: nat, r: seq<N>, s: Iter<N>, steps: seq<Step>)
    requires NoDup(L) && Passed(L, k, r, s.list, s.cur, s.last)
    ensures k <= |L| && Run(s, steps).0 == L[k..Upto(k + Nexts(steps), |L|)]
    decreases |steps|
  {
    if steps != [] {
      StepPasses(L, k, r, s);
      match steps[0] {
        case DoNext =>
          RunYields(L, if k < |L| then k + 1 else k, r, Next(s).1, steps[1..]);
          if k < |L| {
            var e := Upto(k + Nexts(steps), |L|);
            assert L[k..e] == [L[k]] + L[k + 1..e];
          }
        case DoRemove =>
          var (ok, t) := RemoveLast(s);
          RunYields(L, k, if ok then r + [s.last.value] else r, t, steps[1..]);
      }
    }
  }

  lemma {:induction false} RunRemoves<N>(L: seq<N>, k: nat, r: seq<N>, s: Iter<N>, steps: seq<Step>)
    requires NoDup(L) && NoDup(r) && Passed(L, k, r, s.list, s.cur, s.last)
    ensures var (y, q, t) := Run(s, steps);
      NoDup(r + q) && Passed(L, Upto(k + Nexts(steps), |L|), r + q, t.list, t.cur, t.last)
    decreases |steps|, 1
  {
    if steps == [] {
      assert r + [] == r;
    } else {
      StepPasses(L, k, r, s);
      match steps[0] {
        case DoNext =>
          var t := Next(s).1;
          RunRemoves(L, if k < |L| then k + 1 else k, r, t, steps[1..]);
          assert [] + Run(t, steps[1..]).1 == Run(t, steps[1..]).1;
        case DoRemove =>
          RemoveFirst(L, k, r, s, steps);
      }
    }
  }

  lemma {:induction false} RemoveFirst<N>(L: seq<N>, k: nat, r: seq<N>, s: Iter<N>, steps: seq<Step>)
    requires NoDup(L) && NoDup(r) && Passed(L, k, r, s.list, s.cur, s.last) && steps != [] && steps[0].DoRemove?
    ensures var (y, q, t) := Run(s, steps);
      NoDup(r + q) && Passed(L, Upto(k + Nexts(steps), |L|), r + q, t.list, t.cur, t.last)
    decreases |steps|, 0
  {
    StepPasses(L, k, r, s);
    var (ok, t) := RemoveLast(s);
    var d := if ok then [s.last.value] else [];
    assert NoDup(r + d);
    if !ok { assert r + d == r; }
    RunRemoves(L, k, r + d, t, steps[1..]);
    Assoc(r, d, Run(t, steps[1..]).1);
  }

  /** Nothing is passed yet. */
  lemma PassedNone<N>(L: seq<N>, k: nat)
    requires k <= |L|
    ensures Passed(L, k, [], L, Head(L[k..]), None)
  {
    WithoutNone(L[..k], []);
  }

  lemma {:induction false} RunEnds<N>(L: seq<N>, k: nat, steps: seq<Step>)
    requires NoDup(L) && k <= |L|
    ensures var (y, r, t) := Run(Fresh(L, k), steps);
      y == L[k..Upto(k + Nexts(steps), |L|)] && NoDup(r) && Passed(L, k + |y|, r, t.list, t.cur, t.last)
  {
    PassedNone(L, k);
    RunYields(L, k, [], Fresh(L, k), steps);
    RunRemoves(L, k, [], Fresh(L, k), steps);
    assert [] + Run(Fresh(L, k), steps).1 == Run(Fresh(L, k), steps).1;
  }

  /** Whatever is removed on the way, n calls of next yield the first n of the original
      children in order, and the list left is the original without the removed ones, each
      removed once and only after it was yielded. */
  lemma {:induction false} YieldsOriginalChildren<N>(L: seq<N>, k: nat, steps: seq<Step>)
    requires NoDup(L) && k <= |L|
    ensures var (y, r, t) := Run(Fresh(L, k), steps);
      && y == L[k..Upto(k + Nexts(steps), |L|)]
      && t.list == Without(L, r)
      && NoDup(r) && (forall x :: x in r ==> x in y)
      && (t.cur.Some? <==> k + |y| < |L|)
  {
    RunEnds(L, k, steps);
    RemovedWereYielded(Fresh(L, k), steps);
    var (y, r, t) := Run(Fresh(L, k), steps);
    LeftOver(L, k + |y|, r, t.list);
  }

  /** The reference for what a run removes: a node is pending from the next that yields it until
      the next one is yielded or it is removed; a next past the end keeps it pending, and a
      remove takes whatever is pending. */
  function Taken<N>(left: seq<N>, pending: Option<N>, steps: seq<Step>): seq<N>
    decreases |steps|
  {
    if steps == [] then []
    else
      match steps[0]
      case DoNext =>
        if left == [] then Taken(left, pending, steps[1..]) else Taken(left[1..], Some(left[0]), steps[1..])
      case DoRemove =>
        (if pending.Some? then [pending.value] else []) + Taken(left, None, steps[1..])
  }

  lemma {:induction false} RunTakes<N>(L: seq<N>, k: nat, r: seq<N>, s: Iter<N>, steps: seq<Step>)
    requires NoDup(L) && Passed(L, k, r, s.list, s.cur, s.last) && (s.last.Some? ==> s.nextCalled && !s.removeCalled)
    ensures Run(s, steps).1 == Taken(L[k..], s.last, steps)
    decreases |steps|
  {
    if steps != [] {
      StepPasses(L, k, r, s);
      var (y, d, t) := OneStep(s, steps[0]);
      if steps[0].DoNext? {
        if k < |L| { assert L[k..][0] == L[k] && L[k..][1..] == L[k + 1..]; }
        RunTakes(L, if k < |L| then k + 1 else k, r, t, steps[1..]);
        assert [] + Run(t, steps[1..]).1 == Run(t, steps[1..]).1;
      } else {
        RunTakes(L, k, if RemoveLast(s).0 then r + [s.last.value] else r, t, steps[1..]);
      }
    }
  }

  /** Exactly the pending nodes are removed, each by the first remove after its next. */
  lemma {:induction false} RemovesThePending<N>(L: seq<N>, k: nat, steps: seq<Step>)
    requires NoDup(L) && k <= |L|
    ensures Run(Fresh(L, k), steps).1 == Taken(L[k..], None, steps)
  {
    PassedNone(L, k);
    RunTakes(L, k, [], Fresh(L, k), steps);
  }

  /** Whatever was passed and removed: after a reset to a first child that is still there, n
      nexts yield the first n of the list from that child on, and a remove takes what it would
      have taken before. */
  lemma {:induction false} ResetRestarts<N>(s: Iter<N>, j: nat, steps: seq<Step>)
    requires NoDup(s.list) && j < |s.list| && s.first == Some(s.list[j]) && forall i :: 0 <= i < |steps| ==> steps[i].DoNext?
    ensures Run(Reset(s), steps).0 == s.list[j..Upto(j + |steps|, |s.list|)]
    ensures RemoveLast(Reset(s)).0 == RemoveLast(s).0 && RemoveLast(Reset(s)).1.list == RemoveLast(s).1.list
  {
    assert Head(s.list[j..]) == s.first;
    NextsYield(s.list, j, Reset(s), steps);
  }

  lemma AfterHead<N>(L: seq<N>, k: nat)
    requires NoDup(L) && k < |L|
    ensures After(L, L[k]) == Head(L[k + 1..])
  {
    assert L == L[..k] + L[k..] && L[k] !in L[..k];
    AfterConcat(L[..k], L[k..], L[k]);
    assert L[k..][1..] == L[k + 1..];
  }

  lemma {:induction false} NextsYield<N>(L: seq<N>, k: nat, s: Iter<N>, steps: seq<Step>)
    requires NoDup(L) && k <= |L| && s.list == L && s.cur == Head(L[k..]) && forall i :: 0 <= i < |steps| ==> steps[i].DoNext?
    ensures Run(s, steps).0 == L[k..Upto(k + |steps|, |L|)]
    decreases |steps|
  {
    if steps != [] {
      var t := Next(s).1;
      if k < |L| {
        AfterHead(L, k);
        NextsYield(L, k + 1, t, steps[1..]);
        var e := Upto(k + |steps|, |L|);
        assert L[k..e] == [L[k]] + L[k + 1..e];
      } else {
        NextsYield(L, k, t, steps[1..]);
        assert [] + Run(t, steps[1..]).0 == Run(t, steps[1..]).0;
      }
    }
  }

  lemma {:induction false} RemovedWereYielded<N>(s: Iter<N>, steps: seq<Step>)
    ensures forall x :: x in Run(s, steps).1 ==> x in Run(s, steps).0 || s.last == Some(x)
    decreases |steps|
  {
    if steps != [] {
      var t := if steps[0].DoNext? then Next(s).1 else RemoveLast(s).1;
      RemovedWereYielded(t, steps[1..]);
    }
  }

  lemma {:induction false} LeftOver<N>(L: seq<N>, k: nat, r: seq<N>, list: seq<N>)
    requires NoDup(L) && k <= |L| && list == Without(L[..k], r) + L[k..] && forall x :: x in r ==> x in L[..k]
    ensures list == Without(L, r)
  {
    assert L == L[..k] + L[k..];
    WithoutConcat(L[..k], L[k..], r);
    assert forall x :: x in L[k..] ==> x !in L[..k];
    WithoutNone(L[k..], r);
  }

  // ----- staying inside the list ----------------------------------------------------

  /** The iterator stands on a node of the list, or past its end. */
  predicate Inside<N(==)>(s: Iter<N>) { s.cur.Some? ==> s.cur.value in s.list }

  lemma {:induction false} AfterInside<N>(list: seq<N>, x: N)
    ensures After(list, x).Some? ==> After(list, x).value in list
  {
    if list != [] && list[0] != x { AfterInside(list[1..], x); }
  }

  /** next never leaves the list; reset leaves it exactly when the first child was removed;
      remove leaves it exactly when it takes the node the iterator stands on. */
  lemma {:induction false} WhatStaysInside<N>(s: Iter<N>)
    ensures Inside(s) ==> Inside(Next(s).1)
    ensures Inside(Reset(s)) <==> s.first.None? || s.first.value in s.list
    ensures Inside(s) ==> (Inside(RemoveLast(s).1) <==> !RemoveLast(s).0 || s.cur.None? || s.cur != s.last)
  {
    if s.cur.Some? {
      AfterInside(s.list, s.cur.value);
      if s.last.Some? { WithoutMembers(s.list, [s.last.value], s.cur.value); }
    }
  }

  // ----- the iterator filtered by qualified name ------------------------------------

  datatype QIter<N> = QIter(
    list: seq<N>,
    cur: Option<N>,
    last: Option<N>,
    nextCalled: bool,
    removeCalled: bool,
    forward: bool,
    found: bool)

  function FreshQ<N>(list: seq<N>, k: nat): QIter<N>
    requires k <= |list|
  {
    QIter(list, Head(list[k..]), None, false, false, true, false)
  }

  /** The first match in the list from x on. */
  function Seek<N(==)>(list: seq<N>, x: N, p: N -> bool): Option<N> {
    if list == [] then None
    else if list[0] == x then FirstMatch(list, p)
    else Seek(list[1..], x, p)
  }

  function FirstMatch<N>(list: seq<N>, p: N -> bool): Option<N> {
    if list == [] then None else if p(list[0]) then Some(list[0]) else FirstMatch(list[1..], p)
  }

  function QHasNext<N(==)>(s: QIter<N>, p: N -> bool): (bool, QIter<N>) {
    if !s.forward then (s.found, s)
    else if s.cur.None? then (s.found, s.(forward := false))
    else
      var c := Seek(s.list, s.cur.value, p);
      (c.Some?, s.(cur := c, forward := false, found := c.Some?))
  }

  function QNext<N(==)>(s: QIter<N>): (Option<N>, QIter<N>) {
    (s.cur, s.(forward := true, found := false, nextCalled := true, removeCalled := false,
               last := s.cur, cur := if s.cur.None? then None else After(s.list, s.cur.value)))
  }

  function QRemove<N(==)>(s: QIter<N>): (bool, QIter<N>) {
    if !s.nextCalled || s.removeCalled then (false, s)
    else if s.last.None? then (false, s.(removeCalled := true))
    else (true, s.(removeCalled := true, list := Without(s.list, [s.last.value]), last := None))
  }

  function Matches<N>(list: seq<N>, p: N -> bool): seq<N> {
    if list == [] then [] else (if p(list[0]) then [list[0]] else []) + Matches(list[1..], p)
  }

  datatype QStep = QDoHasNext | QDoNext | QDoRemove

  /** What a run answers to has_next, yields and removes, and where it ends. */
  datatype QTrace<N> = QTrace(answers: seq<bool>, yielded: seq<N>, removed: seq<N>, end: QIter<N>)

  /** What one step answers, yields and removes, and where it leaves the iterator. */
  function QOneStep<N(==)>(s: QIter<N>, step: QStep, p: N -> bool): QTrace<N> {
    match step
    case QDoHasNext => var (b, t) := QHasNext(s, p); QTrace([b], [], [], t)
    case QDoNext => var (x, t) := QNext(s); QTrace([], if x.Some? then [x.value] else [], [], t)
    case QDoRemove => var (ok, t) := QRemove(s); QTrace([], [], if ok then [s.last.value] else [], t)
  }

  function Then<N>(a: QTrace<N>, b: QTrace<N>): QTrace<N> {
    QTrace(a.answers + b.answers, a.yielded + b.yielded, a.removed + b.removed, b.end)
  }

  function QRun<N(==)>(s: QIter<N>, steps: seq<QStep>, p: N -> bool): QTrace<N>
    decreases |steps|
  {
    if steps == [] then QTrace([], [], [], s)
    else
      var t := QOneStep(s, steps[0], p);
      Then(t, QRun(t.end, steps[1..], p))
  }

  lemma ThenAssoc<N>(a: QTrace<N>, b: QTrace<N>, c: QTrace<N>)
    ensures Then(a, Then(b, c)) == Then(Then(a, b), c)
  {
    Assoc(a.answers, b.answers, c.answers);
    Assoc(a.yielded, b.yielded, c.yielded);
    Assoc(a.removed, b.removed, c.removed);
  }

  /** The iterator was asked since it last moved, stands on a match or is past the end. */
  predicate Settled<N>(s: QIter<N>, p: N -> bool) {
    !s.forward || s.cur.None? || p(s.cur.value)
  }

  /** So it is at every next of the run. */
  predicate Apt<N(==)>(s: QIter<N>, steps: seq<QStep>, p: N -> bool)
    decreases |steps|
  {
    steps == [] || ((steps[0].QDoNext? ==> Settled(s, p)) && Apt(QOneStep(s, steps[0], p).end, steps[1..], p))
  }

  /** The reference: has_next answers whether a match is left, next takes it. */
  function QSpec<N>(left: seq<N>, steps: seq<QStep>): (seq<bool>, seq<N>)
    decreases |steps|
  {
    if steps == [] then ([], [])
    else
      match steps[0]
      case QDoHasNext => var (a, y) := QSpec(left, steps[1..]); ([left != []] + a, y)
      case QDoNext =>
        if left == [] then QSpec(left, steps[1..])
        else var (a, y) := QSpec(left[1..], steps[1..]); (a, [left[0]] + y)
      case QDoRemove => QSpec(left, steps[1..])
  }

  lemma {:induction false} SeekConcat<N>(a: seq<N>, b: seq<N>, x: N, p: N -> bool)
    requires x !in a
    ensures Seek(a + b, x, p) == Seek(b, x, p)
    decreases |a|
  {
    if a == [] {
      assert a + b == b;
    } else {
      assert (a + b)[1..] == a[1..] + b;
      SeekConcat(a[1..], b, x, p);
    }
  }

  /** The list from its first match on. */
  function DropTo<N>(list: seq<N>, p: N -> bool): seq<N> {
    if list == [] || p(list[0]) then list else DropTo(list[1..], p)
  }

  /** The first match splits the list into non-matches and the match onwards. */
  lemma {:induction false} FirstMatchSplits<N>(list: seq<N>, p: N -> bool) returns (n: nat)
    ensures n <= |list| && FirstMatch(list, p) == Head(list[n..]) && list[n..] == DropTo(list, p)
    ensures Matches(list[n..], p) == Matches(list, p)
    ensures n < |list| ==> p(list[n]) && Matches(list, p) == [list[n]] + Matches(list[n + 1..], p)
    ensures n == |list| ==> Matches(list, p) == []
    decreases |list|
  {
    n := 0;
    if list != [] && !p(list[0]) {
      var m := FirstMatchSplits(list[1..], p);
      n := m + 1;
      assert list[1..][m..] == list[n..];
      if m < |list| - 1 { assert list[1..][m + 1..] == list[n + 1..]; }
    } else {
      assert list[0..] == list;
    }
  }

  ghost predicate QAt<N>(L: seq<N>, k: nat, r: seq<N>, s: QIter<N>, p: N -> bool) {
    && Passed(L, k, r, s.list, s.cur, s.last)
    && (s.forward ==> !s.found)
    && (!s.forward ==> s.found == (k < |L|) && (k < |L| ==> p(L[k])))
  }

  lemma {:induction false} PassMany<N>(L: seq<N>, k: nat, n: nat, r: seq<N>, list: seq<N>)
    requires NoDup(L) && k + n <= |L| && list == Without(L[..k], r) + L[k..] && forall x :: x in r ==> x in L[..k]
    ensures list == Without(L[..k + n], r) + L[k + n..]
    decreases n
  {
    if n > 0 {
      PassOne(L, k, r, list);
      assert forall x :: x in r ==> x in L[..k + 1];
      PassMany(L, k + 1, n - 1, r, list);
    }
  }

  /** has_next moves on to the next match and says whether there is one. */
  lemma {:induction false} HasNextSeeks<N>(L: seq<N>, k: nat, r: seq<N>, s: QIter<N>, p: N -> bool)
      returns (m: nat)
    requires NoDup(L) && QAt(L, k, r, s, p)
    ensures k <= m && QAt(L, m, r, QHasNext(s, p).1, p) && L[m..] == DropTo(L[k..], p)
    ensures Matches(L[m..], p) == Matches(L[k..], p)
    ensures QHasNext(s, p).0 <==> Matches(L[k..], p) != []
    ensures !QHasNext(s, p).1.forward
  {
    m := k;
    if s.forward && k < |L| {
      m := SeekForward(L, k, r, s.list, p);
      assert forall x :: x in L[..k] ==> x in L[..m];
    } else if k < |L| {
      assert Matches(L[k..], p) == [L[k]] + Matches(L[k..][1..], p);
    }
  }

  lemma {:induction false} SeekForward<N>(L: seq<N>, k: nat, r: seq<N>, list: seq<N>, p: N -> bool)
      returns (m: nat)
    requires NoDup(L) && k < |L| && list == Without(L[..k], r) + L[k..] && forall x :: x in r ==> x in L[..k]
    ensures k <= m <= |L| && list == Without(L[..m], r) + L[m..] && L[m..] == DropTo(L[k..], p)
    ensures Seek(list, L[k], p) == Head(L[m..]) && (m < |L| ==> p(L[m]))
    ensures Matches(L[m..], p) == Matches(L[k..], p) && (m < |L| <==> Matches(L[k..], p) != [])
  {
    assert L[k] !in L[..k];
    WithoutMembers(L[..k], r, L[k]);
    SeekConcat(Without(L[..k], r), L[k..], L[k], p);
    var n := FirstMatchSplits(L[k..], p);
    m := k + n;
    assert L[k..][n..] == L[m..];
    PassMany(L, k, n, r, list);
  }

  /** What one step does to an iterator that has passed k nodes, r of them removed. */
  lemma {:induction false} QStepPasses<N>(L: seq<N>, k: nat, r: seq<N>, s: QIter<N>, step: QStep, p: N -> bool)
      returns (m: nat)
    requires NoDup(L) && NoDup(r) && QAt(L, k, r, s, p)
    ensures var t := QOneStep(s, step, p); k <= m && NoDup(r + t.removed) && QAt(L, m, r + t.removed, t.end, p)
    ensures step.QDoHasNext? ==> Matches(L[m..], p) == Matches(L[k..], p) && L[m..] == DropTo(L[k..], p)
    ensures step.QDoHasNext? ==> (QHasNext(s, p).0 <==> Matches(L[k..], p) != [])
    ensures step.QDoNext? ==> m == if k < |L| then k + 1 else k
    ensures step.QDoRemove? ==> m == k
  {
    m := k;
    assert r + [] == r;
    match step {
      case QDoHasNext => m := HasNextSeeks(L, k, r, s, p);
      case QDoNext =>
        if k < |L| {
          PassOne(L, k, r, s.list);
          m := k + 1;
          assert forall x :: x in L[..k] ==> x in L[..k + 1];
        }
      case QDoRemove =>
        if QRemove(s).0 { DropOne(L, k, r, s.list, s.last.value); }
    }
  }

  lemma {:induction false} QRunFrom<N>(L: seq<N>, k: nat, r: seq<N>, s: QIter<N>, steps: seq<QStep>, p: N -> bool)
    requires NoDup(L) && NoDup(r) && QAt(L, k, r, s, p) && Apt(s, steps, p)
    ensures var t := QRun(s, steps, p); (t.answers, t.yielded) == QSpec(Matches(L[k..], p), steps)
    decreases |steps|
  {
    if steps != [] {
      var t := QOneStep(s, steps[0], p);
      var m := QStepPasses(L, k, r, s, steps[0], p);
      QRunFrom(L, m, r + t.removed, t.end, steps[1..], p);
      var u := QRun(t.end, steps[1..], p);
      assert [] + u.answers == u.answers && [] + u.yielded == u.yielded;
      if steps[0].QDoNext? && k < |L| {
        assert L[k..][0] == L[k] && L[k..][1..] == L[k + 1..] && p(L[k]);
        assert Matches(L[k..], p) == [L[k]] + Matches(L[k + 1..], p);
      }
    }
  }

  /** Where a run leaves the iterator and the list. */
  lemma {:induction false} QRunLeaves<N>(L: seq<N>, k: nat, r: seq<N>, s: QIter<N>, steps: seq<QStep>, p: N -> bool)
      returns (m: nat)
    requires NoDup(L) && NoDup(r) && QAt(L, k, r, s, p)
    ensures var t := QRun(s, steps, p);
      m <= |L| && NoDup(r + t.removed) && Passed(L, m, r + t.removed, t.end.list, t.end.cur, t.end.last)
    decreases |steps|
  {
    m := k;
    if steps == [] {
      assert r + [] == r;
    } else {
      var t := QOneStep(s, steps[0], p);
      var j := QStepPasses(L, k, r, s, steps[0], p);
      m := QRunLeaves(L, j, r + t.removed, t.end, steps[1..], p);
      Assoc(r, t.removed, QRun(t.end, steps[1..], p).removed);
    }
  }

  lemma {:induction false} QRemovedWereYielded<N>(s: QIter<N>, steps: seq<QStep>, p: N -> bool)
    ensures var t := QRun(s, steps, p); forall x :: x in t.removed ==> x in t.yielded || s.last == Some(x)
    decreases |steps|
  {
    if steps != [] { QRemovedWereYielded(QOneStep(s, steps[0], p).end, steps[1..], p); }
  }

  /** The reference for every run, asked or not: has_next moves to the next match and answers
      whether there is one; next yields the node reached, matching or not, which is then
      pending, while past the end nothing is; a remove takes what is pending. */
  function QRef<N>(left: seq<N>, pending: Option<N>, steps: seq<QStep>, p: N -> bool): (seq<bool>, seq<N>, seq<N>)
    decreases |steps|
  {
    if steps == [] then ([], [], [])
    else
      match steps[0]
      case QDoHasNext =>
        var (a, y, d) := QRef(DropTo(left, p), pending, steps[1..], p);
        ([DropTo(left, p) != []] + a, y, d)
      case QDoNext =>
        if left == [] then QRef(left, None, steps[1..], p)
        else
          var (a, y, d) := QRef(left[1..], Some(left[0]), steps[1..], p);
          (a, [left[0]] + y, d)
      case QDoRemove =>
        var (a, y, d) := QRef(left, None, steps[1..], p);
        (a, y, (if pending.Some? then [pending.value] else []) + d)
  }

  lemma {:induction false} DropToMatches<N>(list: seq<N>, p: N -> bool)
    ensures DropTo(list, p) != [] <==> Matches(list, p) != []
  {
    if list != [] && !p(list[0]) { DropToMatches(list[1..], p); }
  }

  lemma {:induction false} RefRuns<N>(L: seq<N>, k: nat, r: seq<N>, s: QIter<N>, steps: seq<QStep>, p: N -> bool)
    requires NoDup(L) && NoDup(r) && QAt(L, k, r, s, p) && (s.last.Some? ==> s.nextCalled && !s.removeCalled)
    ensures var t := QRun(s, steps, p); (t.answers, t.yielded, t.removed) == QRef(L[k..], s.last, steps, p)
    decreases |steps|
  {
    if steps != [] {
      var t := QOneStep(s, steps[0], p);
      var m := QStepPasses(L, k, r, s, steps[0], p);
      if steps[0].QDoHasNext? { DropToMatches(L[k..], p); }
      RefRuns(L, m, r + t.removed, t.end, steps[1..], p);
      var u := QRun(t.end, steps[1..], p);
      assert [] + u.answers == u.answers && [] + u.yielded == u.yielded && [] + u.removed == u.removed;
      if steps[0].QDoNext? && k < |L| { assert L[k..][0] == L[k] && L[k..][1..] == L[k + 1..]; }
    }
  }

  /** Every run, asked or not, answers, yields and removes what the reference says. */
  lemma {:induction false} EveryRunIsRef<N>(L: seq<N>, k: nat, steps: seq<QStep>, p: N -> bool)
    requires NoDup(L) && k <= |L|
    ensures var t := QRun(FreshQ(L, k), steps, p); (t.answers, t.yielded, t.removed) == QRef(L[k..], None, steps, p)
  {
    PassedNone(L, k);
    RefRuns(L, k, [], FreshQ(L, k), steps, p);
  }

  /** Asked or not, what a run removes has been yielded, each node once, and the list left
      is the original without it. */
  lemma {:induction false} QLeaves<N>(L: seq<N>, k: nat, steps: seq<QStep>, p: N -> bool)
    requires NoDup(L) && k <= |L|
    ensures var t := QRun(FreshQ(L, k), steps, p);
      t.end.list == Without(L, t.removed) && NoDup(t.removed) && forall x :: x in t.removed ==> x in t.yielded
  {
    PassedNone(L, k);
    var m := QRunLeaves(L, k, [], FreshQ(L, k), steps, p);
    QRemovedWereYielded(FreshQ(L, k), steps, p);
    var t := QRun(FreshQ(L, k), steps, p);
    assert [] + t.removed == t.removed;
    LeftOver(L, m, t.removed, t.end.list);
  }

  lemma {:induction false} MatchesMatch<N>(list: seq<N>, p: N -> bool)
    ensures forall x :: x in Matches(list, p) ==> p(x)
  {
    if list != [] { MatchesMatch(list[1..], p); }
  }

  lemma {:induction false} SpecTakesLeft<N>(left: seq<N>, steps: seq<QStep>)
    ensures forall x :: x in QSpec(left, steps).1 ==> x in left
    decreases |steps|
  {
    if steps != [] {
      SpecTakesLeft(left, steps[1..]);
      if left != [] { SpecTakesLeft(left[1..], steps[1..]); }
    }
  }

  /** A next out of place yields a node that does not match. */
  lemma {:induction false} UnaptShows<N>(L: seq<N>, k: nat, r: seq<N>, s: QIter<N>, steps: seq<QStep>, p: N -> bool)
    requires NoDup(L) && NoDup(r) && QAt(L, k, r, s, p) && !Apt(s, steps, p)
    ensures exists x :: x in QRun(s, steps, p).yielded && !p(x)
    decreases |steps|
  {
    var t := QOneStep(s, steps[0], p);
    var u := QRun(t.end, steps[1..], p);
    if steps[0].QDoNext? && !Settled(s, p) {
      assert t.yielded == [s.cur.value] && s.cur.value in t.yielded + u.yielded;
    } else {
      var m := QStepPasses(L, k, r, s, steps[0], p);
      UnaptShows(L, m, r + t.removed, t.end, steps[1..], p);
      var x :| x in u.yielded && !p(x);
      assert x in t.yielded + u.yielded;
    }
  }

  /** Whatever a run removes, has_next answers exactly whether a matching child is left and
      next yields the matching children in order, exactly on the runs in which at each next
      the iterator was asked, stands on a match or is past the end. */
  lemma {:induction false} YieldsMatchingChildren<N>(L: seq<N>, k: nat, steps: seq<QStep>, p: N -> bool)
    requires NoDup(L) && k <= |L|
    ensures var t := QRun(FreshQ(L, k), steps, p);
      (t.answers, t.yielded) == QSpec(Matches(L[k..], p), steps) <==> Apt(FreshQ(L, k), steps, p)
  {
    PassedNone(L, k);
    if Apt(FreshQ(L, k), steps, p) {
      QRunFrom(L, k, [], FreshQ(L, k), steps, p);
    } else {
      UnaptShows(L, k, [], FreshQ(L, k), steps, p);
      MatchesMatch(L[k..], p);
      SpecTakesLeft(Matches(L[k..], p), steps);
    }
  }

  /** The trace so far and what the steps left will add come to `whole`. */
  predicate QLeft<N(==)>(t: QTrace<N>, steps: seq<QStep>, p: N -> bool, whole: QTrace<N>) {
    Then(t, QRun(t.end, steps, p)) == whole
  }

  lemma QLeftStep<N>(t: QTrace<N>, steps: seq<QStep>, p: N -> bool, whole: QTrace<N>)
    requires steps != [] && QLeft(t, steps, p, whole)
    ensures QLeft(Then(t, QOneStep(t.end, steps[0], p)), steps[1..], p, whole)
  {
    var u := QOneStep(t.end, steps[0], p);
    ThenAssoc(t, u, QRun(u.end, steps[1..], p));
  }

  /** A next without has_next is right exactly when the iterator already stands on a match or
      past the end: it yields the node it stands on, matching or not. */
  lemma {:induction false} UnaskedNext<N>(L: seq<N>, k: nat, r: seq<N>, s: QIter<N>, p: N -> bool)
    requires NoDup(L) && QAt(L, k, r, s, p)
    ensures QNext(s).0 == QNext(QHasNext(s, p).1).0 <==> !s.forward || k == |L| || p(L[k])
  {
    var m := HasNextSeeks(L, k, r, s, p);
    if s.forward && k < |L| {
      if m < |L| {
        assert L[m..][0] == L[m] && L[k..][0] == L[k];
        assert p(L[m]) && QHasNext(s, p).1.cur == Some(L[m]) && s.cur == Some(L[k]);
        assert Matches(L[m..], p) == [L[m]] + Matches(L[m..][1..], p);
        if p(L[k]) {
          assert Matches(L[k..], p) == [L[k]] + Matches(L[k..][1..], p);
          assert L[m] == Matches(L[m..], p)[0] == Matches(L[k..], p)[0] == L[k];
        }
      } else {
        assert L[m..] == [];
      }
    }
  }
}
