/** The child iterators over linked nodes: siblings joined in both directions under a parent
    that knows its first and last child. */
module ChildObjects {
  import opened PhaseTypes
  import C = ChildIteration

  class Node {
    /** The qualified name of an element node; other nodes have none. */
    const qname: Option<string>
    var parent: Parent?
    var prev: Node?
    var next: Node?

    constructor (qname: Option<string>)
      ensures this.qname == qname && parent == null && prev == null && next == null
    {
      this.qname := qname;
      parent, prev, next := null, null, null;
    }
  }

  ghost predicate Detached(x: Node)
    reads x
  {
    x.parent == null && x.prev == null && x.next == null
  }

  function Opt(n: Node?): Option<Node> {
    if n == null then None else Some(n)
  }

  class Parent {
    var firstChild: Node?
    var lastChild: Node?
    ghost var nodes: seq<Node>

    /** The links are those of the list `nodes`. */
    ghost predicate Valid()
      reads this, nodes
    {
      && C.NoDup(nodes)
      && Opt(firstChild) == C.Head(nodes)
      && lastChild == (if nodes == [] then null else nodes[|nodes| - 1])
      && (forall i {:trigger nodes[i].parent} :: 0 <= i < |nodes| ==> nodes[i].parent == this)
      && (forall i {:trigger nodes[i].prev} :: 0 <= i < |nodes| ==>
            nodes[i].prev == if i == 0 then null else nodes[i - 1])
      && (forall i {:trigger nodes[i].next} :: 0 <= i < |nodes| ==>
            nodes[i].next == if i == |nodes| - 1 then null else nodes[i + 1])
    }

    constructor ()
      ensures Valid() && nodes == []
    {
      firstChild, lastChild, nodes := null, null, [];
    }

    /** The linking half of axiom_node_add_child. */
    method AddChild(x: Node)
      requires Valid() && Detached(x)
      modifies this, nodes, x
      ensures Valid() && nodes == old(nodes) + [x]
    {
      assert x !in nodes;
      if firstChild == null {
        firstChild := x;
      } else {
        lastChild.next := x;
        x.prev := lastChild;
      }
      x.parent := this;
      lastChild := x;
      nodes := nodes + [x];
    }

    /** axiom_node_detach_without_namespaces of the child at position k. */
    method Detach(x: Node, ghost k: nat)
      requires Valid() && k < |nodes| && nodes[k] == x
      modifies this, nodes
      ensures Valid() && nodes == old(nodes)[..k] + old(nodes)[k + 1..]
      ensures Detached(x)
    {
      assert nodes[k].prev == (if k == 0 then null else nodes[k - 1]);
      assert nodes[k].next == (if k == |nodes| - 1 then null else nodes[k + 1]);
      if x.prev == null {
        firstChild := x.next;
      } else {
        x.prev.next := x.next;
      }
      if x.next != null {
        x.next.prev := x.prev;
      }
      if lastChild == x {
        lastChild := x.prev;
      }
      x.parent, x.prev, x.next := null, null, null;
      nodes := nodes[..k] + nodes[k + 1..];
      ghost var was := old(nodes);
      forall i | 0 <= i < |nodes|
        ensures nodes[i] == was[if i < k then i else i + 1]
        ensures nodes[i].prev == if i == 0 then null else nodes[i - 1]
        ensures nodes[i].next == if i == |nodes| - 1 then null else nodes[i + 1]
      {
        ghost var j := if i < k then i else i + 1;
        assert was[j] != x;
        assert old(was[j].prev) == (if j == 0 then null else was[j - 1]);
        assert old(was[j].next) == (if j == |was| - 1 then null else was[j + 1]);
      }
    }
  }

  /** axiom_node_free_tree of a child, so far as its siblings are concerned. */
  method RemoveChild(p: Parent, x: Node)
    requires p.Valid() && x in p.nodes
    modifies p, p.nodes
    ensures p.Valid() && Detached(x) && p.nodes == C.Without(old(p.nodes), [x])
  {
    ghost var k :| 0 <= k < |p.nodes| && p.nodes[k] == x;
    WithoutOne(p.nodes, k);
    p.Detach(x, k);
  }

  lemma NotChild(p: Parent, x: Node)
    requires p.Valid() && x.parent != p
    ensures x !in p.nodes
  {
    forall i | 0 <= i < |p.nodes| ensures p.nodes[i] != x { assert p.nodes[i].parent == p; }
  }

  lemma NoneShared(p: Parent, q: Parent)
    requires p.Valid() && q.Valid() && p != q
    ensures forall i, j :: 0 <= i < |p.nodes| && 0 <= j < |q.nodes| ==> p.nodes[i] != q.nodes[j]
  {
    forall i, j | 0 <= i < |p.nodes| && 0 <= j < |q.nodes| ensures p.nodes[i] != q.nodes[j] {
      assert p.nodes[i].parent == p && q.nodes[j].parent == q;
    }
  }

  /** Taking a child from q leaves the children of p as they are. */
  method RemoveBeside(q: Parent, x: Node, p: Parent)
    requires q.Valid() && x in q.nodes && p.Valid() && p != q
    modifies q, q.nodes
    ensures q.Valid() && Detached(x) && q.nodes == C.Without(old(q.nodes), [x])
    ensures p.Valid() && p.nodes == old(p.nodes)
  {
    NoneShared(p, q);
    RemoveChild(q, x);
  }

  /** Adding a node that has no parent leaves the children of q as they are. */
  method AddBeside(p: Parent, x: Node, q: Parent)
    requires p.Valid() && Detached(x) && q.Valid() && p != q
    modifies p, p.nodes, x
    ensures p.Valid() && p.nodes == old(p.nodes) + [x]
    ensures q.Valid() && q.nodes == old(q.nodes)
  {
    NoneShared(q, p);
    NotChild(q, x);
    p.AddChild(x);
  }

  /** axiom_node_add_child of a node that has another parent. */
  method MoveChild(p: Parent, x: Node, q: Parent)
    requires p.Valid() && q.Valid() && p != q && x in q.nodes
    modifies p, p.nodes, q, q.nodes
    ensures p.Valid() && p.nodes == old(p.nodes) + [x]
    ensures q.Valid() && q.nodes == C.Without(old(q.nodes), [x])
  {
    RemoveBeside(q, x, p);
    AddBeside(p, x, q);
  }

  /** axiom_node_add_child of a node that is a child already. */
  method MoveToEnd(p: Parent, x: Node)
    requires p.Valid() && x in p.nodes
    modifies p, p.nodes
    ensures p.Valid() && p.nodes == C.Without(old(p.nodes), [x]) + [x]
  {
    RemoveChild(p, x);
    forall i | 0 <= i < |p.nodes| ensures p.nodes[i] in old(p.nodes) {
      C.WithoutMembers(old(p.nodes), [x], p.nodes[i]);
    }
    p.AddChild(x);
  }

  /** axiom_node_add_child: a node that has a parent, another one or this, is detached first. */
  method AddChild(p: Parent, x: Node)
    requires p.Valid() && (x.parent == null ==> Detached(x))
    requires x.parent != null ==> x.parent.Valid() && x in x.parent.nodes
    modifies p, p.nodes, x, x.parent, if x.parent != null then x.parent.nodes else []
    ensures p.Valid() && p.nodes == C.Without(old(p.nodes), [x]) + [x]
    ensures var q := old(x.parent); q != null && q != p ==> q.Valid() && q.nodes == C.Without(old(q.nodes), [x])
  {
    var q := x.parent;
    if q != p {
      NotChild(p, x);
      C.WithoutNone(p.nodes, [x]);
    }
    if q == null {
      p.AddChild(x);
    } else if q == p {
      MoveToEnd(p, x);
    } else {
      MoveChild(p, x, q);
    }
  }

  lemma {:induction false} WithoutOne(list: seq<Node>, k: nat)
    requires C.NoDup(list) && k < |list|
    ensures C.Without(list, [list[k]]) == list[..k] + list[k + 1..]
  {
    var rest := list[1..];
    if k == 0 {
      assert forall i :: 0 <= i < |rest| ==> rest[i] == list[i + 1];
      C.WithoutNone(rest, [list[0]]);
    } else {
      WithoutOne(rest, k - 1);
      assert list[..k] == [list[0]] + rest[..k - 1];
    }
  }

  lemma {:induction false} AfterAt(list: seq<Node>, k: nat)
    requires C.NoDup(list) && k < |list|
    ensures C.After(list, list[k]) == if k == |list| - 1 then None else Some(list[k + 1])
  {
    assert list == list[..k] + list[k..];
    C.AfterConcat(list[..k], list[k..], list[k]);
  }

  lemma {:induction false} AfterOutside(list: seq<Node>, x: Node)
    requires x !in list
    ensures C.After(list, x) == None
  {
    if list != [] { AfterOutside(list[1..], x); }
  }

  class ChildrenIterator {
    const first: Node?
    var current: Node?
    var last: Node?
    var nextCalled: bool
    var removeCalled: bool

    ghost function View(p: Parent): C.Iter<Node>
      reads this, p
    {
      C.Iter(p.nodes, Opt(first), Opt(current), Opt(last), nextCalled, removeCalled)
    }

    /** At the child in position k, or past the last one. */
    constructor (ghost p: Parent, ghost k: nat, child: Node?)
      requires p.Valid() && k <= |p.nodes| && Opt(child) == C.Head(p.nodes[k..])
      ensures View(p) == C.Fresh(p.nodes, k)
    {
      first, current, last, nextCalled, removeCalled := child, child, null, false, false;
    }

    method HasNext() returns (b: bool)
      ensures b <==> current != null
    {
      b := current != null;
    }

    method Next(ghost p: Parent) returns (r: Node?)
      requires p.Valid()
      requires current != null && current !in p.nodes ==> current.next == null
      modifies this
      ensures (Opt(r), View(p)) == C.Next(old(View(p)))
    {
      nextCalled, removeCalled := true, false;
      if current == null { return null; }
      ghost var x: Node := current;
      if x in p.nodes {
        ghost var k :| 0 <= k < |p.nodes| && p.nodes[k] == x;
        AfterAt(p.nodes, k);
        assert p.nodes[k].next == if k == |p.nodes| - 1 then null else p.nodes[k + 1];
      } else {
        AfterOutside(p.nodes, x);
      }
      last := current;
      current := current.next;
      r := last;
    }

    method Remove(p: Parent) returns (ok: bool)
      requires p.Valid() && (last != null ==> last in p.nodes)
      modifies this, p, p.nodes
      ensures p.Valid() && (ok ==> old(last) != null && Detached(old(last)))
      ensures (ok, View(p)) == C.RemoveLast(old(View(p)))
    {
      if !nextCalled || removeCalled { return false; }
      removeCalled := true;
      if last == null { return false; }
      RemoveChild(p, last);
      last := null;
      ok := true;
    }

    method Reset(ghost p: Parent)
      modifies this
      ensures View(p) == C.Reset(old(View(p)))
    {
      current := first;
    }
  }

  class QNameIterator {
    const qname: string
    var current: Node?
    var last: Node?
    var nextCalled: bool
    var removeCalled: bool
    var needToMoveForward: bool
    var matchingNodeFound: bool

    ghost function View(p: Parent): C.QIter<Node>
      reads this, p
    {
      C.QIter(p.nodes, Opt(current), Opt(last), nextCalled, removeCalled, needToMoveForward, matchingNodeFound)
    }

    ghost function Match(): Node -> bool {
      (n: Node) => n.qname == Some(qname)
    }

    constructor (ghost p: Parent, ghost k: nat, child: Node, qname: string)
      requires p.Valid() && k < |p.nodes| && child == p.nodes[k]
      ensures View(p) == C.FreshQ(p.nodes, k) && this.qname == qname
    {
      this.qname := qname;
      current, last, nextCalled, removeCalled := child, null, false, false;
      needToMoveForward, matchingNodeFound := true, false;
    }

    method HasNext(p: Parent) returns (b: bool)
      requires p.Valid() && (current != null ==> current in p.nodes)
      requires needToMoveForward ==> !matchingNodeFound
      modifies this
      ensures (b, View(p)) == C.QHasNext(old(View(p)), Match())
    {
      if needToMoveForward {
        ghost var k := |p.nodes|;
        if current != null {
          k :| 0 <= k < |p.nodes| && p.nodes[k] == current;
          SeekAt(p.nodes, k, Match());
        }
        MoveForward(p, k);
      }
      b := matchingNodeFound;
    }

    /** The loop of has_next, from position k on. */
    method MoveForward(p: Parent, ghost k0: nat)
      requires p.Valid() && k0 <= |p.nodes| && Opt(current) == C.Head(p.nodes[k0..])
      requires needToMoveForward && !matchingNodeFound
      modifies this`current, this`needToMoveForward, this`matchingNodeFound
      ensures !needToMoveForward
      ensures Opt(current) == C.FirstMatch(p.nodes[k0..], Match()) && matchingNodeFound == (current != null)
    {
      ghost var k, target := k0, C.FirstMatch(p.nodes[k0..], Match());
      while needToMoveForward
        invariant k <= |p.nodes|
        invariant needToMoveForward ==> Opt(current) == C.Head(p.nodes[k..])
        invariant needToMoveForward ==> C.FirstMatch(p.nodes[k..], Match()) == target
        invariant needToMoveForward && current == null ==> !matchingNodeFound
        invariant !needToMoveForward ==> Opt(current) == target && matchingNodeFound == target.Some?
        decreases needToMoveForward, |p.nodes| - k
      {
        if current != null {
          assert p.nodes[k..][0] == current && p.nodes[k..][1..] == p.nodes[k + 1..];
          if current.qname == Some(qname) {
            matchingNodeFound, needToMoveForward := true, false;
          } else {
            assert p.nodes[k].next == if k == |p.nodes| - 1 then null else p.nodes[k + 1];
            current := current.next;
            k := k + 1;
            if current != null {
              needToMoveForward, matchingNodeFound := true, true;
            } else {
              needToMoveForward, matchingNodeFound := false, false;
            }
          }
        } else {
          needToMoveForward := false;
        }
      }
    }

    method Next(ghost p: Parent) returns (r: Node?)
      requires p.Valid() && (current != null ==> current in p.nodes)
      modifies this
      ensures (Opt(r), View(p)) == C.QNext(old(View(p)))
    {
      needToMoveForward, matchingNodeFound, nextCalled, removeCalled := true, false, true, false;
      last := current;
      if current != null {
        ghost var k :| 0 <= k < |p.nodes| && p.nodes[k] == current;
        AfterAt(p.nodes, k);
        assert p.nodes[k].next == if k == |p.nodes| - 1 then null else p.nodes[k + 1];
        current := current.next;
      }
      r := last;
    }

    method Remove(p: Parent) returns (ok: bool)
      requires p.Valid() && (last != null ==> last in p.nodes)
      modifies this, p, p.nodes
      ensures p.Valid() && (ok ==> old(last) != null && Detached(old(last)))
      ensures (ok, View(p)) == C.QRemove(old(View(p)))
    {
      if !nextCalled || removeCalled { return false; }
      removeCalled := true;
      if last == null { return false; }
      RemoveChild(p, last);
      last := null;
      ok := true;
    }
  }

  lemma {:induction false} SeekAt(list: seq<Node>, k: nat, p: Node -> bool)
    requires C.NoDup(list) && k < |list|
    ensures C.Seek(list, list[k], p) == C.FirstMatch(list[k..], p)
  {
    assert list == list[..k] + list[k..];
    C.SeekConcat(list[..k], list[k..], list[k], p);
  }

  // ----- runs over linked nodes -----------------------------------------------------

  /** The nodes an iterator holds are on the list, and those removed are not. */
  lemma {:induction false} PassedInside(L: seq<Node>, k: nat, r: seq<Node>, list: seq<Node>, cur: Option<Node>, last: Option<Node>)
    requires C.NoDup(L) && C.Passed(L, k, r, list, cur, last)
    ensures cur.Some? ==> cur.value in list
    ensures last.Some? ==> last.value in list
    ensures forall x :: x in list ==> x in L && x !in r
  {
    forall x ensures x in list <==> (x in L[..k] && x !in r) || x in L[k..] {
      C.WithoutMembers(L[..k], r, x);
    }
  }

  /** The iterator has passed k children of the list L; those in r are gone, their links cleared. */
  ghost predicate Has(it: ChildrenIterator, p: Parent, L: seq<Node>, k: nat, r: seq<Node>)
    reads it, p, p.nodes, r
  {
    && p.Valid() && C.NoDup(L) && C.Passed(L, k, r, p.nodes, Opt(it.current), Opt(it.last))
    && forall x :: x in r ==> Detached(x)
  }

  method NextInPlace(p: Parent, it: ChildrenIterator, ghost L: seq<Node>, ghost k: nat, ghost r: seq<Node>)
      returns (x: Node?)
    requires Has(it, p, L, k, r)
    modifies it
    ensures Has(it, p, L, if k < |L| then k + 1 else k, r)
    ensures (Opt(x), it.View(p)) == C.Next(old(it.View(p)))
  {
    PassedInside(L, k, r, p.nodes, Opt(it.current), Opt(it.last));
    C.StepPasses(L, k, r, it.View(p));
    x := it.Next(p);
  }

  method RemoveInPlace(p: Parent, it: ChildrenIterator, ghost L: seq<Node>, ghost k: nat, ghost r: seq<Node>)
      returns (d: seq<Node>)
    requires Has(it, p, L, k, r)
    modifies it, p, p.nodes
    ensures Has(it, p, L, k, r + d)
    ensures forall x :: x in p.nodes ==> x in old(p.nodes)
    ensures ([], d, it.View(p)) == C.OneStep(old(it.View(p)), C.DoRemove)
  {
    PassedInside(L, k, r, p.nodes, Opt(it.current), Opt(it.last));
    C.StepPasses(L, k, r, it.View(p));
    var x := it.last;
    var ok := it.Remove(p);
    d := if ok then [x] else [];
    assert !ok ==> r + d == r;
    forall y | y in p.nodes ensures y in old(p.nodes) {
      if ok { C.WithoutMembers(old(p.nodes), d, y); }
    }
  }

  /** A run of next and remove in place: with the iterator started at position k of the
      children L, it yields them in order from there, and leaves a well linked list of those
      not removed; the removed ones had been yielded, and their links are cleared. */
  method RunInPlace(p: Parent, it: ChildrenIterator, steps: seq<C.Step>, ghost k: nat)
      returns (yielded: seq<Node>, removed: seq<Node>)
    requires p.Valid() && k <= |p.nodes| && it.View(p) == C.Fresh(p.nodes, k)
    modifies it, p, p.nodes
    ensures p.Valid() && (yielded, removed, it.View(p)) == C.Run(old(it.View(p)), steps)
    ensures var L := old(p.nodes);
      && yielded == L[k..C.Upto(k + C.Nexts(steps), |L|)]
      && removed == C.Taken(L[k..], None, steps)
      && p.nodes == C.Without(L, removed)
    ensures C.NoDup(removed) && forall x :: x in removed ==> x in yielded && Detached(x)
  {
    ghost var L, m, whole := p.nodes, k, C.Run(it.View(p), steps);
    ghost var all := set x | x in L;
    StartHas(p, it, k, steps);
    YieldsInPlace(p, it, k, steps);
    yielded, removed := [], [];
    var i := 0;
    while i < |steps|
      invariant i <= |steps| && Has(it, p, L, m, removed) && Within(p.nodes, all)
      invariant C.Left(yielded, removed, it.View(p), steps[i..], whole)
    {
      yielded, removed, m := Advance(p, it, steps, i, yielded, removed, all, L, m, whole);
      i := i + 1;
    }
    assert yielded + [] == yielded && removed + [] == removed;
  }

  ghost predicate Within(list: seq<Node>, all: set<Node>) {
    forall x :: x in list ==> x in all
  }

  lemma StartHas(p: Parent, it: ChildrenIterator, k: nat, steps: seq<C.Step>)
    requires p.Valid() && k <= |p.nodes| && it.View(p) == C.Fresh(p.nodes, k)
    ensures Has(it, p, p.nodes, k, [])
    ensures steps[0..] == steps && C.Left([], [], it.View(p), steps, C.Run(it.View(p), steps))
  {
    C.PassedNone(p.nodes, k);
    var (y, r, t) := C.Run(it.View(p), steps);
    assert [] + y == y && [] + r == r;
  }

  lemma YieldsInPlace(p: Parent, it: ChildrenIterator, k: nat, steps: seq<C.Step>)
    requires p.Valid() && k <= |p.nodes| && it.View(p) == C.Fresh(p.nodes, k)
    ensures var (y, r, t) := C.Run(it.View(p), steps);
      && y == p.nodes[k..C.Upto(k + C.Nexts(steps), |p.nodes|)]
      && r == C.Taken(p.nodes[k..], None, steps)
      && t.list == C.Without(p.nodes, r)
      && C.NoDup(r) && forall x :: x in r ==> x in y
  {
    C.YieldsOriginalChildren(p.nodes, k, steps);
    C.RemovesThePending(p.nodes, k, steps);
  }

  /** Step number i of a run in place. */
  method Advance(p: Parent, it: ChildrenIterator, steps: seq<C.Step>, i: nat, yielded0: seq<Node>, removed0: seq<Node>,
      ghost all: set<Node>, ghost L: seq<Node>, ghost k: nat, ghost whole: (seq<Node>, seq<Node>, C.Iter<Node>))
      returns (yielded: seq<Node>, removed: seq<Node>, ghost m: nat)
    requires i < |steps| && Has(it, p, L, k, removed0) && Within(p.nodes, all)
    requires C.Left(yielded0, removed0, it.View(p), steps[i..], whole)
    modifies it, p, all
    ensures Has(it, p, L, m, removed) && Within(p.nodes, all)
    ensures C.Left(yielded, removed, it.View(p), steps[i + 1..], whole)
  {
    C.LeftStep(yielded0, removed0, it.View(p), steps[i..], whole);
    assert steps[i..][1..] == steps[i + 1..];
    var y, d;
    y, d, m := StepInPlace(p, it, steps[i], L, k, removed0);
    yielded, removed := yielded0 + y, removed0 + d;
  }

  /** One step of a run in place: what it yields and removes. */
  method StepInPlace(p: Parent, it: ChildrenIterator, step: C.Step, ghost L: seq<Node>, ghost k: nat, ghost r: seq<Node>)
      returns (y: seq<Node>, d: seq<Node>, ghost m: nat)
    requires Has(it, p, L, k, r)
    modifies it, p, p.nodes
    ensures Has(it, p, L, m, r + d)
    ensures forall x :: x in p.nodes ==> x in old(p.nodes)
    ensures (y, d, it.View(p)) == C.OneStep(old(it.View(p)), step)
  {
    y, d, m := [], [], k;
    if step.DoNext? {
      var x := NextInPlace(p, it, L, k, r);
      m := if k < |L| then k + 1 else k;
      if x != null { y := [x]; }
      assert r + d == r;
    } else {
      d := RemoveInPlace(p, it, L, k, r);
    }
  }

  // ----- runs of the filtered iterator ----------------------------------------------

  ghost predicate QHas(it: QNameIterator, p: Parent, L: seq<Node>, k: nat, r: seq<Node>)
    reads it, p, p.nodes, r
  {
    && p.Valid() && C.NoDup(L) && C.NoDup(r) && C.QAt(L, k, r, it.View(p), it.Match())
    && forall x :: x in r ==> Detached(x)
  }

  /** One step of a run in place: what it answers, yields and removes. */
  method QStepInPlace(p: Parent, it: QNameIterator, step: C.QStep, ghost L: seq<Node>, ghost k: nat, ghost r: seq<Node>)
      returns (a: seq<bool>, y: seq<Node>, d: seq<Node>, ghost m: nat)
    requires QHas(it, p, L, k, r)
    modifies it, p, p.nodes
    ensures QHas(it, p, L, m, r + d)
    ensures forall x :: x in p.nodes ==> x in old(p.nodes)
    ensures C.QTrace(a, y, d, it.View(p)) == C.QOneStep(old(it.View(p)), step, it.Match())
  {
    a, y, d := [], [], [];
    if step.QDoRemove? {
      d, m := QRemoveInPlace(p, it, L, k, r);
    } else {
      a, y, m := QMoveInPlace(p, it, step, L, k, r);
      assert r + d == r;
    }
  }

  method QMoveInPlace(p: Parent, it: QNameIterator, step: C.QStep, ghost L: seq<Node>, ghost k: nat, ghost r: seq<Node>)
      returns (a: seq<bool>, y: seq<Node>, ghost m: nat)
    requires QHas(it, p, L, k, r) && !step.QDoRemove?
    modifies it
    ensures QHas(it, p, L, m, r)
    ensures C.QTrace(a, y, [], it.View(p)) == C.QOneStep(old(it.View(p)), step, it.Match())
  {
    PassedInside(L, k, r, p.nodes, Opt(it.current), Opt(it.last));
    m := C.QStepPasses(L, k, r, it.View(p), step, it.Match());
    assert r + [] == r;
    a, y := [], [];
    if step.QDoHasNext? {
      var b := it.HasNext(p);
      a := [b];
    } else {
      var x := it.Next(p);
      if x != null { y := [x]; }
    }
  }

  method QRemoveInPlace(p: Parent, it: QNameIterator, ghost L: seq<Node>, ghost k: nat, ghost r: seq<Node>)
      returns (d: seq<Node>, ghost m: nat)
    requires QHas(it, p, L, k, r)
    modifies it, p, p.nodes
    ensures QHas(it, p, L, m, r + d)
    ensures forall x :: x in p.nodes ==> x in old(p.nodes)
    ensures C.QTrace([], [], d, it.View(p)) == C.QOneStep(old(it.View(p)), C.QDoRemove, it.Match())
  {
    PassedInside(L, k, r, p.nodes, Opt(it.current), Opt(it.last));
    m := C.QStepPasses(L, k, r, it.View(p), C.QDoRemove, it.Match());
    var x := it.last;
    var ok := it.Remove(p);
    d := if ok then [x] else [];
    forall y | y in p.nodes ensures y in old(p.nodes) {
      if ok { C.WithoutMembers(old(p.nodes), d, y); }
    }
  }

  /** A run of has_next, next and remove in place: the list left is well linked and holds
      the children not removed; the answers and the nodes yielded are those of the children that
      match exactly when at each next the iterator was asked, stands on a match or is past the
      end. */
  method QRunInPlace(p: Parent, it: QNameIterator, steps: seq<C.QStep>, ghost k: nat)
      returns (answers: seq<bool>, yielded: seq<Node>, removed: seq<Node>)
    requires p.Valid() && k <= |p.nodes| && it.View(p) == C.FreshQ(p.nodes, k)
    modifies it, p, p.nodes
    ensures p.Valid()
    ensures C.QTrace(answers, yielded, removed, it.View(p)) == C.QRun(old(it.View(p)), steps, it.Match())
    ensures var L := old(p.nodes);
      && (answers, yielded, removed) == C.QRef(L[k..], None, steps, it.Match())
      && p.nodes == C.Without(L, removed)
      && (C.Apt(C.FreshQ(L, k), steps, it.Match()) <==>
            (answers, yielded) == C.QSpec(C.Matches(L[k..], it.Match()), steps))
    ensures C.NoDup(removed) && forall x :: x in removed ==> x in yielded && Detached(x)
  {
    ghost var L, m, whole := p.nodes, k, C.QRun(it.View(p), steps, it.Match());
    ghost var all := set x | x in L;
    QStartHas(p, it, k, steps);
    QYieldsInPlace(p, it, k, steps);
    answers, yielded, removed := [], [], [];
    var i := 0;
    while i < |steps|
      invariant i <= |steps| && QHas(it, p, L, m, removed) && Within(p.nodes, all)
      invariant C.QLeft(C.QTrace(answers, yielded, removed, it.View(p)), steps[i..], it.Match(), whole)
    {
      answers, yielded, removed, m := QAdvance(p, it, steps, i, answers, yielded, removed, all, L, m, whole);
      i := i + 1;
    }
    assert answers + [] == answers && yielded + [] == yielded && removed + [] == removed;
  }

  lemma QStartHas(p: Parent, it: QNameIterator, k: nat, steps: seq<C.QStep>)
    requires p.Valid() && k <= |p.nodes| && it.View(p) == C.FreshQ(p.nodes, k)
    ensures QHas(it, p, p.nodes, k, [])
    ensures steps[0..] == steps
    ensures C.QLeft(C.QTrace([], [], [], it.View(p)), steps, it.Match(), C.QRun(it.View(p), steps, it.Match()))
  {
    C.PassedNone(p.nodes, k);
    var t := C.QRun(it.View(p), steps, it.Match());
    assert [] + t.answers == t.answers && [] + t.yielded == t.yielded && [] + t.removed == t.removed;
  }

  lemma QYieldsInPlace(p: Parent, it: QNameIterator, k: nat, steps: seq<C.QStep>)
    requires p.Valid() && k <= |p.nodes| && it.View(p) == C.FreshQ(p.nodes, k)
    ensures var t := C.QRun(it.View(p), steps, it.Match());
      && (t.answers, t.yielded, t.removed) == C.QRef(p.nodes[k..], None, steps, it.Match())
      && t.end.list == C.Without(p.nodes, t.removed)
      && C.NoDup(t.removed) && (forall x :: x in t.removed ==> x in t.yielded)
      && (C.Apt(it.View(p), steps, it.Match()) <==>
            (t.answers, t.yielded) == C.QSpec(C.Matches(p.nodes[k..], it.Match()), steps))
  {
    C.QLeaves(p.nodes, k, steps, it.Match());
    C.EveryRunIsRef(p.nodes, k, steps, it.Match());
    C.YieldsMatchingChildren(p.nodes, k, steps, it.Match());
  }

  /** Step number i of a run in place. */
  method QAdvance(p: Parent, it: QNameIterator, steps: seq<C.QStep>, i: nat,
      answers0: seq<bool>, yielded0: seq<Node>, removed0: seq<Node>,
      ghost all: set<Node>, ghost L: seq<Node>, ghost k: nat, ghost whole: C.QTrace<Node>)
      returns (answers: seq<bool>, yielded: seq<Node>, removed: seq<Node>, ghost m: nat)
    requires i < |steps| && QHas(it, p, L, k, removed0) && Within(p.nodes, all)
    requires C.QLeft(C.QTrace(answers0, yielded0, removed0, it.View(p)), steps[i..], it.Match(), whole)
    modifies it, p, all
    ensures QHas(it, p, L, m, removed) && Within(p.nodes, all)
    ensures C.QLeft(C.QTrace(answers, yielded, removed, it.View(p)), steps[i + 1..], it.Match(), whole)
  {
    C.QLeftStep(C.QTrace(answers0, yielded0, removed0, it.View(p)), steps[i..], it.Match(), whole);
    assert steps[i..][1..] == steps[i + 1..];
    var a, y, d;
    a, y, d, m := QStepInPlace(p, it, steps[i], L, k, removed0);
    answers, yielded, removed := answers0 + a, yielded0 + y, removed0 + d;
  }
}
