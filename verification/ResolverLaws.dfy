/** What engaging and disengaging modules promises. */
module ResolverLaws {
  import opened PhaseTypes
  import opened Placement
  import opened Resolver

  // ----- one phase: adding handlers and removing them again -------------------------

  function AddSeq(p: PhaseState, hs: seq<Handler>): (bool, PhaseState)
    decreases |hs|
  {
    if hs == [] then (true, p)
    else
      var (ok, q) := AddDesc(p, hs[0]);
      if !ok then (false, q) else AddSeq(q, hs[1..])
  }

  function RemoveSeq(p: PhaseState, hs: seq<Handler>): PhaseState
    decreases |hs|
  {
    if hs == [] then p else RemoveSeq(RemoveDesc(p, hs[0]), hs[1..])
  }

  /** A handler list without the handlers of the given names. */
  function Keep(hs: seq<Handler>, names: set<string>): seq<Handler> {
    if hs == [] then []
    else (if hs[0].name in names then [] else [hs[0]]) + Keep(hs[1..], names)
  }

  function Count(hs: seq<Handler>, n: string): nat {
    if hs == [] then 0 else (if hs[0].name == n then 1 else 0) + Count(hs[1..], n)
  }

  lemma {:induction false} KeepConcat(a: seq<Handler>, b: seq<Handler>, names: set<string>)
    ensures Keep(a + b, names) == Keep(a, names) + Keep(b, names)
    decreases |a|
  {
    if a == [] {
      assert a + b == b;
    } else {
      assert (a + b)[1..] == a[1..] + b;
      KeepConcat(a[1..], b, names);
    }
  }

  lemma {:induction false} CountConcat(a: seq<Handler>, b: seq<Handler>, n: string)
    ensures Count(a + b, n) == Count(a, n) + Count(b, n)
    decreases |a|
  {
    if a == [] {
      assert a + b == b;
    } else {
      assert (a + b)[1..] == a[1..] + b;
      CountConcat(a[1..], b, n);
    }
  }

  lemma {:induction false} InsertKeeps(hs: seq<Handler>, k: nat, h: Handler, names: set<string>, n: string)
    requires k <= |hs|
    ensures h.name in names ==> Keep(InsertAt(hs, k, h), names) == Keep(hs, names)
    ensures Count(InsertAt(hs, k, h), n) == Count(hs, n) + if h.name == n then 1 else 0
  {
    assert hs == hs[..k] + hs[k..];
    KeepConcat(hs[..k], hs[k..], names);
    KeepConcat(hs[..k] + [h], hs[k..], names);
    KeepConcat(hs[..k], [h], names);
    CountConcat(hs[..k], hs[k..], n);
    CountConcat(hs[..k] + [h], hs[k..], n);
    CountConcat(hs[..k], [h], n);
  }

  lemma {:induction false} RemoveKeeps(hs: seq<Handler>, h: Handler, names: set<string>, n: string)
    ensures h.name in names ==> Keep(RemoveUnique(hs, h), names) == Keep(hs, names)
    ensures Count(RemoveUnique(hs, h), n) == Count(hs, n) - if h.name == n && Count(hs, n) > 0 then 1 else 0
  {
    var i := IndexOf(hs, h.name);
    if i < |hs| {
      var r := RemoveUnique(hs, h);
      assert InsertAt(r, i, hs[i]) == hs;
      InsertKeeps(r, i, hs[i], names, n);
    } else {
      CountAbsent(hs, h.name);
    }
  }

  lemma {:induction false} CountAbsent(hs: seq<Handler>, n: string)
    ensures Count(hs, n) == 0 <==> Absent(hs, n)
  {
    if hs != [] {
      CountAbsent(hs[1..], n);
      assert forall i :: 1 <= i < |hs| ==> hs[i] == hs[1..][i - 1];
      if Absent(hs[1..], n) && hs[0].name != n {
        forall i | 0 <= i < |hs| ensures hs[i].name != n {
          if i > 0 { assert hs[1..][i - 1].name != n; }
        }
      }
    }
  }

  lemma {:induction false} PutKeeps(hs: seq<Handler>, s: Spot, h: Handler, names: set<string>, n: string)
    ensures var r := Put(hs, s, h).1;
      && (h.name in names ==> Keep(r, names) == Keep(hs, names))
      && Count(r, n) <= Count(hs, n) + if h.name == n then 1 else 0
  {
    match s {
      case Reject =>
      case At(k) => if k <= |hs| { InsertKeeps(hs, k, h, names, n); }
      case Append =>
        InsertKeeps(hs, |hs|, h, names, n);
        assert InsertAt(hs, |hs|, h) == hs + [h];
    }
  }

  lemma {:induction false} AddKeeps(p: PhaseState, h: Handler, names: set<string>, n: string)
    ensures var q := AddDesc(p, h).1;
      && (h.name in names ==> Keep(q.handlers, names) == Keep(p.handlers, names))
      && Count(q.handlers, n) <= Count(p.handlers, n) + if h.name == n then 1 else 0
  {
    PutKeeps(p.handlers, Append, h, names, n);
    PutKeeps(p.handlers, Place(p, h), h, names, n);
  }

  lemma {:induction false} SeqKeeps(p: PhaseState, hs: seq<Handler>, names: set<string>, n: string)
    requires forall h :: h in hs ==> h.name in names
    ensures var q := AddSeq(p, hs).1;
      Keep(q.handlers, names) == Keep(p.handlers, names) && Count(q.handlers, n) <= Count(p.handlers, n) + Count(hs, n)
    ensures var q := RemoveSeq(p, hs);
      && Keep(q.handlers, names) == Keep(p.handlers, names)
      && (Count(p.handlers, n) <= Count(hs, n) ==> Count(q.handlers, n) == 0)
      && q == p.(handlers := q.handlers)
    decreases |hs|
  {
    if hs != [] {
      AddKeeps(p, hs[0], names, n);
      RemoveKeeps(p.handlers, hs[0], names, n);
      SeqKeeps(AddDesc(p, hs[0]).1, hs[1..], names, n);
      SeqKeeps(RemoveDesc(p, hs[0]), hs[1..], names, n);
    }
  }

  function NamesOf(hs: seq<Handler>): set<string> {
    set h | h in hs :: h.name
  }

  lemma {:induction false} KeepAll(hs: seq<Handler>, names: set<string>)
    requires forall i :: 0 <= i < |hs| ==> hs[i].name !in names
    ensures Keep(hs, names) == hs
  {
    if hs != [] { KeepAll(hs[1..], names); }
  }

  predicate Middling(h: Handler) { !h.rule.first && !h.rule.last }

  predicate AllMiddling(hs: seq<Handler>) {
    forall h :: h in hs ==> Middling(h)
  }

  /** What accepted additions do outside the list: nothing exactly when none is marked first or last. */
  lemma {:induction false} SeqSlots(p: PhaseState, hs: seq<Handler>)
    requires AddSeq(p, hs).0
    ensures var q := AddSeq(p, hs).1;
      && q.name == p.name
      && (p.first.Some? ==> q.first == p.first) && (p.last.Some? ==> q.last == p.last) && (p.single ==> q.single)
      && (q == p.(handlers := q.handlers) <==> AllMiddling(hs))
    decreases |hs|
  {
    if hs != [] {
      var q := AddDesc(p, hs[0]).1;
      SeqSlots(q, hs[1..]);
      assert forall h :: h in hs <==> h == hs[0] || h in hs[1..];
      assert AllMiddling(hs) <==> Middling(hs[0]) && AllMiddling(hs[1..]);
    }
  }

  predicate FreshFor(p: PhaseState, hs: seq<Handler>) {
    forall h :: h in hs ==> Absent(p.handlers, h.name)
  }

  /** Accepted additions of new names followed by their removals give the list back always,
      and the phase back exactly when no handler among them was marked first or last. */
  lemma {:induction false} RemovalUndoesAddition(p: PhaseState, hs: seq<Handler>)
    requires AddSeq(p, hs).0 && FreshFor(p, hs)
    ensures var r := RemoveSeq(AddSeq(p, hs).1, hs);
      r.handlers == p.handlers && (r == p <==> AllMiddling(hs))
  {
    var names := NamesOf(hs);
    var q := AddSeq(p, hs).1;
    var r := RemoveSeq(q, hs);
    SeqSlots(p, hs);
    SeqKeeps(p, hs, names, "");
    SeqKeeps(q, hs, names, "");
    KeepAll(p.handlers, names);
    forall i | 0 <= i < |r.handlers| ensures r.handlers[i].name !in names {
      if n :| n == r.handlers[i].name && n in names {
        SeqKeeps(p, hs, names, n);
        SeqKeeps(q, hs, names, n);
        CountAbsent(p.handlers, n);
        CountAbsent(r.handlers, n);
      }
    }
    KeepAll(r.handlers, names);
  }

  // ----- one handler, whatever names the phase holds already ------------------------

  /** h is new, or was inserted no further than the first handler of its name: between that
      one and the place of h there is nothing but h itself. */
  predicate Undoable(p: PhaseState, h: Handler) {
    Absent(p.handlers, h.name) ||
    (Place(p, h).At? && forall j :: IndexOf(p.handlers, h.name) <= j < Place(p, h).k && j < |p.handlers| ==> p.handlers[j] == h)
  }

  lemma {:induction false} FirstOfName(hs: seq<Handler>, n: string, i: nat)
    requires i < |hs| && hs[i].name == n && forall j :: 0 <= j < i ==> hs[j].name != n
    ensures IndexOf(hs, n) == i
  {
  }

  lemma PlaceInside(p: PhaseState, h: Handler)
    requires Put(p.handlers, Place(p, h), h).0 && Place(p, h).At?
    ensures Place(p, h).k <= |p.handlers|
  {
  }

  /** h having gone to k, removing it again gives the list back exactly when the first handler
      of its name was not before k, or everything from there up to k is h. */
  lemma {:induction false} TakenOut(hs: seq<Handler>, k: nat, h: Handler)
    requires k <= |hs|
    ensures RemoveUnique(InsertAt(hs, k, h), h) == hs
       <==> forall j :: IndexOf(hs, h.name) <= j < k ==> hs[j] == h
  {
    var m, list := IndexOf(hs, h.name), InsertAt(hs, k, h);
    FirstOfName(list, h.name, if k <= m then k else m);
    if k <= m {
      assert list[..k] + list[k + 1..] == hs;
    } else {
      TakenBefore(hs, m, k, h);
    }
  }

  lemma {:induction false} TakenBefore(hs: seq<Handler>, m: nat, k: nat, h: Handler)
    requires m < k <= |hs|
    ensures var list := InsertAt(hs, k, h);
      list[..m] + list[m + 1..] == hs <==> forall j :: m <= j < k ==> hs[j] == h
  {
    var list := InsertAt(hs, k, h);
    var left := list[..m] + list[m + 1..];
    assert |left| == |hs| && left[k - 1] == h;
    assert forall j :: m <= j < k - 1 ==> left[j] == hs[j + 1];
    if left == hs { AllAlike(hs, m, k, h); }
    if forall j :: m <= j < k ==> hs[j] == h {
      assert forall j :: 0 <= j < |hs| ==> left[j] == hs[j];
    }
  }

  lemma {:induction false} AllAlike(hs: seq<Handler>, m: nat, k: nat, h: Handler)
    requires m < k <= |hs| && hs[k - 1] == h && forall j :: m <= j < k - 1 ==> hs[j] == hs[j + 1]
    ensures forall j :: m <= j < k ==> hs[j] == h
    decreases k
  {
    if m < k - 1 {
      assert hs[k - 2] == hs[k - 1];
      AllAlike(hs, m, k - 1, h);
    }
  }

  /** One accepted handler, added and removed again, gives the phase back exactly when it was
      not marked first or last and no other handler of its name comes before the place it was
      given. Otherwise that other handler is the one taken away, or nothing was added. */
  lemma {:induction false} OneHandlerUndone(p: PhaseState, h: Handler)
    requires AddDesc(p, h).0
    ensures RemoveDesc(AddDesc(p, h).1, h) == p <==> Middling(h) && Undoable(p, h)
  {
    var i := IndexOf(p.handlers, h.name);
    if Middling(h) {
      if Place(p, h).At? {
        PlaceInside(p, h);
        TakenOut(p.handlers, Place(p, h).k, h);
        if Absent(p.handlers, h.name) { assert i == |p.handlers|; }
      } else if i == |p.handlers| {
        FirstOfName(p.handlers + [h], h.name, i);
        assert (p.handlers + [h])[..i] + (p.handlers + [h])[i + 1..] == p.handlers;
        assert Absent(p.handlers, h.name);
      } else {
        assert !Absent(p.handlers, h.name);
        assert |RemoveUnique(p.handlers, h)| == |p.handlers| - 1;
      }
    }
  }

  /** Another module's handler of the same name: adding h changes nothing, and taking h away
      again takes the other one away. */
  lemma SharedNameLoses()
    ensures var g, h := Neighbour("x", None, Some("y")), Neighbour("x", None, None);
      var p := PhaseState("p", None, [g], None, false);
      AddDesc(p, h) == (true, p) && RemoveDesc(p, h) == p.(handlers := [])
  {
    var g, h := Neighbour("x", None, Some("y")), Neighbour("x", None, None);
    var p := PhaseState("p", None, [g], None, false);
    assert IndexOf([g], "x") == 0 && AddUnique([g], h) == [g] && RemoveUnique([g], h) == [];
  }

  // ----- a list of phases, phase by phase -------------------------------------------

  /** The handlers that are routed to phase i. */
  function Routed(ps: Phases, hs: seq<Handler>, i: nat): seq<Handler> {
    if hs == [] then []
    else (if Find(ps, hs[0].rule.phase) == i then [hs[0]] else []) + Routed(ps, hs[1..], i)
  }

  lemma {:induction false} RoutedMembers(ps: Phases, hs: seq<Handler>, i: nat, h: Handler)
    ensures h in Routed(ps, hs, i) <==> h in hs && Find(ps, h.rule.phase) == i
  {
    if hs != [] {
      RoutedMembers(ps, hs[1..], i, h);
      assert hs == [hs[0]] + hs[1..];
    }
  }

  predicate SameNames(a: Phases, b: Phases) {
    |a| == |b| && forall i :: 0 <= i < |a| ==> a[i].name == b[i].name
  }

  lemma {:induction false} FindSame(a: Phases, b: Phases, n: string)
    requires SameNames(a, b)
    ensures Find(a, n) == Find(b, n)
  {
  }

  lemma {:induction false} RoutedSame(a: Phases, b: Phases, hs: seq<Handler>, i: nat)
    requires SameNames(a, b)
    ensures Routed(a, hs, i) == Routed(b, hs, i)
  {
    if hs != [] {
      FindSame(a, b, hs[0].rule.phase);
      RoutedSame(a, b, hs[1..], i);
    }
  }

  predicate AllFound(ps: Phases, hs: seq<Handler>) {
    forall h :: h in hs ==> Find(ps, h.rule.phase) < |ps|
  }

  lemma {:induction false} AddAllFound(ps: Phases, hs: seq<Handler>)
    requires AddAll(ps, hs).0
    ensures SameNames(ps, AddAll(ps, hs).1) && AllFound(ps, hs) && AllFound(AddAll(ps, hs).1, hs)
    decreases |hs|
  {
    if hs != [] {
      var qs := HolderAdd(ps, hs[0]).1;
      assert SameNames(ps, qs);
      AddAllFound(qs, hs[1..]);
      forall h | h in hs ensures Find(ps, h.rule.phase) < |ps| {
        if h in hs[1..] { FindSame(ps, qs, h.rule.phase); }
      }
      forall h | h in hs ensures Find(AddAll(ps, hs).1, h.rule.phase) < |ps| {
        FindSame(ps, AddAll(ps, hs).1, h.rule.phase);
      }
    }
  }

  lemma {:induction false} AddAllAt(ps: Phases, hs: seq<Handler>, i: nat)
    requires i < |ps| && AddAll(ps, hs).0
    ensures AddSeq(ps[i], Routed(ps, hs, i)) == (true, AddAll(ps, hs).1[i])
    decreases |hs|
  {
    if hs != [] {
      var qs := HolderAdd(ps, hs[0]).1;
      AddAllAt(qs, hs[1..], i);
      RoutedSame(ps, qs, hs[1..], i);
      assert ([hs[0]] + Routed(ps, hs[1..], i))[1..] == Routed(ps, hs[1..], i);
      assert [] + Routed(ps, hs[1..], i) == Routed(ps, hs[1..], i);
    }
  }

  lemma {:induction false} RemoveAllOk(ps: Phases, hs: seq<Handler>)
    requires AllFound(ps, hs)
    ensures RemoveAll(ps, hs).0 && SameNames(ps, RemoveAll(ps, hs).1)
    decreases |hs|
  {
    if hs != [] {
      var qs := HolderRemove(ps, hs[0]).1;
      assert hs[0] in hs && SameNames(ps, qs);
      forall h | h in hs[1..] ensures Find(qs, h.rule.phase) < |qs| { FindSame(ps, qs, h.rule.phase); }
      RemoveAllOk(qs, hs[1..]);
    }
  }

  lemma {:induction false} RemoveAllAt(ps: Phases, hs: seq<Handler>, i: nat)
    requires i < |ps| && RemoveAll(ps, hs).0
    ensures RemoveAll(ps, hs).1[i] == RemoveSeq(ps[i], Routed(ps, hs, i))
    decreases |hs|
  {
    if hs != [] {
      var qs := HolderRemove(ps, hs[0]).1;
      RemoveAllAt(qs, hs[1..], i);
      RoutedSame(ps, qs, hs[1..], i);
      assert ([hs[0]] + Routed(ps, hs[1..], i))[1..] == Routed(ps, hs[1..], i);
      assert [] + Routed(ps, hs[1..], i) == Routed(ps, hs[1..], i);
    }
  }

  /** No handler shares its name with one in the phase it is meant for. */
  predicate FreshAll(ps: Phases, hs: seq<Handler>) {
    forall h :: h in hs ==> var i := Find(ps, h.rule.phase); i < |ps| ==> Absent(ps[i].handlers, h.name)
  }

  /** The same for a list of phases the handlers are routed over. */
  lemma {:induction false} RemoveAllUndoesAddAll(ps: Phases, hs: seq<Handler>)
    requires AddAll(ps, hs).0 && FreshAll(ps, hs)
    ensures var r := RemoveAll(AddAll(ps, hs).1, hs);
      && r.0
      && (forall i :: 0 <= i < |ps| ==> r.1[i].handlers == ps[i].handlers)
      && (r.1 == ps <==> AllMiddling(hs))
  {
    var qs := AddAll(ps, hs).1;
    AddAllFound(ps, hs);
    RemoveAllOk(qs, hs);
    var r := RemoveAll(qs, hs).1;
    forall i | 0 <= i < |ps|
      ensures r[i].handlers == ps[i].handlers && (r[i] == ps[i] <==> AllMiddling(Routed(ps, hs, i)))
    {
      PhaseRestored(ps, hs, i);
    }
    Pointwise(r, ps, hs);
  }

  lemma {:induction false} Pointwise(r: Phases, ps: Phases, hs: seq<Handler>)
    requires |r| == |ps| && AllFound(ps, hs)
    requires forall i :: 0 <= i < |ps| ==> (r[i] == ps[i] <==> AllMiddling(Routed(ps, hs, i)))
    ensures r == ps <==> AllMiddling(hs)
  {
    if AllMiddling(hs) {
      forall i | 0 <= i < |ps| ensures r[i] == ps[i] {
        forall h | h in Routed(ps, hs, i) ensures Middling(h) { RoutedMembers(ps, hs, i, h); }
      }
    }
    if r == ps {
      forall h | h in hs ensures Middling(h) {
        var i := Find(ps, h.rule.phase);
        RoutedMembers(ps, hs, i, h);
        assert r[i] == ps[i];
      }
    }
  }

  lemma {:induction false} PhaseRestored(ps: Phases, hs: seq<Handler>, i: nat)
    requires i < |ps| && AddAll(ps, hs).0 && FreshAll(ps, hs)
    ensures var r := RemoveAll(AddAll(ps, hs).1, hs);
      r.0 && r.1[i].handlers == ps[i].handlers && (r.1[i] == ps[i] <==> AllMiddling(Routed(ps, hs, i)))
  {
    var qs := AddAll(ps, hs).1;
    AddAllFound(ps, hs);
    AddAllAt(ps, hs, i);
    RemoveAllOk(qs, hs);
    RemoveAllAt(qs, hs, i);
    RoutedSame(ps, qs, hs, i);
    forall h | h in Routed(ps, hs, i) ensures Absent(ps[i].handlers, h.name) {
      RoutedMembers(ps, hs, i, h);
    }
    RemovalUndoesAddition(ps[i], Routed(ps, hs, i));
  }
}
