/** The context hierarchy: which service group context and service context a message is given. */
module Contexts {
  import opened PhaseTypes

  /** A service group as deployed at some moment. */
  datatype Group = Group(name: string, svcs: set<string>)

  /** A service group context: its number, in order of creation, and the services it has a
      service context for. */
  datatype GrpCtx = GrpCtx(serial: nat, svcs: set<string>)

  /** The contexts registered by group name, and how many were made. */
  datatype Registry = Registry(groups: map<string, GrpCtx>, made: nat)

  /** A message to be placed: its service, the group that has that service now, the group id
      the message carries, and whether it has its operation context. */
  datatype Request = Request(group: Option<Group>, grpId: Option<string>, svc: string, hasOp: bool)

  /** NullGroup stands for a service without a group whose id is not registered, where the
      source reads the name of a null group. */
  datatype Outcome = Filled(serial: nat) | NoSvcCtx | NoOpCtx | NullGroup

  function Key(q: Request): Option<string> {
    if q.group.Some? then Some(q.group.value.name) else q.grpId
  }

  predicate Registered(r: Registry, q: Request) { Key(q).Some? && Key(q).value in r.groups }

  /** axis2_conf_ctx_fill_ctxs. */
  function Fill(r: Registry, q: Request): (Outcome, Registry) {
    if Registered(r, q) then
      var g := r.groups[Key(q).value];
      (if q.svc !in g.svcs then NoSvcCtx else if !q.hasOp then NoOpCtx else Filled(g.serial), r)
    else if q.group.None? then (NullGroup, r)
    else if q.svc !in q.group.value.svcs then (NoSvcCtx, r.(made := r.made + 1))
    else
      var g := GrpCtx(r.made, q.group.value.svcs);
      (if !q.hasOp then NoOpCtx else Filled(g.serial), Registry(r.groups[q.group.value.name := g], r.made + 1))
  }

  function After(qs: seq<Request>): Registry {
    if qs == [] then Registry(map[], 0) else Fill(After(qs[..|qs| - 1]), qs[|qs| - 1]).1
  }

  /** The reference: the services of a group at the first message for one of them. */
  function FirstSvcs(qs: seq<Request>, name: string): Option<set<string>> {
    if qs == [] then None
    else
      var earlier, q := FirstSvcs(qs[..|qs| - 1], name), qs[|qs| - 1];
      if earlier.Some? then earlier
      else if q.group.Some? && q.group.value.name == name && q.svc in q.group.value.svcs then Some(q.group.value.svcs)
      else None
  }

  lemma {:induction false} RegistryIsFirst(qs: seq<Request>, name: string)
    ensures FirstSvcs(qs, name)
         == if name in After(qs).groups then Some(After(qs).groups[name].svcs) else None
    decreases |qs|
  {
    if qs != [] { RegistryIsFirst(qs[..|qs| - 1], name); }
  }

  /** After any run, a message of a grouped service is placed exactly when it has its
      operation context and its service was in the group when the group's context was made;
      a service deployed into the group later is refused for good, with or without an operation
      context. The id the message carries makes no difference. */
  lemma {:induction false} PlacedExactly(qs: seq<Request>, q: Request, g: Group)
    requires q.group == Some(g)
    ensures var svcs := if FirstSvcs(qs, g.name).Some? then FirstSvcs(qs, g.name).value else g.svcs;
      var o := Fill(After(qs), q).0;
      (o.NoSvcCtx? <==> q.svc !in svcs) && (o.NoOpCtx? <==> q.svc in svcs && !q.hasOp) && (o.Filled? <==> q.svc in svcs && q.hasOp)
    ensures forall id :: Fill(After(qs), q.(grpId := id)) == Fill(After(qs), q)
  {
    RegistryIsFirst(qs, g.name);
  }

  /** The services of the context registered under the id a message carries, if any. */
  function ById(qs: seq<Request>, id: Option<string>): Option<set<string>> {
    if id.None? then None else FirstSvcs(qs, id.value)
  }

  /** A message of a service without a group goes by the id it carries, and changes nothing. */
  lemma {:induction false} PlacedById(qs: seq<Request>, q: Request)
    requires q.group.None?
    ensures var svcs, o := ById(qs, q.grpId), Fill(After(qs), q).0;
      && (o.NullGroup? <==> svcs.None?)
      && (o.NoSvcCtx? <==> svcs.Some? && q.svc !in svcs.value)
      && (o.NoOpCtx? <==> svcs.Some? && q.svc in svcs.value && !q.hasOp)
      && (o.Filled? <==> svcs.Some? && q.svc in svcs.value && q.hasOp)
    ensures Fill(After(qs), q).1 == After(qs)
  {
    if q.grpId.Some? { RegistryIsFirst(qs, q.grpId.value); }
  }

  /** A registered group context stays for good. */
  lemma {:induction false} ContextsStay(qs: seq<Request>, n: nat, name: string)
    requires n <= |qs| && name in After(qs[..n]).groups
    ensures name in After(qs).groups && After(qs).groups[name] == After(qs[..n]).groups[name]
    decreases |qs|
  {
    if n < |qs| {
      assert qs[..|qs| - 1][..n] == qs[..n];
      ContextsStay(qs[..|qs| - 1], n, name);
    } else {
      assert qs[..n] == qs;
    }
  }

  /** In every run, messages placed for one group name share its context, and messages
      placed for different names never do. */
  lemma {:induction false} OneContextPerName(qs: seq<Request>, i: nat, j: nat)
    requires i < j < |qs| && Fill(After(qs[..i]), qs[i]).0.Filled? && Fill(After(qs[..j]), qs[j]).0.Filled?
    ensures Fill(After(qs[..i]), qs[i]).0 == Fill(After(qs[..j]), qs[j]).0 <==> Key(qs[i]) == Key(qs[j])
  {
    var r := After(qs[..j + 1]);
    assert qs[..j + 1][..i + 1] == qs[..i + 1] && qs[..i + 1][..i] == qs[..i] && qs[..j + 1][..j] == qs[..j];
    ContextsStay(qs[..j + 1], i + 1, Key(qs[i]).value);
    SerialsDiffer(qs[..j + 1], Key(qs[i]).value, Key(qs[j]).value);
  }

  lemma {:induction false} SerialsDiffer(qs: seq<Request>, a: string, b: string)
    requires a in After(qs).groups && b in After(qs).groups
    ensures After(qs).groups[a].serial < After(qs).made
    ensures a != b ==> After(qs).groups[a].serial != After(qs).groups[b].serial
    decreases |qs|
  {
    var qs1 := qs[..|qs| - 1];
    if a in After(qs1).groups { SerialsDiffer(qs1, a, a); }
    if b in After(qs1).groups { SerialsDiffer(qs1, b, b); }
    if a in After(qs1).groups && b in After(qs1).groups { SerialsDiffer(qs1, a, b); }
  }

  /** The first message of a group names a service that the group does not have. */
  predicate Wasteful(r: Registry, q: Request) {
    q.group.Some? && !Registered(r, q) && q.svc !in q.group.value.svcs
  }

  function Wasted(qs: seq<Request>): nat {
    if qs == [] then 0
    else Wasted(qs[..|qs| - 1]) + if Wasteful(After(qs[..|qs| - 1]), qs[|qs| - 1]) then 1 else 0
  }

  /** Every group context made is registered under its name, or was made for a message that
      was then refused. */
  lemma {:induction false} NoneMadeTwice(qs: seq<Request>)
    ensures After(qs).made == |After(qs).groups| + Wasted(qs)
    decreases |qs|
  {
    if qs != [] {
      var r, q := After(qs[..|qs| - 1]), qs[|qs| - 1];
      NoneMadeTwice(qs[..|qs| - 1]);
      if q.group.Some? && !Registered(r, q) && !Wasteful(r, q) {
        var g := GrpCtx(r.made, q.group.value.svcs);
        assert r.groups[q.group.value.name := g].Keys == r.groups.Keys + {q.group.value.name};
        assert |r.groups[q.group.value.name := g]| == |r.groups| + 1;
      }
    }
  }

  /** A second fill of the same message changes nothing and answers the same, except that
      each fill of a wasteful one makes another context. */
  lemma SecondFill(r: Registry, q: Request)
    ensures var (o, r1) := Fill(r, q);
      Fill(r1, q) == (o, r1) <==> !Wasteful(r, q)
  {
  }
}
