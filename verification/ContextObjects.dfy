/** The contexts as objects: operation, service, service group and configuration. */
module ContextObjects {
  import opened PhaseTypes
  import C = Correlation
  import G = Contexts

  class OpCtx {
    const mep: C.Mep
    var parent: SvcCtx?
    var inMsg: Option<nat>
    var outMsg: Option<nat>
    var isComplete: bool

    function State(): C.OpState
      reads this
    {
      C.OpState(mep, inMsg, outMsg, isComplete)
    }

    constructor (mep: C.Mep, parent: SvcCtx?)
      ensures State() == C.Start(mep) && this.parent == parent
    {
      this.mep := mep;
      this.parent := parent;
      inMsg, outMsg, isComplete := None, None, false;
    }

    method AddMsgCtx(m: nat) returns (ok: bool)
      modifies this`inMsg, this`outMsg, this`isComplete
      ensures (ok, State()) == C.AddMsg(old(State()), m)
    {
      ok := true;
      match mep {
        case InOnly =>
          if isComplete { return false; }
          inMsg, isComplete := Some(m), true;
        case OutOnly =>
          if isComplete { return false; }
          outMsg, isComplete := Some(m), true;
        case InOut =>
          if inMsg.Some? && outMsg.Some? { return false; }
          if inMsg.None? {
            inMsg := Some(m);
          } else {
            outMsg, isComplete := Some(m), true;
          }
        case OutIn =>
          if inMsg.Some? && outMsg.Some? { return false; }
          if outMsg.None? {
            outMsg := Some(m);
          } else {
            inMsg, isComplete := Some(m), true;
          }
      }
    }

    /** axis2_op_ctx_add_msg_ctx. */
    method AttachMsgCtx(m: nat) returns (ok: bool)
      modifies this`inMsg, this`outMsg
      ensures (ok, State()) == C.AttachMsg(old(State()), m)
    {
      if inMsg.Some? && outMsg.Some? { return false; }
      if outMsg.None? {
        outMsg := Some(m);
      } else {
        inMsg := Some(m);
      }
      ok := true;
    }
  }

  /** The part of axis2_op_register_op_ctx that touches the operation context. */
  method RegisterWithMessage(c: OpCtx)
    modifies c`inMsg, c`outMsg
    ensures c.State() == C.Taken(old(c.State()))
  {
    if c.isComplete {
      c.inMsg, c.outMsg := None, None;
    }
  }

  class SvcCtx {
    const svc: string
    const parent: SvcGrpCtx

    constructor (svc: string, parent: SvcGrpCtx)
      ensures this.svc == svc && this.parent == parent
    {
      this.svc, this.parent := svc, parent;
    }
  }

  class SvcGrpCtx {
    const parent: ConfCtx
    var id: string
    var svcCtxMap: map<string, SvcCtx>

    /** Every service context knows its service and this group context. */
    ghost predicate Linked()
      reads this
    {
      forall s :: s in svcCtxMap ==> svcCtxMap[s].svc == s && svcCtxMap[s].parent == this
    }

    /** axis2_svc_grp_ctx_create: one service context per service of the group. */
    constructor (group: G.Group, parent: ConfCtx)
      ensures this.parent == parent && id == group.name
      ensures svcCtxMap.Keys == group.svcs && Linked()
    {
      this.parent, id, svcCtxMap := parent, group.name, map[];
      new;
      var left := group.svcs;
      while left != {}
        invariant left <= group.svcs && svcCtxMap.Keys == group.svcs - left
        invariant this.parent == parent && id == group.name && Linked()
        decreases left
      {
        var s :| s in left;
        var c := new SvcCtx(s, this);
        svcCtxMap := svcCtxMap[s := c];
        left := left - {s};
      }
    }
  }

  /** The context part of a message context. */
  class MsgCtx {
    var opCtx: OpCtx?
    var svcCtx: SvcCtx?
    var svcGrpCtx: SvcGrpCtx?

    constructor (opCtx: OpCtx?)
      ensures this.opCtx == opCtx && svcCtx == null && svcGrpCtx == null
    {
      this.opCtx := opCtx;
      svcCtx, svcGrpCtx := null, null;
    }

    method SetContexts(g: SvcGrpCtx, s: SvcCtx)
      requires opCtx != null
      modifies this`svcCtx, this`svcGrpCtx, opCtx`parent
      ensures svcCtx == s && svcGrpCtx == g && opCtx.parent == s
      ensures opCtx.State() == old(opCtx.State())
    {
      opCtx.parent := s;
      svcCtx, svcGrpCtx := s, g;
    }
  }

  class ConfCtx {
    var opCtxMap: map<string, OpCtx>
    var svcGrpCtxMap: map<string, SvcGrpCtx>
    /** All service group contexts made for this configuration, in order. */
    ghost var made: seq<SvcGrpCtx>
    /** All operation contexts made for it, in order. */
    ghost var opCtxs: seq<OpCtx>

    constructor ()
      ensures Holds(G.Registry(map[], 0)) && HoldsOps(C.Nothing)
    {
      opCtxMap, svcGrpCtxMap := map[], map[];
      made, opCtxs := [], [];
    }

    /** The group contexts are those of `r`, each linked to this configuration. */
    ghost predicate Holds(r: G.Registry)
      reads this, made
    {
      && |made| == r.made
      && (forall g :: g in made ==> g.parent == this && g.Linked())
      && svcGrpCtxMap.Keys == r.groups.Keys
      && forall k :: k in svcGrpCtxMap ==>
        && r.groups[k].serial < |made|
        && svcGrpCtxMap[k] == made[r.groups[k].serial]
        && svcGrpCtxMap[k].svcCtxMap.Keys == r.groups[k].svcs
    }

    /** The registered context of the message's group, or a new one that is then registered,
        provided that it has a context for the message's service. */
    method GroupCtx(q: G.Request, ghost r: G.Registry) returns (g: SvcGrpCtx?)
      requires Holds(r) && (q.group.Some? || G.Registered(r, q))
      modifies this`svcGrpCtxMap, this`made
      ensures Holds(G.Fill(r, q).1) && old(made) <= made
      ensures G.Registered(r, q) ==> made == old(made) && svcGrpCtxMap == old(svcGrpCtxMap)
      ensures g == null <==> G.Fill(r, q).0 == G.NoSvcCtx
      ensures g != null ==>
        && g in made && G.Registered(G.Fill(r, q).1, q)
        && g == svcGrpCtxMap[G.Key(q).value] && q.svc in g.svcCtxMap
    {
      var id := if q.group.Some? then q.group.value.name else q.grpId.value;
      if id in svcGrpCtxMap {
        g := svcGrpCtxMap[id];
        return if q.svc in g.svcCtxMap then g else null;
      }
      g := new SvcGrpCtx(q.group.value, this);
      made := made + [g];
      if q.svc !in g.svcCtxMap { return null; }
      svcGrpCtxMap := svcGrpCtxMap[id := g];
    }

    /** axis2_conf_ctx_fill_ctxs: on success the message, its operation context, service
        context, service group context and this configuration form one chain of parents. */
    method FillCtxs(msg: MsgCtx, q: G.Request, ghost r: G.Registry) returns (g: SvcGrpCtx?)
      requires Holds(r) && q.hasOp == (msg.opCtx != null)
      requires q.group.Some? || G.Registered(r, q)
      modifies this`svcGrpCtxMap, this`made, msg`svcCtx, msg`svcGrpCtx
      modifies if msg.opCtx != null then {msg.opCtx} else {}
      ensures Holds(G.Fill(r, q).1) && old(made) <= made
      ensures G.Registered(r, q) ==> made == old(made) && svcGrpCtxMap == old(svcGrpCtxMap)
      ensures g != null <==> G.Fill(r, q).0.Filled?
      ensures g != null ==> g in made && g == made[G.Fill(r, q).0.serial] && Chained(msg, g, q.svc)
      ensures msg.opCtx != null ==> msg.opCtx.State() == old(msg.opCtx.State())
      ensures g == null ==> unchanged(msg) && (msg.opCtx != null ==> unchanged(msg.opCtx))
    {
      g := GroupCtx(q, r);
      if g == null || msg.opCtx == null { return null; }
      msg.SetContexts(g, g.svcCtxMap[q.svc]);
    }

    ghost predicate Chained(msg: MsgCtx, g: SvcGrpCtx, svc: string)
      reads msg, msg.opCtx
    {
      && msg.svcGrpCtx == g && g.parent == this
      && msg.svcCtx != null && msg.svcCtx.parent == g && msg.svcCtx.svc == svc
      && msg.opCtx != null && msg.opCtx.parent == msg.svcCtx
    }

    /** The operation contexts and the map from message IDs to them are those of `w`. */
    ghost predicate HoldsOps(w: C.World)
      reads this, opCtxs
    {
      && |opCtxs| == |w.contexts|
      && (forall i, j :: 0 <= i < j < |opCtxs| ==> opCtxs[i] != opCtxs[j])
      && (forall k :: 0 <= k < |opCtxs| ==> opCtxs[k].State() == w.contexts[k])
      && opCtxMap.Keys == w.registry.Keys
      && (forall id :: id in opCtxMap ==> w.registry[id] < |opCtxs| && opCtxMap[id] == opCtxs[w.registry[id]])
    }

    /** axis2_conf_ctx_register_op_ctx of the operation context number k, or of none. */
    method RegisterOpCtx(id: string, c: OpCtx?, ghost k: Option<nat>, ghost w: C.World)
      requires HoldsOps(w)
      requires if c == null then k == None else k.Some? && k.value < |opCtxs| && opCtxs[k.value] == c
      modifies this`opCtxMap
      ensures HoldsOps(C.Apply(w, C.Register(id, k)).1)
    {
      if c == null {
        opCtxMap := opCtxMap - {id};
      } else {
        opCtxMap := opCtxMap[id := c];
      }
    }

    /** axis2_conf_ctx_get_op_ctx: the context of that number, which the step looks up. */
    method GetOpCtx(id: string, ghost w: C.World, ghost s: C.Step) returns (c: OpCtx?)
      requires HoldsOps(w) && C.Wanted(s) == Some(id)
      ensures c != null <==> C.Subject(w, s).Some?
      ensures c != null ==> C.Subject(w, s).value < |opCtxs| && c == opCtxs[C.Subject(w, s).value]
    {
      c := if id in opCtxMap then opCtxMap[id] else null;
    }

    /** axis2_op_register_op_ctx for a context that a step works on. */
    method TakeOpCtx(c: OpCtx, ghost k: nat, ghost w: C.World, ghost s: C.Step)
      requires HoldsOps(w) && k < |opCtxs| && opCtxs[k] == c
      requires C.Subject(w, s) == Some(k) && !s.Register? && !s.Request? && !s.Add? && !s.Attach?
      modifies c`inMsg, c`outMsg
      ensures HoldsOps(C.Apply(w, s).1)
    {
      RegisterWithMessage(c);
    }

    /** axis2_op_find_op_ctx: create for a message without RelatesTo, look up otherwise, and
        take the context up for the message; the map is not changed. */
    method FindOpCtx(mep: C.Mep, relatesTo: Option<string>, svcCtx: SvcCtx, ghost w: C.World) returns (c: OpCtx?)
      requires HoldsOps(w)
      modifies this`opCtxs, opCtxs
      ensures var s := if relatesTo.None? then C.Request(mep) else C.Response(relatesTo.value);
        var (k, w1) := C.Apply(w, s);
        && HoldsOps(w1)
        && (c != null <==> k.Some?)
        && (c != null ==> k.value < |opCtxs| && c == opCtxs[k.value])
      ensures relatesTo.None? ==> c != null && fresh(c) && c.parent == svcCtx
      ensures opCtxMap == old(opCtxMap)
    {
      if relatesTo.None? {
        c := new OpCtx(mep, svcCtx);
        opCtxs := opCtxs + [c];
        RegisterWithMessage(c);
      } else {
        ghost var s := C.Response(relatesTo.value);
        c := GetOpCtx(relatesTo.value, w, s);
        if c != null { TakeOpCtx(c, C.Subject(w, s).value, w, s); }
      }
    }

    /** The look-up of the addressing dispatcher: for a message with a RelatesTo, but by the
        message's own ID. */
    method DispatchOpCtx(relatesTo: string, id: string, ghost w: C.World) returns (c: OpCtx?)
      requires HoldsOps(w)
      modifies opCtxs
      ensures var (k, w1) := C.Apply(w, C.Dispatch(relatesTo, id));
        HoldsOps(w1) && (c != null <==> k.Some?) && (c != null ==> k.value < |opCtxs| && c == opCtxs[k.value])
    {
      if relatesTo == "" { return null; }
      ghost var s := C.Dispatch(relatesTo, id);
      c := GetOpCtx(id, w, s);
      if c != null { TakeOpCtx(c, C.Subject(w, s).value, w, s); }
    }

    /** axis2_op_find_existing_op_ctx: the message's own context first, never a new one. */
    method FindExistingOpCtx(own: OpCtx?, relatesTo: Option<string>, ghost w: C.World) returns (c: OpCtx?)
      requires HoldsOps(w)
      ensures own != null ==> c == own
      ensures own == null ==> (c != null <==> relatesTo.Some? && C.Subject(w, C.Response(relatesTo.value)).Some?)
      ensures own == null && c != null ==>
        var k := C.Subject(w, C.Response(relatesTo.value)).value; k < |opCtxs| && c == opCtxs[k]
    {
      if own != null { return own; }
      if relatesTo.None? { return null; }
      c := GetOpCtx(relatesTo.value, w, C.Response(relatesTo.value));
    }

    /** A message added to operation context number k, by pattern or by the message receiver. */
    method AddToOpCtx(c: OpCtx, attach: bool, m: nat, ghost k: nat, ghost w: C.World) returns (ok: bool)
      requires HoldsOps(w) && k < |opCtxs| && opCtxs[k] == c
      modifies c`inMsg, c`outMsg, c`isComplete
      ensures HoldsOps(C.Apply(w, if attach then C.Attach(k, m) else C.Add(k, m)).1)
      ensures ok == if attach then C.AttachMsg(w.contexts[k], m).0 else C.AddMsg(w.contexts[k], m).0
    {
      if attach {
        ok := c.AttachMsgCtx(m);
      } else {
        ok := c.AddMsgCtx(m);
      }
    }
  }
}
