/** Operation contexts: which one a message is correlated to, and what they hold. */
module Correlation {
  import opened PhaseTypes

  datatype Mep = InOnly | OutOnly | InOut | OutIn

  /** The message slots of one operation context, for an operation of one exchange pattern. */
  datatype OpState = OpState(mep: Mep, inMsg: Option<nat>, outMsg: Option<nat>, complete: bool)

  /** The four axis2_op_add_msg_ctx functions, one for each pattern. */
  function AddMsg(c: OpState, m: nat): (bool, OpState) {
    match c.mep
    case InOnly => if c.complete then (false, c) else (true, c.(inMsg := Some(m), complete := true))
    case OutOnly => if c.complete then (false, c) else (true, c.(outMsg := Some(m), complete := true))
    case InOut =>
      if c.inMsg.Some? && c.outMsg.Some? then (false, c)
      else if c.inMsg.None? then (true, c.(inMsg := Some(m)))
      else (true, c.(outMsg := Some(m), complete := true))
    case OutIn =>
      if c.inMsg.Some? && c.outMsg.Some? then (false, c)
      else if c.outMsg.None? then (true, c.(outMsg := Some(m)))
      else (true, c.(inMsg := Some(m), complete := true))
  }

  /** axis2_op_ctx_add_msg_ctx, which the message receiver calls: the out slot first, for
      every pattern, and never a word about completeness. */
  function AttachMsg(c: OpState, m: nat): (bool, OpState) {
    if c.inMsg.Some? && c.outMsg.Some? then (false, c)
    else if c.outMsg.None? then (true, c.(outMsg := Some(m)))
    else (true, c.(inMsg := Some(m)))
  }

  /** axis2_op_register_op_ctx: its only effect on a context is to drop the messages of a
      complete one; it puts nothing into the map. */
  function Taken(c: OpState): OpState {
    if c.complete then c.(inMsg := None, outMsg := None) else c
  }

  /** Contexts by number, and the map from message IDs to them. */
  datatype World = World(contexts: seq<OpState>, registry: map<string, nat>)

  /** register_op_ctx of the configuration context under a message ID (None takes the entry
      away); a message without RelatesTo, which makes a new context; one with RelatesTo, which
      must find its own; one with RelatesTo in the addressing dispatcher, which looks up the
      message's own ID; a message that has its context already; a message added by pattern;
      a message added by the message receiver. */
  datatype Step =
    | Register(id: string, ctx: Option<nat>)
    | Request(mep: Mep)
    | Response(relatesTo: string)
    | Dispatch(relatesTo: string, id: string)
    | Take(known: nat)
    | Add(to: nat, msg: nat)
    | Attach(to: nat, msg: nat)

  function Start(mep: Mep): OpState { OpState(mep, None, None, false) }

  /** The ID a step looks up. */
  function Wanted(s: Step): Option<string> {
    match s
    case Response(id) => Some(id)
    case Dispatch(r, id) => if r == "" then None else Some(id)
    case _ => None
  }

  /** The context a step works on, if there is one. */
  function Subject(w: World, s: Step): Option<nat> {
    match s
    case Take(k) => if k < |w.contexts| then Some(k) else None
    case Add(k, m) => if k < |w.contexts| then Some(k) else None
    case Attach(k, m) => if k < |w.contexts| then Some(k) else None
    case _ =>
      if Wanted(s).Some? && Wanted(s).value in w.registry then Some(w.registry[Wanted(s).value]) else None
  }

  /** That context after the step. */
  function Served(c: OpState, s: Step): OpState {
    match s
    case Add(k, m) => AddMsg(c, m).1
    case Attach(k, m) => AttachMsg(c, m).1
    case _ => Taken(c)
  }

  /** The context a step gives its message, and the world after it. */
  function Apply(w: World, s: Step): (Option<nat>, World) {
    match s
    case Register(id, ctx) =>
      (None, w.(registry := if ctx.Some? then w.registry[id := ctx.value] else w.registry - {id}))
    case Request(mep) => (Some(|w.contexts|), w.(contexts := w.contexts + [Start(mep)]))
    case _ =>
      var k := Subject(w, s);
      (k, if k.Some? && k.value < |w.contexts|
          then w.(contexts := w.contexts[k.value := Served(w.contexts[k.value], s)]) else w)
  }

  const Nothing := World([], map[])

  function After(steps: seq<Step>): World {
    if steps == [] then Nothing else Apply(After(steps[..|steps| - 1]), steps[|steps| - 1]).1
  }

  // ----- which context a message is given -------------------------------------------

  /** The reference: what was last registered under an ID, if anything. */
  function LastRegistered(steps: seq<Step>, id: string): Option<nat> {
    if steps == [] then None
    else
      var s := steps[|steps| - 1];
      if s.Register? && s.id == id then s.ctx else LastRegistered(steps[..|steps| - 1], id)
  }

  function Requests(steps: seq<Step>): nat {
    if steps == [] then 0
    else Requests(steps[..|steps| - 1]) + if steps[|steps| - 1].Request? then 1 else 0
  }

  lemma {:induction false} RegistryIsHistory(steps: seq<Step>, id: string)
    ensures LastRegistered(steps, id)
         == if id in After(steps).registry then Some(After(steps).registry[id]) else None
    ensures |After(steps).contexts| == Requests(steps)
    decreases |steps|
  {
    if steps != [] { RegistryIsHistory(steps[..|steps| - 1], id); }
  }

  /** In every interleaving a response attaches to the context last registered under the ID
      it relates to, and to none if there is none; the addressing dispatcher attaches a message
      to what is registered under its own ID instead; only a message without RelatesTo makes a
      context, and always a new one. */
  lemma {:induction false} Correlates(steps: seq<Step>, s: Step)
    ensures var (k, w) := Apply(After(steps), s);
      && (s.Response? ==> k == LastRegistered(steps, s.relatesTo))
      && (s.Dispatch? && s.relatesTo != "" ==> k == LastRegistered(steps, s.id))
      && (s.Request? ==> k == Some(Requests(steps)) && w.contexts == After(steps).contexts + [Start(s.mep)])
      && (!s.Request? ==> |w.contexts| == Requests(steps))
      && (!s.Register? ==> w.registry == After(steps).registry)
  {
    RegistryIsHistory(steps, if Wanted(s).Some? then Wanted(s).value else "");
  }

  /** The repository's own calls only take entries away; as long as nobody else registers a
      context, no response is ever correlated. */
  lemma {:induction false} NothingCorrelates(steps: seq<Step>, s: Step)
    requires forall i :: 0 <= i < |steps| && steps[i].Register? ==> steps[i].ctx.None?
    ensures After(steps).registry == map[]
    ensures Wanted(s).Some? ==> Apply(After(steps), s) == (None, After(steps))
    decreases |steps|
  {
    if steps != [] { NothingCorrelates(steps[..|steps| - 1], s); }
  }

  /** With message IDs registered once each, that is the one context registered under it. */
  lemma {:induction false} CorrelatesDistinct(steps: seq<Step>, j: nat)
    requires j < |steps| && steps[j].Register? && steps[j].ctx.Some?
    requires forall i :: 0 <= i < |steps| && i != j && steps[i].Register? ==> steps[i].id != steps[j].id
    ensures LastRegistered(steps, steps[j].id) == steps[j].ctx
    decreases |steps|
  {
    if j < |steps| - 1 {
      var front := steps[..|steps| - 1];
      assert front[j] == steps[j];
      CorrelatesDistinct(front, j);
    }
  }

  // ----- what contexts hold ---------------------------------------------------------

  /** Every message a context holds it keeps; a two-way context that is complete is final. */
  predicate Extends(a: OpState, b: OpState) {
    && a.mep == b.mep
    && (a.inMsg.Some? ==> b.inMsg == a.inMsg)
    && (a.outMsg.Some? ==> b.outMsg == a.outMsg)
    && (a.complete ==> b.complete && (a.mep.InOut? || a.mep.OutIn? ==> b == a))
  }

  /** All messages of the pattern are there. */
  predicate Whole(c: OpState) {
    match c.mep
    case InOnly => c.inMsg.Some?
    case OutOnly => c.outMsg.Some?
    case _ => c.inMsg.Some? && c.outMsg.Some?
  }

  /** A context is complete exactly when its pattern has all its messages, and an
      incomplete one holds at most the first of the two its pattern asks for. */
  predicate Sound(c: OpState) {
    match c.mep
    case InOnly => c.outMsg.None? && c.complete == c.inMsg.Some?
    case OutOnly => c.inMsg.None? && c.complete == c.outMsg.Some?
    case InOut => (c.outMsg.Some? ==> c.inMsg.Some?) && c.complete == c.outMsg.Some?
    case OutIn => (c.inMsg.Some? ==> c.outMsg.Some?) && c.complete == c.inMsg.Some?
  }

  /** The step takes up a complete context, or adds a second message to the one slot of a
      one-way context that the message receiver filled without completing it. */
  predicate Loses(w: World, s: Step) {
    && Subject(w, s).Some? && Subject(w, s).value < |w.contexts|
    && var c := w.contexts[Subject(w, s).value];
       match s
       case Add(k, m) =>
         && !c.complete
         && ((c.mep.InOnly? && c.inMsg.Some? && c.inMsg.value != m)
             || (c.mep.OutOnly? && c.outMsg.Some? && c.outMsg.value != m))
       case Attach(k, m) => false
       case _ => c.complete
  }

  predicate Lossless(steps: seq<Step>) {
    steps == [] || (Lossless(steps[..|steps| - 1]) && !Loses(After(steps[..|steps| - 1]), steps[|steps| - 1]))
  }

  lemma {:induction false} CompleteIsWhole(steps: seq<Step>)
    requires Lossless(steps)
    ensures forall k :: 0 <= k < |After(steps).contexts| && After(steps).contexts[k].complete ==>
      Whole(After(steps).contexts[k])
    decreases |steps|
  {
    if steps != [] { CompleteIsWhole(steps[..|steps| - 1]); }
  }

  /** Without the message receiver's additions, completeness says exactly what is there. */
  lemma {:induction false} AllSound(steps: seq<Step>)
    requires Lossless(steps) && forall i :: 0 <= i < |steps| ==> !steps[i].Attach?
    ensures forall k :: 0 <= k < |After(steps).contexts| ==> Sound(After(steps).contexts[k])
    decreases |steps|
  {
    if steps != [] { AllSound(steps[..|steps| - 1]); }
  }

  /** A context filled by the message receiver alone is never complete. */
  lemma {:induction false} AttachNeverCompletes(steps: seq<Step>)
    requires forall i :: 0 <= i < |steps| ==> !steps[i].Add?
    ensures Lossless(steps) && forall k :: 0 <= k < |After(steps).contexts| ==> !After(steps).contexts[k].complete
    decreases |steps|
  {
    if steps != [] { AttachNeverCompletes(steps[..|steps| - 1]); }
  }

  /** From the n-th step on, every context keeps the messages it then had. */
  predicate KeepsFrom(steps: seq<Step>, n: nat)
    requires n <= |steps|
  {
    var a, b := After(steps[..n]).contexts, After(steps).contexts;
    forall k :: 0 <= k < |a| ==> k < |b| && Extends(a[k], b[k])
  }

  lemma {:induction false} LosslessKeeps(steps: seq<Step>, n: nat)
    requires n <= |steps| && Lossless(steps)
    ensures KeepsFrom(steps, n)
    decreases |steps|
  {
    if n < |steps| {
      var front := steps[..|steps| - 1];
      assert front[..n] == steps[..n];
      LosslessKeeps(front, n);
      CompleteIsWhole(front);
    } else {
      assert steps[..n] == steps;
    }
  }

  /** No message is ever displaced from a context, each holding at most one per label for
      good, exactly when no step takes up a complete context, which empties it, or adds to the
      filled slot of an incomplete one-way context. */
  lemma {:induction false} KeepsMessagesExactly(steps: seq<Step>)
    ensures Lossless(steps) <==>
      forall n, m :: 0 <= n <= m <= |steps| ==> KeepsFrom(steps[..m], n)
  {
    if Lossless(steps) {
      forall n, m | 0 <= n <= m <= |steps| ensures KeepsFrom(steps[..m], n) {
        LosslessFront(steps, m);
        LosslessKeeps(steps[..m], n);
      }
    } else {
      var i := FirstLoss(steps);
      assert steps[..i + 1][..i] == steps[..i];
      LossShows(steps[..i + 1]);
      assert !KeepsFrom(steps[..i + 1], i);
    }
  }

  lemma {:induction false} LosslessFront(steps: seq<Step>, m: nat)
    requires m <= |steps| && Lossless(steps)
    ensures Lossless(steps[..m])
    decreases |steps|
  {
    if m < |steps| {
      assert steps[..|steps| - 1][..m] == steps[..m];
      LosslessFront(steps[..|steps| - 1], m);
    } else {
      assert steps[..m] == steps;
    }
  }

  lemma {:induction false} FirstLoss(steps: seq<Step>) returns (i: nat)
    requires !Lossless(steps)
    ensures i < |steps| && Lossless(steps[..i]) && Loses(After(steps[..i]), steps[i])
    decreases |steps|
  {
    var front := steps[..|steps| - 1];
    if Lossless(front) {
      i := |steps| - 1;
    } else {
      i := FirstLoss(front);
      assert front[..i] == steps[..i];
    }
  }

  /** The first such step displaces a message. */
  lemma {:induction false} LossShows(steps: seq<Step>)
    requires steps != [] && Lossless(steps[..|steps| - 1]) && Loses(After(steps[..|steps| - 1]), steps[|steps| - 1])
    ensures !KeepsFrom(steps, |steps| - 1)
  {
    var w, s := After(steps[..|steps| - 1]), steps[|steps| - 1];
    CompleteIsWhole(steps[..|steps| - 1]);
    var k := Subject(w, s).value;
    assert After(steps).contexts[k] == Served(w.contexts[k], s);
    assert !Extends(w.contexts[k], After(steps).contexts[k]);
  }

  // ----- messages arrive ------------------------------------------------------------

  /** An accepted addition by the message receiver puts the message into the out slot if that
      is empty and otherwise into the in slot; it is refused exactly when both are filled. */
  lemma AttachStores(c: OpState, m: nat)
    ensures var (ok, d) := AttachMsg(c, m);
      && (ok <==> c.inMsg.None? || c.outMsg.None?)
      && (!ok ==> d == c)
      && (c.outMsg.None? ==> d == c.(outMsg := Some(m)))
      && (c.outMsg.Some? && c.inMsg.None? ==> d == c.(inMsg := Some(m)))
  {
  }

  /** The message receiver's two additions to a context that holds nothing, as it makes them for
      the response and the request, fill both slots in that order; a third is refused. */
  lemma {:induction false} ReceiverFillsBoth(steps: seq<Step>, k: nat, a: nat, b: nat, more: nat)
    requires k < |After(steps).contexts| && After(steps).contexts[k].inMsg.None? && After(steps).contexts[k].outMsg.None?
    ensures var s := steps + [Attach(k, a)] + [Attach(k, b)];
      && k < |After(s).contexts|
      && After(s).contexts[k] == After(steps).contexts[k].(outMsg := Some(a), inMsg := Some(b))
      && !Accepted(After(s), Attach(k, more)) && After(s + [Attach(k, more)]) == After(s)
  {
    var s1 := steps + [Attach(k, a)];
    AfterAppended(steps, Attach(k, a));
    AfterAppended(s1, Attach(k, b));
    var s := s1 + [Attach(k, b)];
    AfterAppended(s, Attach(k, more));
    assert After(s).contexts == After(s).contexts[k := After(s).contexts[k]];
  }

  lemma AfterAppended(steps: seq<Step>, s: Step)
    ensures After(steps + [s]) == Apply(After(steps), s).1
  {
    assert (steps + [s])[..|steps|] == steps;
  }

  /** Which slot an addition by pattern fills: the one slot of a one-way pattern, the first of a
      two-way one unless it is filled, and then the second. */
  predicate FillsIn(c: OpState) {
    match c.mep
    case InOnly => true
    case OutOnly => false
    case InOut => c.inMsg.None?
    case OutIn => c.outMsg.Some?
  }

  /** An accepted addition by pattern puts the message there, leaves the other slot, and
      completes the context unless a two-way pattern lacks its other message; it is refused
      exactly by a complete one-way context and by a two-way one with both slots filled. */
  lemma AddStores(c: OpState, m: nat)
    ensures var (ok, d) := AddMsg(c, m);
      && (ok <==> if c.mep.InOnly? || c.mep.OutOnly? then !c.complete else c.inMsg.None? || c.outMsg.None?)
      && (!ok ==> d == c)
      && (ok && FillsIn(c) ==> d.inMsg == Some(m) && d.outMsg == c.outMsg)
      && (ok && !FillsIn(c) ==> d.outMsg == Some(m) && d.inMsg == c.inMsg)
      && (ok ==> d.mep == c.mep && (d.complete <==>
            c.complete || c.mep.InOnly? || c.mep.OutOnly? || (c.mep.InOut? && !FillsIn(c)) || (c.mep.OutIn? && FillsIn(c))))
  {
  }

  /** The message is in one of the slots. */
  predicate Holds(c: OpState, m: nat) { c.inMsg == Some(m) || c.outMsg == Some(m) }

  /** The context takes the message. */
  predicate Accepted(w: World, s: Step) {
    match s
    case Add(k, m) => k < |w.contexts| && AddMsg(w.contexts[k], m).0
    case Attach(k, m) => k < |w.contexts| && AttachMsg(w.contexts[k], m).0
    case _ => false
  }

  /** A message that was accepted is in its context then, and in a run that loses none at the
      end of the run as well. */
  lemma {:induction false} AcceptedIsHeld(steps: seq<Step>, i: nat, k: nat, m: nat)
    requires i < |steps| && (steps[i] == Add(k, m) || steps[i] == Attach(k, m)) && Accepted(After(steps[..i]), steps[i])
    ensures k < |After(steps[..i + 1]).contexts| && Holds(After(steps[..i + 1]).contexts[k], m)
    ensures Lossless(steps) ==> k < |After(steps).contexts| && Holds(After(steps).contexts[k], m)
  {
    assert steps[..i + 1] == steps[..i] + [steps[i]];
    AfterAppended(steps[..i], steps[i]);
    if Lossless(steps) { LosslessKeeps(steps, i + 1); }
  }

  /** Taking up a complete context empties it and leaves it complete; the message receiver can
      then fill it again. Any other is taken up as it is. */
  lemma {:induction false} TakenUp(steps: seq<Step>, s: Step, k: nat)
    requires Subject(After(steps), s) == Some(k) && k < |After(steps).contexts| && !s.Add? && !s.Attach?
    ensures var c, d := After(steps).contexts[k], After(steps + [s]).contexts[k];
      if c.complete then d.inMsg.None? && d.outMsg.None? && d.complete && d.mep == c.mep else d == c
  {
    AfterAppended(steps, s);
  }

  /** No step touches a context other than the one it works on, and none but a registration
      touches the map; a dispatched message with an empty RelatesTo works on none. */
  lemma {:induction false} OthersUntouched(steps: seq<Step>, s: Step, k: nat)
    requires k < |After(steps).contexts| && Subject(After(steps), s) != Some(k)
    ensures k < |After(steps + [s]).contexts| && After(steps + [s]).contexts[k] == After(steps).contexts[k]
    ensures s.Dispatch? && s.relatesTo == "" ==> After(steps + [s]) == After(steps)
  {
    AfterAppended(steps, s);
  }
}
