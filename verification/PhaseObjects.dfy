/** The phase as the object the source keeps: handlers are inserted, removed and invoked in
    place, each operation proved against its function on values. */
module PhaseObjects {
  import opened PhaseTypes
  import opened Engine
  import P = Placement

  /** The execution part of a message context. `log` records what ran; `script` stands for
      the handlers' behaviour. */
  class MsgCtx {
    var paused: bool
    var pausedPhaseName: Option<string>
    var currentHandlerIndex: int
    var log: seq<Event>
    const script: Script

    function State(): Ctx
      reads this
    {
      Ctx(paused, pausedPhaseName, currentHandlerIndex, log)
    }

    constructor (script: Script)
      ensures State() == FreshCtx && this.script == script
    {
      paused, pausedPhaseName, currentHandlerIndex, log := false, None, -1, [];
      this.script := script;
    }

    method InvokeHandler(h: Handler) returns (ok: bool)
      modifies this
      ensures (ok, State()) == RunHandler(h, old(State()), script)
    {
      var o := OutcomeAt(script, |log|);
      log := log + [Ran(h)];
      match o.pause {
        case Leave =>
        case Pause => paused := true;
        case Unpause => paused := false;
      }
      ok := o.ok;
    }
  }

  class Phase {
    const name: string
    var firstHandler: Option<Handler>
    var handlers: seq<Handler>
    var lastHandler: Option<Handler>
    var isOneHandler: bool

    function State(): PhaseState
      reads this
    {
      PhaseState(name, firstHandler, handlers, lastHandler, isOneHandler)
    }

    constructor (name: string)
      ensures State() == PhaseState(name, None, [], None, false)
    {
      this.name := name;
      firstHandler, handlers, lastHandler, isOneHandler := None, [], None, false;
    }

    // ----- placing handlers ---------------------------------------------------------

    method AddUnique(h: Handler)
      modifies this`handlers
      ensures handlers == P.AddUnique(old(handlers), h)
    {
      var i, add := 0, true;
      while i < |handlers| && add
        invariant i <= |handlers| && handlers == old(handlers)
        invariant forall j :: 0 <= j < i ==> handlers[j].name != h.name || !add
        invariant !add <==> P.IndexOf(handlers, h.name) < i
      {
        if handlers[i].name == h.name { add := false; }
        i := i + 1;
      }
      if add { handlers := handlers + [h]; }
    }

    method RemoveUnique(h: Handler)
      modifies this`handlers
      ensures handlers == P.RemoveUnique(old(handlers), h)
    {
      var i := 0;
      while i < |handlers| && handlers[i].name != h.name
        invariant i <= |handlers| && handlers == old(handlers)
        invariant forall j :: 0 <= j < i ==> handlers[j].name != h.name
      {
        i := i + 1;
      }
      if i < |handlers| { handlers := handlers[..i] + handlers[i + 1..]; }
    }

    method AddAt(k: int, h: Handler) returns (ok: bool)
      modifies this`handlers
      ensures ok == (0 <= k <= |old(handlers)|)
      ensures handlers == if ok then P.InsertAt(old(handlers), k, h) else old(handlers)
    {
      ok := 0 <= k <= |handlers|;
      if ok { handlers := handlers[..k] + [h] + handlers[k..]; }
    }

    method InsertBefore(h: Handler) returns (ok: bool)
      modifies this`handlers
      ensures h.rule.before.None? ==> !ok && handlers == old(handlers)
      ensures h.rule.before.Some? ==>
        (ok, handlers) == P.Put(old(handlers), old(P.SpotBefore(State(), h.rule.before.value)), h)
    {
      if h.rule.before.None? { return false; }
      var before := h.rule.before.value;
      if lastHandler.Some? && lastHandler.value.name == before {
        AddUnique(h);
        return true;
      }
      var i := 0;
      while i < |handlers|
        invariant i <= |handlers| && handlers == old(handlers)
        invariant forall j :: 0 <= j < i ==> handlers[j].name != before
      {
        if handlers[i].name == before {
          ok := AddAt(i, h);
          return;
        }
        i := i + 1;
      }
      AddUnique(h);
      ok := true;
    }

    method InsertAfter(h: Handler) returns (ok: bool)
      modifies this`handlers
      ensures h.rule.after.None? ==> !ok && handlers == old(handlers)
      ensures h.rule.after.Some? ==>
        (ok, handlers) == P.Put(old(handlers), old(P.SpotAfter(State(), h.rule.after.value)), h)
    {
      if h.rule.after.None? { return false; }
      var after := h.rule.after.value;
      if firstHandler.Some? && firstHandler.value.name == after {
        ok := AddAt(0, h);
        return;
      }
      var i := 0;
      while i < |handlers|
        invariant i <= |handlers| && handlers == old(handlers)
        invariant forall j :: 0 <= j < i ==> handlers[j].name != after
      {
        if handlers[i].name == after {
          if i == |handlers| - 1 {
            AddUnique(h);
            ok := true;
          } else {
            ok := AddAt(i + 1, h);
          }
          return;
        }
        i := i + 1;
      }
      if |handlers| > 0 {
        ok := AddAt(0, h);
      } else {
        AddUnique(h);
        ok := true;
      }
    }

    /** The search loop of the combined insertion. */
    method FindBetween(after0: int, before0: int, afterName: string, beforeName: string) returns (spot: P.Spot)
      ensures spot == P.SpotBoth(handlers, 0, after0, before0, afterName, beforeName)
    {
      var after, before := after0, before0;
      var i := 0;
      while i < |handlers|
        invariant i <= |handlers|
        invariant P.SpotBoth(handlers, i, after, before, afterName, beforeName)
               == P.SpotBoth(handlers, 0, after0, before0, afterName, beforeName)
      {
        if handlers[i].name == afterName { after := i; }
        if handlers[i].name == beforeName { before := i; }
        if after >= 0 && before >= 0 {
          if after > before { return P.Reject; }
          return if after + 1 < |handlers| then P.At(after + 1) else P.Append;
        }
        i := i + 1;
      }
      spot := P.Append;
    }

    method InsertBeforeAndAfter(h: Handler) returns (ok: bool)
      modifies this`handlers
      ensures h.rule.before.None? || h.rule.after.None? ==> !ok && handlers == old(handlers)
      ensures h.rule.before.Some? && h.rule.after.Some? ==>
        (ok, handlers) == P.Put(old(handlers),
          old(P.SpotBeforeAndAfter(State(), h.rule.before.value, h.rule.after.value)), h)
    {
      if h.rule.before.None? || h.rule.after.None? { return false; }
      var beforeName, afterName := h.rule.before.value, h.rule.after.value;
      var before, after := -1, -1;
      if firstHandler.Some? && lastHandler.Some? {
        if firstHandler.value.name == beforeName && lastHandler.value.name == afterName {
          AddUnique(h);
          return true;
        }
      }
      if lastHandler.Some? {
        if lastHandler.value.name == afterName { after := 0; }
        if firstHandler.Some? && firstHandler.value.name == beforeName { before := |handlers|; }
      }
      var spot := FindBetween(after, before, afterName, beforeName);
      match spot {
        case Reject => ok := false;
        case At(k) => ok := AddAt(k, h);
        case Append => AddUnique(h); ok := true;
      }
    }

    method InsertHandlerDesc(h: Handler) returns (ok: bool)
      modifies this`handlers
      ensures (ok, handlers) == P.Put(old(handlers), old(P.Place(State(), h)), h)
    {
      if P.Named(lastHandler, h.rule.after) || P.Named(firstHandler, h.rule.before) { return false; }
      if h.rule.before.Some? && h.rule.after.Some? {
        ok := InsertBeforeAndAfter(h);
      } else if h.rule.before.Some? {
        ok := InsertBefore(h);
      } else if h.rule.after.Some? {
        ok := InsertAfter(h);
      } else {
        AddUnique(h);
        ok := true;
      }
    }

    method SetFirstHandler(h: Handler) returns (ok: bool)
      modifies this`firstHandler
      ensures ok == (old(firstHandler).None? && P.Anywhere(h))
      ensures firstHandler == if ok then Some(h) else old(firstHandler)
    {
      ok := firstHandler.None? && P.Anywhere(h);
      if ok { firstHandler := Some(h); }
    }

    method SetLastHandler(h: Handler) returns (ok: bool)
      modifies this`lastHandler
      ensures ok == (old(lastHandler).None? && P.Anywhere(h))
      ensures lastHandler == if ok then Some(h) else old(lastHandler)
    {
      ok := lastHandler.None? && P.Anywhere(h);
      if ok { lastHandler := Some(h); }
    }

    method AddHandlerDesc(h: Handler) returns (ok: bool)
      modifies this
      ensures (ok, State()) == P.AddDesc(old(State()), h)
    {
      if isOneHandler { return false; }
      if h.rule.first && h.rule.last {
        if |handlers| > 0 { return false; }
        AddUnique(h);
        isOneHandler := true;
        return true;
      }
      if h.rule.first {
        ok := SetFirstHandler(h);
      } else if h.rule.last {
        ok := SetLastHandler(h);
      } else {
        ok := InsertHandlerDesc(h);
      }
    }

    method RemoveHandlerDesc(h: Handler)
      modifies this`handlers
      ensures State() == P.RemoveDesc(old(State()), h)
    {
      RemoveUnique(h);
    }

    // ----- invoking handlers --------------------------------------------------------

    method Invoke(c: MsgCtx) returns (ok: bool)
      modifies c
      ensures (ok, c.State()) == InvokePhase(State(), old(c.State()), c.script)
    {
      c.pausedPhaseName := Some(name);
      if firstHandler.Some? {
        if c.paused { return true; }
        ok := c.InvokeHandler(firstHandler.value);
        if !ok { return; }
      }
      ghost var start := c.State();
      var index := 0;
      while index < |handlers|
        invariant index <= |handlers|
        invariant InvokeList(handlers, index, c.State(), c.script) == InvokeList(handlers, 0, start, c.script)
      {
        if c.paused { break; }
        ok := c.InvokeHandler(handlers[index]);
        if !ok { return; }
        index := index + 1;
        c.currentHandlerIndex := index;
      }
      if lastHandler.Some? {
        if c.paused { return true; }
        ok := c.InvokeHandler(lastHandler.value);
        if !ok { return; }
      }
      ok := true;
    }

    method InvokeStartFromHandler(k: int, c: MsgCtx)
      modifies c
      ensures c.State() == ResumePhase(State(), k, old(c.State()), c.script)
    {
      c.pausedPhaseName := Some(name);
      ghost var start := c.State();
      var i := k;
      while i < |handlers|
        invariant ResumeList(handlers, i, c.State(), c.script) == ResumeList(handlers, k, start, c.script)
      {
        if i >= 0 {
          var _ := c.InvokeHandler(handlers[i]);
          c.currentHandlerIndex := c.currentHandlerIndex + 1;
        }
        i := i + 1;
      }
    }
  }
}
