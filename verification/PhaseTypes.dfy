/** Data shared by the phase, engine and resolver models: handlers, their placement
    rules, and the value of a phase. */
module PhaseTypes {

  datatype Option<+T> = None | Some(value: T)

  /** The rule record of a handler description: the phase it goes to and where in it. */
  datatype Rule = Rule(
    phase: string,
    before: Option<string>,
    after: Option<string>,
    first: bool,
    last: bool)

  /** A handler together with its description; a handler's name is its description's. */
  datatype Handler = Handler(name: string, rule: Rule)

  /** The fields of a phase: two end slots around a handler list, and the flag that
      the phase admits only the one handler it holds. */
  datatype PhaseState = PhaseState(
    name: string,
    first: Option<Handler>,
    handlers: seq<Handler>,
    last: Option<Handler>,
    single: bool)

  /** The handlers of a phase in the order an uninterrupted invocation reaches them. */
  function Order(p: PhaseState): seq<Handler> {
    Slot(p.first) + p.handlers + Slot(p.last)
  }

  function Slot(o: Option<Handler>): seq<Handler> {
    if o.None? then [] else [o.value]
  }

  lemma Assoc<T>(a: seq<T>, b: seq<T>, c: seq<T>)
    ensures a + (b + c) == a + b + c
  {
  }
}
