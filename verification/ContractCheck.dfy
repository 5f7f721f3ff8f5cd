/** The check of a scenario against the approved contract, and what its test for ambiguous
    handlers does and does not exclude. */
module ContractCheck {
  import opened Wrappers
  import opened Json
  import opened PairIds
  import opened RuntimeModel
  import opened Scenario
  import opened Compiler
  import opened Shadowing
  import Evolution

  /** A documented response; `accepts` is its JSON schema, if any, as a test. */
  datatype Documented = Documented(accepts: Json -> bool)

  /** An operation; `routes` is its path template as a test. */
  datatype Operation = Operation(verb: string, routes: string -> bool, responses: map<string, Documented>)

  /** `size` is the length of a definition's serialised form in bytes. */
  datatype Contract = Contract(operations: seq<Operation>, size: Definition -> nat)

  datatype Error =
    | TooLarge
    | NoOperation(handler: string)
    | Undocumented(status: int)
    | BodyMismatch(handler: string)
    | Ambiguous(state: string)

  const MAX_BYTES := 1_000_000

  function MatchingOperation(operations: seq<Operation>, h: Handler): Option<Operation> {
    if operations == [] then None
    else if operations[0].verb == h.request.verb && operations[0].routes(h.request.url.path) then Some(operations[0])
    else MatchingOperation(operations[1..], h)
  }

  function StatusText(status: int): string { if status < 0 then "-" + Digits(-status) else Digits(status) }

  /** The exact status, then its class, then the default. */
  function DocumentedResponse(o: Operation, status: int): Option<Documented> {
    var exact, wildcard := StatusText(status), StatusText(status / 100) + "XX";
    if exact in o.responses then Some(o.responses[exact])
    else if wildcard in o.responses then Some(o.responses[wildcard])
    else if "default" in o.responses then Some(o.responses["default"])
    else None
  }

  type Trigger = (string, string, Json)

  function TriggerOf(h: Handler): Trigger { (h.request.verb, h.request.path, h.request.jsonBody) }

  function HandlerError(contract: Contract, h: Handler): Option<Error> {
    match MatchingOperation(contract.operations, h)
    case None => Some(NoOperation(h.name))
    case Some(operation) =>
      match DocumentedResponse(operation, h.response.status)
      case None => Some(Undocumented(h.response.status))
      case Some(response) =>
        if h.response.jsonBody != Null && !response.accepts(h.response.jsonBody) then Some(BodyMismatch(h.name))
        else None
  }

  method CheckState(contract: Contract, s: State) returns (error: Option<Error>)
    ensures error == None <==>
      && (forall i | 0 <= i < |s.handlers| :: HandlerError(contract, s.handlers[i]) == None)
      && forall i, j | 0 <= i < j < |s.handlers| :: TriggerOf(s.handlers[i]) != TriggerOf(s.handlers[j])
    ensures error.Some? ==>
      exists n | 0 <= n < |s.handlers| :: FirstFault(contract, s, n, error.value)
  {
    hide HandlerError;
    var triggers := {};
    for i := 0 to |s.handlers|
      invariant forall k | 0 <= k < i :: HandlerError(contract, s.handlers[k]) == None
      invariant triggers == set k | 0 <= k < i :: TriggerOf(s.handlers[k])
      invariant forall k, m | 0 <= k < m < i :: TriggerOf(s.handlers[k]) != TriggerOf(s.handlers[m])
    {
      error := HandlerError(contract, s.handlers[i]);
      if error.Some? {
        assert FirstFault(contract, s, i, error.value);
        return;
      }
      if TriggerOf(s.handlers[i]) in triggers {
        assert FirstFault(contract, s, i, Ambiguous(s.name));
        return Some(Ambiguous(s.name));
      }
      triggers := triggers + {TriggerOf(s.handlers[i])};
    }
    error := None;
  }

  /** Handler n is the first of its state at fault, and this is its fault. */
  ghost predicate FirstFault(contract: Contract, s: State, n: nat, error: Error)
    requires n < |s.handlers|
  {
    && (forall k | 0 <= k < n :: HandlerError(contract, s.handlers[k]) == None)
    && (forall k, m | 0 <= k < m < n :: TriggerOf(s.handlers[k]) != TriggerOf(s.handlers[m]))
    && match HandlerError(contract, s.handlers[n])
       case Some(e) => error == e
       case None => error == Ambiguous(s.name) && exists k | 0 <= k < n ::
         TriggerOf(s.handlers[k]) == TriggerOf(s.handlers[n])
  }

  ghost predicate StateFits(contract: Contract, s: State) {
    && (forall i | 0 <= i < |s.handlers| :: HandlerError(contract, s.handlers[i]) == None)
    && forall i, j | 0 <= i < j < |s.handlers| :: TriggerOf(s.handlers[i]) != TriggerOf(s.handlers[j])
  }

  ghost predicate Accepted(contract: Contract, d: Definition) {
    contract.size(d) <= MAX_BYTES && forall i | 0 <= i < |d.states| :: StateFits(contract, d.states[i])
  }

  /** State i is the first with a handler at fault, and this is its first fault. */
  ghost predicate FirstBad(contract: Contract, states: seq<State>, i: nat, n: nat, error: Error) {
    && i < |states| && n < |states[i].handlers|
    && (forall k | 0 <= k < i :: StateFits(contract, states[k]))
    && FirstFault(contract, states[i], n, error)
  }

  method ValidateScenarioContract(contract: Contract, d: Definition) returns (error: Option<Error>)
    ensures error == None <==> Accepted(contract, d)
    ensures contract.size(d) > MAX_BYTES ==> error == Some(TooLarge)
    ensures contract.size(d) <= MAX_BYTES && error.Some? ==>
      exists i, n :: FirstBad(contract, d.states, i, n, error.value)
  {
    hide FirstFault;
    if contract.size(d) > MAX_BYTES {
      return Some(TooLarge);
    }
    for i := 0 to |d.states|
      invariant forall k | 0 <= k < i :: StateFits(contract, d.states[k])
    {
      error := CheckState(contract, d.states[i]);
      if error.Some? {
        ghost var n :| 0 <= n < |d.states[i].handlers| && FirstFault(contract, d.states[i], n, error.value);
        assert FirstBad(contract, d.states, i, n, error.value);
        return;
      }
    }
    error := None;
  }

  // ----------------------------------------------------- what ambiguity does not catch

  /** Same trigger, and neither asks a header or query value the other does not. */
  lemma SameTriggerOverlaps(g: Handler, h: Handler)
    requires TriggerOf(g) == TriggerOf(h) && g.request.url == h.request.url
    requires g.request.queryParameters == map[] == h.request.queryParameters
    requires g.request.headers == [] == h.request.headers
    ensures Covers(g, h) && Covers(h, g)
  {
  }

  /** A handler without a body before one with a body has another trigger, and takes all
      of its requests. */
  lemma BodilessShadows(g: Handler, h: Handler)
    requires g.request == h.request.(jsonBody := Null) && h.request.jsonBody != Null
    ensures TriggerOf(g) != TriggerOf(h) && Covers(g, h)
  {
    assert forall a | a in g.request.headers :: a in h.request.headers;
  }

  /** So a definition can pass the check and hold a handler that never answers. */
  lemma ValidButShadowed()
    ensures var d := Evolution.Shadowed(true);
      var handlers := d.states[0].handlers;
      && WellFormed(d) && TriggerOf(handlers[0]) != TriggerOf(handlers[1])
      && forall req :: !AnswersAt(handlers, 1, req)
  {
    Evolution.ShadowedWellFormed(true);
    var handlers := Evolution.Shadowed(true).states[0].handlers;
    BodilessShadows(handlers[0], handlers[1]);
    CanAnswerIff(handlers, 1);
  }
}
