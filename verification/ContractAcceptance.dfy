/** What the contract check accepts, in terms of the contract's operations, the responses
    they document and the requests two handlers share. */
module ContractAcceptance {
  import opened Wrappers
  import opened Json
  import opened PairIds
  import opened RuntimeModel
  import opened Scenario
  import opened ContractCheck

  // --------------------------------------------------------------- status as text

  /** A decimal numeral without leading zeros. */
  ghost predicate IsNumeral(s: string, n: nat) {
    s != "" && AllDigits(s) && DigitsValue(s) == n && (s[0] == '0' ==> |s| == 1)
  }

  ghost predicate IsDecimal(s: string, n: int) {
    if n >= 0 then IsNumeral(s, n) else s != "" && s[0] == '-' && IsNumeral(s[1..], -n)
  }

  /** A class of a hundred statuses, such as 4XX. */
  ghost predicate IsClass(s: string, status: int) {
    exists c, digits :: c * 100 <= status < c * 100 + 100 && IsDecimal(digits, c) && s == digits + "XX"
  }

  lemma {:induction false} NumeralIff(s: string, n: nat)
    ensures IsNumeral(s, n) <==> s == Digits(n)
    decreases |s|
  {
    if s == [] || !AllDigits(s) {
    } else if |s| == 1 {
      assert IsDigit(s[0]) && s[..0] == [];
      assert DigitsValue(s) == (s[0] - '0') as nat;
      if n < 10 {
        assert Digits(n) == ['0' + n as char];
      } else {
        assert |Digits(n / 10)| > 0;
      }
    } else {
      var front, last := s[..|s| - 1], s[|s| - 1];
      assert IsDigit(last) && front + [last] == s;
      var v := (last - '0') as nat;
      NumeralIff(front, n / 10);
      if IsNumeral(s, n) {
        NumeralIff(front, DigitsValue(front));
        assert DigitsValue(front) > 0 by { NoZero(front); }
        assert n / 10 == DigitsValue(front) && n % 10 == v;
      }
      if s == Digits(n) {
        assert n >= 10;
        assert front == Digits(n / 10);
      }
    }
  }

  lemma {:induction false} NoZero(s: string)
    requires s != "" && AllDigits(s) && s[0] != '0'
    ensures DigitsValue(s) > 0
    decreases |s|
  {
    assert IsDigit(s[|s| - 1]);
    if |s| > 1 {
      NoZero(s[..|s| - 1]);
    }
  }

  lemma DecimalIff(s: string, n: int)
    ensures IsDecimal(s, n) <==> s == StatusText(n)
  {
    hide IsNumeral, Digits;
    if n >= 0 {
      NumeralIff(s, n);
    } else if s != "" {
      NumeralIff(s[1..], -n);
      assert s == [s[0]] + s[1..];
    }
  }

  lemma ClassIff(s: string, status: int)
    ensures IsClass(s, status) <==> s == StatusText(status / 100) + "XX"
  {
    hide IsDecimal, StatusText;
    if c, digits :| c * 100 <= status < c * 100 + 100 && IsDecimal(digits, c) && s == digits + "XX" {
      DecimalIff(digits, c);
      assert c == status / 100;
    }
    DecimalIff(StatusText(status / 100), status / 100);
  }

  // ------------------------------------------------------------- one handler

  /** The first operation of the contract to take the handler's request. */
  ghost predicate Routed(operations: seq<Operation>, i: nat, h: Handler) {
    i < |operations| && Routes(operations[i], h) && forall j: nat | j < i :: !Routes(operations[j], h)
  }

  ghost predicate Routes(o: Operation, h: Handler) { o.verb == h.request.verb && o.routes(h.request.url.path) }

  ghost predicate NamesExact(o: Operation, status: int) { exists key | key in o.responses :: IsDecimal(key, status) }

  ghost predicate NamesClass(o: Operation, status: int) { exists key | key in o.responses :: IsClass(key, status) }

  /** The status itself is looked for first, then its class, then the default. */
  ghost predicate Documents(o: Operation, status: int, key: string) {
    && key in o.responses
    && (|| IsDecimal(key, status)
        || (IsClass(key, status) && !NamesExact(o, status))
        || (key == "default" && !NamesExact(o, status) && !NamesClass(o, status)))
  }

  lemma DocumentedIff(o: Operation, status: int)
    ensures match DocumentedResponse(o, status)
      case Some(response) => exists key | key in o.responses ::
        Documents(o, status, key) && o.responses[key] == response
      case None => forall key :: !Documents(o, status, key)
    ensures forall key, other | Documents(o, status, key) && Documents(o, status, other) :: key == other
  {
    hide IsDecimal, IsClass, StatusText;
    forall key ensures IsDecimal(key, status) <==> key == StatusText(status) { DecimalIff(key, status); }
    forall key ensures IsClass(key, status) <==> key == StatusText(status / 100) + "XX" { ClassIff(key, status); }
    if DocumentedResponse(o, status).Some? {
      var exact, wildcard := StatusText(status), StatusText(status / 100) + "XX";
      assert Documents(o, status, if exact in o.responses then exact else if wildcard in o.responses then wildcard
                                  else "default");
    }
  }

  ghost predicate Fits(contract: Contract, h: Handler, i: nat, key: string) {
    && Routed(contract.operations, i, h)
    && Documents(contract.operations[i], h.response.status, key)
    && (h.response.jsonBody == Null || contract.operations[i].responses[key].accepts(h.response.jsonBody))
  }

  ghost predicate FitsContract(contract: Contract, h: Handler) { exists i, key :: Fits(contract, h, i, key) }

  /** A handler fits, or has exactly one of three faults. */
  ghost predicate AtFault(contract: Contract, h: Handler, error: Error) {
    match error
    case NoOperation(name) => name == h.name && forall o | o in contract.operations :: !Routes(o, h)
    case Undocumented(status) =>
      && status == h.response.status
      && exists i :: RoutedBare(contract.operations, i, h, status)
    case BodyMismatch(name) => name == h.name && exists i, key :: Mismatch(contract, h, i, key)
    case _ => false
  }

  ghost predicate RoutedBare(operations: seq<Operation>, i: nat, h: Handler, status: int) {
    Routed(operations, i, h) && forall key :: !Documents(operations[i], status, key)
  }

  ghost predicate Mismatch(contract: Contract, h: Handler, i: nat, key: string) {
    && Routed(contract.operations, i, h)
    && Documents(contract.operations[i], h.response.status, key)
    && h.response.jsonBody != Null
    && !contract.operations[i].responses[key].accepts(h.response.jsonBody)
  }

  lemma {:induction false} RoutedIff(operations: seq<Operation>, h: Handler)
    ensures match MatchingOperation(operations, h)
      case Some(o) => exists i: nat :: Routed(operations, i, h) && operations[i] == o
      case None => forall o | o in operations :: !Routes(o, h)
  {
    if operations != [] {
      if Routes(operations[0], h) {
        assert Routed(operations, 0, h);
      } else {
        RoutedIff(operations[1..], h);
        if MatchingOperation(operations[1..], h).Some? {
          var rest := operations[1..];
          var i: nat :| Routed(rest, i, h) && rest[i] == MatchingOperation(rest, h).value;
          assert forall j: nat | 0 < j <= i :: operations[j] == rest[j - 1];
          assert Routed(operations, i + 1, h);
        }
      }
    }
  }

  lemma HandlerErrorMeans(contract: Contract, h: Handler)
    ensures match HandlerError(contract, h)
      case None => FitsContract(contract, h)
      case Some(error) => AtFault(contract, h, error)
    ensures HandlerError(contract, h) == None <==> FitsContract(contract, h)
  {
    hide Documents, MatchingOperation, DocumentedResponse, Routes;
    var os, status := contract.operations, h.response.status;
    RoutedIff(os, h);
    if MatchingOperation(os, h).Some? {
      var i: nat :| Routed(os, i, h) && os[i] == MatchingOperation(os, h).value;
      forall k: nat | Routed(os, k, h) ensures k == i { assert !(k < i) && !(i < k); }
      DocumentedIff(os[i], status);
      match DocumentedResponse(os[i], status)
      case None =>
        assert RoutedBare(os, i, h, status);
      case Some(response) =>
        var key :| key in os[i].responses && Documents(os[i], status, key) && os[i].responses[key] == response;
        assert HandlerError(contract, h) == None ==> Fits(contract, h, i, key);
        assert HandlerError(contract, h) != None ==> Mismatch(contract, h, i, key);
    }
  }

  // ------------------------------------------------------------- a definition

  /** Two handlers of a state that the check cannot tell apart. */
  ghost predicate SameTrigger(g: Handler, h: Handler) {
    g.request.verb == h.request.verb && g.request.path == h.request.path && g.request.jsonBody == h.request.jsonBody
  }

  ghost predicate StateAcceptable(contract: Contract, s: State) {
    && (forall h | h in s.handlers :: FitsContract(contract, h))
    && forall i, j | 0 <= i < j < |s.handlers| :: !SameTrigger(s.handlers[i], s.handlers[j])
  }

  ghost predicate Acceptable(contract: Contract, d: Definition) {
    contract.size(d) <= 1_000_000 && forall s | s in d.states :: StateAcceptable(contract, s)
  }

  lemma StateAcceptableIff(contract: Contract, s: State)
    ensures StateFits(contract, s) <==> StateAcceptable(contract, s)
  {
    hide HandlerError, FitsContract;
    forall h ensures HandlerError(contract, h) == None <==> FitsContract(contract, h) {
      HandlerErrorMeans(contract, h);
    }
    if StateFits(contract, s) {
      forall i, j | 0 <= i < j < |s.handlers| ensures !SameTrigger(s.handlers[i], s.handlers[j]) {
        assert TriggerOf(s.handlers[i]) != TriggerOf(s.handlers[j]);
      }
    }
    if StateAcceptable(contract, s) {
      forall i, j | 0 <= i < j < |s.handlers| ensures TriggerOf(s.handlers[i]) != TriggerOf(s.handlers[j]) {
        assert !SameTrigger(s.handlers[i], s.handlers[j]);
      }
    }
  }

  /** The check accepts exactly the definitions within size whose handlers all fit the
      contract and can be told apart. */
  lemma AcceptedIff(contract: Contract, d: Definition)
    ensures Accepted(contract, d) <==> Acceptable(contract, d)
  {
    hide StateFits, StateAcceptable;
    forall s ensures StateFits(contract, s) <==> StateAcceptable(contract, s) {
      StateAcceptableIff(contract, s);
    }
  }
}
