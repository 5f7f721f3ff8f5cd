/** How large a definition may be: exactly which sizes, waits, statuses, delays and verbs a
    definition of otherwise free shape may have. */
module DefinitionLimits {
  import opened Wrappers
  import opened Json
  import opened RuntimeModel
  import opened Scenario

  function Numbered(i: nat): (name: string)
    ensures |name| == i + 1
  {
    seq(i + 1, _ => 'n')
  }

  /** Handlers alike but for their names. */
  function Copies(h: Handler, k: nat): (handlers: seq<Handler>)
    ensures |handlers| == k
  {
    seq(k, j requires 0 <= j < k => h.(name := Numbered(j)))
  }

  function Topics(target: string, t: nat): (events: seq<EventTransition>)
    ensures |events| == t
  {
    seq(t, j requires 0 <= j < t => EventTransition(Numbered(j), target))
  }

  /** `m` states of `k` handlers and `t` topics, all leading back to the first state. */
  function Grid(m: nat, k: nat, t: nat, wait: nat, h: Handler): Definition {
    var first := Numbered(0);
    Definition("grid", "grid", first,
      seq(m, i requires 0 <= i < m =>
        State(Numbered(i), Copies(h.(newState := Some(first)), k), Some(Timeout(wait, first)), Topics(first, t))),
      Some(first))
  }

  lemma {:induction false} GridTotal(states: seq<State>, k: nat)
    requires forall i | 0 <= i < |states| :: |states[i].handlers| == k
    ensures HandlerTotal(states) == |states| * k
    decreases |states|
  {
    if states != [] {
      GridTotal(states[..|states| - 1], k);
    }
  }

  predicate HandlerWithinLimits(h: Handler) {
    && h.request.verb in {"GET", "POST", "PUT", "PATCH", "DELETE", "HEAD", "OPTIONS"}
    && 100 <= h.response.status <= 599
    && 0 <= h.response.delayMs <= 60_000
  }

  lemma StateLimits(i: nat, k: nat, t: nat, wait: nat, h: Handler, known: set<string>)
    requires Numbered(0) in known
    ensures var first := Numbered(0);
      StateWellFormed(State(Numbered(i), Copies(h.(newState := Some(first)), k), Some(Timeout(wait, first)),
                            Topics(first, t)), known)
      <==> 1 <= k <= 50 && t <= 50 && 1 <= wait <= 86_400_000 && HandlerWithinLimits(h)
  {
    var handlers := Copies(h.(newState := Some(Numbered(0))), k);
    if k > 0 {
      assert handlers[0].request == h.request && handlers[0].response == h.response;
    }
  }

  /** A grid is well formed exactly within these limits. */
  lemma LimitsIff(m: nat, k: nat, t: nat, wait: nat, h: Handler)
    ensures WellFormed(Grid(m, k, t, wait, h)) <==>
      && 1 <= m <= 50 && 1 <= k <= 50 && m * k <= 200 && t <= 50
      && 1 <= wait <= 86_400_000
      && HandlerWithinLimits(h)
  {
    hide StateWellFormed, HandlerWithinLimits;
    var d := Grid(m, k, t, wait, h);
    GridTotal(d.states, k);
    if m > 0 {
      assert d.states[0].name == Numbered(0);
    }
    forall i: nat | i < m
      ensures Numbered(0) in StateNames(d) && (StateWellFormed(d.states[i], StateNames(d))
        <==> 1 <= k <= 50 && t <= 50 && 1 <= wait <= 86_400_000 && HandlerWithinLimits(h))
    {
      StateLimits(i, k, t, wait, h, StateNames(d));
    }
  }
}
