/** Behaviour profiles: the rewriting of a bundle's mapping dictionaries. */
module Profiles {
  import opened Wrappers
  import opened Json
  import opened Translation

  const STARTED_STATE := "Started"
  const DEGRADED := "DEGRADED"

  function IntermittentName(sim: string): string { "SimuLoom intermittent - " + sim }

  function Tagged(w: WireMapping, profile: string): WireMapping {
    w.(metadata := w.metadata["simuloomProfile" := Json.Text(profile)])
  }

  function FailureResponse(status: int, retryAfter: string, profile: string, code: string,
                           message: string): WireResponse {
    WireResponse(
      Some(status),
      map["Content-Type" := "application/json", "Retry-After" := retryAfter, "X-SimuLoom-Profile" := profile],
      Some(Encoded(Object(map["code" := Json.Text(code), "message" := Json.Text(message), "synthetic" := Bool(true)]))),
      None,
      None)
  }

  function UnavailableResponse(status: int): WireResponse {
    FailureResponse(status, "5", "unavailable", "SIMULATED_DEPENDENCY_UNAVAILABLE",
      "SimuLoom intentionally made this dependency unavailable")
  }

  function IntermittentResponse(status: int): WireResponse {
    FailureResponse(status, "1", "intermittent", "SIMULATED_INTERMITTENT_FAILURE",
      "This deterministic failure alternates with the normal response")
  }

  function Slowed(w: WireMapping, delay: int): WireMapping {
    Tagged(w.(response := w.response.(fixedDelayMilliseconds := Some(delay))), "slow")
  }

  function Unavailable(w: WireMapping, status: int): WireMapping {
    Tagged(w.(response := UnavailableResponse(status)), "unavailable")
  }

  function SuccessCopy(w: WireMapping, sim: string): WireMapping {
    Tagged(
      w.(scenarioName := Some(IntermittentName(sim)),
         requiredScenarioState := Some(STARTED_STATE),
         newScenarioState := Some(DEGRADED)),
      "intermittent")
  }

  function FailureCopy(w: WireMapping, sim: string, status: int): WireMapping {
    Tagged(
      w.(name := Some(w.name.GetOr("SimuLoom mapping") + " - intermittent failure"),
         scenarioName := Some(IntermittentName(sim)),
         requiredScenarioState := Some(DEGRADED),
         newScenarioState := Some(STARTED_STATE),
         response := IntermittentResponse(status)),
      "intermittent")
  }

  function Copies(w: WireMapping, sim: string, status: int): seq<WireMapping> {
    if w.scenarioName.Some? then [w] else [SuccessCopy(w, sim), FailureCopy(w, sim, status)]
  }

  function SlowBundle(ws: seq<WireMapping>, delay: int): (r: seq<WireMapping>)
    ensures |r| == |ws|
  {
    seq(|ws|, i requires 0 <= i < |ws| => Slowed(ws[i], delay))
  }

  function UnavailableBundle(ws: seq<WireMapping>, status: int): (r: seq<WireMapping>)
    ensures |r| == |ws|
  {
    seq(|ws|, i requires 0 <= i < |ws| => Unavailable(ws[i], status))
  }

  function IntermittentBundle(ws: seq<WireMapping>, sim: string, status: int): seq<WireMapping> {
    if ws == [] then [] else
      IntermittentBundle(ws[..|ws| - 1], sim, status) + Copies(ws[|ws| - 1], sim, status)
  }

  /** None for a profile that is not supported. */
  function Applied(ws: seq<WireMapping>, profile: string, sim: string, delay: int,
                   status: int): Option<seq<WireMapping>> {
    match profile
    case "normal" => Some(ws)
    case "slow" => Some(SlowBundle(ws, delay))
    case "unavailable" => Some(UnavailableBundle(ws, status))
    case "intermittent" => Some(IntermittentBundle(ws, sim, status))
    case _ => None
  }

  method ApplyBehaviorProfile(ws: seq<WireMapping>, profile: string, sim: string, delay: int, status: int)
    returns (rewritten: Option<seq<WireMapping>>)
    ensures rewritten == Applied(ws, profile, sim, delay, status)
  {
    if profile !in {"normal", "slow", "unavailable", "intermittent"} {
      return None;
    }
    if profile == "normal" {
      return Some(ws);
    }
    if profile == "slow" {
      var delayed := SlowLoop(ws, delay);
      return Some(delayed);
    }
    if profile == "unavailable" {
      var unavailable := UnavailableLoop(ws, status);
      return Some(unavailable);
    }
    var intermittent := IntermittentLoop(ws, sim, status);
    rewritten := Some(intermittent);
  }

  method SlowLoop(ws: seq<WireMapping>, delay: int) returns (delayed: seq<WireMapping>)
    ensures delayed == SlowBundle(ws, delay)
  {
    delayed := ws;
    for i := 0 to |ws|
      invariant |delayed| == |ws|
      invariant forall j | 0 <= j < |ws| :: delayed[j] == if j < i then Slowed(ws[j], delay) else ws[j]
    {
      delayed := delayed[i := delayed[i].(response := delayed[i].response.(fixedDelayMilliseconds := Some(delay)))];
      delayed := delayed[i := Tagged(delayed[i], "slow")];
    }
  }

  method UnavailableLoop(ws: seq<WireMapping>, status: int) returns (unavailable: seq<WireMapping>)
    ensures unavailable == UnavailableBundle(ws, status)
  {
    unavailable := ws;
    for i := 0 to |ws|
      invariant |unavailable| == |ws|
      invariant forall j | 0 <= j < |ws| :: unavailable[j] == if j < i then Unavailable(ws[j], status) else ws[j]
    {
      unavailable := unavailable[i := unavailable[i].(response := UnavailableResponse(status))];
      unavailable := unavailable[i := Tagged(unavailable[i], "unavailable")];
    }
  }

  method IntermittentLoop(ws: seq<WireMapping>, sim: string, status: int) returns (intermittent: seq<WireMapping>)
    ensures intermittent == IntermittentBundle(ws, sim, status)
  {
    intermittent := [];
    for i := 0 to |ws|
      invariant intermittent == IntermittentBundle(ws[..i], sim, status)
    {
      assert ws[..i + 1][..i] == ws[..i];
      var mapping := ws[i];
      if mapping.scenarioName.Some? {
        intermittent := intermittent + [mapping];
        continue;
      }
      var success := mapping.(scenarioName := Some(IntermittentName(sim)));
      success := success.(requiredScenarioState := Some(STARTED_STATE));
      success := success.(newScenarioState := Some(DEGRADED));
      success := Tagged(success, "intermittent");
      var failure := mapping.(name := Some(mapping.name.GetOr("SimuLoom mapping") + " - intermittent failure"));
      failure := failure.(scenarioName := Some(IntermittentName(sim)));
      failure := failure.(requiredScenarioState := Some(DEGRADED));
      failure := failure.(newScenarioState := Some(STARTED_STATE));
      failure := failure.(response := IntermittentResponse(status));
      failure := Tagged(failure, "intermittent");
      intermittent := intermittent + [success, failure];
    }
    assert ws[..|ws|] == ws;
  }
}
