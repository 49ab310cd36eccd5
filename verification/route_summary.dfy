/** Normalisation of a routing provider's answer into a route summary
    (`tomtom_route_summary` in commute_check.py, after the HTTP call). */
module RouteSummary {
  import opened Wrappers

  const NoRoutesReason: string := "No routes returned"
  const InvalidTravelReason: string := "Invalid travel time in response"

  /** The `summary` object of a route: each of the three fields may be absent. */
  datatype RawSummary = RawSummary(
    travelTime: Option<int>,
    noTrafficTime: Option<int>,
    trafficDelay: Option<int>)

  /** `{}`: what a missing (or empty) summary object becomes. */
  const EmptySummary := RawSummary(None, None, None)

  /** One element of `routes`; its `summary` may be absent. */
  datatype RawRoute = RawRoute(summary: Option<RawSummary>)

  /** The decoded response body; `routes` may be absent. */
  datatype Response = Response(routes: Option<seq<RawRoute>>)

  /** The normalised summary: a tagged failure or three second counts. */
  datatype Summary =
    | Failed(reason: string)
    | Ok(travelSec: int, noTrafficSec: int, delaySec: int)

  /** The output guarantee: a failure carries one of the two fixed reasons,
      a success carries numerically sane values. */
  predicate WellFormed(s: Summary) {
    match s
    case Failed(reason) => reason == NoRoutesReason || reason == InvalidTravelReason
    case Ok(travel, noTraffic, delay) => travel > 0 && noTraffic > 0 && delay >= 0
  }

  /** `data.get("routes") or []` is non-empty. */
  predicate HasRoutes(resp: Response) {
    resp.routes.Some? && |resp.routes.value| > 0
  }

  /** The summary of the first route, `{}` when it has none. */
  function FirstSummary(resp: Response): RawSummary
    requires HasRoutes(resp)
  {
    resp.routes.value[0].summary.GetOr(EmptySummary)
  }

  /** The travel and no-traffic times, with `summary.get(key, 0)`'s default
      of 0 for a missing field. */
  function RawTravel(s: RawSummary): int { s.travelTime.GetOr(0) }
  function RawNoTraffic(s: RawSummary): int { s.noTrafficTime.GetOr(0) }

  function Max0(x: int): int { if x > 0 then x else 0 }

  /** The route summary for a decoded response. The delay default is
      computed from the raw no-traffic value (`no_traffic or travel`, which
      falls back only when that value is 0) before the no-traffic fallback
      is applied; a provider-supplied delay is only clamped at 0. */
  function Normalise(resp: Response): (r: Summary)
    ensures WellFormed(r)
    ensures r == Failed(NoRoutesReason) <==> !HasRoutes(resp)
    ensures r == Failed(InvalidTravelReason) <==> HasRoutes(resp) && RawTravel(FirstSummary(resp)) <= 0
    ensures r.Ok? <==> HasRoutes(resp) && RawTravel(FirstSummary(resp)) > 0
    ensures r.Ok? ==>
      var s := FirstSummary(resp);
      && r.travelSec == RawTravel(s)
      && (RawNoTraffic(s) > 0 ==> r.noTrafficSec == RawNoTraffic(s))
      && (RawNoTraffic(s) <= 0 ==> r.noTrafficSec == r.travelSec)
      && (s.trafficDelay.Some? ==> r.delaySec == Max0(s.trafficDelay.value))
      && (s.trafficDelay.None? && RawNoTraffic(s) > 0 ==> r.delaySec == Max0(r.travelSec - RawNoTraffic(s)))
      && (s.trafficDelay.None? && RawNoTraffic(s) == 0 ==> r.delaySec == 0)
      && (s.trafficDelay.None? && RawNoTraffic(s) < 0 ==> r.delaySec == r.travelSec - RawNoTraffic(s))
  {
    if !HasRoutes(resp) then Failed(NoRoutesReason)
    else
      var s := FirstSummary(resp);
      var travel := RawTravel(s);
      var noTraffic := RawNoTraffic(s);
      var delay := s.trafficDelay.GetOr(Max0(travel - (if noTraffic != 0 then noTraffic else travel)));
      if travel <= 0 then Failed(InvalidTravelReason)
      else
        var noTraffic' := if noTraffic <= 0 then travel else noTraffic;
        Ok(travel, noTraffic', Max0(delay))
  }

  /** With a positive travel time and a positive no-traffic time no larger
      than it, an omitted delay is exactly the gap between the two. */
  lemma OmittedDelayIsGap(resp: Response)
    requires HasRoutes(resp)
    requires FirstSummary(resp).trafficDelay.None?
    requires 0 < RawNoTraffic(FirstSummary(resp)) <= RawTravel(FirstSummary(resp))
    ensures Normalise(resp).Ok?
    ensures Normalise(resp).delaySec == Normalise(resp).travelSec - Normalise(resp).noTrafficSec
  {
  }

  /** A route without a summary is read as `{}`, whose travel time is 0. */
  lemma MissingSummaryIsInvalid(resp: Response)
    requires HasRoutes(resp)
    requires resp.routes.value[0].summary.None?
    ensures Normalise(resp) == Failed(InvalidTravelReason)
  {
  }

  /** Only the first route is consulted. */
  lemma OnlyFirstRouteMatters(first: RawRoute, rest1: seq<RawRoute>, rest2: seq<RawRoute>)
    ensures Normalise(Response(Some([first] + rest1))) == Normalise(Response(Some([first] + rest2)))
  {
  }

  /** A negative no-traffic time is truthy in `no_traffic or travel`, so the
      default delay is measured from it and not from the substituted travel
      time: the reported delay then exceeds the reported travel time. */
  lemma NegativeNoTrafficInflatesDelay(travel: int, noTraffic: int)
    requires travel > 0 && noTraffic < 0
    ensures var r := Normalise(Response(Some([RawRoute(Some(RawSummary(Some(travel), Some(noTraffic), None)))])));
      && r.Ok?
      && r.noTrafficSec == travel
      && r.delaySec == travel - noTraffic
      && r.delaySec > r.travelSec
  {
  }
}
