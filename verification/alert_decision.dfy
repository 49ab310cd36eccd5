/** The minute, percentage and verdict arithmetic `main` applies to a
    successful route summary (commute_check.py:116-128). */
module AlertDecision {
  import opened RouteSummary

  /** The two configured thresholds: a delay in whole minutes and a delay
      as a percentage of the no-traffic time. */
  datatype Thresholds = Thresholds(minutes: int, percent: real)

  /** The values used when DELAY_THRESHOLD_MIN / DELAY_THRESHOLD_PCT are unset. */
  const DefaultThresholds := Thresholds(15, 30.0)

  /** What `main` reports for a summary, with its verdict. */
  datatype Report = Report(travelMin: int, noTrafficMin: int, delayMin: int, delayPct: real, alert: bool)

  /** `math.ceil(sec / 60)`: the least whole number of minutes covering `sec`. */
  function CeilMinutes(sec: int): (m: int)
    ensures (m - 1) * 60 < sec <= m * 60
  {
    -((-sec) / 60)
  }

  /** Any number of minutes bracketing `sec` as `CeilMinutes` does is it. */
  lemma CeilMinutesUnique(sec: int, m: int)
    requires (m - 1) * 60 < sec <= m * 60
    ensures m == CeilMinutes(sec)
  {
  }

  /** `math.ceil(delay / 60) if delay > 0 else 0`. */
  function DelayMinutes(delaySec: int): (m: int)
    ensures m >= 0
    ensures m == 0 <==> delaySec <= 0
    ensures delaySec > 0 ==> (m - 1) * 60 < delaySec <= m * 60
  {
    if delaySec > 0 then CeilMinutes(delaySec) else 0
  }

  /** For a non-negative delay, reaching a minute threshold is a strict
      bound on the delay in seconds. */
  lemma DelayMinutesAtLeast(delaySec: int, threshold: int)
    requires delaySec >= 0
    ensures DelayMinutes(delaySec) >= threshold <==> delaySec > 60 * (threshold - 1)
  {
  }

  /** `(delay / no_traffic) * 100.0 if no_traffic else 0.0`, in exact arithmetic. */
  function DelayPercent(delaySec: int, noTrafficSec: int): (p: real)
    ensures noTrafficSec == 0 ==> p == 0.0
    ensures noTrafficSec != 0 ==> p * noTrafficSec as real == 100.0 * delaySec as real
  {
    if noTrafficSec != 0 then (delaySec as real / noTrafficSec as real) * 100.0 else 0.0
  }

  /** With a positive no-traffic time, the percentage test is the
      cross-multiplied integer-scaled test. */
  lemma PercentAtLeast(delaySec: int, noTrafficSec: int, threshold: real)
    requires noTrafficSec > 0
    ensures DelayPercent(delaySec, noTrafficSec) >= threshold
        <==> 100.0 * delaySec as real >= threshold * noTrafficSec as real
  {
  }

  /** The alert verdict: either threshold alone is enough. On a sane
      summary it is the same test stated in seconds. */
  function Verdict(delaySec: int, noTrafficSec: int, t: Thresholds): (bad: bool)
    ensures delaySec >= 0 && noTrafficSec > 0 ==>
      (bad <==> delaySec > 60 * (t.minutes - 1)
                || 100.0 * delaySec as real >= t.percent * noTrafficSec as real)
  {
    DelayMinutes(delaySec) >= t.minutes || DelayPercent(delaySec, noTrafficSec) >= t.percent
  }

  /** For fixed thresholds and no-traffic time, a longer delay never turns
      an alert off. */
  lemma VerdictMonotone(d1: int, d2: int, noTrafficSec: int, t: Thresholds)
    requires 0 <= d1 <= d2 && noTrafficSec > 0
    requires Verdict(d1, noTrafficSec, t)
    ensures Verdict(d2, noTrafficSec, t)
  {
  }

  /** The report `main` prints for a successful summary, and its verdict. */
  function Decide(s: Summary, t: Thresholds): (r: Report)
    requires s.Ok?
    ensures (r.travelMin - 1) * 60 < s.travelSec <= r.travelMin * 60
    ensures (r.noTrafficMin - 1) * 60 < s.noTrafficSec <= r.noTrafficMin * 60
    ensures r.delayMin == 0 <==> s.delaySec <= 0
    ensures s.delaySec > 0 ==> (r.delayMin - 1) * 60 < s.delaySec <= r.delayMin * 60
    ensures s.noTrafficSec > 0 ==> r.delayPct * s.noTrafficSec as real == 100.0 * s.delaySec as real
    ensures WellFormed(s) ==>
      (r.alert <==> s.delaySec > 60 * (t.minutes - 1)
                    || 100.0 * s.delaySec as real >= t.percent * s.noTrafficSec as real)
  {
    Report(CeilMinutes(s.travelSec), CeilMinutes(s.noTrafficSec), DelayMinutes(s.delaySec),
           DelayPercent(s.delaySec, s.noTrafficSec), Verdict(s.delaySec, s.noTrafficSec, t))
  }

  /** A 30-minute trip that takes 20 minutes without traffic is 10 minutes
      (50%) late: the default percentage threshold alone raises the alert. */
  lemma PercentAloneAlerts()
    ensures Decide(Ok(1800, 1200, 600), DefaultThresholds) == Report(30, 20, 10, 50.0, true)
  {
  }

  /** A 115-minute trip that takes 100 minutes without traffic is 15 minutes
      (15%) late: the default minute threshold alone raises the alert. */
  lemma MinutesAloneAlert()
    ensures Decide(Ok(6900, 6000, 900), DefaultThresholds) == Report(115, 100, 15, 15.0, true)
  {
  }
}
