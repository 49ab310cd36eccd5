# commute-alert, modelled in Dafny

`commute_check.py` asks a routing provider (TomTom) how long a commute takes
with and without traffic, decides whether the delay is bad enough to
report, and sends at most one email alert per day through Mailjet, keeping
the date of the last alert in a marker file. This project models its
decision logic as pure functions over immutable data:

- `wrappers.dfy` — `Option`, for the JSON fields, environment variables and
  marker file that may be absent.
- `route_summary.dfy` (module `RouteSummary`) — the normalisation of a decoded
  routing response into either a tagged failure ("No routes returned",
  "Invalid travel time in response") or a sane `Ok(travelSec, noTrafficSec,
  delaySec)`.
- `alert_decision.dfy` (module `AlertDecision`) — ceiling minutes, the delay
  percentage in exact arithmetic, and the either/or threshold verdict.
- `dedupe.dfy` (module `Dedupe`) — the marker store (`None` when the file
  does not exist), Python's `str.strip()`, the "already alerted today" test
  and the overwriting mark.
- `run.dfy` (module `Run`) — `main` as a function from the environment, the
  thresholds, the routing reply, the Mailjet status, the marker and today's
  key to an outcome: exit code or uncaught exception, whether each provider
  was called, and the marker left behind; and a day of repeated runs.

The default delay is computed before the no-traffic fallback. At
commute_check.py:36, `no_traffic or travel` falls back to the travel time
only when the raw no-traffic value is 0. This runs before the substitution
at :40-41. A negative no-traffic time is therefore used as it is, and the
delay becomes `travel - no_traffic`, which is larger than the travel time
(`RouteSummary.NegativeNoTrafficInflatesDelay`).

## Model

| member | source | states |
|---|---|---|
| RouteSummary.Normalise | commute_check.py:29-48 | the result is always a fixed-reason failure or a sane summary; "No routes returned" exactly when routes are absent or empty; "Invalid travel time in response" exactly when the first route's travel time is missing or not positive; on success the travel time is the provider's, the no-traffic time falls back to it when not positive, a supplied delay is clamped at 0, an omitted one is `max(0, travel - no_traffic)` for positive, 0 for missing or zero, and `travel - no_traffic` for negative no-traffic values |
| RouteSummary.OmittedDelayIsGap | commute_check.py:36-47 | with `0 < no_traffic <= travel` and no delay field, the delay is exactly travel minus no-traffic |
| RouteSummary.MissingSummaryIsInvalid | commute_check.py:33-39 | a first route without a summary is read as `{}` and fails with "Invalid travel time in response" |
| RouteSummary.OnlyFirstRouteMatters | commute_check.py:33 | routes after the first never change the result |
| RouteSummary.NegativeNoTrafficInflatesDelay | commute_check.py:35-41 | a negative no-traffic time with no delay field gives no-traffic = travel and a delay of `travel - no_traffic`, larger than the travel time |
| AlertDecision.CeilMinutes | commute_check.py:116-117 | the result `m` is the ceiling of seconds over 60: `(m-1)*60 < sec <= m*60` |
| AlertDecision.CeilMinutesUnique | commute_check.py:116-117 | that bracket determines the minute count uniquely |
| AlertDecision.DelayMinutes | commute_check.py:118 | delay minutes are never negative, are 0 exactly when the delay is not positive, and otherwise are the ceiling of the delay over 60 |
| AlertDecision.DelayMinutesAtLeast | commute_check.py:118-128 | for a non-negative delay, `delay_min >= T` holds exactly when `delay_sec > 60*(T-1)` |
| AlertDecision.DelayPercent | commute_check.py:119 | the percentage is 0 when the no-traffic time is 0, and otherwise times the no-traffic time equals 100 times the delay |
| AlertDecision.PercentAtLeast | commute_check.py:119-128 | for a positive no-traffic time, `pct >= P` holds exactly when `100*delay >= P*no_traffic` |
| AlertDecision.Verdict | commute_check.py:128 | on a non-negative delay and positive no-traffic time, the verdict holds exactly when the delay exceeds `60*(min_threshold-1)` seconds or `100*delay >= pct_threshold*no_traffic`, so either test alone raises it |
| AlertDecision.VerdictMonotone | commute_check.py:118-128 | for fixed thresholds and no-traffic time, a longer delay keeps an alert raised |
| AlertDecision.Decide | commute_check.py:116-128 | the report's travel and no-traffic minutes are ceilings of the seconds; its delay minutes are 0 exactly for a non-positive delay and the ceiling otherwise; its percentage times the no-traffic time is 100 times the delay; on a sane summary the alert is the seconds-level either/or test |
| AlertDecision.PercentAloneAlerts | commute_check.py:104-128 | with the default thresholds (15 min, 30%), 1800 s with traffic, 1200 s without and a 600 s delay report 30, 20, 10 min and 50%, and alert on the percentage alone |
| AlertDecision.MinutesAloneAlert | commute_check.py:104-128 | with the default thresholds, a 6900 s trip (115 min) that takes 6000 s without traffic is 900 s (15 min, 15%) late and alerts on the 15-minute test alone |
| Dedupe.Strip | commute_check.py:80 | the stripped text is the slice of the input between its leading and trailing whitespace runs, with no whitespace at either end; it equals the input when the input has none, and is empty exactly when the input is all whitespace |
| Dedupe.StripIsKeyIff | commute_check.py:80 | stripping gives `k` exactly when `k` has no outer whitespace and the text is `k` padded with whitespace on either side |
| Dedupe.AlreadyAlerted | commute_check.py:74-80 | a missing marker file is never "already alerted"; stored text reads as alerted exactly when today's key has no outer whitespace and the text is that key padded with whitespace, so for stored text without outer whitespace the test is plain equality |
| Dedupe.PaddedMarkerReadsAsAlerted | commute_check.py:79-80 | a marker holding a date key followed by a newline, or surrounded by a space and CRLF, reads as alerted for that key |
| Dedupe.Mark | commute_check.py:83-87 | after marking, a key reads as already alerted exactly when it equals the marked key stripped of outer whitespace |
| Dedupe.MarkOverwrites | commute_check.py:83-87 | the marker after marking does not depend on what was stored before, and marking twice equals marking once |
| Dedupe.MarkThenCheck | commute_check.py:74-87 | after `mark(k)`, `check(k)` holds and `check(k')` fails for every `k' != k` |
| Dedupe.DateKeyIsTrimmed | commute_check.py:136 | a `YYYY-MM-DD` key has no outer whitespace, so it survives the strip on read-back |
| Run.MissingVars | commute_check.py:91-96 | every reported name is one of the names asked about and is unset or empty, every unset or empty name is reported, and no more names than asked about are reported |
| Run.NothingMissingIffAllSet | commute_check.py:96-97 | nothing is reported missing exactly when every name is set and non-empty |
| Run.Main | commute_check.py:90-163 | exit code 2 exactly when a required variable is unset or empty, and then nothing is fetched or sent and the marker is unchanged; every other returned code is 0; the routing provider is called exactly when all required variables are set; a routing HTTP error is raised exactly when it occurs after configuration passes; a send is attempted exactly when the summary is ok, the verdict is true, today is not yet marked and all four Mailjet values are set; the marker changes only after a send with status below 400, and then holds today's key; the run raises a Mailjet error exactly when a send is attempted and its status is 400 or more |
| Run.SameDayRerunDoesNotSend | commute_check.py:135-161 | after a run delivers an alert, the next run on the same day does not attempt a send, whatever its conditions |
| Run.MarkedDayDeliversNothing | commute_check.py:135-140 | once the marker holds today's key, no run in any sequence of runs that day attempts a send, so none delivers |
| Run.AtMostOneDeliveryPerDay | commute_check.py:135-161 | over any sequence of runs sharing a date key, at most one alert is delivered |

## Left out

- The HTTP calls, URL and query construction, the Mailjet payload and the timeouts (commute_check.py:15-27, 51-69): the routing reply and the Mailjet status are inputs.
- Transport failures other than an HTTP error status (timeouts, refused connections, a routing body that is not JSON): these would also end the run with an exception. The model has one routing fault (`Run.Fetch.HttpError`) and takes the Mailjet status as an input.
- `int()` / `float()` conversion of JSON values and environment strings (commute_check.py:34-36, 101-105): fields are optional integers, so a `null`, non-numeric or fractional field, and an unparsable threshold or coordinate, are not modelled. Coordinates play no part in the logic.
- Parsing of DELAY_THRESHOLD_MIN / DELAY_THRESHOLD_PCT: thresholds are given to a run directly; their defaults are `AlertDecision.DefaultThresholds`.
- The `raw` field of a failed summary: nothing reads it.
- File-system work (`os.makedirs`, `open`, UTF-8 decoding, the STATE_DIR path) and its errors (commute_check.py:75-87): the marker file is an `Option<string>` store.
- `datetime.now().strftime("%Y-%m-%d")` (commute_check.py:136): today's key is an input; time zones are not modelled.
- AlertDecision.DelayPercent: computed in exact real arithmetic, not IEEE doubles, so a verdict that floating-point rounding would flip at exactly the percentage threshold is not modelled; `math.ceil` of a float quotient is likewise taken as exact.
- All printed text and the `:.0f` formatting (commute_check.py:98, 109, 121-126, 130-162).
