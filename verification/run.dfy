/** One run of `main` (commute_check.py:90-163) as a function from its
    abstract inputs to its outcome. The routing call, the Mailjet call, the
    clock and the marker file are inputs. */
module Run {
  import opened Wrappers
  import opened RouteSummary
  import opened AlertDecision
  import opened Dedupe

  /** The process environment. */
  type Env = map<string, string>

  const RequiredVars: seq<string> :=
    ["TOMTOM_API_KEY", "COMMUTE_ORIGIN_LAT", "COMMUTE_ORIGIN_LNG", "COMMUTE_DEST_LAT", "COMMUTE_DEST_LNG"]

  const MailjetVars: seq<string> :=
    ["MJ_APIKEY_PUBLIC", "MJ_APIKEY_PRIVATE", "EMAIL_TO", "EMAIL_FROM"]

  /** `os.getenv(name)` is truthy: set and non-empty. */
  predicate IsSet(env: Env, name: string) {
    name in env && env[name] != ""
  }

  /** `[k for k in names if not os.getenv(k)]`. */
  function MissingVars(names: seq<string>, env: Env): (missing: seq<string>)
    ensures |missing| <= |names|
    ensures forall i :: 0 <= i < |missing| ==> missing[i] in names && !IsSet(env, missing[i])
    ensures forall i :: 0 <= i < |names| && !IsSet(env, names[i]) ==> names[i] in missing
  {
    if |names| == 0 then []
    else if IsSet(env, names[0]) then MissingVars(names[1..], env)
    else [names[0]] + MissingVars(names[1..], env)
  }

  /** Every name in `names` is set. */
  predicate AllSet(names: seq<string>, env: Env) {
    forall i :: 0 <= i < |names| ==> IsSet(env, names[i])
  }

  lemma NothingMissingIffAllSet(names: seq<string>, env: Env)
    ensures |MissingVars(names, env)| == 0 <==> AllSet(names, env)
  {
  }

  /** What the routing call gives back: a decoded body, or an HTTP error
      that `raise_for_status` turns into an exception. */
  datatype Fetch = Fetched(body: Response) | HttpError

  /** The Mailjet send raises for any status of 400 or more. */
  predicate SendAccepted(status: int) {
    status < 400
  }

  /** Everything a run depends on besides the marker and the date. */
  datatype Conditions = Conditions(
    env: Env,
    thresholds: Thresholds,
    fetch: Fetch,
    sendStatus: int)

  datatype Fault = RoutingHttpError | MailjetError(status: int)

  /** `main` returns an exit code or ends with an uncaught exception. */
  datatype Exit = Returned(code: int) | Raised(fault: Fault)

  /** How a run ended, whether it called the routing provider and the
      email provider, and the marker it leaves behind. */
  datatype Outcome = Outcome(exit: Exit, fetched: bool, sendAttempted: bool, store: Store)

  /** One run of `main` on day `todayKey`, starting from marker `store`. */
  function Main(c: Conditions, store: Store, todayKey: string): (o: Outcome)
    ensures o.exit == Returned(2) <==> !AllSet(RequiredVars, c.env)
    ensures o.exit == Returned(2) ==> !o.fetched && !o.sendAttempted && o.store == store
    ensures o.exit.Returned? ==> o.exit.code == 0 || o.exit.code == 2
    ensures o.fetched <==> AllSet(RequiredVars, c.env)
    ensures o.exit == Raised(RoutingHttpError) <==> AllSet(RequiredVars, c.env) && c.fetch.HttpError?
    ensures o.exit.Raised? && o.exit.fault.MailjetError? ==> o.sendAttempted && !SendAccepted(c.sendStatus)
    ensures o.exit == Raised(MailjetError(c.sendStatus)) <==> o.sendAttempted && !SendAccepted(c.sendStatus)
    ensures o.sendAttempted <==>
      && AllSet(RequiredVars, c.env)
      && c.fetch.Fetched?
      && Normalise(c.fetch.body).Ok?
      && Decide(Normalise(c.fetch.body), c.thresholds).alert
      && !AlreadyAlerted(store, todayKey)
      && AllSet(MailjetVars, c.env)
    ensures o.store == (if o.sendAttempted && SendAccepted(c.sendStatus) then Mark(store, todayKey) else store)
  {
    NothingMissingIffAllSet(RequiredVars, c.env);
    NothingMissingIffAllSet(MailjetVars, c.env);
    if |MissingVars(RequiredVars, c.env)| > 0 then
      Outcome(Returned(2), false, false, store)
    else match c.fetch
      case HttpError =>
        Outcome(Raised(RoutingHttpError), true, false, store)
      case Fetched(body) =>
        var summary := Normalise(body);
        if summary.Failed? then
          Outcome(Returned(0), true, false, store)
        else if !Decide(summary, c.thresholds).alert then
          Outcome(Returned(0), true, false, store)
        else if AlreadyAlerted(store, todayKey) then
          Outcome(Returned(0), true, false, store)
        else if |MissingVars(MailjetVars, c.env)| > 0 then
          Outcome(Returned(0), true, false, store)
        else if !SendAccepted(c.sendStatus) then
          Outcome(Raised(MailjetError(c.sendStatus)), true, true, store)
        else
          Outcome(Returned(0), true, true, Mark(store, todayKey))
  }

  /** A run that delivered an alert: it sent and did not raise. */
  predicate Delivered(o: Outcome) {
    o.sendAttempted && o.exit == Returned(0)
  }

  /** After an alert is delivered, no later run on the same day sends
      again, whatever its other conditions. */
  lemma SameDayRerunDoesNotSend(c1: Conditions, c2: Conditions, store: Store, todayKey: string)
    requires IsTrimmed(todayKey)
    requires Delivered(Main(c1, store, todayKey))
    ensures !Main(c2, Main(c1, store, todayKey).store, todayKey).sendAttempted
  {
  }

  /** The runs of one day in order, each reading the marker the previous
      one left. */
  function RunDay(runs: seq<Conditions>, store: Store, todayKey: string): seq<Outcome>
    decreases |runs|
  {
    if |runs| == 0 then []
    else
      var o := Main(runs[0], store, todayKey);
      [o] + RunDay(runs[1..], o.store, todayKey)
  }

  /** How many of the outcomes delivered an alert. */
  function Deliveries(outcomes: seq<Outcome>): nat
  {
    if |outcomes| == 0 then 0
    else (if Delivered(outcomes[0]) then 1 else 0) + Deliveries(outcomes[1..])
  }

  /** Once today is marked, no run of the day attempts a send, so none
      delivers, and the mark stays. */
  lemma {:induction false} MarkedDayDeliversNothing(runs: seq<Conditions>, store: Store, todayKey: string)
    requires store == Some(todayKey) && IsTrimmed(todayKey)
    ensures forall o :: o in RunDay(runs, store, todayKey) ==> !o.sendAttempted
    ensures Deliveries(RunDay(runs, store, todayKey)) == 0
    decreases |runs|
  {
    if |runs| > 0 {
      var o := Main(runs[0], store, todayKey);
      assert o.store == store;
      var rest := RunDay(runs[1..], store, todayKey);
      MarkedDayDeliversNothing(runs[1..], store, todayKey);
      assert RunDay(runs, store, todayKey) == [o] + rest;
      assert ([o] + rest)[1..] == rest;
      assert forall o' :: o' in [o] + rest ==> o' == o || o' in rest;
    }
  }

  /** However many times the check runs in a day, at most one alert email
      is delivered for that day's key. */
  lemma {:induction false} AtMostOneDeliveryPerDay(runs: seq<Conditions>, store: Store, todayKey: string)
    requires IsTrimmed(todayKey)
    ensures Deliveries(RunDay(runs, store, todayKey)) <= 1
    decreases |runs|
  {
    if |runs| > 0 {
      var o := Main(runs[0], store, todayKey);
      var rest := RunDay(runs[1..], o.store, todayKey);
      assert ([o] + rest)[1..] == rest;
      if Delivered(o) {
        MarkedDayDeliversNothing(runs[1..], o.store, todayKey);
      } else {
        AtMostOneDeliveryPerDay(runs[1..], o.store, todayKey);
      }
    }
  }
}
