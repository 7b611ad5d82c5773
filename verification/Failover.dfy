/**
 * The candidate loop of the router, buffered and streaming: routes are tried in order, each
 * skipped, attempted or refused, under a circuit breaker that other requests report to while
 * an attempt is awaited.
 */
module Failover {
  import opened Prelude
  import opened Selection
  import Sorting
  import CB = CircuitBreaker

  datatype Provider = Provider(id: string, enabled: bool)

  /**
   * How one attempt ends. Only a stream can break after its response was committed or be
   * abandoned by its consumer; a buffered response that breaks has failed, and one nobody
   * waits for is answered all the same.
   */
  datatype Outcome =
    | Answered
    | Failed(code: Option<string>, aborted: bool)
    | BrokeMidStream(code: Option<string>)
    | Abandoned

  /**
   * What the loop finds when it reaches one route: the provider now registered, whether its
   * model is free now, how an attempt would end, and what other requests report meanwhile.
   */
  datatype Moment = Moment(
    provider: Option<Provider>,
    free: bool,
    askedAt: int,
    meanwhile: seq<CB.Event>,
    outcome: Outcome,
    reportedAt: int)

  datatype Mode = Direct | Combo | Failover

  datatype Telemetry =
    | ProviderFailed(route: string, category: string, mode: Mode, attempts: nat)
    | FailoverStarted(route: string, mode: Mode, attempts: nat)
    | ProviderAttempted(route: string, mode: Mode, attempts: nat)
    | RequestCompleted(route: string, mode: Mode, attempts: nat)
    | RequestFailed(category: string, mode: Mode, attempts: nat)

  datatype Error =
    | Select(reason: SelectError)
    | NoFreeRoute
    | Upstream(code: Option<string>)
    | AllRoutesFailed(skipped: nat)

  datatype End = Won(route: Route, attempts: nat) | Threw(error: Error) | Left

  /** Failures another provider may legitimately survive. */
  predicate IsFailoverCode(code: Option<string>) {
    code.Some? && code.value in {"unreachable", "rate_limited", "upstream_error"}
  }

  function Category(code: Option<string>): string {
    if code.Some? then code.value else "unknown_error"
  }

  datatype Verdict =
    | Skip
    | NotFree
    | Win
    | FailOver(code: Option<string>)
    | Fatal(code: Option<string>)
    | Broken(code: Option<string>)
    | Quit

  // ---- from the verdicts on the routes to the end of the request -----------------------------

  predicate Attempted(v: Verdict) {
    !v.Skip? && !v.NotFree?
  }

  /** The loop goes on only past a skipped route or a failover. */
  predicate Decisive(v: Verdict) {
    !v.Skip? && !v.FailOver?
  }

  /** The first verdict, from `i` on, that decides the request; the number of verdicts when none does. */
  function Deciding(vs: seq<Verdict>, i: nat): (k: nat)
    requires i <= |vs|
    ensures i <= k <= |vs|
    ensures forall j :: i <= j < k ==> !Decisive(vs[j])
    ensures k < |vs| ==> Decisive(vs[k])
    decreases |vs| - i
  {
    if i == |vs| || Decisive(vs[i]) then i else Deciding(vs, i + 1)
  }

  /** Attempts among the first `i` verdicts. */
  function Attempts(vs: seq<Verdict>, i: nat): nat
    requires i <= |vs|
  {
    if i == 0 then 0 else Attempts(vs, i - 1) + if Attempted(vs[i - 1]) then 1 else 0
  }

  function Skips(vs: seq<Verdict>, i: nat): nat
    requires i <= |vs|
  {
    if i == 0 then 0 else Skips(vs, i - 1) + if vs[i - 1].Skip? then 1 else 0
  }

  /** The most recent failure another route was tried after. */
  function LastFailure(vs: seq<Verdict>, i: nat): Option<Option<string>>
    requires i <= |vs|
  {
    if i == 0 then None
    else if vs[i - 1].FailOver? then Some(vs[i - 1].code)
    else LastFailure(vs, i - 1)
  }

  function BaseMode(n: nat): Mode {
    if n >= 2 then Combo else Direct
  }

  function ModeOf(n: nat, attempts: nat): Mode {
    if attempts > 1 then Failover else BaseMode(n)
  }

  /** The failure events of the first `i` routes, tried and passed over. */
  function LogPassed(ids: seq<string>, vs: seq<Verdict>, i: nat): seq<Telemetry>
    requires i <= |vs| == |ids|
  {
    if i == 0 then []
    else if vs[i - 1].FailOver? then
      var attempts := Attempts(vs, i);
      LogPassed(ids, vs, i - 1)
      + [ProviderFailed(ids[i - 1], Category(vs[i - 1].code), ModeOf(|vs|, attempts), attempts)]
    else LogPassed(ids, vs, i - 1)
  }

  /** What a deciding route emits, of `n` eligible ones and after `before` attempts at others. */
  function LogDecision(n: nat, id: string, v: Verdict, before: nat): seq<Telemetry> {
    var attempts := before + 1;
    var mode := ModeOf(n, attempts);
    var attempted := ProviderAttempted(id, mode, attempts);
    var started := if before > 0 then [FailoverStarted(id, mode, attempts), attempted] else [attempted];
    match v
    case NotFree => [RequestFailed("no_free_route", if before > 0 then Failover else BaseMode(n), before)]
    case Win => started + [RequestCompleted(id, mode, attempts)]
    case Fatal(code) =>
      [ProviderFailed(id, Category(code), mode, attempts), RequestFailed(Category(code), mode, attempts)]
    case Broken(code) => started + [RequestFailed(Category(code), mode, attempts)]
    case Quit => started
    case _ => []
  }

  function LogExhausted(vs: seq<Verdict>): seq<Telemetry> {
    var attempts := Attempts(vs, |vs|);
    match LastFailure(vs, |vs|)
    case Some(code) =>
      [RequestFailed(if code.Some? then code.value else "all_routes_failed", ModeOf(|vs|, attempts), attempts)]
    case None => [RequestFailed("all_routes_failed", BaseMode(|vs|), attempts)]
  }

  /** What the request emits when it is decided, or when it runs out of routes. */
  function LogLast(ids: seq<string>, vs: seq<Verdict>): seq<Telemetry>
    requires |ids| == |vs|
  {
    var k := Deciding(vs, 0);
    if k < |vs| then LogDecision(|vs|, ids[k], vs[k], Attempts(vs, k)) else LogExhausted(vs)
  }

  /** The telemetry of a whole request. */
  function Log(ids: seq<string>, vs: seq<Verdict>): seq<Telemetry>
    requires |ids| == |vs|
  {
    LogPassed(ids, vs, Deciding(vs, 0)) + LogLast(ids, vs)
  }

  /** How the request ends, said by its first deciding verdict. */
  function EndOf(routes: seq<Route>, vs: seq<Verdict>): End
    requires |routes| == |vs|
  {
    var k := Deciding(vs, 0);
    if k < |vs| then
      match vs[k]
      case Win => Won(routes[k], Attempts(vs, k) + 1)
      case NotFree => Threw(NoFreeRoute)
      case Fatal(code) => Threw(Upstream(code))
      case Broken(code) => Threw(Upstream(code))
      case _ => Left
    else
      match LastFailure(vs, k)
      case Some(code) => Threw(Upstream(code))
      case None => Threw(AllRoutesFailed(Skips(vs, k)))
  }

  lemma {:induction false} EveryRouteIsCounted(vs: seq<Verdict>, i: nat)
    requires i <= |vs| && forall j :: 0 <= j < i ==> !Decisive(vs[j])
    ensures Attempts(vs, i) + Skips(vs, i) == i
    ensures LastFailure(vs, i).None? <==> Skips(vs, i) == i
    ensures LastFailure(vs, i).None? <==> forall j :: 0 <= j < i ==> vs[j].Skip?
    ensures LastFailure(vs, i).Some? ==>
              exists j :: 0 <= j < i && vs[j] == FailOver(LastFailure(vs, i).value)
                          && forall l :: j < l < i ==> !vs[l].FailOver?
  {
    if i > 0 {
      EveryRouteIsCounted(vs, i - 1);
    }
  }

  /**
   * The first usable candidate wins: everything before it was skipped or failed over, and
   * nothing after it is tried.
   */
  lemma FirstUsableWins(routes: seq<Route>, vs: seq<Verdict>, k: nat)
    requires |routes| == |vs| && k < |vs|
    ensures Deciding(vs, 0) == k && EndOf(routes, vs) == Won(routes[k], Attempts(vs, k) + 1)
            <==> vs[k].Win? && forall j :: 0 <= j < k ==> vs[j].Skip? || vs[j].FailOver?
    ensures EndOf(routes, vs).Won? <==> Deciding(vs, 0) < |vs| && vs[Deciding(vs, 0)].Win?
  {
  }

  /**
   * All routes failed is thrown exactly when every eligible route was skipped, with all of
   * them counted. When the loop runs out after an attempt, attempts and skips together are
   * all of the routes and the code thrown is that of a failover.
   */
  lemma AllFailedMeansAllSkipped(routes: seq<Route>, vs: seq<Verdict>)
    requires |routes| == |vs|
    ensures EndOf(routes, vs) == Threw(AllRoutesFailed(|vs|)) <==> forall j :: 0 <= j < |vs| ==> vs[j].Skip?
    ensures EndOf(routes, vs).Threw? && EndOf(routes, vs).error.AllRoutesFailed? ==>
              EndOf(routes, vs).error.skipped == |vs| && Attempts(vs, |vs|) == 0
    ensures Deciding(vs, 0) == |vs| ==> Attempts(vs, |vs|) + Skips(vs, |vs|) == |vs|
    ensures Deciding(vs, 0) == |vs| && Attempts(vs, |vs|) > 0 ==>
              exists j :: 0 <= j < |vs| && vs[j].FailOver? && EndOf(routes, vs) == Threw(Upstream(vs[j].code))
                          && forall l :: j < l < |vs| ==> !vs[l].FailOver?
  {
    if Deciding(vs, 0) == |vs| {
      EveryRouteIsCounted(vs, |vs|);
    }
  }

  predicate IsTerminal(t: Telemetry) {
    t.RequestCompleted? || t.RequestFailed?
  }

  predicate IsAttempt(t: Telemetry) {
    t.ProviderAttempted? || t.ProviderFailed?
  }

  /** Attempt and failure events among the first `i` of a log. */
  function CountAttempts(log: seq<Telemetry>, i: nat): nat
    requires i <= |log|
  {
    if i == 0 then 0 else CountAttempts(log, i - 1) + if IsAttempt(log[i - 1]) then 1 else 0
  }

  lemma {:induction false} CountAttemptsConcat(a: seq<Telemetry>, b: seq<Telemetry>, i: nat)
    requires i <= |a| + |b|
    ensures CountAttempts(a + b, i)
            == if i <= |a| then CountAttempts(a, i) else CountAttempts(a, |a|) + CountAttempts(b, i - |a|)
  {
    if i > 0 {
      CountAttemptsConcat(a, b, i - 1);
    }
  }

  lemma {:induction false} PassedIsAttempts(ids: seq<string>, vs: seq<Verdict>, i: nat)
    requires i <= |vs| == |ids| && forall j :: 0 <= j < i ==> !Decisive(vs[j])
    ensures CountAttempts(LogPassed(ids, vs, i), |LogPassed(ids, vs, i)|) == Attempts(vs, i)
    ensures forall j :: 0 <= j < |LogPassed(ids, vs, i)| ==> !IsTerminal(LogPassed(ids, vs, i)[j])
  {
    if i > 0 {
      PassedIsAttempts(ids, vs, i - 1);
      if vs[i - 1].FailOver? {
        var earlier, log := LogPassed(ids, vs, i - 1), LogPassed(ids, vs, i);
        CountAttemptsConcat(earlier, [log[|earlier|]], |earlier|);
        assert log == earlier + [log[|earlier|]];
      }
    }
  }

  /** The last part of a log: at most one attempt, and its terminal event at the end. */
  ghost predicate Closes(tail: seq<Telemetry>, attempts: nat, terminal: bool, completed: bool) {
    && 0 < |tail| <= 3
    && (if IsAttempt(tail[0]) then 1 else 0) + (if |tail| > 1 && IsAttempt(tail[1]) then 1 else 0)
       + (if |tail| > 2 && IsAttempt(tail[2]) then 1 else 0) == attempts
    && (forall i :: 0 <= i < |tail| - 1 ==> !IsTerminal(tail[i]))
    && (IsTerminal(tail[|tail| - 1]) <==> terminal)
    && (tail[|tail| - 1].RequestCompleted? <==> completed)
  }

  lemma DecisionCloses(n: nat, id: string, v: Verdict, before: nat)
    requires Decisive(v)
    ensures Closes(LogDecision(n, id, v, before), if Attempted(v) then 1 else 0, v != Quit, v == Win)
  {
  }

  lemma LastCloses(ids: seq<string>, vs: seq<Verdict>)
    requires |ids| == |vs|
    ensures Closes(LogLast(ids, vs), TotalAttempts(vs) - Attempts(vs, Deciding(vs, 0)),
                   Decision(vs) != Some(Quit), Decision(vs) == Some(Win))
  {
    var k := Deciding(vs, 0);
    if k < |vs| {
      DecisionCloses(|vs|, ids[k], vs[k], Attempts(vs, k));
    }
  }

  /** The number of attempts a request made. */
  function TotalAttempts(vs: seq<Verdict>): (n: nat)
    ensures n >= Attempts(vs, Deciding(vs, 0))
  {
    var k := Deciding(vs, 0);
    Attempts(vs, k) + if k < |vs| && Attempted(vs[k]) then 1 else 0
  }

  /** The first deciding verdict, if there is one. */
  function Decision(vs: seq<Verdict>): Option<Verdict> {
    var k := Deciding(vs, 0);
    if k < |vs| then Some(vs[k]) else None
  }

  lemma EndIsDecided(routes: seq<Route>, vs: seq<Verdict>)
    requires |routes| == |vs|
    ensures EndOf(routes, vs) == Left <==> Decision(vs) == Some(Quit)
    ensures EndOf(routes, vs).Won? <==> Decision(vs) == Some(Win)
  {
  }

  /**
   * A request emits as many attempt and failure events as it made attempts. It emits one
   * terminal event and emits it last, unless its consumer walked away from a committed
   * stream, in which case it emits none.
   */
  lemma OneTerminalEventAndLast(routes: seq<Route>, ids: seq<string>, vs: seq<Verdict>)
    requires |routes| == |ids| == |vs|
    ensures var log := Log(ids, vs);
            && log != [] && CountAttempts(log, |log|) == TotalAttempts(vs)
            && (forall i :: 0 <= i < |log| - 1 ==> !IsTerminal(log[i]))
            && (IsTerminal(log[|log| - 1]) <==> EndOf(routes, vs) != Left)
            && (log[|log| - 1].RequestCompleted? <==> EndOf(routes, vs).Won?)
  {
    var k := Deciding(vs, 0);
    PassedIsAttempts(ids, vs, k);
    LastCloses(ids, vs);
    EndIsDecided(routes, vs);
    Concluded(LogPassed(ids, vs, k), LogLast(ids, vs), TotalAttempts(vs) - Attempts(vs, k),
              Decision(vs) != Some(Quit), Decision(vs) == Some(Win));
  }

  lemma Concluded(head: seq<Telemetry>, tail: seq<Telemetry>, attempts: nat, terminal: bool, completed: bool)
    requires Closes(tail, attempts, terminal, completed)
    requires forall i :: 0 <= i < |head| ==> !IsTerminal(head[i])
    ensures var log := head + tail;
            && log != [] && CountAttempts(log, |log|) == CountAttempts(head, |head|) + attempts
            && (forall i :: 0 <= i < |log| - 1 ==> !IsTerminal(log[i]))
            && (IsTerminal(log[|log| - 1]) <==> terminal)
            && (log[|log| - 1].RequestCompleted? <==> completed)
  {
    CountAttemptsConcat(head, tail, |head + tail|);
    assert CountAttempts(tail, |tail|) == attempts by {
      assert CountAttempts(tail, 1) == if IsAttempt(tail[0]) then 1 else 0;
    }
  }

  /** A request is in failover from its second attempt on, and before that direct when it has one route only. */
  predicate IsMode(routes: nat, attempts: nat, mode: Mode) {
    (mode == Failover <==> attempts > 1) && (mode == Direct <==> attempts <= 1 && routes < 2)
  }

  /** The attempt number, the mode and the neighbours an event has behind `before` attempts. */
  ghost predicate IsNumbered(log: seq<Telemetry>, p: nat, before: nat, routes: nat, notFree: bool)
    requires p < |log|
  {
    var t := log[p];
    && t.attempts == (if IsTerminal(t) then before else before + 1)
    && (if IsTerminal(t) && notFree then (t.mode == Failover <==> before > 0) else IsMode(routes, t.attempts, t.mode))
    && (t.FailoverStarted? ==> p + 1 < |log| && log[p + 1].ProviderAttempted? && log[p + 1].route == t.route)
    && (t.ProviderAttempted? ==> (before > 0 <==> p > 0 && log[p - 1].FailoverStarted?))
  }

  lemma {:induction false} PassedIsNumbered(ids: seq<string>, vs: seq<Verdict>, i: nat)
    requires i <= |vs| == |ids| && forall j :: 0 <= j < i ==> !Decisive(vs[j])
    ensures |LogPassed(ids, vs, i)| == Attempts(vs, i)
    ensures forall p :: 0 <= p < |LogPassed(ids, vs, i)| ==>
              LogPassed(ids, vs, i)[p].ProviderFailed? && IsNumbered(LogPassed(ids, vs, i), p, p, |vs|, false)
  {
    if i > 0 {
      PassedIsNumbered(ids, vs, i - 1);
    }
  }

  lemma {:induction false} FailuresCount(log: seq<Telemetry>, i: nat)
    requires i <= |log| && forall p :: 0 <= p < |log| ==> log[p].ProviderFailed?
    ensures CountAttempts(log, i) == i
  {
    if i > 0 {
      FailuresCount(log, i - 1);
    }
  }

  lemma DecisionIsNumbered(n: nat, id: string, v: Verdict, before: nat, q: nat)
    requires Decisive(v) && q < |LogDecision(n, id, v, before)|
    ensures var tail := LogDecision(n, id, v, before);
            IsNumbered(tail, q, before + CountAttempts(tail, q), n, v.NotFree?)
  {
    var tail := LogDecision(n, id, v, before);
    assert CountAttempts(tail, 0) == 0;
    assert q > 0 ==> CountAttempts(tail, 1) == if IsAttempt(tail[0]) then 1 else 0;
  }

  lemma LastIsNumbered(ids: seq<string>, vs: seq<Verdict>, q: nat)
    requires |ids| == |vs| && q < |LogLast(ids, vs)|
    ensures IsNumbered(LogLast(ids, vs), q, Attempts(vs, Deciding(vs, 0)) + CountAttempts(LogLast(ids, vs), q), |vs|,
                       Decision(vs) == Some(NotFree))
  {
    var k := Deciding(vs, 0);
    if k < |vs| {
      DecisionIsNumbered(|vs|, ids[k], vs[k], Attempts(vs, k), q);
    } else {
      EveryRouteIsCounted(vs, k);
      NoAttempts(vs, k);
    }
  }

  lemma {:induction false} NoAttempts(vs: seq<Verdict>, i: nat)
    requires i <= |vs| && forall j :: 0 <= j < i ==> !Decisive(vs[j])
    ensures LastFailure(vs, i).None? ==> Attempts(vs, i) == 0
  {
    if i > 0 {
      NoAttempts(vs, i - 1);
    }
  }

  lemma NumberedInFront(head: seq<Telemetry>, tail: seq<Telemetry>, p: nat, before: nat, routes: nat, notFree: bool)
    requires p < |head| && IsNumbered(head, p, before, routes, false) && head[p].ProviderFailed?
    ensures IsNumbered(head + tail, p, before, routes, notFree)
  {
  }

  lemma NumberedBehind(head: seq<Telemetry>, tail: seq<Telemetry>, q: nat, before: nat, routes: nat, notFree: bool)
    requires q < |tail| && IsNumbered(tail, q, before, routes, notFree)
    requires forall p :: 0 <= p < |head| ==> head[p].ProviderFailed?
    ensures IsNumbered(head + tail, |head| + q, before, routes, notFree)
  {
    var log := head + tail;
    assert log[|head| + q] == tail[q];
    assert q + 1 < |tail| ==> log[|head| + q + 1] == tail[q + 1];
    assert q > 0 ==> log[|head| + q - 1] == tail[q - 1];
  }

  /**
   * Every event of a request carries the number of the attempt it is about, or of the attempts
   * made when it is the last one, and the mode that goes with it; a takeover is announced exactly
   * in front of an attempt that succeeds another.
   */
  lemma LogIsNumbered(ids: seq<string>, vs: seq<Verdict>, p: nat)
    requires |ids| == |vs| && p < |Log(ids, vs)|
    ensures IsNumbered(Log(ids, vs), p, CountAttempts(Log(ids, vs), p), |vs|, Decision(vs) == Some(NotFree))
  {
    var k := Deciding(vs, 0);
    var head, tail := LogPassed(ids, vs, k), LogLast(ids, vs);
    PassedIsNumbered(ids, vs, k);
    FailuresCount(head, |head|);
    CountAttemptsConcat(head, tail, p);
    if p < |head| {
      FailuresCount(head, p);
      NumberedInFront(head, tail, p, p, |vs|, Decision(vs) == Some(NotFree));
    } else {
      var q := p - |head|;
      LastIsNumbered(ids, vs, q);
      NumberedBehind(head, tail, q, |head| + CountAttempts(tail, q), |vs|, Decision(vs) == Some(NotFree));
    }
  }

  function Ids(routes: seq<Route>): (ids: seq<string>)
    ensures |ids| == |routes|
  {
    seq(|routes|, i requires 0 <= i < |routes| => routes[i].id)
  }

  /** The failure an operator reads of an error. */
  function Reason(error: Error): string {
    match error
    case NoFreeRoute => "no_free_route"
    case AllRoutesFailed(_) => "all_routes_failed"
    case Upstream(code) => CodeName(code)
    case Select(_) => "no_route"
  }

  function CodeName(code: Option<string>): string {
    match code
    case Some(name) => name
    case None => "unknown_error"
  }

  /** The last event tells how the request ended: who won it after how many attempts, or why it failed. */
  lemma LastEventTellsTheEnd(routes: seq<Route>, vs: seq<Verdict>)
    requires |routes| == |vs| && EndOf(routes, vs) != Left
    requires forall i :: 0 <= i < |vs| && vs[i].FailOver? ==> vs[i].code.Some?
    ensures var log := Log(Ids(routes), vs);
            && log != []
            && match EndOf(routes, vs)
               case Won(route, attempts) =>
                 && log[|log| - 1].RequestCompleted? && log[|log| - 1].route == route.id
                 && log[|log| - 1].attempts == attempts
               case Threw(error) => log[|log| - 1].RequestFailed? && log[|log| - 1].category == Reason(error)
               case Left => true
  {
    var k := Deciding(vs, 0);
    var tail := LogLast(Ids(routes), vs);
    assert tail != [] && Log(Ids(routes), vs)[|Log(Ids(routes), vs)| - 1] == tail[|tail| - 1];
    if k == |vs| {
      EveryRouteIsCounted(vs, k);
    }
  }

  // ---- from what the loop meets to the verdicts -------------------------------------------------

  /** One request: its eligible routes, what each meets, and the circuits it starts from. */
  datatype Request = Request(
    config: CB.Config,
    streaming: bool,
    eligible: seq<Route>,
    moments: seq<Moment>,
    circuits: CB.Circuits)

  function JudgeOutcome(streaming: bool, outcome: Outcome): Verdict {
    match outcome
    case Answered => Win
    case Abandoned => if streaming then Quit else Win
    case BrokeMidStream(code) =>
      if streaming then Broken(code) else if IsFailoverCode(code) then FailOver(code) else Fatal(code)
    case Failed(code, aborted) =>
      if (streaming && aborted) || !IsFailoverCode(code) then Fatal(code) else FailOver(code)
  }

  /** The verdict on one route, given its provider's circuit. */
  function Judge(r: Request, route: Route, m: Moment, circuits: CB.Circuits): Verdict {
    if m.provider.None? || !m.provider.value.enabled then Skip
    else if route.freeOnly && !m.free then NotFree
    else if !CB.Admits(r.config, CB.Lookup(circuits, m.provider.value.id), m.askedAt) then Skip
    else JudgeOutcome(r.streaming, m.outcome)
  }

  /** What the breaker hears of the attempt itself. */
  function Report(p: string, v: Verdict, at: int): seq<CB.Event> {
    if v.Win? then [CB.Event(p, CB.Succeeded, at)]
    else if v.FailOver? then [CB.Event(p, CB.Failed, at)]
    else []
  }

  /** What the breaker hears while the loop is at one route. */
  function Heard(route: Route, m: Moment, v: Verdict): seq<CB.Event> {
    if m.provider.None? || !m.provider.value.enabled || v.NotFree? then []
    else
      var p := m.provider.value.id;
      [CB.Event(p, CB.Ask, m.askedAt)] + if v.Skip? then [] else m.meanwhile + Report(p, v, m.reportedAt)
  }

  /** The circuits when the loop reaches route `i`, if it gets there. */
  function CircuitsBefore(r: Request, i: nat): CB.Circuits
    requires |r.moments| == |r.eligible| && i <= |r.eligible|
  {
    if i == 0 then r.circuits
    else
      var before := CircuitsBefore(r, i - 1);
      var route, m := r.eligible[i - 1], r.moments[i - 1];
      CB.Run(r.config, before, Heard(route, m, Judge(r, route, m, before)))
  }

  function VerdictAt(r: Request, i: nat): Verdict
    requires |r.moments| == |r.eligible| && i < |r.eligible|
  {
    Judge(r, r.eligible[i], r.moments[i], CircuitsBefore(r, i))
  }

  function Verdicts(r: Request): (vs: seq<Verdict>)
    requires |r.moments| == |r.eligible|
    ensures |vs| == |r.eligible|
  {
    seq(|r.eligible|, i requires 0 <= i < |r.eligible| => VerdictAt(r, i))
  }

  /** The provider is there and enabled, and a free-only route is free at that moment. */
  predicate MayUse(route: Route, m: Moment) {
    m.provider.Some? && m.provider.value.enabled && (route.freeOnly ==> m.free)
  }

  /** A telemetry event of an attempt at an eligible route that may be used. */
  ghost predicate IsOfUsable(r: Request, t: Telemetry)
    requires |r.moments| == |r.eligible|
  {
    && IsAttempt(t)
    && exists i :: 0 <= i < |r.eligible| && r.eligible[i].id == t.route && MayUse(r.eligible[i], r.moments[i])
  }

  lemma AttemptedMayUse(r: Request, i: nat)
    requires |r.moments| == |r.eligible| && i < |r.eligible| && Attempted(VerdictAt(r, i))
    ensures MayUse(r.eligible[i], r.moments[i])
  {
  }

  lemma {:induction false} PassedIsOfFailed(ids: seq<string>, vs: seq<Verdict>, n: nat, t: Telemetry) returns (i: nat)
    requires n <= |vs| == |ids| && t in LogPassed(ids, vs, n)
    ensures i < n && vs[i].FailOver? && t.ProviderFailed? && t.route == ids[i] && t.category == CodeName(vs[i].code)
  {
    i := n - 1;
    if t in LogPassed(ids, vs, n - 1) {
      i := PassedIsOfFailed(ids, vs, n - 1, t);
    }
  }

  /**
   * No attempt goes to a free-only route that is not free when it is attempted, however the
   * catalogue changes in between: every attempt or failure a request logs is of an eligible
   * route whose provider is enabled and which is free at its moment or need not be.
   */
  lemma FreeOnlyNeverSpends(r: Request)
    requires |r.moments| == |r.eligible|
    ensures forall t :: t in Log(Ids(r.eligible), Verdicts(r)) && IsAttempt(t) ==> IsOfUsable(r, t)
  {
    forall t | t in Log(Ids(r.eligible), Verdicts(r)) && IsAttempt(t) ensures IsOfUsable(r, t) {
      var i := AttemptIsOfAttempted(Ids(r.eligible), Verdicts(r), t);
      AttemptedMayUse(r, i);
      assert r.eligible[i].id == t.route;
    }
  }

  /** Every attempt event is of a route that was attempted, and one of a failure carries its code. */
  lemma AttemptIsOfAttempted(ids: seq<string>, vs: seq<Verdict>, t: Telemetry) returns (i: nat)
    requires |ids| == |vs| && t in Log(ids, vs) && IsAttempt(t)
    ensures i < |vs| && Attempted(vs[i]) && t.route == ids[i]
    ensures t.ProviderFailed? <==> vs[i].FailOver? || vs[i].Fatal?
    ensures t.ProviderFailed? ==> t.category == CodeName(vs[i].code)
  {
    i := Deciding(vs, 0);
    if t in LogPassed(ids, vs, i) {
      i := PassedIsOfFailed(ids, vs, i, t);
    } else {
      LastIsOfDecider(ids, vs, t);
    }
  }

  lemma LastIsOfDecider(ids: seq<string>, vs: seq<Verdict>, t: Telemetry)
    requires |ids| == |vs| && t in LogLast(ids, vs) && IsAttempt(t)
    ensures var k := Deciding(vs, 0);
            && k < |vs| && Attempted(vs[k]) && t.route == ids[k] && (t.ProviderFailed? <==> vs[k].Fatal?)
            && (t.ProviderFailed? ==> t.category == CodeName(vs[k].code))
  {
  }

  lemma RunOne(c: CB.Config, start: CB.Circuits, e: CB.Event)
    ensures CB.Run(c, start, [e]) == CB.Step(c, start, e)
  {
    assert [e][..0] == [];
  }

  lemma {:induction false} RunConcat(c: CB.Config, start: CB.Circuits, a: seq<CB.Event>, b: seq<CB.Event>)
    ensures CB.Run(c, start, a + b) == CB.Run(c, CB.Run(c, start, a), b)
    decreases |b|
  {
    if b == [] {
      assert a + b == a;
    } else {
      assert (a + b)[..|a + b| - 1] == a + b[..|b| - 1];
      RunConcat(c, start, a, b[..|b| - 1]);
    }
  }

  /** The ends of an attempt of which the breaker is told nothing. */
  predicate IsSilent(streaming: bool, outcome: Outcome) {
    match outcome
    case Answered => false
    case Abandoned => streaming
    case BrokeMidStream(code) => streaming || !IsFailoverCode(code)
    case Failed(code, aborted) => (streaming && aborted) || !IsFailoverCode(code)
  }

  /** The circuit of a probed provider, while other requests only ask. */
  lemma ProbeWaits(r: Request, i: nat, p: CB.Provider, heard: seq<CB.Event>)
    requires |r.moments| == |r.eligible| && i < |r.eligible|
    requires heard == [CB.Event(p, CB.Ask, r.moments[i].askedAt)] + r.moments[i].meanwhile
    requires CB.Admits(r.config, CB.Lookup(CircuitsBefore(r, i), p), r.moments[i].askedAt)
    requires !CB.Lookup(CircuitsBefore(r, i), p).Closed?
    requires forall e :: e in r.moments[i].meanwhile && e.provider == p ==> e.what.Ask?
    ensures CB.Lookup(CB.Run(r.config, CircuitsBefore(r, i), heard), p) == CB.HalfOpen(true)
  {
    var before := CircuitsBefore(r, i);
    assert heard[..0] == [] && heard[..|heard|] == heard;
    CB.BeforeNext(r.config, before, heard, 0, p);
    forall k | 1 <= k < |heard| && heard[k].provider == p ensures heard[k].what.Ask? {
      assert heard[k] in r.moments[i].meanwhile;
    }
    CB.UnreportedProbeLocksOut(r.config, before, heard, 1, |heard|, p);
  }

  lemma SilentIsUnreported(streaming: bool, outcome: Outcome)
    ensures IsSilent(streaming, outcome) <==> Report("", JudgeOutcome(streaming, outcome), 0) == []
  {
  }

  lemma ReportLeavesHalfOpen(c: CB.Config, start: CB.Circuits, p: CB.Provider, v: Verdict, at: int)
    requires CB.Lookup(start, p) == CB.HalfOpen(true)
    ensures CB.Lookup(CB.Run(c, start, Report(p, v, at)), p) == CB.HalfOpen(true) <==> !v.Win? && !v.FailOver?
  {
    if v.Win? || v.FailOver? {
      RunOne(c, start, Report(p, v, at)[0]);
    }
  }

  /**
   * When no other request reports on the provider meanwhile, a half-open probe leaves the
   * circuit half-open, where it refuses every later question, exactly when its own end is one
   * that nobody tells the breaker of.
   */
  lemma SilentProbeLocksOut(r: Request, i: nat)
    requires |r.moments| == |r.eligible| && i < |r.eligible| && Attempted(VerdictAt(r, i))
    requires var p := r.moments[i].provider.value.id;
             && !CB.Lookup(CircuitsBefore(r, i), p).Closed?
             && forall e :: e in r.moments[i].meanwhile && e.provider == p ==> e.what.Ask?
    ensures CB.Lookup(CircuitsBefore(r, i + 1), r.moments[i].provider.value.id) == CB.HalfOpen(true)
       <==> IsSilent(r.streaming, r.moments[i].outcome)
  {
    var m := r.moments[i];
    var p, before := m.provider.value.id, CircuitsBefore(r, i);
    var heard, report := [CB.Event(p, CB.Ask, m.askedAt)] + m.meanwhile, Report(p, VerdictAt(r, i), m.reportedAt);
    ProbeWaits(r, i, p, heard);
    assert Heard(r.eligible[i], m, VerdictAt(r, i)) == heard + report;
    RunConcat(r.config, before, heard, report);
    ReportLeavesHalfOpen(r.config, CB.Run(r.config, before, heard), p, VerdictAt(r, i), m.reportedAt);
    SilentIsUnreported(r.streaming, m.outcome);
  }

  // ---- what the loop meets, and how the request ends ---------------------------------------------

  predicate IsLive(m: Moment) {
    m.provider.Some? && m.provider.value.enabled
  }

  /** A failure that another provider may survive. */
  predicate IsTransient(code: Option<string>) {
    code == Some("unreachable") || code == Some("rate_limited") || code == Some("upstream_error")
  }

  predicate IsAnswered(streaming: bool, outcome: Outcome) {
    outcome.Answered? || (outcome.Abandoned? && !streaming)
  }

  /** A transient failure before anything of a stream was delivered, and not because the client went away. */
  predicate IsSurvivable(streaming: bool, outcome: Outcome) {
    || (outcome.Failed? && IsTransient(outcome.code) && !(streaming && outcome.aborted))
    || (outcome.BrokeMidStream? && IsTransient(outcome.code) && !streaming)
  }

  function Code(outcome: Outcome): Option<string> {
    if outcome.Failed? || outcome.BrokeMidStream? then outcome.code else None
  }

  /** The breaker admits the provider of route `i` when the loop gets there. */
  predicate IsAdmitted(r: Request, i: nat)
    requires |r.moments| == |r.eligible| && i < |r.eligible|
  {
    && IsLive(r.moments[i])
    && CB.Admits(r.config, CB.Lookup(CircuitsBefore(r, i), r.moments[i].provider.value.id), r.moments[i].askedAt)
  }

  predicate IsAttempted(r: Request, i: nat)
    requires |r.moments| == |r.eligible| && i < |r.eligible|
  {
    MayUse(r.eligible[i], r.moments[i]) && IsAdmitted(r, i)
  }

  /** The loop goes on to the next route. */
  predicate IsPassedOver(r: Request, i: nat)
    requires |r.moments| == |r.eligible| && i < |r.eligible|
  {
    || !IsLive(r.moments[i])
    || (MayUse(r.eligible[i], r.moments[i]) && !IsAdmitted(r, i))
    || (IsAttempted(r, i) && IsSurvivable(r.streaming, r.moments[i].outcome))
  }

  function Tried(r: Request): (tried: seq<bool>)
    requires |r.moments| == |r.eligible|
    ensures |tried| == |r.eligible| && forall i :: 0 <= i < |tried| ==> tried[i] == IsAttempted(r, i)
  {
    seq(|r.eligible|, i requires 0 <= i < |r.eligible| => IsAttempted(r, i))
  }

  function CountTrue(flags: seq<bool>, i: nat): nat
    requires i <= |flags|
  {
    if i == 0 then 0 else CountTrue(flags, i - 1) + if flags[i - 1] then 1 else 0
  }

  function AttemptsBefore(r: Request, i: nat): nat
    requires |r.moments| == |r.eligible| && i <= |r.eligible|
  {
    CountTrue(Tried(r), i)
  }

  /** What becomes of one route: a route that may be used and is admitted is attempted, and no other. */
  lemma VerdictIs(r: Request, i: nat)
    requires |r.moments| == |r.eligible| && i < |r.eligible|
    ensures var v, m := VerdictAt(r, i), r.moments[i];
            && (Attempted(v) <==> IsAttempted(r, i))
            && (v.Win? <==> IsAttempted(r, i) && IsAnswered(r.streaming, m.outcome))
            && (v.FailOver? <==> IsAttempted(r, i) && IsSurvivable(r.streaming, m.outcome))
            && (v.NotFree? <==> IsLive(m) && !MayUse(r.eligible[i], m))
            && (v.Quit? <==> IsAttempted(r, i) && m.outcome.Abandoned? && r.streaming)
            && (v.FailOver? || v.Fatal? || v.Broken? ==> v.code == Code(m.outcome))
            && (Decisive(v) <==> !IsPassedOver(r, i))
  {
    var m := r.moments[i];
    assert IsFailoverCode(Code(m.outcome)) <==> IsTransient(Code(m.outcome));
  }

  lemma AttemptedIs(r: Request, i: nat)
    requires |r.moments| == |r.eligible| && i < |r.eligible|
    ensures Attempted(Verdicts(r)[i]) <==> IsAttempted(r, i)
  {
    VerdictIs(r, i);
  }

  lemma TelemetryTellsTheEnd(r: Request)
    requires |r.moments| == |r.eligible| && EndOf(r.eligible, Verdicts(r)) != Left
    ensures var log := Log(Ids(r.eligible), Verdicts(r));
            && log != []
            && match EndOf(r.eligible, Verdicts(r))
               case Won(route, attempts) =>
                 && log[|log| - 1].RequestCompleted? && log[|log| - 1].route == route.id
                 && log[|log| - 1].attempts == attempts
               case Threw(error) => log[|log| - 1].RequestFailed? && log[|log| - 1].category == Reason(error)
               case Left => true
  {
    forall i | 0 <= i < |r.eligible| && Verdicts(r)[i].FailOver? ensures Verdicts(r)[i].code.Some? {
      VerdictIs(r, i);
    }
    LastEventTellsTheEnd(r.eligible, Verdicts(r));
  }

  lemma {:induction false} CountsAlike(vs: seq<Verdict>, tried: seq<bool>, i: nat)
    requires i <= |vs| == |tried| && forall j :: 0 <= j < |vs| ==> (Attempted(vs[j]) <==> tried[j])
    ensures Attempts(vs, i) == CountTrue(tried, i)
  {
    if i > 0 {
      CountsAlike(vs, tried, i - 1);
    }
  }

  lemma AttemptsAreCounted(r: Request, i: nat)
    requires |r.moments| == |r.eligible| && i <= |r.eligible|
    ensures Attempts(Verdicts(r), i) == AttemptsBefore(r, i)
  {
    forall j | 0 <= j < |r.eligible| ensures Attempted(Verdicts(r)[j]) <==> Tried(r)[j] {
      AttemptedIs(r, j);
    }
    CountsAlike(Verdicts(r), Tried(r), i);
  }

  /** The end that route `k`, the first not passed over, brings about. */
  function EndAt(r: Request, k: nat): End
    requires |r.moments| == |r.eligible| && k < |r.eligible| && !IsPassedOver(r, k)
  {
    var outcome := r.moments[k].outcome;
    if !MayUse(r.eligible[k], r.moments[k]) then Threw(NoFreeRoute)
    else if IsAnswered(r.streaming, outcome) then Won(r.eligible[k], AttemptsBefore(r, k) + 1)
    else if outcome.Abandoned? then Left
    else Threw(Upstream(Code(outcome)))
  }

  /**
   * How a request ends, said by what it meets. It ends at the first route that is not passed
   * over, and when there is none, with the failure of the last route attempted or, when none
   * was, because all of them failed.
   */
  lemma RequestEnds(r: Request) returns (k: nat)
    requires |r.moments| == |r.eligible|
    ensures k <= |r.eligible| && forall j :: 0 <= j < k ==> IsPassedOver(r, j)
    ensures k < |r.eligible| ==> !IsPassedOver(r, k) && EndOf(r.eligible, Verdicts(r)) == EndAt(r, k)
    ensures k == |r.eligible| && (forall j :: 0 <= j < k ==> !IsAttempted(r, j)) ==>
              EndOf(r.eligible, Verdicts(r)) == Threw(AllRoutesFailed(k))
    ensures k == |r.eligible| ==>
              forall j :: 0 <= j < k && IsAttempted(r, j) && (forall l :: j < l < k ==> !IsAttempted(r, l)) ==>
                EndOf(r.eligible, Verdicts(r)) == Threw(Upstream(Code(r.moments[j].outcome)))
  {
    k := Deciding(Verdicts(r), 0);
    forall j | 0 <= j < k ensures IsPassedOver(r, j) {
      assert !Decisive(Verdicts(r)[j]);
      VerdictIs(r, j);
    }
    if k < |r.eligible| {
      VerdictIs(r, k);
      AttemptsAreCounted(r, k);
    } else {
      Exhaustion(r);
    }
  }

  lemma Exhaustion(r: Request)
    requires |r.moments| == |r.eligible| && Deciding(Verdicts(r), 0) == |r.eligible|
    ensures (forall j :: 0 <= j < |r.eligible| ==> !IsAttempted(r, j)) ==>
              EndOf(r.eligible, Verdicts(r)) == Threw(AllRoutesFailed(|r.eligible|))
    ensures forall j :: 0 <= j < |r.eligible| && IsAttempted(r, j)
                        && (forall l :: j < l < |r.eligible| ==> !IsAttempted(r, l)) ==>
              EndOf(r.eligible, Verdicts(r)) == Threw(Upstream(Code(r.moments[j].outcome)))
  {
    var vs, n := Verdicts(r), |r.eligible|;
    EveryRouteIsCounted(vs, n);
    forall j | 0 <= j < n ensures vs[j].FailOver? <==> IsAttempted(r, j) {
      assert !Decisive(vs[j]);
      VerdictIs(r, j);
    }
    forall j | 0 <= j < n && IsAttempted(r, j) && (forall l :: j < l < n ==> !IsAttempted(r, l))
      ensures LastFailure(vs, n) == Some(Code(r.moments[j].outcome))
    {
      LastIs(vs, n, j);
      VerdictIs(r, j);
    }
  }

  lemma {:induction false} LastIs(vs: seq<Verdict>, i: nat, j: nat)
    requires j < i <= |vs| && vs[j].FailOver? && forall l :: j < l < i ==> !vs[l].FailOver?
    ensures LastFailure(vs, i) == Some(vs[j].code)
  {
    if j < i - 1 {
      LastIs(vs, i - 1, j);
    }
  }

  /**
   * Route `k` wins exactly when it may be used, its provider is admitted, the attempt is answered,
   * and each route in front of it had no live provider, was not admitted, or failed transiently.
   */
  lemma RequestIsWon(r: Request, k: nat)
    requires |r.moments| == |r.eligible| && k < |r.eligible|
    ensures && IsAttempted(r, k) && IsAnswered(r.streaming, r.moments[k].outcome)
            && (forall j :: 0 <= j < k ==> IsPassedOver(r, j))
       <==> Deciding(Verdicts(r), 0) == k && EndOf(r.eligible, Verdicts(r)).Won?
    ensures Deciding(Verdicts(r), 0) == k && EndOf(r.eligible, Verdicts(r)).Won? ==>
              EndOf(r.eligible, Verdicts(r)) == Won(r.eligible[k], AttemptsBefore(r, k) + 1)
  {
    forall j | 0 <= j <= k ensures Decisive(Verdicts(r)[j]) <==> !IsPassedOver(r, j) {
      VerdictIs(r, j);
    }
    VerdictIs(r, k);
    AttemptsAreCounted(r, k);
  }

  /**
   * What the breaker hears while the loop is at a route: a question when the route may be used,
   * and of an attempt, besides what others report, a success exactly when it was answered and a
   * failure exactly when it was survivable.
   */
  lemma BreakerHears(r: Request, i: nat)
    requires |r.moments| == |r.eligible| && i < |r.eligible|
    ensures var m := r.moments[i];
            CircuitsBefore(r, i + 1)
            == if !MayUse(r.eligible[i], m) then CircuitsBefore(r, i)
               else
                 var p := m.provider.value.id;
                 var report := if IsAnswered(r.streaming, m.outcome) then [CB.Event(p, CB.Succeeded, m.reportedAt)]
                               else if IsSurvivable(r.streaming, m.outcome) then [CB.Event(p, CB.Failed, m.reportedAt)]
                               else [];
                 CB.Run(r.config, CircuitsBefore(r, i),
                        [CB.Event(p, CB.Ask, m.askedAt)] + if IsAdmitted(r, i) then m.meanwhile + report else [])
  {
    VerdictIs(r, i);
  }

  // ---- the loop ------------------------------------------------------------------------------------

  /** Other requests asking and reporting while this one waits. */
  method Elsewhere(breaker: CB.Breaker, events: seq<CB.Event>)
    modifies breaker
    ensures breaker.byProvider == CB.Run(breaker.config, old(breaker.byProvider), events)
  {
    for i := 0 to |events|
      invariant breaker.byProvider == CB.Run(breaker.config, old(breaker.byProvider), events[..i])
    {
      var e := events[i];
      match e.what {
        case Ask => var _ := breaker.Allow(e.provider, e.at);
        case Succeeded => breaker.OnSuccess(e.provider, e.at);
        case Failed => breaker.OnTransientFailure(e.provider, e.at);
      }
      assert events[..i + 1][..i] == events[..i] && e == CB.Event(e.provider, e.what, e.at);
    }
    assert events[..|events|] == events;
  }

  /** The routes a request may use: a free-only route must be free now. */
  function FilterFree(candidates: seq<Route>, free: (string, string) -> bool): (kept: seq<Route>)
    ensures forall x :: x in kept <==> x in candidates && (x.freeOnly ==> free(x.providerId, x.model))
    ensures |kept| <= |candidates|
  {
    if candidates == [] then []
    else
      var rest := FilterFree(candidates[1..], free);
      assert candidates == [candidates[0]] + candidates[1..];
      if !candidates[0].freeOnly || free(candidates[0].providerId, candidates[0].model)
      then [candidates[0]] + rest else rest
  }

  /** One turn of the loop: look the provider up, re-check that it is free, ask the breaker, attempt, report. */
  method TryRoute(breaker: CB.Breaker, ghost r: Request, route: Route, m: Moment, streaming: bool) returns (v: Verdict)
    requires breaker.config == r.config && streaming == r.streaming
    modifies breaker
    ensures v == Judge(r, route, m, old(breaker.byProvider))
    ensures breaker.byProvider == CB.Run(breaker.config, old(breaker.byProvider), Heard(route, m, v))
  {
    ghost var c, start := breaker.config, breaker.byProvider;
    if m.provider.None? || !m.provider.value.enabled {
      return Skip;
    }
    if route.freeOnly && !m.free {
      return NotFree;
    }
    var provider := m.provider.value;
    ghost var ask := CB.Event(provider.id, CB.Ask, m.askedAt);
    var admitted := breaker.Allow(provider.id, m.askedAt);
    RunOne(c, start, ask);
    if !admitted {
      return Skip;
    }
    Elsewhere(breaker, m.meanwhile);
    RunConcat(c, start, [ask], m.meanwhile);
    v := JudgeOutcome(streaming, m.outcome);
    ghost var during := breaker.byProvider;
    if v.Win? {
      breaker.OnSuccess(provider.id, m.reportedAt);
      RunOne(c, during, CB.Event(provider.id, CB.Succeeded, m.reportedAt));
    } else if v.FailOver? {
      breaker.OnTransientFailure(provider.id, m.reportedAt);
      RunOne(c, during, CB.Event(provider.id, CB.Failed, m.reportedAt));
    }
    RunConcat(c, start, [ask] + m.meanwhile, Report(provider.id, v, m.reportedAt));
    assert Heard(route, m, v) == [ask] + m.meanwhile + Report(provider.id, v, m.reportedAt);
  }

  /** The loop's counters after the verdicts before `i`, none of them decisive. */
  ghost predicate Tally(ids: seq<string>, vs: seq<Verdict>, i: nat, attempts: nat, skipped: nat,
                        lastFailure: Option<Option<string>>, log: seq<Telemetry>)
    requires i <= |vs| == |ids|
  {
    && Deciding(vs, 0) == Deciding(vs, i)
    && attempts == Attempts(vs, i) && skipped == Skips(vs, i)
    && lastFailure == LastFailure(vs, i) && log == LogPassed(ids, vs, i)
  }

  lemma TallySkip(ids: seq<string>, vs: seq<Verdict>, i: nat, attempts: nat, skipped: nat,
                  lastFailure: Option<Option<string>>, log: seq<Telemetry>)
    requires i < |vs| == |ids| && Tally(ids, vs, i, attempts, skipped, lastFailure, log) && vs[i].Skip?
    ensures Tally(ids, vs, i + 1, attempts, skipped + 1, lastFailure, log)
  {
  }

  lemma TallyFailOver(ids: seq<string>, vs: seq<Verdict>, i: nat, attempts: nat, skipped: nat,
                      lastFailure: Option<Option<string>>, log: seq<Telemetry>)
    requires i < |vs| == |ids| && Tally(ids, vs, i, attempts, skipped, lastFailure, log) && vs[i].FailOver?
    ensures Tally(ids, vs, i + 1, attempts + 1, skipped, Some(vs[i].code),
                  log + [ProviderFailed(ids[i], Category(vs[i].code), ModeOf(|vs|, attempts + 1), attempts + 1)])
  {
  }

  /** The verdict that decides a request says how it ends and what it logs last. */
  lemma TallyDecided(routes: seq<Route>, ids: seq<string>, vs: seq<Verdict>, i: nat, attempts: nat, skipped: nat,
                     lastFailure: Option<Option<string>>, log: seq<Telemetry>)
    requires i < |vs| == |ids| == |routes| && Tally(ids, vs, i, attempts, skipped, lastFailure, log)
    requires Decisive(vs[i])
    ensures Deciding(vs, 0) == i && Log(ids, vs) == log + LogDecision(|vs|, ids[i], vs[i], attempts)
    ensures EndOf(routes, vs) == match vs[i]
                                 case Win => Won(routes[i], attempts + 1)
                                 case NotFree => Threw(NoFreeRoute)
                                 case Fatal(code) => Threw(Upstream(code))
                                 case Broken(code) => Threw(Upstream(code))
                                 case _ => Left
  {
  }

  method TryRoutes(breaker: CB.Breaker, ghost r: Request, streaming: bool, eligible: seq<Route>, moments: seq<Moment>)
    returns (end: End, log: seq<Telemetry>)
    requires r == Request(breaker.config, streaming, eligible, moments, breaker.byProvider)
    requires |moments| == |eligible|
    modifies breaker
    ensures end == EndOf(eligible, Verdicts(r)) && log == Log(Ids(eligible), Verdicts(r))
    ensures var k := Deciding(Verdicts(r), 0);
            breaker.byProvider == CircuitsBefore(r, if k < |eligible| then k + 1 else k)
  {
    ghost var vs, ids := Verdicts(r), Ids(eligible);
    var attempts, skipped := 0, 0;
    var lastFailure: Option<Option<string>> := None;
    log := [];
    for i := 0 to |eligible|
      invariant breaker.byProvider == CircuitsBefore(r, i)
      invariant Tally(ids, vs, i, attempts, skipped, lastFailure, log)
    {
      var verdict := TryRoute(breaker, r, eligible[i], moments[i], streaming);
      assert verdict == vs[i];
      if verdict.Skip? {
        TallySkip(ids, vs, i, attempts, skipped, lastFailure, log);
        skipped := skipped + 1;
      } else if verdict.FailOver? {
        TallyFailOver(ids, vs, i, attempts, skipped, lastFailure, log);
        attempts := attempts + 1;
        log := log + [ProviderFailed(eligible[i].id, Category(verdict.code), ModeOf(|eligible|, attempts), attempts)];
        lastFailure := Some(verdict.code);
      } else {
        TallyDecided(eligible, ids, vs, i, attempts, skipped, lastFailure, log);
        end, log := Finish(eligible[i], verdict, |eligible|, attempts, log);
        return;
      }
    }
    end, log := Exhausted(vs, |eligible|, attempts, skipped, lastFailure, log);
  }

  /** The telemetry and the outcome when no route decided the request. */
  method Exhausted(ghost vs: seq<Verdict>, n: nat, attempts: nat, skipped: nat, lastFailure: Option<Option<string>>,
                   log: seq<Telemetry>)
    returns (end: End, full: seq<Telemetry>)
    requires n == |vs| && attempts == Attempts(vs, n) && skipped == Skips(vs, n) && lastFailure == LastFailure(vs, n)
    ensures full == log + LogExhausted(vs)
    ensures end == Threw(if lastFailure.Some? then Upstream(lastFailure.value) else AllRoutesFailed(skipped))
  {
    if lastFailure.Some? {
      var code := lastFailure.value;
      var category := if code.Some? then code.value else "all_routes_failed";
      full := log + [RequestFailed(category, ModeOf(n, attempts), attempts)];
      end := Threw(Upstream(code));
    } else {
      full := log + [RequestFailed("all_routes_failed", BaseMode(n), attempts)];
      end := Threw(AllRoutesFailed(skipped));
    }
  }

  /** The telemetry and the outcome of the route that decides the request, after `before` attempts. */
  method Finish(route: Route, verdict: Verdict, n: nat, before: nat, log: seq<Telemetry>)
    returns (end: End, full: seq<Telemetry>)
    requires Decisive(verdict)
    ensures full == log + LogDecision(n, route.id, verdict, before)
    ensures end == match verdict
                   case Win => Won(route, before + 1)
                   case NotFree => Threw(NoFreeRoute)
                   case Fatal(code) => Threw(Upstream(code))
                   case Broken(code) => Threw(Upstream(code))
                   case _ => Left
  {
    if verdict.NotFree? {
      full := log + [RequestFailed("no_free_route", if before > 0 then Failover else BaseMode(n), before)];
      return Threw(NoFreeRoute), full;
    }
    var attempts := before + 1;
    var mode := ModeOf(n, attempts);
    if verdict.Fatal? {
      var category := Category(verdict.code);
      full := log + [ProviderFailed(route.id, category, mode, attempts), RequestFailed(category, mode, attempts)];
      return Threw(Upstream(verdict.code)), full;
    }
    full := log;
    if attempts > 1 {
      full := full + [FailoverStarted(route.id, mode, attempts)];
    }
    full := full + [ProviderAttempted(route.id, mode, attempts)];
    match verdict {
      case Win =>
        full := full + [RequestCompleted(route.id, mode, attempts)];
        end := Won(route, attempts);
      case Broken(code) =>
        full := full + [RequestFailed(Category(code), mode, attempts)];
        end := Threw(Upstream(code));
      case _ => end := Left;
    }
  }

  /** Leaving routes out keeps the order of preference among the others. */
  lemma {:induction false} FilterKeepsRanking(candidates: seq<Route>, free: (string, string) -> bool)
    requires Sorting.Ranked(Compare, candidates)
    ensures Sorting.Ranked(Compare, FilterFree(candidates, free))
  {
    if candidates != [] {
      var kept := FilterFree(candidates[1..], free);
      Sorting.RankedTail(Compare, candidates);
      FilterKeepsRanking(candidates[1..], free);
      forall i | 0 <= i < |kept| ensures Compare(candidates[0], kept[i]) < 0 {
        assert kept[i] in candidates[1..];
        var j :| 0 <= j < |candidates[1..]| && candidates[1..][j] == kept[i];
        Sorting.RankedFromHead(Compare, candidates, j + 1);
      }
      RankedCons(candidates[0], kept);
    }
  }

  lemma RankedCons(first: Route, rest: seq<Route>)
    requires Sorting.Ranked(Compare, rest) && forall i :: 0 <= i < |rest| ==> Compare(first, rest[i]) < 0
    ensures Sorting.Ranked(Compare, [first] + rest)
  {
  }

  /**
   * Route one chat request. A registry that cannot be resolved, or has no route or no free
   * route for the model, is refused before any provider is looked up; otherwise the eligible
   * candidates are tried in their order of preference.
   */
  method Chat(breaker: CB.Breaker, streaming: bool, routes: seq<Route>, model: string,
              free: (string, string) -> bool, moments: seq<Moment>)
    returns (end: End, log: seq<Telemetry>)
    requires |moments| == |routes|
    modifies breaker
    ensures match ResolveCandidates(routes, model)
            case Err(e) => end == Threw(Select(e)) && log == [] && breaker.byProvider == old(breaker.byProvider)
            case Ok(candidates) =>
              var eligible := FilterFree(candidates, free);
              if candidates == [] then
                end == Threw(Select(NoRoute)) && log == [RequestFailed("no_route", Direct, 0)]
                && breaker.byProvider == old(breaker.byProvider)
              else if eligible == [] then
                end == Threw(NoFreeRoute) && log == [RequestFailed("no_free_route", Direct, 0)]
                && breaker.byProvider == old(breaker.byProvider)
              else
                && |eligible| <= |moments|
                && var r := Request(breaker.config, streaming, eligible, moments[..|eligible|],
                                    old(breaker.byProvider));
                   && end == EndOf(eligible, Verdicts(r)) && log == Log(Ids(eligible), Verdicts(r))
                   && var k := Deciding(Verdicts(r), 0);
                      breaker.byProvider == CircuitsBefore(r, if k < |eligible| then k + 1 else k)
  {
    var resolved := ResolveCandidates(routes, model);
    if resolved.Err? {
      return Threw(Select(resolved.error)), [];
    }
    if resolved.value == [] {
      return Threw(Select(NoRoute)), [RequestFailed("no_route", Direct, 0)];
    }
    var eligible := FilterFree(resolved.value, free);
    if eligible == [] {
      return Threw(NoFreeRoute), [RequestFailed("no_free_route", Direct, 0)];
    }
    NoMoreThanRegistered(routes, model);
    var moments' := moments[..|eligible|];
    ghost var r := Request(breaker.config, streaming, eligible, moments', breaker.byProvider);
    end, log := TryRoutes(breaker, r, streaming, eligible, moments');
  }

  lemma NoMoreThanRegistered(routes: seq<Route>, model: string)
    requires ResolveCandidates(routes, model).Ok?
    ensures |ResolveCandidates(routes, model).value| <= |routes|
  {
    MatchingIsShorter(routes, model);
    Sorting.SortPermutes(Compare, Matching(routes, model));
    var matching := Matching(routes, model);
    assert |multiset(Sorting.SortBy(Compare, matching))| == |Sorting.SortBy(Compare, matching)|;
    assert |multiset(matching)| == |matching|;
  }

  lemma {:induction false} MatchingIsShorter(routes: seq<Route>, model: string)
    ensures |Matching(routes, model)| <= |routes|
  {
    if routes != [] {
      MatchingIsShorter(routes[1..], model);
    }
  }
}
