/** The per-provider circuit breaker: lazy cooldown, one half-open probe, an injected clock. */
module CircuitBreaker {
  import opened Prelude

  type Provider = string

  datatype Config = Config(threshold: int, cooldownMs: int)

  datatype Circuit = Closed(streak: int) | Open(openedAt: int) | HalfOpen(probeUsed: bool)

  type Circuits = map<Provider, Circuit>

  /** A provider never heard of behaves as a closed circuit with no failures. */
  function Lookup(m: Circuits, p: Provider): Circuit {
    if p in m then m[p] else Closed(0)
  }

  datatype What = Ask | Succeeded | Failed

  datatype Event = Event(provider: Provider, what: What, at: int)

  function Admits(c: Config, e: Circuit, now: int): bool {
    match e
    case Closed(_) => true
    case HalfOpen(used) => !used
    case Open(openedAt) => now - openedAt >= c.cooldownMs
  }

  function Asked(c: Config, e: Circuit, now: int): Circuit {
    match e
    case Closed(_) => e
    case HalfOpen(_) => HalfOpen(true)
    case Open(_) => if Admits(c, e, now) then HalfOpen(true) else e
  }

  function AfterFailure(c: Config, e: Circuit, now: int): Circuit {
    if e.Closed? && e.streak + 1 < c.threshold then Closed(e.streak + 1) else Open(now)
  }

  function Next(c: Config, e: Circuit, what: What, now: int): Circuit {
    match what
    case Ask => Asked(c, e, now)
    case Succeeded => Closed(0)
    case Failed => AfterFailure(c, e, now)
  }

  function Step(c: Config, m: Circuits, e: Event): Circuits {
    m[e.provider := Next(c, Lookup(m, e.provider), e.what, e.at)]
  }

  /** The circuits after a trace of reports and questions. */
  function Run(c: Config, start: Circuits, events: seq<Event>): Circuits
    decreases |events|
  {
    if events == [] then start
    else Step(c, Run(c, start, events[..|events| - 1]), events[|events| - 1])
  }

  // ---- what a trace determines, read off the trace alone ----------------------------------

  /** The events of one provider. */
  function Of(events: seq<Event>, p: Provider): seq<Event> {
    if events == [] then []
    else
      var rest := Of(events[..|events| - 1], p);
      var last := events[|events| - 1];
      if last.provider == p then rest + [last] else rest
  }

  function FailuresSinceSuccess(trace: seq<Event>): nat {
    if trace == [] || trace[|trace| - 1].what.Succeeded? then 0
    else FailuresSinceSuccess(trace[..|trace| - 1]) + (if trace[|trace| - 1].what.Failed? then 1 else 0)
  }

  /** The time of the most recent failure report. */
  function LastFailure(trace: seq<Event>): Option<int> {
    if trace == [] then None
    else if trace[|trace| - 1].what.Failed? then Some(trace[|trace| - 1].at)
    else LastFailure(trace[..|trace| - 1])
  }

  /** Somebody asked, a full cooldown or more after the most recent failure report. */
  function Probed(c: Config, trace: seq<Event>): bool {
    if trace == [] || !trace[|trace| - 1].what.Ask? then false
    else
      var before := trace[..|trace| - 1];
      || Probed(c, before)
      || (LastFailure(before).Some? && trace[|trace| - 1].at - LastFailure(before).value >= c.cooldownMs)
  }

  /** Failures that open a circuit; a configured threshold below one acts as one. */
  function Tolerance(c: Config): int {
    if c.threshold < 1 then 1 else c.threshold
  }

  /** The state a provider's circuit has, said without running the breaker. */
  function Declared(c: Config, trace: seq<Event>): Circuit {
    if FailuresSinceSuccess(trace) < Tolerance(c) then Closed(FailuresSinceSuccess(trace))
    else if Probed(c, trace) then HalfOpen(true)
    else if LastFailure(trace).Some? then Open(LastFailure(trace).value)
    else Closed(0)
  }

  lemma {:induction false} FailureLeavesATime(trace: seq<Event>)
    ensures FailuresSinceSuccess(trace) > 0 ==> LastFailure(trace).Some?
  {
    if trace != [] {
      FailureLeavesATime(trace[..|trace| - 1]);
    }
  }

  /**
   * Every circuit is the one its own events declare: closed exactly while fewer failures
   * than the threshold followed the last success, half-open exactly after one question past
   * the cooldown, open since the last failure otherwise. Other providers have no say, and a
   * half-open circuit with an unused probe never occurs.
   */
  lemma {:induction false} RunIsDeclared(c: Config, events: seq<Event>, p: Provider)
    ensures Lookup(Run(c, map[], events), p) == Declared(c, Of(events, p))
    decreases |events|
  {
    if events != [] {
      var n := |events| - 1;
      var last := events[n];
      RunIsDeclared(c, events[..n], p);
      if last.provider == p {
        var trace := Of(events, p);
        assert trace[..|trace| - 1] == Of(events[..n], p) && trace[|trace| - 1] == last;
        FailureLeavesATime(Of(events[..n], p));
        FailureLeavesATime(trace);
      }
    }
  }

  // ---- admissions ------------------------------------------------------------------------------

  ghost predicate ClockMonotone(events: seq<Event>) {
    forall i, j :: 0 <= i < j < |events| ==> events[i].at <= events[j].at
  }

  /** The circuit of a provider just before event `i` of the trace. */
  function Before(c: Config, start: Circuits, events: seq<Event>, i: nat, p: Provider): Circuit
    requires i <= |events|
  {
    Lookup(Run(c, start, events[..i]), p)
  }

  ghost predicate AdmittedAt(c: Config, start: Circuits, events: seq<Event>, i: nat)
    requires i < |events|
  {
    events[i].what.Ask? && Admits(c, Before(c, start, events, i, events[i].provider), events[i].at)
  }

  lemma BeforeNext(c: Config, start: Circuits, events: seq<Event>, i: nat, p: Provider)
    requires i < |events|
    ensures Before(c, start, events, i + 1, p)
            == if events[i].provider == p then Next(c, Before(c, start, events, i, p), events[i].what, events[i].at)
               else Before(c, start, events, i, p)
  {
    assert events[..i + 1][..i] == events[..i];
  }

  /**
   * From an admission on a circuit that was not closed, up to any later point that no
   * success report precedes, the circuit is half-open or was opened no earlier than the
   * admission.
   */
  lemma {:induction false} ProbeHoldsTheDoor(c: Config, start: Circuits, events: seq<Event>, i: nat, j: nat,
                                             p: Provider)
    requires ClockMonotone(events) && i < j <= |events|
    requires events[i].provider == p && AdmittedAt(c, start, events, i) && !Before(c, start, events, i, p).Closed?
    requires forall k :: i < k < j && events[k].provider == p ==> !events[k].what.Succeeded?
    ensures var e := Before(c, start, events, j, p);
            e == HalfOpen(true) || (e.Open? && e.openedAt >= events[i].at)
    decreases j
  {
    BeforeNext(c, start, events, j - 1, p);
    if j - 1 > i {
      ProbeHoldsTheDoor(c, start, events, i, j - 1, p);
      assert events[i].at <= events[j - 1].at;
    }
  }

  /**
   * While a circuit that is not closed hears of no success, two admissions are at least a
   * cooldown apart, whatever late failures arrive from calls admitted earlier.
   */
  lemma AdmissionsAreSpaced(c: Config, start: Circuits, events: seq<Event>, i: nat, j: nat, p: Provider)
    requires ClockMonotone(events) && i < j < |events|
    requires events[i].provider == p == events[j].provider
    requires AdmittedAt(c, start, events, i) && AdmittedAt(c, start, events, j)
    requires !Before(c, start, events, i, p).Closed?
    requires forall k :: i < k < j && events[k].provider == p ==> !events[k].what.Succeeded?
    ensures events[j].at - events[i].at >= c.cooldownMs
  {
    ProbeHoldsTheDoor(c, start, events, i, j, p);
  }

  /**
   * A half-open circuit stays half-open and refuses everything until a success or a failure
   * is reported, however long that takes: a probe that ends without a report locks the
   * provider out.
   */
  lemma {:induction false} UnreportedProbeLocksOut(c: Config, start: Circuits, events: seq<Event>, i: nat, j: nat,
                                                   p: Provider)
    requires i <= j <= |events| && Before(c, start, events, i, p) == HalfOpen(true)
    requires forall k :: i <= k < j && events[k].provider == p ==> events[k].what.Ask?
    ensures Before(c, start, events, j, p) == HalfOpen(true)
    ensures forall now :: !Admits(c, Before(c, start, events, j, p), now)
    decreases j
  {
    if i < j {
      UnreportedProbeLocksOut(c, start, events, i, j - 1, p);
      BeforeNext(c, start, events, j - 1, p);
    }
  }

  /**
   * When a question is answered with yes, read off the trace alone: while fewer failures than
   * are tolerated followed the last success, and otherwise exactly once, a full cooldown or more
   * after the most recent failure.
   */
  lemma AdmittedExactly(c: Config, events: seq<Event>, p: Provider, now: int)
    ensures var trace := Of(events, p);
            Admits(c, Lookup(Run(c, map[], events), p), now)
            <==> || FailuresSinceSuccess(trace) < Tolerance(c)
                 || (&& !Probed(c, trace) && LastFailure(trace).Some?
                     && now - LastFailure(trace).value >= c.cooldownMs)
  {
    RunIsDeclared(c, events, p);
    FailureLeavesATime(Of(events, p));
  }

  // ---- the object -------------------------------------------------------------------------------

  class Breaker {
    const config: Config
    var byProvider: Circuits

    constructor (threshold: int := 3, cooldownMs: int := 30000)
      ensures config == Config(threshold, cooldownMs) && byProvider == map[]
    {
      config := Config(threshold, cooldownMs);
      byProvider := map[];
    }

    method Allow(p: Provider, now: int) returns (admitted: bool)
      modifies this
      ensures byProvider == Step(config, old(byProvider), Event(p, Ask, now))
      ensures admitted == Admits(config, Lookup(old(byProvider), p), now)
    {
      if p !in byProvider {
        byProvider := byProvider[p := Closed(0)];
        return true;
      }
      match byProvider[p] {
        case Closed(_) => admitted := true;
        case HalfOpen(used) =>
          if used {
            return false;
          }
          byProvider := byProvider[p := HalfOpen(true)];
          admitted := true;
        case Open(openedAt) =>
          var elapsed := now - openedAt;
          if elapsed < config.cooldownMs {
            return false;
          }
          byProvider := byProvider[p := HalfOpen(true)];
          admitted := true;
      }
    }

    method OnSuccess(p: Provider, ghost now: int)
      modifies this
      ensures byProvider == Step(config, old(byProvider), Event(p, Succeeded, now))
    {
      byProvider := byProvider[p := Closed(0)];
    }

    method OnTransientFailure(p: Provider, now: int)
      modifies this
      ensures byProvider == Step(config, old(byProvider), Event(p, Failed, now))
    {
      if p in byProvider && !byProvider[p].Closed? {
        byProvider := byProvider[p := Open(now)];
        return;
      }
      var streak := (if p in byProvider then byProvider[p].streak else 0) + 1;
      byProvider := byProvider[p := if streak >= config.threshold then Open(now) else Closed(streak)];
    }
  }
}
