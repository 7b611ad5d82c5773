/**
 * The outbound semaphore: a bounded counting semaphore with a bounded wait queue,
 * tombstones for departed waiters and idempotent releases.
 *
 * A waiter is the number of the `acquire` call that created it, and a permit is the
 * number of the release closure that was handed out, so both are ordered by time.
 */
module Semaphore {
  import opened Prelude

  type Waiter = nat

  datatype Settlement = Granted(permit: nat) | QueueFull | Aborted

  datatype Signal = NoSignal | Watched | AlreadyAborted

  datatype Limits = Limits(limit: int, queueLimit: int)

  datatype State = State(
    inFlight: int,
    live: int,
    waiters: seq<Option<Waiter>>,
    listeners: map<Waiter, nat>,
    released: seq<bool>,
    settled: map<Waiter, Settlement>,
    // History, read by no operation.
    calls: nat,
    shifts: nat,
    enqueuedAt: map<Waiter, nat>,
    grants: seq<Waiter>)

  const INITIAL := State(0, 0, [], map[], [], map[], 0, 0, map[], [])

  /** The first settlement of a promise wins; later ones are ignored. */
  function Settle(settled: map<Waiter, Settlement>, waiter: Waiter, with: Settlement): map<Waiter, Settlement> {
    if waiter in settled then settled else settled[waiter := with]
  }

  function Grant(s: State, waiter: Waiter): State {
    s.(inFlight := s.inFlight + 1,
    released := s.released + [false],
    settled := Settle(s.settled, waiter, Granted(|s.released|)),
    grants := s.grants + [waiter])
  }

  /** Remove the head slot of the queue; a live head receives a permit. */
  function Shift(s: State): State
    requires s.waiters != []
  {
    var rest := s.(waiters := s.waiters[1..], shifts := s.shifts + 1);
    match s.waiters[0]
    case None => rest
    case Some(next) => Grant(rest.(live := s.live - 1, listeners := s.listeners - {next}), next)
  }

  function Compact(s: State): State {
    if s.live == 0 then s.(waiters := []) else s
  }

  function Pump(c: Limits, s: State): State
    decreases |s.waiters|
  {
    if s.inFlight < c.limit && s.live > 0 && s.waiters != [] then Pump(c, Shift(s)) else Compact(s)
  }

  function Enqueue(s: State, signal: Signal): State {
    var me := s.calls;
    s.(calls := me + 1,
    waiters := s.waiters + [Some(me)],
    live := s.live + 1,
    listeners := if signal.Watched? then s.listeners[me := |s.waiters|] else s.listeners,
    enqueuedAt := if signal.Watched? then s.enqueuedAt[me := s.shifts] else s.enqueuedAt)
  }

  function Acquire(c: Limits, s: State, signal: Signal): State {
    var me := s.calls;
    var called := s.(calls := s.calls + 1);
    if signal.AlreadyAborted? then called.(settled := Settle(s.settled, me, Aborted))
    else if s.inFlight < c.limit then Grant(called, me)
    else if s.live >= c.queueLimit then called.(settled := Settle(s.settled, me, QueueFull))
    else Enqueue(s, signal)
  }

  function Release(c: Limits, s: State, permit: nat): State {
    if permit < |s.released| && !s.released[permit]
    then Pump(c, s.(released := s.released[permit := true], inFlight := s.inFlight - 1))
    else s
  }

  /** Fire the abort listener of a waiter, if it is still attached. */
  function Abort(s: State, waiter: Waiter): State {
    if waiter !in s.listeners then s
    else
      var index := s.listeners[waiter];
      var fired := s.(listeners := s.listeners - {waiter});
      if index < |s.waiters| && s.waiters[index].Some?
      then fired.(
          waiters := s.waiters[index := None],
          live := s.live - 1,
          settled := Settle(s.settled, waiter, Aborted))
      else fired
  }

  datatype Event = EvAcquire(signal: Signal) | EvRelease(permit: nat) | EvAbort(waiter: Waiter)

  function Step(c: Limits, s: State, e: Event): State {
    match e
    case EvAcquire(signal) => Acquire(c, s, signal)
    case EvRelease(permit) => Release(c, s, permit)
    case EvAbort(waiter) => Abort(s, waiter)
  }

  function Run(c: Limits, events: seq<Event>): State
    decreases |events|
  {
    if events == [] then INITIAL
    else Step(c, Run(c, events[..|events| - 1]), events[|events| - 1])
  }

  // ---- what every reachable state satisfies -------------------------------------------

  predicate ValidLimits(c: Limits) {
    1 <= c.limit <= 512 && 1 <= c.queueLimit <= 100000
  }

  /** The counters agree with the queue and with the release flags. */
  ghost predicate Counted(c: Limits, s: State) {
    && s.live == |Present(s.waiters)| <= c.queueLimit
    && s.inFlight == CountFalse(s.released) <= c.limit
    && |s.grants| == |s.released|
  }

  /** Everyone granted so far, followed by everyone still queued. */
  function Line(s: State): seq<Waiter> {
    s.grants + Present(s.waiters)
  }

  ghost predicate Ordered(s: State) {
    && Increasing(Line(s))
    && (forall w :: w in Line(s) ==> w < s.calls)
    && (forall w :: w in s.settled ==> w < s.calls)
    && (forall w :: w in s.listeners ==> w < s.calls)
    && (forall w :: w in s.enqueuedAt ==> w < s.calls)
  }

  /** A queued waiter sits exactly as far in front of its captured index as the queue has shifted since. */
  ghost predicate Tracked(s: State) {
    && (forall w :: w in s.listeners ==> w in s.enqueuedAt && s.enqueuedAt[w] <= s.shifts)
    && (forall p :: 0 <= p < |s.waiters| && s.waiters[p].Some? && s.waiters[p].value in s.listeners ==>
          s.listeners[s.waiters[p].value] == p + s.shifts - s.enqueuedAt[s.waiters[p].value])
  }

  /** Nobody waits while a permit is free. */
  ghost predicate WorkConserving(c: Limits, s: State) {
    s.live > 0 ==> s.inFlight == c.limit
  }

  ghost predicate Inv(c: Limits, s: State) {
    Counted(c, s) && Ordered(s) && Tracked(s) && WorkConserving(c, s)
  }

  lemma ShiftKeepsLine(s: State)
    requires s.waiters != []
    ensures Line(Shift(s)) == Line(s) && Present(s.waiters[1..]) == Present(Shift(s).waiters)
    ensures s.waiters[0].Some? ==> s.waiters[0].value in Line(s)
  {
    if s.waiters[0].Some? {
      assert s.waiters[0].value == Line(s)[|s.grants|];
    }
  }

  lemma ShiftKeepsCounts(c: Limits, s: State)
    requires Counted(c, s) && s.inFlight < c.limit && s.waiters != []
    ensures Counted(c, Shift(s)) && (s.waiters[0].Some? ==> Shift(s).inFlight == s.inFlight + 1)
  {
    if s.waiters[0].Some? {
      CountFalseConcat(s.released, [false]);
    }
  }

  lemma ShiftKeepsTrack(s: State)
    requires Tracked(s) && s.waiters != []
    ensures Tracked(Shift(s))
  {
  }

  lemma ShiftKeeps(c: Limits, s: State)
    requires Counted(c, s) && Ordered(s) && Tracked(s) && s.inFlight < c.limit && s.waiters != []
    ensures Counted(c, Shift(s)) && Ordered(Shift(s)) && Tracked(Shift(s))
    ensures s.waiters[0].Some? ==> Shift(s).inFlight == s.inFlight + 1
    ensures Line(Shift(s)) == Line(s)
  {
    ShiftKeepsLine(s);
    ShiftKeepsCounts(c, s);
    ShiftKeepsTrack(s);
  }

  /** `pump` keeps the counters, the order and the bookkeeping, and leaves no free permit beside a waiter. */
  lemma {:induction false} PumpKeeps(c: Limits, s: State)
    requires Counted(c, s) && Ordered(s) && Tracked(s)
    ensures Inv(c, Pump(c, s))
    ensures Line(Pump(c, s)) == Line(s)
    decreases |s.waiters|
  {
    if s.inFlight < c.limit && s.live > 0 && s.waiters != [] {
      ShiftKeeps(c, s);
      PumpKeeps(c, Shift(s));
    }
  }

  lemma EnqueueKeeps(c: Limits, s: State, signal: Signal)
    requires ValidLimits(c) && Inv(c, s)
    requires !signal.AlreadyAborted? && s.inFlight >= c.limit && s.live < c.queueLimit
    ensures Inv(c, Acquire(c, s, signal))
    ensures Line(Acquire(c, s, signal)) == Line(s) + [s.calls]
  {
    var t := Acquire(c, s, signal);
    PresentConcat(s.waiters, [Some(s.calls)]);
    assert Line(t) == Line(s) + [s.calls];
    IncreasingAppend(Line(s), s.calls);
    forall p | 0 <= p < |t.waiters| && t.waiters[p].Some? && t.waiters[p].value in t.listeners
      ensures t.listeners[t.waiters[p].value] == p + t.shifts - t.enqueuedAt[t.waiters[p].value]
    {
      if p < |s.waiters| {
        PresentMember(s.waiters, s.waiters[p].value);
        assert s.waiters[p].value in Line(s);
      }
    }
  }

  lemma AcquireKeeps(c: Limits, s: State, signal: Signal)
    requires ValidLimits(c) && Inv(c, s)
    ensures Inv(c, Acquire(c, s, signal))
  {
    if !signal.AlreadyAborted? {
      if s.inFlight < c.limit {
        CountFalseConcat(s.released, [false]);
        assert Line(Acquire(c, s, signal)) == Line(s) + [s.calls];
        IncreasingAppend(Line(s), s.calls);
      } else if s.live < c.queueLimit {
        EnqueueKeeps(c, s, signal);
      }
    }
  }

  lemma AbortKeeps(c: Limits, s: State, waiter: Waiter)
    requires ValidLimits(c) && Inv(c, s)
    ensures Inv(c, Abort(s, waiter))
  {
    if waiter in s.listeners {
      var index := s.listeners[waiter];
      if index < |s.waiters| && s.waiters[index].Some? {
        PresentAt(s.waiters, index);
        var a, b := Present(s.waiters[..index]), Present(s.waiters[index + 1..]);
        var victim := s.waiters[index].value;
        assert Line(s) == (s.grants + a) + ([victim] + b);
        IncreasingDrop(s.grants + a, victim, b);
        assert Line(Abort(s, waiter)) == (s.grants + a) + b;
      }
    }
  }

  lemma IncreasingAppend(a: seq<nat>, x: nat)
    requires Increasing(a) && forall w :: w in a ==> w < x
    ensures Increasing(a + [x])
    ensures forall w :: w in a + [x] ==> w <= x
  {
    forall i, j | 0 <= i < j < |a + [x]| ensures (a + [x])[i] < (a + [x])[j] {
      assert a[i] in a;
    }
  }

  lemma IncreasingDrop(a: seq<nat>, x: nat, b: seq<nat>)
    requires Increasing(a + ([x] + b))
    ensures Increasing(a + b)
    ensures forall w :: w in a + b ==> w in a + ([x] + b)
  {
    var whole := a + ([x] + b);
    forall i, j | 0 <= i < j < |a + b| ensures (a + b)[i] < (a + b)[j] {
      var i', j' := if i < |a| then i else i + 1, if j < |a| then j else j + 1;
      assert whole[i'] == (a + b)[i] && whole[j'] == (a + b)[j];
    }
    forall w | w in a + b ensures w in whole {
      var i :| 0 <= i < |a + b| && (a + b)[i] == w;
      assert whole[if i < |a| then i else i + 1] == w;
    }
  }

  lemma ReleaseKeeps(c: Limits, s: State, permit: nat)
    requires Inv(c, s)
    ensures Inv(c, Release(c, s, permit))
  {
    if permit < |s.released| && !s.released[permit] {
      CountFalseRaise(s.released, permit);
      PumpKeeps(c, s.(released := s.released[permit := true], inFlight := s.inFlight - 1));
    }
  }

  lemma StepKeeps(c: Limits, s: State, e: Event)
    requires ValidLimits(c) && Inv(c, s)
    ensures Inv(c, Step(c, s, e))
  {
    match e
    case EvAcquire(signal) => AcquireKeeps(c, s, signal);
    case EvRelease(permit) => ReleaseKeeps(c, s, permit);
    case EvAbort(waiter) => AbortKeeps(c, s, waiter);
  }

  /**
   * Every reachable state, however acquires, releases and aborts interleave: the counters
   * are exact and bounded, nobody waits beside a free permit, and the waiters granted so
   * far followed by the waiters still queued are in the order in which they called.
   */
  lemma {:induction false} EveryRunIsSafe(c: Limits, events: seq<Event>)
    requires ValidLimits(c)
    ensures Inv(c, Run(c, events))
    decreases |events|
  {
    if events != [] {
      EveryRunIsSafe(c, events[..|events| - 1]);
      StepKeeps(c, Run(c, events[..|events| - 1]), events[|events| - 1]);
    }
  }

  lemma DoubleReleaseIsIdle(c: Limits, s: State, permit: nat)
    requires ValidLimits(c) && Inv(c, s)
    ensures Release(c, Release(c, s, permit), permit) == Release(c, s, permit)
  {
    if permit < |s.released| && !s.released[permit] {
      PumpKeepsFlags(c, s.(released := s.released[permit := true], inFlight := s.inFlight - 1), permit);
    }
  }

  lemma {:induction false} PumpKeepsFlags(c: Limits, s: State, permit: nat)
    requires permit < |s.released|
    ensures permit < |Pump(c, s).released| && Pump(c, s).released[permit] == s.released[permit]
    decreases |s.waiters|
  {
    if s.inFlight < c.limit && s.live > 0 && s.waiters != [] {
      PumpKeepsFlags(c, Shift(s), permit);
    }
  }

  // ---- which waiter an abort removes ----------------------------------------------------

  lemma {:induction false} NoneFalse(flags: seq<bool>)
    requires forall i :: 0 <= i < |flags| ==> flags[i]
    ensures CountFalse(flags) == 0
  {
    if flags != [] {
      NoneFalse(flags[1..]);
    }
  }

  /** Callers that return every permit leave an idle semaphore behind: nothing in flight, nobody waiting. */
  lemma ReturnedPermitsLeaveItIdle(c: Limits, events: seq<Event>)
    requires ValidLimits(c) && forall i :: 0 <= i < |Run(c, events).released| ==> Run(c, events).released[i]
    ensures var s := Run(c, events);
            s.inFlight == 0 && s.live == 0 && Present(s.waiters) == []
  {
    EveryRunIsSafe(c, events);
    NoneFalse(Run(c, events).released);
  }

  /**
   * The abort of a queued waiter removes exactly that waiter if and only if no slot has
   * been shifted off the queue since it was enqueued.
   */
  lemma AbortRemovesItsOwnWaiterExactly(c: Limits, s: State, waiter: Waiter)
    requires Inv(c, s) && waiter in s.listeners && waiter in Present(s.waiters)
    ensures Present(Abort(s, waiter).waiters) == Without(Present(s.waiters), waiter)
            <==> s.enqueuedAt[waiter] == s.shifts
  {
    PresentMember(s.waiters, waiter);
    var p :| 0 <= p < |s.waiters| && s.waiters[p] == Some(waiter);
    var index := s.listeners[waiter];
    if index == p {
      AbortAt(s, waiter, p);
    } else {
      assert Abort(s, waiter).waiters[p] == Some(waiter);
      PresentMember(Abort(s, waiter).waiters, waiter);
      WithoutAbsent(Present(s.waiters), waiter);
    }
  }

  lemma AbortAt(s: State, waiter: Waiter, p: nat)
    requires p < |s.waiters| && s.waiters[p] == Some(waiter)
    requires waiter in s.listeners && s.listeners[waiter] == p && Increasing(Line(s))
    ensures Present(Abort(s, waiter).waiters) == Without(Present(s.waiters), waiter)
  {
    PresentAt(s.waiters, p);
    var a, b := Present(s.waiters[..p]), Present(s.waiters[p + 1..]);
    var n := |s.grants|;
    forall i | 0 <= i < |a| + 1 + |b| && i != |a| ensures (a + [waiter] + b)[i] != waiter {
      assert Line(s)[n + i] == (a + [waiter] + b)[i] && Line(s)[n + |a|] == waiter;
    }
    forall i | 0 <= i < |b| ensures b[i] != waiter {
      assert b[i] == (a + [waiter] + b)[|a| + 1 + i];
    }
    forall i | 0 <= i < |a| ensures a[i] != waiter {
      assert a[i] == (a + [waiter] + b)[i];
    }
    WithoutSplit(a, waiter, b);
  }

  // ---- refinement of an ideal first-in first-out queue -----------------------------------

  /** An ideal semaphore: a queue of identities with no tombstones, indices or counters. */
  datatype Ideal = Ideal(
    released: seq<bool>,
    queue: seq<Waiter>,
    watched: set<Waiter>,
    settled: map<Waiter, Settlement>,
    calls: nat,
    grants: seq<Waiter>)

  function Abstract(s: State): Ideal {
    Ideal(s.released, Present(s.waiters), s.enqueuedAt.Keys, s.settled, s.calls, s.grants)
  }

  function IdealGrant(i: Ideal, waiter: Waiter): Ideal {
    i.(released := i.released + [false],
    settled := i.settled[waiter := Granted(|i.released|)],
    grants := i.grants + [waiter])
  }

  function IdealEnqueue(i: Ideal, signal: Signal): Ideal {
    i.(calls := i.calls + 1, queue := i.queue + [i.calls],
    watched := if signal.Watched? then i.watched + {i.calls} else i.watched)
  }

  /** A release hands its permit straight to the head of the queue. */
  function IdealStep(c: Limits, i: Ideal, e: Event): Ideal {
    match e
    case EvAcquire(signal) =>
      var me := i.calls;
      var called := i.(calls := me + 1);
      if signal.AlreadyAborted? then called.(settled := i.settled[me := Aborted])
      else if CountFalse(i.released) < c.limit then IdealGrant(called, me)
      else if |i.queue| >= c.queueLimit then called.(settled := i.settled[me := QueueFull])
      else IdealEnqueue(i, signal)
    case EvRelease(permit) =>
      if permit >= |i.released| || i.released[permit] then i
      else
        var freed := i.(released := i.released[permit := true]);
        if i.queue == [] then freed else IdealGrant(freed.(queue := i.queue[1..]), i.queue[0])
    case EvAbort(waiter) =>
      if waiter in i.watched && waiter in i.queue
      then i.(queue := Without(i.queue, waiter), settled := i.settled[waiter := Aborted])
      else i
  }

  function IdealRun(c: Limits, events: seq<Event>): Ideal {
    if events == [] then Ideal([], [], {}, map[], 0, [])
    else IdealStep(c, IdealRun(c, events[..|events| - 1]), events[|events| - 1])
  }

  /** No slot separates a waiter's enqueue from its abort. */
  predicate Timely(s: State, e: Event) {
    e.EvAbort? && e.waiter in s.listeners ==>
      e.waiter in s.enqueuedAt && s.enqueuedAt[e.waiter] == s.shifts
  }

  ghost predicate TimelyRun(c: Limits, events: seq<Event>) {
    forall n :: 0 <= n < |events| ==> Timely(Run(c, events[..n]), events[n])
  }

  /** Every call is either settled or queued, never both, and every permit is held by the caller it was granted to. */
  ghost predicate Accounted(s: State) {
    Settled(s) && Held(s) && Listening(s)
  }

  ghost predicate Settled(s: State) {
    forall w: Waiter :: w in s.settled <==> w < s.calls && w !in Present(s.waiters)
  }

  ghost predicate Held(s: State) {
    forall p :: 0 <= p < |s.grants| ==> s.grants[p] in s.settled && s.settled[s.grants[p]] == Granted(p)
  }

  ghost predicate Listening(s: State) {
    forall w: Waiter :: w in s.listeners <==> w in s.enqueuedAt && w in Present(s.waiters)
  }

  lemma {:induction false} PumpHandsOff(c: Limits, s: State)
    requires Counted(c, s) && Ordered(s) && Tracked(s) && Accounted(s)
    requires s.inFlight == c.limit - 1
    ensures Accounted(Pump(c, s))
    ensures s.live == 0 ==> Abstract(Pump(c, s)) == Abstract(s)
    ensures s.live > 0 ==>
              Abstract(Pump(c, s))
              == IdealGrant(Abstract(s).(queue := Present(s.waiters)[1..]), Present(s.waiters)[0])
    decreases |s.waiters|
  {
    if s.live == 0 {
      CompactKeeps(s);
    } else if s.waiters[0].None? {
      SkipTombstone(c, s);
      PumpShifts(c, s);
      PumpHandsOff(c, Shift(s));
    } else {
      ShiftAccounted(s);
      PumpGrantsOnce(c, s);
    }
  }

  lemma TombstoneIsNobody(s: State)
    requires s.waiters != [] && s.waiters[0].None?
    ensures Shift(s) == s.(waiters := s.waiters[1..], shifts := s.shifts + 1)
    ensures Present(s.waiters[1..]) == Present(s.waiters)
  {
  }

  lemma SkipTombstone(c: Limits, s: State)
    requires Counted(c, s) && Ordered(s) && Tracked(s) && Accounted(s)
    requires s.inFlight < c.limit && s.live > 0 && s.waiters != [] && s.waiters[0].None?
    ensures Counted(c, Shift(s)) && Ordered(Shift(s)) && Tracked(Shift(s)) && Accounted(Shift(s))
    ensures Abstract(Shift(s)) == Abstract(s) && Shift(s).live == s.live && Shift(s).inFlight == s.inFlight
  {
    ShiftKeeps(c, s);
    TombstoneIsNobody(s);
    ShiftAccounted(s);
  }

  lemma PumpShifts(c: Limits, s: State)
    requires s.inFlight < c.limit && s.live > 0 && s.waiters != []
    ensures Pump(c, s) == Pump(c, Shift(s))
  {
  }

  lemma PumpGrantsOnce(c: Limits, s: State)
    requires Counted(c, s) && Ordered(s) && Tracked(s) && s.inFlight == c.limit - 1
    requires s.waiters != [] && s.waiters[0].Some? && Accounted(Shift(s))
    ensures Accounted(Pump(c, s)) && Abstract(Pump(c, s)) == Abstract(Shift(s))
  {
    ShiftKeeps(c, s);
    assert Pump(c, s) == Pump(c, Shift(s)) == Compact(Shift(s));
    CompactKeeps(Shift(s));
  }

  lemma CompactKeeps(s: State)
    requires s.live == |Present(s.waiters)| && Accounted(s)
    ensures Accounted(Compact(s)) && Abstract(Compact(s)) == Abstract(s)
  {
    if s.live == 0 {
      assert Present(s.waiters) == [] == Present(Compact(s).waiters);
    }
  }

  lemma ShiftAccounted(s: State)
    requires s.waiters != [] && Accounted(s) && Ordered(s) && |s.grants| == |s.released|
    ensures Accounted(Shift(s))
    ensures s.waiters[0].Some? ==>
              Abstract(Shift(s)) == IdealGrant(Abstract(s).(queue := Present(s.waiters)[1..]), Present(s.waiters)[0])
  {
    if s.waiters[0].Some? {
      var next, rest := s.waiters[0].value, Present(s.waiters[1..]);
      assert Present(s.waiters) == [next] + rest;
      forall i | 0 <= i < |rest| ensures rest[i] != next {
        assert Line(s)[|s.grants|] == next && Line(s)[|s.grants| + 1 + i] == rest[i];
      }
      assert next in Line(s) by { assert Line(s)[|s.grants|] == next; }
      assert next in Present(s.waiters);
      assert forall w :: w in Present(s.waiters) <==> w == next || w in rest;
    }
  }

  lemma CallerIsNew(c: Limits, s: State)
    requires Inv(c, s) && Accounted(s)
    ensures s.calls !in Present(s.waiters) && s.calls !in s.settled
    ensures s.calls !in s.listeners && s.calls !in s.enqueuedAt
  {
    assert forall w :: w in Present(s.waiters) ==> w in Line(s);
  }

  lemma RefusedAccounted(s: State, why: Settlement)
    requires Accounted(s) && s.calls !in Present(s.waiters) && s.calls !in s.settled
    ensures Accounted(s.(calls := s.calls + 1, settled := s.settled[s.calls := why]))
  {
  }

  lemma AcquireRefines(c: Limits, s: State, signal: Signal)
    requires ValidLimits(c) && Inv(c, s) && Accounted(s)
    ensures Accounted(Acquire(c, s, signal))
    ensures Abstract(Acquire(c, s, signal)) == IdealStep(c, Abstract(s), EvAcquire(signal))
  {
    CallerIsNew(c, s);
    if signal.AlreadyAborted? {
      RefusedAccounted(s, Aborted);
    } else if s.inFlight < c.limit {
      GrantAccounted(s, s.(calls := s.calls + 1), s.calls);
    } else if s.live >= c.queueLimit {
      RefusedAccounted(s, QueueFull);
    } else {
      EnqueueRefines(s, signal);
    }
  }

  lemma GrantAccounted(s: State, called: State, me: Waiter)
    requires Accounted(s) && |s.grants| == |s.released| && Present(s.waiters) == []
    requires called == s.(calls := s.calls + 1) && me == s.calls
    ensures Accounted(Grant(called, me)) && Abstract(Grant(called, me)) == IdealGrant(Abstract(called), me)
  {
    assert me !in s.settled;
  }

  lemma EnqueueRefines(s: State, signal: Signal)
    requires Accounted(s) && s.calls !in s.listeners && s.calls !in s.enqueuedAt
    ensures Accounted(Enqueue(s, signal))
    ensures Abstract(Enqueue(s, signal)) == IdealEnqueue(Abstract(s), signal)
  {
    var me, t := s.calls, Enqueue(s, signal);
    PresentConcat(s.waiters, [Some(me)]);
    assert Present(t.waiters) == Present(s.waiters) + [me];
    assert signal.Watched? ==> t.enqueuedAt.Keys == s.enqueuedAt.Keys + {me};
    EnqueueAccounted(s, t, me, signal.Watched?);
  }

  lemma EnqueueAccounted(s: State, t: State, me: Waiter, watched: bool)
    requires Accounted(s) && me == s.calls && me !in s.listeners && me !in s.enqueuedAt
    requires Present(t.waiters) == Present(s.waiters) + [me] && t.settled == s.settled && t.grants == s.grants
    requires t.calls == s.calls + 1
    requires watched ==> t.listeners.Keys == s.listeners.Keys + {me} && t.enqueuedAt.Keys == s.enqueuedAt.Keys + {me}
    requires !watched ==> t.listeners == s.listeners && t.enqueuedAt == s.enqueuedAt
    ensures Accounted(t)
  {
    assert forall w :: w in Present(t.waiters) <==> w in Present(s.waiters) || w == me;
    assert forall w :: w in t.listeners <==> w in t.listeners.Keys;
  }

  lemma AbortRefines(c: Limits, s: State, waiter: Waiter)
    requires ValidLimits(c) && Inv(c, s) && Accounted(s) && Timely(s, EvAbort(waiter))
    ensures Accounted(Abort(s, waiter))
    ensures Abstract(Abort(s, waiter)) == IdealStep(c, Abstract(s), EvAbort(waiter))
  {
    if waiter in s.listeners {
      AbortRemovesItsOwnWaiterExactly(c, s, waiter);
      PresentMember(s.waiters, waiter);
      var p :| 0 <= p < |s.waiters| && s.waiters[p] == Some(waiter);
      WithoutOthers(Present(s.waiters), waiter);
    }
  }

  lemma {:induction false} WithoutOthers(q: seq<Waiter>, x: Waiter)
    ensures forall w :: w in Without(q, x) <==> w in q && w != x
  {
    if q != [] {
      WithoutOthers(q[1..], x);
    }
  }

  lemma ReleaseRefines(c: Limits, s: State, permit: nat)
    requires Inv(c, s) && Accounted(s)
    ensures Accounted(Release(c, s, permit))
    ensures Abstract(Release(c, s, permit)) == IdealStep(c, Abstract(s), EvRelease(permit))
  {
    if permit < |s.released| && !s.released[permit] {
      var freed := s.(released := s.released[permit := true], inFlight := s.inFlight - 1);
      CountFalseRaise(s.released, permit);
      if s.live > 0 {
        PumpHandsOff(c, freed);
      } else {
        CompactKeeps(freed);
        assert Pump(c, freed) == Compact(freed);
      }
    }
  }

  lemma StepRefines(c: Limits, s: State, e: Event)
    requires ValidLimits(c) && Inv(c, s) && Accounted(s) && Timely(s, e)
    ensures Accounted(Step(c, s, e))
    ensures Abstract(Step(c, s, e)) == IdealStep(c, Abstract(s), e)
  {
    match e
    case EvAcquire(signal) => AcquireRefines(c, s, signal);
    case EvAbort(waiter) => AbortRefines(c, s, waiter);
    case EvRelease(permit) => ReleaseRefines(c, s, permit);
  }

  lemma TimelyBefore(c: Limits, events: seq<Event>)
    requires TimelyRun(c, events) && events != []
    ensures TimelyRun(c, events[..|events| - 1])
  {
    var n := |events| - 1;
    forall m | 0 <= m < n ensures Timely(Run(c, events[..n][..m]), events[..n][m]) {
      TakeTwice(events, n, m);
    }
  }

  lemma InitialIsIdeal(c: Limits)
    ensures Abstract(INITIAL) == IdealRun(c, []) && Accounted(INITIAL)
  {
    assert Present(INITIAL.waiters) == [];
  }

  /**
   * Along every run whose aborts are timely the semaphore is the ideal queue: permits go to
   * waiters in arrival order, an abort removes its own waiter, no permit goes to a caller
   * that has left, and a call is unsettled exactly while it is queued.
   */
  lemma {:induction false} TimelyRunRefinesIdeal(c: Limits, events: seq<Event>)
    requires ValidLimits(c) && TimelyRun(c, events)
    ensures Abstract(Run(c, events)) == IdealRun(c, events)
    ensures Accounted(Run(c, events))
    decreases |events|
  {
    if events == [] {
      InitialIsIdeal(c);
    } else {
      var front := events[..|events| - 1];
      TimelyBefore(c, events);
      TimelyRunRefinesIdeal(c, front);
      EveryRunIsSafe(c, front);
      StepRefines(c, Run(c, front), events[|events| - 1]);
    }
  }

  /**
   * Without that condition it fails. With one permit, caller 1 is granted after a shift,
   * then the abort of caller 2 empties the slot of caller 3. Caller 2 is rejected yet later
   * given the only permit, which nobody can release, and caller 3 is neither queued nor settled.
   */
  lemma LateAbortLosesAPermitAndAWaiter(c: Limits)
    requires c.limit == 1 && 3 <= c.queueLimit
    ensures var s := Run(c, LateAbort());
            && s.grants == [0, 1, 2] && s.released == [true, true, false] && s.inFlight == 1
            && s.settled == map[0 := Granted(0), 1 := Granted(1), 2 := Aborted]
            && s.calls == 4 && s.waiters == []
  {
    var queued := [EvAcquire(NoSignal), EvAcquire(Watched), EvAcquire(Watched), EvAcquire(Watched)];
    LateAbortQueue(c, queued);
    LateAbortRun(c, queued);
    LateAbortFrom(c);
    assert LateAbort() == queued + [EvRelease(0)] + [EvAbort(2)] + [EvRelease(1)];
  }

  lemma LateAbortRun(c: Limits, queued: seq<Event>)
    ensures Run(c, queued + [EvRelease(0)] + [EvAbort(2)] + [EvRelease(1)])
         == Release(c, Abort(Release(c, Run(c, queued), 0), 2), 1)
  {
    RunSnoc(c, queued, EvRelease(0));
    RunSnoc(c, queued + [EvRelease(0)], EvAbort(2));
    RunSnoc(c, queued + [EvRelease(0)] + [EvAbort(2)], EvRelease(1));
  }

  function LateAbort(): seq<Event> {
    [EvAcquire(NoSignal), EvAcquire(Watched), EvAcquire(Watched), EvAcquire(Watched),
     EvRelease(0), EvAbort(2), EvRelease(1)]
  }

  function FourCalls(): State {
    State(1, 3, [Some(1), Some(2), Some(3)], map[1 := 0, 2 := 1, 3 := 2], [false],
          map[0 := Granted(0)], 4, 0, map[1 := 0, 2 := 0, 3 := 0], [0])
  }

  lemma LateAbortQueue(c: Limits, queued: seq<Event>)
    requires c.limit == 1 && 3 <= c.queueLimit
    requires queued == [EvAcquire(NoSignal), EvAcquire(Watched), EvAcquire(Watched), EvAcquire(Watched)]
    ensures Run(c, queued) == FourCalls()
  {
    var e := EvAcquire(Watched);
    RunSnoc(c, [], EvAcquire(NoSignal));
    RunSnoc(c, [EvAcquire(NoSignal)], e);
    RunSnoc(c, [EvAcquire(NoSignal), e], e);
    RunSnoc(c, [EvAcquire(NoSignal), e, e], e);
    assert queued == [EvAcquire(NoSignal), e, e] + [e];
    assert [EvAcquire(NoSignal), e, e] == [EvAcquire(NoSignal), e] + [e];
    assert [EvAcquire(NoSignal), e] == [EvAcquire(NoSignal)] + [e];
    assert [EvAcquire(NoSignal)] == [] + [EvAcquire(NoSignal)];
    var s2 := Acquire(c, Acquire(c, INITIAL, NoSignal), Watched);
    assert s2 == State(1, 1, [Some(1)], map[1 := 0], [false], map[0 := Granted(0)], 2, 0, map[1 := 0], [0]);
    assert Acquire(c, s2, Watched).waiters == [Some(1), Some(2)];
  }

  lemma RunSnoc(c: Limits, events: seq<Event>, e: Event)
    ensures Run(c, events + [e]) == Step(c, Run(c, events), e)
  {
    assert (events + [e])[..|events|] == events;
  }

  /** The second caller is granted after a shift. */
  function OneGranted(): State {
    State(1, 2, [Some(2), Some(3)], map[2 := 1, 3 := 2], [true, false],
          map[0 := Granted(0), 1 := Granted(1)], 4, 1, map[1 := 0, 2 := 0, 3 := 0], [0, 1])
  }

  lemma LateAbortGrant(c: Limits)
    requires c.limit == 1
    ensures Release(c, FourCalls(), 0) == OneGranted()
  {
    var freed := FourCalls().(released := [true], inFlight := 0);
    assert FourCalls().released[0 := true] == [true];
    assert Shift(freed) == OneGranted();
    assert Pump(c, freed) == Pump(c, OneGranted()) == OneGranted();
  }

  lemma LateAbortFrom(c: Limits)
    requires c.limit == 1 && 3 <= c.queueLimit
    ensures var s := Release(c, Abort(Release(c, FourCalls(), 0), 2), 1);
            && s.grants == [0, 1, 2] && s.released == [true, true, false] && s.inFlight == 1
            && s.settled == map[0 := Granted(0), 1 := Granted(1), 2 := Aborted]
            && s.calls == 4 && s.waiters == []
  {
    LateAbortGrant(c);
    var s6 := Abort(OneGranted(), 2);
    assert s6.waiters == [Some(2), None] && s6.live == 1 && s6.settled == OneGranted().settled[2 := Aborted];
    var freed6 := s6.(released := [true, true], inFlight := 0);
    assert s6.released[1 := true] == [true, true];
    var s7 := Shift(freed6);
    assert s7.waiters == [None] && s7.grants == [0, 1, 2] && s7.live == 0 && s7.inFlight == 1;
    assert Pump(c, freed6) == Pump(c, s7) == Compact(s7);
  }

  // ---- the object the process shares ----------------------------------------------------

  datatype CreateError = InvalidLimit | InvalidQueueLimit

  class Limiter {
    const limits: Limits
    var inFlight: int
    var live: int
    var waiters: seq<Option<Waiter>>
    var listeners: map<Waiter, nat>
    var released: seq<bool>
    var settled: map<Waiter, Settlement>
    var calls: nat
    ghost var shifts: nat
    ghost var enqueuedAt: map<Waiter, nat>
    ghost var grants: seq<Waiter>

    ghost function View(): State
      reads this
    {
      State(inFlight, live, waiters, listeners, released, settled, calls, shifts, enqueuedAt, grants)
    }

    ghost predicate Valid()
      reads this
    {
      ValidLimits(limits) && Inv(limits, View())
    }

    constructor (limits: Limits)
      requires ValidLimits(limits)
      ensures Valid() && this.limits == limits && View() == INITIAL
    {
      this.limits := limits;
      inFlight, live, waiters, listeners := 0, 0, [], map[];
      released, settled, calls := [], map[], 0;
      shifts, enqueuedAt, grants := 0, map[], [];
    }

    /** Hand out a release closure: a fresh flag that only `ReleasePermit` raises. */
    method MakeRelease(waiter: Waiter)
      modifies this`released, this`settled, this`grants
      ensures View() == Grant(old(View()), waiter).(inFlight := inFlight)
    {
      settled := Settle(settled, waiter, Granted(|released|));
      released := released + [false];
      grants := grants + [waiter];
    }

    /** Shift the head off the queue; an occupied slot receives a permit, a vacated one nothing. */
    method TakeHead()
      requires waiters != []
      modifies this
      ensures View() == Shift(old(View()))
    {
      var next := waiters[0];
      waiters := waiters[1..];
      shifts := shifts + 1;
      if next.Some? {
        live := live - 1;
        inFlight := inFlight + 1;
        listeners := listeners - {next.value};
        MakeRelease(next.value);
      }
    }

    method DrainQueue()
      requires ValidLimits(limits) && Counted(limits, View()) && Ordered(View()) && Tracked(View())
      modifies this
      ensures Valid() && View() == Pump(limits, old(View()))
    {
      PumpKeeps(limits, View());
      while inFlight < limits.limit && live > 0
        invariant Counted(limits, View()) && Ordered(View()) && Tracked(View())
        invariant Pump(limits, View()) == old(Pump(limits, View()))
        decreases |waiters|
      {
        // Only because `live` counts the occupied slots is the queue non-empty here; shifting
        // an empty queue would leave the loop condition unchanged.
        assert waiters != [];
        ShiftKeeps(limits, View());
        TakeHead();
      }
      if live == 0 {
        waiters := [];
      }
    }

    method Admit(signal: Signal) returns (me: Waiter)
      modifies this
      ensures View() == Acquire(limits, old(View()), signal) && me == old(calls)
    {
      me := calls;
      calls := calls + 1;
      if signal.AlreadyAborted? {
        settled := Settle(settled, me, Aborted);
      } else if inFlight < limits.limit {
        inFlight := inFlight + 1;
        MakeRelease(me);
      } else if live >= limits.queueLimit {
        settled := Settle(settled, me, QueueFull);
      } else {
        if signal.Watched? {
          listeners := listeners[me := |waiters|];
          enqueuedAt := enqueuedAt[me := shifts];
        }
        waiters := waiters + [Some(me)];
        live := live + 1;
      }
    }

    /** The new caller's identity; its promise is settled in `settled` or still pending. */
    method AcquirePermit(signal: Signal) returns (me: Waiter)
      requires Valid()
      modifies this
      ensures Valid() && View() == Acquire(limits, old(View()), signal) && me == old(calls)
    {
      AcquireKeeps(limits, View(), signal);
      me := Admit(signal);
    }

    /** Call a release closure, any number of times. */
    method ReleasePermit(permit: nat)
      requires Valid() && permit < |released|
      modifies this
      ensures Valid() && View() == Release(limits, old(View()), permit)
    {
      ReleaseKeeps(limits, View(), permit);
      if released[permit] {
        return;
      }
      CountFalseRaise(released, permit);
      released := released[permit := true];
      inFlight := inFlight - 1;
      DrainQueue();
    }

    method OnAbort(waiter: Waiter)
      requires Valid()
      modifies this
      ensures Valid() && View() == Abort(old(View()), waiter)
    {
      AbortKeeps(limits, View(), waiter);
      if waiter in listeners {
        var index := listeners[waiter];
        listeners := listeners - {waiter};
        if index < |waiters| && waiters[index].Some? {
          waiters := waiters[index := None];
          live := live - 1;
          settled := Settle(settled, waiter, Aborted);
        }
      }
    }
  }

  /** Limits outside their range are refused, never clamped. */
  method CreateSemaphore(limit: int := 32, queueLimit: int := 256) returns (r: Result<Limiter, CreateError>)
    ensures r.Ok? <==> 1 <= limit <= 512 && 1 <= queueLimit <= 100000
    ensures r.Ok? ==> fresh(r.value) && r.value.Valid() && r.value.limits == Limits(limit, queueLimit)
                      && r.value.View() == INITIAL
    ensures r == Err(InvalidLimit) <==> !(1 <= limit <= 512)
  {
    if !(1 <= limit <= 512) {
      return Err(InvalidLimit);
    }
    if !(1 <= queueLimit <= 100000) {
      return Err(InvalidQueueLimit);
    }
    var limiter := new Limiter(Limits(limit, queueLimit));
    return Ok(limiter);
  }
}
