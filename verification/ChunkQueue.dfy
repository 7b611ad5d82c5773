/** The queue that hands pushed stream chunks to one pulling consumer. */
module ChunkQueue {
  import opened Prelude

  /** `wake`: the consumer is suspended and has left its resume callback behind. */
  datatype State<T, E> = State(items: seq<T>, error: Option<E>, ended: bool, wake: bool)

  datatype Outcome<T, E> = Item(chunk: T) | Threw(error: E) | Finished

  datatype Event<T, E> = Pushed(chunk: T) | Failed(error: E) | Ended | Polled

  /** One call of `next`, or its resumption, up to a result or a suspension. */
  function Poll<T, E>(s: State<T, E>): (State<T, E>, seq<Outcome<T, E>>) {
    if s.items != [] then (s.(items := s.items[1..]), [Item(s.items[0])])
    else if s.error.Some? then (s.(error := None, ended := true), [Threw(s.error.value)])
    else if s.ended then (s, [Finished])
    else (s.(wake := true), [])
  }

  function Step<T, E>(s: State<T, E>, event: Event<T, E>): (State<T, E>, seq<Outcome<T, E>>) {
    match event
    case Pushed(chunk) => (s.(items := s.items + [chunk], wake := false), [])
    case Failed(error) => (if s.error.None? && !s.ended then s.(error := Some(error), wake := false) else s, [])
    case Ended => (s.(ended := true, wake := false), [])
    case Polled => Poll(s)
  }

  function Run<T, E>(events: seq<Event<T, E>>): (State<T, E>, seq<Outcome<T, E>>) {
    if events == [] then (State([], None, false, false), [])
    else
      var (s, seen) := Run(events[..|events| - 1]);
      var (next, outcomes) := Step(s, events[|events| - 1]);
      (next, seen + outcomes)
  }

  function PushedIn<T, E>(events: seq<Event<T, E>>): seq<T> {
    if events == [] then []
    else
      PushedIn(events[..|events| - 1])
      + (if events[|events| - 1].Pushed? then [events[|events| - 1].chunk] else [])
  }

  datatype Closing<E> = Open | ByFailure(error: E) | ByEnd

  /** How the queue was closed: the first failure or end decides. */
  function ClosedBy<T, E>(events: seq<Event<T, E>>): Closing<E> {
    if events == [] then Open
    else
      var early := ClosedBy(events[..|events| - 1]);
      if !early.Open? then early
      else
        match events[|events| - 1]
        case Failed(error) => ByFailure(error)
        case Ended => ByEnd
        case _ => Open
  }

  /** The producer stops pushing once it has closed the queue. */
  ghost predicate Orderly<T, E>(events: seq<Event<T, E>>) {
    events != [] ==>
      && Orderly(events[..|events| - 1])
      && (events[|events| - 1].Pushed? ==> ClosedBy(events[..|events| - 1]).Open?)
  }

  function Delivered<T, E>(outcomes: seq<Outcome<T, E>>): seq<T> {
    if outcomes == [] then []
    else
      Delivered(outcomes[..|outcomes| - 1])
      + (if outcomes[|outcomes| - 1].Item? then [outcomes[|outcomes| - 1].chunk] else [])
  }

  /** The `i`-th thing a consumer is owed: the chunks, then one error or the end, then the end for ever. */
  function Owed<T, E>(pushed: seq<T>, closing: Closing<E>, i: nat): Option<Outcome<T, E>> {
    if i < |pushed| then Some(Item(pushed[i]))
    else
      match closing
      case Open => None
      case ByFailure(error) => Some(if i == |pushed| then Threw(error) else Finished)
      case ByEnd => Some(Finished)
  }

  /** No wakeup is lost: a consumer sleeps only while there is nothing at all to tell it. */
  lemma {:induction false} NoLostWakeup<T, E>(events: seq<Event<T, E>>)
    ensures var s := Run(events).0;
            s.wake ==> s.items == [] && s.error.None? && !s.ended
    decreases |events|
  {
    if events != [] {
      NoLostWakeup(events[..|events| - 1]);
    }
  }

  /** What the state holds of how and whether the queue was closed. */
  ghost predicate Remembers<T, E>(s: State<T, E>, closing: Closing<E>) {
    match closing
    case Open => s.error.None? && !s.ended
    case ByEnd => s.error.None? && s.ended
    case ByFailure(error) => s.error == Some(error) || (s.error.None? && s.ended)
  }

  /** The first of failure and end wins: later ones change nothing the consumer can see. */
  lemma {:induction false} ClosingIsRemembered<T, E>(events: seq<Event<T, E>>)
    ensures Remembers(Run(events).0, ClosedBy(events))
    decreases |events|
  {
    if events != [] {
      ClosingIsRemembered(events[..|events| - 1]);
    }
  }

  lemma DeliveredSnoc<T, E>(outcomes: seq<Outcome<T, E>>, outcome: Outcome<T, E>)
    ensures Delivered(outcomes + [outcome]) == Delivered(outcomes) + (if outcome.Item? then [outcome.chunk] else [])
  {
    assert (outcomes + [outcome])[..|outcomes|] == outcomes;
  }

  /**
   * Nothing is lost, duplicated or reordered: what was delivered, followed by what is queued,
   * is what was pushed, however pushes, failures, ends and polls interleave.
   */
  lemma {:induction false} ChunksAreConserved<T, E>(events: seq<Event<T, E>>)
    ensures Delivered(Run(events).1) + Run(events).0.items == PushedIn(events)
    decreases |events|
  {
    if events != [] {
      var (s, seen) := Run(events[..|events| - 1]);
      var (next, outcomes) := Step(s, events[|events| - 1]);
      ChunksAreConserved(events[..|events| - 1]);
      if outcomes == [] {
        assert seen + outcomes == seen;
      } else {
        DeliveredSnoc(seen, outcomes[0]);
        assert seen + outcomes == seen + [outcomes[0]];
      }
      StepConserves(s, seen, events[|events| - 1]);
    }
  }

  lemma StepConserves<T, E>(s: State<T, E>, seen: seq<Outcome<T, E>>, event: Event<T, E>)
    ensures var (next, outcomes) := Step(s, event);
            Delivered(seen) + (if outcomes != [] && outcomes[0].Item? then [outcomes[0].chunk] else []) + next.items
            == Delivered(seen) + s.items + (if event.Pushed? then [event.chunk] else [])
  {
    var d := Delivered(seen);
    match event
    case Pushed(chunk) => assert d + [] + (s.items + [chunk]) == d + s.items + [chunk];
    case Polled =>
      if s.items != [] {
        assert d + [s.items[0]] + s.items[1..] == d + s.items + [];
      }
    case _ =>
  }

  /** What the consumer had so far is what it was owed so far, and the state holds the rest. */
  ghost predicate OnSchedule<T, E>(s: State<T, E>, seen: seq<Outcome<T, E>>, pushed: seq<T>, closing: Closing<E>) {
    && s.items == (if |seen| <= |pushed| then pushed[|seen|..] else [])
    && (closing.ByFailure? ==> (s.error.None? <==> |seen| > |pushed|))
    && forall i :: 0 <= i < |seen| ==> Owed(pushed, closing, i) == Some(seen[i])
  }

  lemma {:induction false} OrderlyIsOnSchedule<T, E>(events: seq<Event<T, E>>)
    requires Orderly(events)
    ensures OnSchedule(Run(events).0, Run(events).1, PushedIn(events), ClosedBy(events))
    decreases |events|
  {
    if events != [] {
      var before, event := events[..|events| - 1], events[|events| - 1];
      OrderlyIsOnSchedule(before);
      ClosingIsRemembered(before);
      StepOnSchedule(Run(before).0, Run(before).1, PushedIn(before), ClosedBy(before), event);
    }
  }

  function ClosedAfter<T, E>(closing: Closing<E>, event: Event<T, E>): Closing<E> {
    match event
    case Failed(error) => if closing.Open? then ByFailure(error) else closing
    case Ended => if closing.Open? then ByEnd else closing
    case _ => closing
  }

  lemma StepOnSchedule<T, E>(s: State<T, E>, seen: seq<Outcome<T, E>>, pushed: seq<T>, closing: Closing<E>,
                             event: Event<T, E>)
    requires OnSchedule(s, seen, pushed, closing) && Remembers(s, closing)
    requires event.Pushed? ==> closing.Open?
    ensures var (next, outcomes) := Step(s, event);
            OnSchedule(next, seen + outcomes, pushed + (if event.Pushed? then [event.chunk] else []),
                       ClosedAfter(closing, event))
  {
    assert pushed + [] == pushed;
    if closing.Open? && |seen| > 0 {
      assert Owed(pushed, closing, |seen| - 1) == Some(seen[|seen| - 1]);
    }
    match event
    case Pushed(chunk) => assert pushed[|seen|..] + [chunk] == (pushed + [chunk])[|seen|..];
    case Polled =>
    case _ => assert seen + [] == seen;
  }

  /**
   * When no push follows the first failure or end, the consumer gets, in this order, every
   * chunk, then one error if a failure came first, then the end; while the queue is open it
   * gets a prefix of the chunks.
   */
  lemma OrderlyStreamsArriveWhole<T, E>(events: seq<Event<T, E>>, i: nat)
    requires Orderly(events) && i < |Run(events).1|
    ensures Owed(PushedIn(events), ClosedBy(events), i) == Some(Run(events).1[i])
  {
    OrderlyIsOnSchedule(events);
  }

  /** The next poll yields the next thing owed, and suspends exactly when nothing is owed yet. */
  lemma PollPaysWhatIsOwed<T, E>(events: seq<Event<T, E>>)
    requires Orderly(events)
    ensures var (s, seen) := Run(events);
            Poll(s).1 == (match Owed(PushedIn(events), ClosedBy(events), |seen|)
                          case None => []
                          case Some(outcome) => [outcome])
            && (Poll(s).0.wake <==> Owed(PushedIn(events), ClosedBy(events), |seen|).None?)
  {
    OrderlyIsOnSchedule(events);
    ClosingIsRemembered(events);
    NoLostWakeup(events);
    var seen := Run(events).1;
    if ClosedBy(events).Open? && |seen| > 0 {
      assert Owed(PushedIn(events), ClosedBy(events), |seen| - 1) == Some(seen[|seen| - 1]);
    }
  }

  class ChunkQueue<T(==), E> {
    var items: seq<T>
    var error: Option<E>
    var ended: bool
    var wake: bool

    ghost function View(): State<T, E>
      reads this
    {
      State(items, error, ended, wake)
    }

    constructor ()
      ensures View() == State([], None, false, false)
    {
      items, error, ended, wake := [], None, false, false;
    }

    method Signal()
      modifies this`wake
      ensures !wake
    {
      wake := false;
    }

    method Push(chunk: T)
      modifies this
      ensures View() == Step(old(View()), Pushed(chunk)).0
    {
      items := items + [chunk];
      Signal();
    }

    method Fail(e: E)
      modifies this
      ensures View() == Step(old(View()), Failed(e)).0
    {
      if error.None? && !ended {
        error := Some(e);
        Signal();
      }
    }

    method End()
      modifies this
      ensures View() == Step(old(View()), Ended).0
    {
      ended := true;
      Signal();
    }

    /** `None` when the call suspends; polling again is resuming it. */
    method Next() returns (outcome: Option<Outcome<T, E>>)
      requires !wake
      modifies this
      ensures (View(), if outcome.Some? then [outcome.value] else []) == Step(old(View()), Polled)
    {
      if items != [] {
        var item := items[0];
        items := items[1..];
        return Some(Item(item));
      }
      if error.Some? {
        var e := error.value;
        error, ended := None, true;
        return Some(Threw(e));
      }
      if ended {
        return Some(Finished);
      }
      wake := true;
      return None;
    }
  }
}
