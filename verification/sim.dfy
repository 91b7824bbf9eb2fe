/**
  The simulation driver (src/sim.rs).  A simulation owns a scheduler, an
  environment and a statistics recorder; `run` hands every event the
  scheduler releases to the environment, then forces one terminating event
  through the scheduler and records how many events ran.

  The environment is a state of type `S` together with its `Behaviour`:
  `apply` is `apply_event` (it may change the state, schedule events and
  record statistics, or fail, which in the source aborts the process) and
  `terminatingEvent` is `terminating_event`.
*/
module Sim {
  import opened Wrappers
  import opened Events
  import opened Des
  import opened Statistics

  /** What a handler sees of the scheduler: the current time and the horizon. */
  datatype Clock = Clock(currentTime: nat, runtime: nat)

  /** A statistic a handler records: the series label and the point. */
  datatype Record = Record(name: string, point: DataPoint)

  /** The effect of handling events: the new state, what was scheduled and what was recorded. */
  datatype Reaction<S> = Reaction(state: S, scheduled: seq<Event>, recorded: seq<Record>)

  datatype Behaviour<!S> = Behaviour(
    apply: (S, Clock, Event) -> Result<Reaction<S>, string>,
    terminatingEvent: (S, Clock) -> Event)

  /** How `run` ends: normally, by a panic, or (model only) when the dispatch budget is spent. */
  datatype RunOutcome = Completed(eventCount: nat) | Panicked(reason: string) | OutOfBudget

  /** How the main loop of `run` stops. */
  datatype Drain = Drained(eventCount: nat) | HandlerFailed(reason: string) | BudgetSpent

  const EventsRanLabel: string := "Events Ran"
  const CountUnit: string := "Count"

  /**
    The reference semantics of dispatching `events` in order, starting from
    state `s`: each handler runs with the clock at its event's timestamp.
    The result gathers the final state and everything scheduled and recorded.
  */
  function Replay<S>(b: Behaviour<S>, runtime: nat, s: S, events: seq<Event>): Result<Reaction<S>, string>
    decreases |events|
  {
    if events == [] then Ok(Reaction(s, [], []))
    else
      match Replay(b, runtime, s, events[..|events| - 1])
      case Err(m) => Err(m)
      case Ok(acc) =>
        var e := events[|events| - 1];
        match b.apply(acc.state, Clock(e.timestamp, runtime), e)
        case Err(m) => Err(m)
        case Ok(re) => Ok(Reaction(re.state, acc.scheduled + re.scheduled, acc.recorded + re.recorded))
  }

  /** Replaying one more event continues from where the shorter replay stopped. */
  lemma ReplaySnoc<S>(b: Behaviour<S>, runtime: nat, s: S, events: seq<Event>, e: Event)
    ensures Replay(b, runtime, s, events + [e]) ==
      match Replay(b, runtime, s, events)
      case Err(m) => Err(m)
      case Ok(acc) =>
        match b.apply(acc.state, Clock(e.timestamp, runtime), e)
        case Err(m) => Err(m)
        case Ok(re) => Ok(Reaction(re.state, acc.scheduled + re.scheduled, acc.recorded + re.recorded))
  {
    assert (events + [e])[..|events|] == events;
  }

  /** The statistics after recording `records` in order. */
  ghost function RecordAll(views: seq<SeriesView>, records: seq<Record>): seq<SeriesView>
    decreases |records|
  {
    if records == [] then views
    else
      var last := records[|records| - 1];
      AddedStatistic(RecordAll(views, records[..|records| - 1]), last.point, last.name)
  }

  lemma RecordAllSnoc(views: seq<SeriesView>, records: seq<Record>, r: Record)
    ensures RecordAll(views, records + [r]) == AddedStatistic(RecordAll(views, records), r.point, r.name)
  {
    assert (records + [r])[..|records|] == records;
  }

  lemma {:induction false} RecordAllAppend(views: seq<SeriesView>, rs: seq<Record>, ts: seq<Record>)
    ensures RecordAll(views, rs + ts) == RecordAll(RecordAll(views, rs), ts)
    decreases |ts|
  {
    if ts == [] {
      assert rs + ts == rs;
    } else {
      var init, last := ts[..|ts| - 1], ts[|ts| - 1];
      assert ts == init + [last];
      assert rs + ts == (rs + init) + [last];
      RecordAllSnoc(views, rs + init, last);
      RecordAllAppend(views, rs, init);
      RecordAllSnoc(RecordAll(views, rs), init, last);
    }
  }

  /** Recording keeps the labels of the series pairwise distinct. */
  lemma {:induction false} RecordAllKeepsLabelsDistinct(views: seq<SeriesView>, records: seq<Record>)
    requires DistinctLabels(views)
    ensures DistinctLabels(RecordAll(views, records))
    decreases |records|
  {
    if records != [] {
      var last := records[|records| - 1];
      RecordAllKeepsLabelsDistinct(views, records[..|records| - 1]);
      AddKeepsLabelsDistinct(RecordAll(views, records[..|records| - 1]), last.point, last.name);
    }
  }

  /** The clock after the main loop: the last dispatched timestamp, or the starting time. */
  function ClockAfter(start: nat, runtime: nat, dispatched: seq<Event>): Clock {
    if dispatched == [] then Clock(start, runtime)
    else Clock(dispatched[|dispatched| - 1].timestamp, runtime)
  }

  /**
    What is queued once `events` have been popped from the starting queue
    `q0` and their handlers have scheduled `scheduled`.
  */
  ghost function Pending(q0: multiset<Event>, scheduled: seq<Event>, events: seq<Event>): multiset<Event> {
    q0 + multiset(scheduled) - multiset(events)
  }

  /**
    `events` is an order in which `next_event` may release them, starting
    from the queue `q0`: each is a heap top of what is pending when it is
    popped, the handlers of the earlier ones having run without failing,
    and lies within the horizon.
  */
  ghost predicate Released<S>(b: Behaviour<S>, runtime: nat, s: S, q0: multiset<Event>, events: seq<Event>)
    decreases |events|
  {
    events == [] ||
    var init := events[..|events| - 1];
    && Released(b, runtime, s, q0, init)
    && Replay(b, runtime, s, init).Ok?
    && IsHeapTop(events[|events| - 1], Pending(q0, Replay(b, runtime, s, init).value.scheduled, init))
    && events[|events| - 1].timestamp <= runtime
  }

  /** Every released event lies within the horizon. */
  lemma {:induction false} ReleasedWithinHorizon<S>(b: Behaviour<S>, runtime: nat, s: S, q0: multiset<Event>, events: seq<Event>, i: nat)
    requires Released(b, runtime, s, q0, events) && i < |events|
    ensures events[i].timestamp <= runtime
    decreases |events|
  {
    if i < |events| - 1 {
      var init := events[..|events| - 1];
      ReleasedWithinHorizon(b, runtime, s, q0, init, i);
      assert init[i] == events[i];
    }
  }

  /** One more heap top popped after a replay that succeeded extends a release order. */
  lemma ReleasedSnoc<S>(b: Behaviour<S>, runtime: nat, s: S, q0: multiset<Event>, events: seq<Event>, e: Event)
    requires Released(b, runtime, s, q0, events) && Replay(b, runtime, s, events).Ok?
    requires IsHeapTop(e, Pending(q0, Replay(b, runtime, s, events).value.scheduled, events))
    requires e.timestamp <= runtime
    ensures Released(b, runtime, s, q0, events + [e])
  {
    assert (events + [e])[..|events|] == events;
  }

  /**
    `next_event` answered `None` on the queue `q` and left `rest`: either
    nothing was queued, or a heap top lay beyond the horizon and was dropped.
  */
  ghost predicate Exhausted(q: multiset<Event>, rest: multiset<Event>, runtime: nat) {
    || (q == multiset{} && rest == q)
    || (exists p :: IsHeapTop(p, q) && runtime < p.timestamp && rest == q - multiset{p})
  }

  /** An exhausted queue held only events beyond the horizon, and lost at most one of them. */
  lemma ExhaustedLeavesOnlyLater(q: multiset<Event>, rest: multiset<Event>, runtime: nat)
    requires Exhausted(q, rest, runtime)
    ensures AllAfter(q, runtime) && AllAfter(rest, runtime)
    ensures rest <= q && |q| <= |rest| + 1
  {
    if q != multiset{} {
      var p :| IsHeapTop(p, q) && runtime < p.timestamp && rest == q - multiset{p};
      HeapTopIsEarliest(p, q);
    }
  }

  /** No handler schedules an event before the time it runs at. */
  ghost predicate SchedulesForward<S(!new)>(b: Behaviour<S>, runtime: nat) {
    forall s: S, e: Event :: b.apply(s, Clock(e.timestamp, runtime), e).Ok? ==>
      forall x :: x in b.apply(s, Clock(e.timestamp, runtime), e).value.scheduled ==> e.timestamp <= x.timestamp
  }

  /** The timestamps of `events` never decrease. */
  ghost predicate InTimeOrder(events: seq<Event>) {
    forall i, j :: 0 <= i < j < |events| ==> events[i].timestamp <= events[j].timestamp
  }

  /** A sequence whose last event is no earlier than the one before, and in time order before that, is in time order. */
  lemma InTimeOrderSnoc(events: seq<Event>)
    requires events != [] && InTimeOrder(events[..|events| - 1])
    requires |events| >= 2 ==> events[|events| - 2].timestamp <= events[|events| - 1].timestamp
    ensures InTimeOrder(events)
  {
    var init := events[..|events| - 1];
    forall i, j | 0 <= i < j < |events|
      ensures events[i].timestamp <= events[j].timestamp
    {
      assert events[i] == init[i];
      if j < |init| {
        assert events[j] == init[j];
      } else if i < |init| - 1 {
        assert init[i].timestamp <= init[|init| - 1].timestamp;
      }
    }
  }

  /** What is pending after one more pop was pending before it or was scheduled by its handler. */
  lemma PendingSplit(q0: multiset<Event>, scheduled: seq<Event>, events: seq<Event>, e: Event, more: seq<Event>, x: Event)
    requires x in Pending(q0, scheduled + more, events + [e])
    ensures x in Pending(q0, scheduled, events) || x in more
  {
    assert multiset(events + [e]) == multiset(events) + multiset{e};
    assert multiset(scheduled + more) == multiset(scheduled) + multiset(more);
  }

  /**
    After popping a heap top `e` whose handler schedules nothing before
    `e`, nothing pending lies before `e`.
  */
  lemma NothingPendingBefore<S(!new)>(b: Behaviour<S>, runtime: nat, q0: multiset<Event>, scheduled: seq<Event>,
                                       events: seq<Event>, state: S)
    requires SchedulesForward(b, runtime) && events != []
    requires IsHeapTop(events[|events| - 1], Pending(q0, scheduled, events[..|events| - 1]))
    requires b.apply(state, Clock(events[|events| - 1].timestamp, runtime), events[|events| - 1]).Ok?
    ensures NoneBefore(Pending(q0, scheduled + b.apply(state, Clock(events[|events| - 1].timestamp, runtime), events[|events| - 1]).value.scheduled, events),
                       events[|events| - 1].timestamp)
  {
    var init, e := events[..|events| - 1], events[|events| - 1];
    assert init + [e] == events;
    var more := b.apply(state, Clock(e.timestamp, runtime), e).value.scheduled;
    HeapTopIsEarliest(e, Pending(q0, scheduled, init));
    forall x | x in Pending(q0, scheduled + more, init + [e])
      ensures e.timestamp <= x.timestamp
    {
      PendingSplit(q0, scheduled, init, e, more, x);
    }
  }

  /**
    When no handler schedules into the past, nothing pending after a
    successful replay lies before the last released event.
  */
  lemma NothingPendingBeforeLast<S(!new)>(b: Behaviour<S>, runtime: nat, s: S, q0: multiset<Event>, events: seq<Event>)
    requires SchedulesForward(b, runtime) && Released(b, runtime, s, q0, events)
    requires events != [] && Replay(b, runtime, s, events).Ok?
    ensures NoneBefore(Pending(q0, Replay(b, runtime, s, events).value.scheduled, events), events[|events| - 1].timestamp)
  {
    var acc := Replay(b, runtime, s, events[..|events| - 1]).value;
    NothingPendingBefore(b, runtime, q0, acc.scheduled, events, acc.state);
  }

  /** Each released event is no earlier than the one released before it. */
  lemma ReleasedNotBeforePrevious<S(!new)>(b: Behaviour<S>, runtime: nat, s: S, q0: multiset<Event>, events: seq<Event>)
    requires SchedulesForward(b, runtime) && Released(b, runtime, s, q0, events) && |events| >= 2
    ensures events[|events| - 2].timestamp <= events[|events| - 1].timestamp
  {
    var init := events[..|events| - 1];
    NothingPendingBeforeLast(b, runtime, s, q0, init);
    assert events[|events| - 1] in Pending(q0, Replay(b, runtime, s, init).value.scheduled, init);
    assert events[|events| - 2] == init[|init| - 1];
  }

  /**
    The time ordering of the scheduler, over a whole run: when no handler
    schedules into the past, released events come out in non-decreasing
    timestamp order.
  */
  lemma {:induction false} ReleasedInTimeOrder<S(!new)>(b: Behaviour<S>, runtime: nat, s: S, q0: multiset<Event>, events: seq<Event>)
    requires SchedulesForward(b, runtime) && Released(b, runtime, s, q0, events)
    ensures InTimeOrder(events)
    decreases |events|
  {
    if events != [] {
      var init := events[..|events| - 1];
      ReleasedInTimeOrder(b, runtime, s, q0, init);
      if init != [] {
        ReleasedNotBeforePrevious(b, runtime, s, q0, events);
      }
      InTimeOrderSnoc(events);
    }
  }

  /** Popping `e` and running its handler, which scheduled `more`, moves the pending queue on by one step. */
  lemma PendingStep(q0: multiset<Event>, scheduled: seq<Event>, events: seq<Event>, e: Event, more: seq<Event>)
    requires multiset(events) <= q0 + multiset(scheduled)
    requires e in Pending(q0, scheduled, events)
    ensures multiset(events + [e]) <= q0 + multiset(scheduled + more)
    ensures Pending(q0, scheduled + more, events + [e]) == Pending(q0, scheduled, events) - multiset{e} + multiset(more)
  {
    assert multiset(events + [e]) == multiset(events) + multiset{e};
    assert multiset(scheduled + more) == multiset(scheduled) + multiset(more);
  }

  /**
    One successful turn of the main loop, on the reference side: the replay,
    the release order, the pending queue and the recorded statistics all
    move on by the event `e` whose handler reacted with `re`.
  */
  lemma DrainStep<S>(b: Behaviour<S>, runtime: nat, s: S, q0: multiset<Event>, stats0: seq<SeriesView>,
                     events: seq<Event>, acc: Reaction<S>, e: Event, re: Reaction<S>)
    requires Replay(b, runtime, s, events) == Ok(acc) && Released(b, runtime, s, q0, events)
    requires multiset(events) <= q0 + multiset(acc.scheduled)
    requires IsHeapTop(e, Pending(q0, acc.scheduled, events)) && e.timestamp <= runtime
    requires b.apply(acc.state, Clock(e.timestamp, runtime), e) == Ok(re)
    ensures Replay(b, runtime, s, events + [e]) == Ok(Reaction(re.state, acc.scheduled + re.scheduled, acc.recorded + re.recorded))
    ensures Released(b, runtime, s, q0, events + [e])
    ensures multiset(events + [e]) <= q0 + multiset(acc.scheduled + re.scheduled)
    ensures Pending(q0, acc.scheduled + re.scheduled, events + [e]) == Pending(q0, acc.scheduled, events) - multiset{e} + multiset(re.scheduled)
    ensures RecordAll(stats0, acc.recorded + re.recorded) == RecordAll(RecordAll(stats0, acc.recorded), re.recorded)
  {
    ReplaySnoc(b, runtime, s, events, e);
    ReleasedSnoc(b, runtime, s, q0, events, e);
    PendingStep(q0, acc.scheduled, events, e, re.scheduled);
    RecordAllAppend(stats0, acc.recorded, re.recorded);
  }

  /** A turn whose handler failed ends the replay with that failure, the event still released. */
  lemma FailStep<S>(b: Behaviour<S>, runtime: nat, s: S, q0: multiset<Event>, events: seq<Event>, acc: Reaction<S>, e: Event, m: string)
    requires Replay(b, runtime, s, events) == Ok(acc) && Released(b, runtime, s, q0, events)
    requires IsHeapTop(e, Pending(q0, acc.scheduled, events)) && e.timestamp <= runtime
    requires b.apply(acc.state, Clock(e.timestamp, runtime), e) == Err(m)
    ensures Replay(b, runtime, s, events + [e]) == Err(m)
    ensures Released(b, runtime, s, q0, events + [e])
  {
    ReplaySnoc(b, runtime, s, events, e);
    ReleasedSnoc(b, runtime, s, q0, events, e);
  }

  /** Enqueues `events` in order, as a handler's `add_event` calls do. */
  method EnqueueAll(scheduler: Scheduler, events: seq<Event>)
    modifies scheduler
    ensures scheduler.eventQueue == old(scheduler.eventQueue) + multiset(events)
    ensures scheduler.currentTime == old(scheduler.currentTime) && scheduler.runtime == old(scheduler.runtime)
  {
    var i := 0;
    while i < |events|
      invariant 0 <= i <= |events|
      invariant scheduler.currentTime == old(scheduler.currentTime) && scheduler.runtime == old(scheduler.runtime)
      invariant scheduler.eventQueue == old(scheduler.eventQueue) + multiset(events[..i])
    {
      assert events[..i + 1] == events[..i] + [events[i]];
      scheduler.AddEvent(events[i]);
      i := i + 1;
    }
    assert events[..i] == events;
  }

  /** Records `records` in order, as a handler's `add_statistic` calls do. */
  method RecordEach(statistics: Stats, records: seq<Record>)
    modifies statistics
    ensures statistics.allSeries == RecordAll(old(statistics.allSeries), records)
  {
    ghost var before := statistics.allSeries;
    var j := 0;
    while j < |records|
      invariant 0 <= j <= |records|
      invariant statistics.allSeries == RecordAll(before, records[..j])
    {
      RecordAllSnoc(before, records[..j], records[j]);
      assert records[..j + 1] == records[..j] + [records[j]];
      statistics.AddStatistic(records[j].point, records[j].name);
      j := j + 1;
    }
    assert records[..j] == records;
  }

  /**
    With every queued event beyond the horizon, the terminating event is at
    the top of the heap when it lies within the horizon, and whatever is at
    the top lies beyond the horizon otherwise.
  */
  lemma TerminalComesFirst(q: multiset<Event>, runtime: nat, t: Event, p: Event)
    requires AllAfter(q, runtime) && IsHeapTop(p, q + multiset{t})
    ensures t.timestamp <= runtime ==> p == t
    ensures t.timestamp > runtime ==> p.timestamp > runtime
  {
    if t.timestamp <= runtime {
      UniqueHeapTop(q + multiset{t}, t, p);
    }
  }

  class Simulation<S> {
    const scheduler: Scheduler
    var environment: S
    const behaviour: Behaviour<S>
    const statistics: Stats

    /**
      `Simulation::new`: a scheduler with the given horizon holding just the
      initial event, the environment, and empty statistics.
    */
    constructor (runtime: nat, environment: S, behaviour: Behaviour<S>, initialEvent: Event)
      ensures fresh(scheduler) && fresh(statistics)
      ensures scheduler.runtime == runtime && scheduler.currentTime == 0
      ensures scheduler.eventQueue == multiset{initialEvent}
      ensures this.environment == environment && this.behaviour == behaviour
      ensures statistics.allSeries == []
    {
      var s := new Scheduler(runtime);
      var st := new Stats();
      scheduler := s;
      this.environment := environment;
      this.behaviour := behaviour;
      statistics := st;
      new;
      scheduler.AddEvent(initialEvent);
    }

    /**
      `environment.apply_event(scheduler, statistics, event)`: runs the handler
      with the scheduler's clock, then enqueues what it scheduled and records
      what it recorded, in order.  An `Err` is the handler's panic.
    */
    method Dispatch(event: Event) returns (outcome: Result<(), string>)
      modifies this, scheduler, statistics
      ensures scheduler.currentTime == old(scheduler.currentTime) && scheduler.runtime == old(scheduler.runtime)
      ensures match behaviour.apply(old(environment), Clock(old(scheduler.currentTime), old(scheduler.runtime)), event)
        case Err(m) => outcome == Err(m)
        case Ok(re) =>
          && outcome.Ok?
          && environment == re.state
          && scheduler.eventQueue == old(scheduler.eventQueue) + multiset(re.scheduled)
          && statistics.allSeries == RecordAll(old(statistics.allSeries), re.recorded)
    {
      var reaction := behaviour.apply(environment, Clock(scheduler.currentTime, scheduler.runtime), event);
      if reaction.Err? {
        return Err(reaction.error);
      }
      environment := reaction.value.state;
      EnqueueAll(scheduler, reaction.value.scheduled);
      RecordEach(statistics, reaction.value.recorded);
      outcome := Ok(());
    }

    /**
      `terminal_event`: enqueue the environment's terminating event, pop once
      and dispatch what came out.  `popped` is the event dispatched; a pop
      that yields `None` is the `unwrap` panic.  When every queued event lies
      beyond the horizon, as after the main loop of `run`, the dispatched event
      is the terminating event itself, provided it lies within the horizon.
    */
    method TerminalEvent() returns (outcome: Result<(), string>, ghost terminal: Event, ghost popped: Option<Event>)
      modifies this, scheduler, statistics
      ensures scheduler.runtime == old(scheduler.runtime)
      ensures terminal == behaviour.terminatingEvent(old(environment), Clock(old(scheduler.currentTime), old(scheduler.runtime)))
      ensures popped.None? ==> outcome == Err(UnwrapOnNone)
      ensures popped.Some? ==> popped.value.timestamp <= scheduler.runtime && scheduler.currentTime == popped.value.timestamp
      ensures popped.Some? ==> IsHeapTop(popped.value, old(scheduler.eventQueue) + multiset{terminal})
      ensures popped.Some? ==>
        match behaviour.apply(old(environment), Clock(popped.value.timestamp, scheduler.runtime), popped.value)
        case Err(m) => outcome == Err(m)
        case Ok(re) =>
          && outcome.Ok?
          && environment == re.state
          && scheduler.eventQueue == old(scheduler.eventQueue) + multiset{terminal} - multiset{popped.value} + multiset(re.scheduled)
          && statistics.allSeries == RecordAll(old(statistics.allSeries), re.recorded)
      ensures old(AllAfter(scheduler.eventQueue, scheduler.runtime)) ==>
        popped == if terminal.timestamp <= scheduler.runtime then Some(terminal) else None
    {
      var completion := behaviour.terminatingEvent(environment, Clock(scheduler.currentTime, scheduler.runtime));
      terminal := completion;
      ghost var queued := scheduler.eventQueue;
      scheduler.AddEvent(completion);
      var last, top := scheduler.NextEvent();
      if AllAfter(queued, scheduler.runtime) {
        TerminalComesFirst(queued, scheduler.runtime, terminal, top.value);
      }
      popped := last;
      if last.None? {
        outcome := Err(UnwrapOnNone);
      } else {
        outcome := Dispatch(last.value);
      }
    }

    /**
      `run`: dispatch every event the scheduler releases, in the order
      released, counting them, until `next_event` answers `None`; then the
      terminating event; then record the count under "Events Ran" at the
      scheduler's final time.  `dispatched` lists the main-loop events,
      `rest` the queue the main loop left behind and `terminal` the
      terminating event.  The main loop is bounded by `budget`.

      The main-loop events are released in heap order from the starting
      queue and whatever their handlers scheduled, each within the horizon,
      and the outcome is the one `Replay` predicts for that order: a handler
      failure is the first failure of the replay; otherwise the queue was
      exhausted, the `unwrap` panic happens exactly when the terminating
      event lies beyond the horizon, and a completed run leaves the state and
      the statistics of the replay plus the event count, and in the queue
      what the main loop left plus what the terminating handler scheduled.
    */
    method Run(budget: nat) returns (outcome: RunOutcome, ghost dispatched: seq<Event>, ghost rest: multiset<Event>, ghost terminal: Event)
      modifies this, scheduler, statistics
      ensures scheduler.runtime == old(scheduler.runtime)
      ensures Released(behaviour, scheduler.runtime, old(environment), old(scheduler.eventQueue), dispatched)
      ensures forall i :: 0 <= i < |dispatched| ==> dispatched[i].timestamp <= scheduler.runtime
      ensures outcome.OutOfBudget? ==> |dispatched| == budget
      ensures !outcome.OutOfBudget? ==>
        match Replay(behaviour, scheduler.runtime, old(environment), dispatched)
        case Err(m) => outcome == Panicked(m)
        case Ok(acc) =>
          && Exhausted(Pending(old(scheduler.eventQueue), acc.scheduled, dispatched), rest, scheduler.runtime)
          && terminal == behaviour.terminatingEvent(acc.state, ClockAfter(old(scheduler.currentTime), scheduler.runtime, dispatched))
          && (terminal.timestamp > scheduler.runtime ==> outcome == Panicked(UnwrapOnNone))
          && (terminal.timestamp <= scheduler.runtime ==>
                match behaviour.apply(acc.state, Clock(terminal.timestamp, scheduler.runtime), terminal)
                case Err(m) => outcome == Panicked(m)
                case Ok(re) =>
                  && outcome == Completed(|dispatched|)
                  && environment == re.state
                  && scheduler.currentTime == terminal.timestamp
                  && scheduler.eventQueue == rest + multiset(re.scheduled)
                  && statistics.allSeries == AddedStatistic(
                       RecordAll(old(statistics.allSeries), acc.recorded + re.recorded),
                       DataPoint(terminal.timestamp, |dispatched| as real, CountUnit),
                       EventsRanLabel))
    {
      ghost var runtime := scheduler.runtime;
      ghost var env0 := environment;
      ghost var stats0 := statistics.allSeries;
      terminal := Event("", 0, 0, "");
      var drained;
      ghost var acc;
      drained, dispatched, acc := DrainQueue(budget);
      forall i | 0 <= i < |dispatched|
        ensures dispatched[i].timestamp <= runtime
      {
        ReleasedWithinHorizon(behaviour, runtime, env0, old(scheduler.eventQueue), dispatched, i);
      }
      rest := scheduler.eventQueue;
      if drained.BudgetSpent? {
        return OutOfBudget, dispatched, rest, terminal;
      } else if drained.HandlerFailed? {
        return Panicked(drained.reason), dispatched, rest, terminal;
      }
      ExhaustedLeavesOnlyLater(Pending(old(scheduler.eventQueue), acc.scheduled, dispatched), rest, runtime);
      outcome, terminal := Conclude(drained.eventCount, stats0, acc);
    }

    /**
      The rest of `run` once the main loop has drained the queue, which holds
      only events beyond the horizon: the terminating event, then the "Events
      Ran" statistic at the scheduler's final time.  Since the terminating
      event is then the only candidate within the horizon, it is dispatched
      exactly when it lies within the horizon, and the `unwrap` panics
      otherwise.  `acc` is what the main loop's replay produced.
    */
    method Conclude(eventCount: nat, ghost stats0: seq<SeriesView>, ghost acc: Reaction<S>)
      returns (outcome: RunOutcome, ghost terminal: Event)
      requires environment == acc.state && statistics.allSeries == RecordAll(stats0, acc.recorded)
      requires AllAfter(scheduler.eventQueue, scheduler.runtime)
      modifies this, scheduler, statistics
      ensures scheduler.runtime == old(scheduler.runtime)
      ensures terminal == behaviour.terminatingEvent(acc.state, Clock(old(scheduler.currentTime), scheduler.runtime))
      ensures terminal.timestamp > scheduler.runtime ==> outcome == Panicked(UnwrapOnNone)
      ensures terminal.timestamp <= scheduler.runtime ==>
        match behaviour.apply(acc.state, Clock(terminal.timestamp, scheduler.runtime), terminal)
        case Err(m) => outcome == Panicked(m)
        case Ok(re) =>
          && outcome == Completed(eventCount)
          && environment == re.state
          && scheduler.currentTime == terminal.timestamp
          && scheduler.eventQueue == old(scheduler.eventQueue) + multiset(re.scheduled)
          && statistics.allSeries == AddedStatistic(
               RecordAll(stats0, acc.recorded + re.recorded),
               DataPoint(terminal.timestamp, eventCount as real, CountUnit),
               EventsRanLabel)
    {
      ghost var runtime := scheduler.runtime;
      ghost var rest := scheduler.eventQueue;
      var t; ghost var top;
      t, terminal, top := TerminalEvent();
      if t.Err? {
        return Panicked(t.error), terminal;
      }
      assert rest + multiset{terminal} - multiset{terminal} == rest;
      RecordAllAppend(stats0, acc.recorded, behaviour.apply(acc.state, Clock(terminal.timestamp, runtime), terminal).value.recorded);
      statistics.AddStatistic(DataPoint(scheduler.currentTime, eventCount as real, CountUnit), EventsRanLabel);
      outcome := Completed(eventCount);
    }

    /**
      One turn of the main loop of `run`: dispatch `event`, which the
      scheduler has just released, then ask the scheduler for the next one.
    */
    method Turn(event: Event) returns (r: Result<Option<Event>, string>)
      requires scheduler.currentTime == event.timestamp
      modifies this, scheduler, statistics
      ensures scheduler.runtime == old(scheduler.runtime)
      ensures match behaviour.apply(old(environment), Clock(event.timestamp, scheduler.runtime), event)
        case Err(m) => r == Err(m)
        case Ok(re) =>
          && r.Ok?
          && environment == re.state
          && statistics.allSeries == RecordAll(old(statistics.allSeries), re.recorded)
          && (r.value.Some? ==>
                && r.value.value.timestamp <= scheduler.runtime
                && scheduler.currentTime == r.value.value.timestamp
                && IsHeapTop(r.value.value, old(scheduler.eventQueue) + multiset(re.scheduled))
                && scheduler.eventQueue == old(scheduler.eventQueue) + multiset(re.scheduled) - multiset{r.value.value})
          && (r.value.None? ==>
                && Exhausted(old(scheduler.eventQueue) + multiset(re.scheduled), scheduler.eventQueue, scheduler.runtime)
                && scheduler.currentTime == event.timestamp)
    {
      var outcome := Dispatch(event);
      if outcome.Err? {
        return Err(outcome.error);
      }
      ghost var q := scheduler.eventQueue;
      var next, top := scheduler.NextEvent();
      if next.None? && top.Some? {
        assert IsHeapTop(top.value, q) && scheduler.runtime < top.value.timestamp && scheduler.eventQueue == q - multiset{top.value};
      }
      r := Ok(next);
    }

    /**
      Where the main loop of `run` stands after `events` were released from
      the starting queue `q0` and dispatched without failure: the state and
      statistics are the ones `Replay` predicts.
    */
    ghost predicate Midway(env0: S, q0: multiset<Event>, stats0: seq<SeriesView>, events: seq<Event>, acc: Reaction<S>)
      reads this, scheduler, statistics
    {
      && Replay(behaviour, scheduler.runtime, env0, events) == Ok(acc)
      && Released(behaviour, scheduler.runtime, env0, q0, events)
      && multiset(events) <= q0 + multiset(acc.scheduled)
      && environment == acc.state
      && statistics.allSeries == RecordAll(stats0, acc.recorded)
    }

    /**
      `next_event` has just answered `next` on the pending queue `pending`:
      a released heap top with the clock moved to it, or an exhausted queue.
    */
    ghost predicate Answered(next: Option<Event>, pending: multiset<Event>)
      reads this, scheduler
    {
      && (next.Some? ==>
            && next.value.timestamp <= scheduler.runtime
            && scheduler.currentTime == next.value.timestamp
            && IsHeapTop(next.value, pending)
            && scheduler.eventQueue == pending - multiset{next.value})
      && (next.None? ==> Exhausted(pending, scheduler.eventQueue, scheduler.runtime))
    }

    /**
      One turn of the main loop, seen against the reference: dispatching the
      released `event` extends the release order and the replay by it, and
      the next answer of `next_event` is about the queue that replay predicts.
    */
    method Advance(event: Event, ghost env0: S, ghost q0: multiset<Event>, ghost stats0: seq<SeriesView>,
                   ghost events: seq<Event>, ghost acc: Reaction<S>)
      returns (r: Result<Option<Event>, string>, ghost acc': Reaction<S>)
      requires Midway(env0, q0, stats0, events, acc)
      requires Answered(Some(event), Pending(q0, acc.scheduled, events))
      modifies this, scheduler, statistics
      ensures scheduler.runtime == old(scheduler.runtime)
      ensures Released(behaviour, scheduler.runtime, env0, q0, events + [event])
      ensures r.Err? ==> Replay(behaviour, scheduler.runtime, env0, events + [event]) == Err(r.error)
      ensures r.Ok? ==>
        && Midway(env0, q0, stats0, events + [event], acc')
        && Answered(r.value, Pending(q0, acc'.scheduled, events + [event]))
        && (r.value.None? ==> scheduler.currentTime == event.timestamp)
    {
      ghost var runtime := scheduler.runtime;
      ghost var queued := scheduler.eventQueue;
      r := Turn(event);
      acc' := acc;
      if r.Err? {
        FailStep(behaviour, runtime, env0, q0, events, acc, event, r.error);
        return;
      }
      ghost var re := behaviour.apply(acc.state, Clock(event.timestamp, runtime), event).value;
      DrainStep(behaviour, runtime, env0, q0, stats0, events, acc, event, re);
      acc' := Reaction(re.state, acc.scheduled + re.scheduled, acc.recorded + re.recorded);
      assert Pending(q0, acc'.scheduled, events + [event]) == queued + multiset(re.scheduled);
    }

    /**
      The main loop of `run`: dispatch what `next_event` releases until it
      answers `None`, counting the events.  It stops early on a handler
      failure, and when `budget` events have been dispatched.  The events
      dispatched are always released in heap order from the queue and what
      the handlers scheduled.  A drained queue has been exhausted, the clock
      sits at the last dispatched event, and the state and statistics are
      the ones `Replay` predicts.
    */
    method DrainQueue(budget: nat) returns (drained: Drain, ghost dispatched: seq<Event>, ghost trace: Reaction<S>)
      modifies this, scheduler, statistics
      ensures scheduler.runtime == old(scheduler.runtime)
      ensures Released(behaviour, scheduler.runtime, old(environment), old(scheduler.eventQueue), dispatched)
      ensures drained.BudgetSpent? ==> |dispatched| == budget
      ensures drained.HandlerFailed? ==>
        Replay(behaviour, scheduler.runtime, old(environment), dispatched) == Err(drained.reason)
      ensures drained.Drained? ==>
        && drained.eventCount == |dispatched|
        && Replay(behaviour, scheduler.runtime, old(environment), dispatched) == Ok(trace)
        && Exhausted(Pending(old(scheduler.eventQueue), trace.scheduled, dispatched), scheduler.eventQueue, scheduler.runtime)
        && scheduler.currentTime == ClockAfter(old(scheduler.currentTime), scheduler.runtime, dispatched).currentTime
        && environment == trace.state
        && statistics.allSeries == RecordAll(old(statistics.allSeries), trace.recorded)
    {
      ghost var runtime := scheduler.runtime;
      ghost var start := scheduler.currentTime;
      ghost var q0 := scheduler.eventQueue;
      ghost var env0 := environment;
      ghost var stats0 := statistics.allSeries;
      var eventCount := 0;
      dispatched, trace := [], Reaction(environment, [], []);
      var next, top := scheduler.NextEvent();
      assert Pending(q0, [], []) == q0;
      if next.None? && top.Some? {
        assert scheduler.eventQueue == q0 - multiset{top.value};
      }
      while next.Some?
        invariant scheduler.runtime == runtime
        invariant eventCount == |dispatched| <= budget
        invariant Midway(env0, q0, stats0, dispatched, trace)
        invariant Answered(next, Pending(q0, trace.scheduled, dispatched))
        invariant next.None? ==> scheduler.currentTime == ClockAfter(start, runtime, dispatched).currentTime
        decreases budget - eventCount
      {
        if eventCount == budget {
          return BudgetSpent, dispatched, trace;
        }
        var event := next.value;
        var r;
        r, trace := Advance(event, env0, q0, stats0, dispatched, trace);
        dispatched := dispatched + [event];
        if r.Err? {
          return HandlerFailed(r.error), dispatched, trace;
        }
        eventCount := eventCount + 1;
        next := r.value;
      }
      drained := Drained(eventCount);
    }

    /** `add_arbitrary_event`: only enqueues. */
    method AddArbitraryEvent(from: Event)
      modifies scheduler
      ensures scheduler.eventQueue == old(scheduler.eventQueue) + multiset{from}
      ensures scheduler.currentTime == old(scheduler.currentTime) && scheduler.runtime == old(scheduler.runtime)
    {
      scheduler.AddEvent(from);
    }
  }
}
