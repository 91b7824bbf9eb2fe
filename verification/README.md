# Discrete-event simulator and evolution engine, in Dafny

A model of a small Rust discrete-event simulator, together with the
genetic-evolution engine written beside it, and proofs about that model.
The model covers:

- **Scheduler** (`scheduler.dfy`, module `Des`). It holds a priority queue of
  events, ordered earliest timestamp first by a reversed `Ord`
  (`events.dfy`, module `Events`). It also holds the current time and an
  inclusive horizon. `next_event` pops an event. An event beyond the horizon
  is dropped and reported as `None`.
- **Simulation driver** (`sim.dfy`, module `Sim`):
  - It hands every released event to the environment.
  - It then forces a terminating event through the scheduler.
  - It records the number of events that ran as the statistic "Events Ran".
  - The environment is a state plus two functions: `apply_event` and
    `terminating_event`.
  - `Replay`, the fold of the handler over the dispatched events, is the
    reference that `run` is proved against.
- **Statistics recorder** (`statistics.dfy`, module `Statistics`):
  - Data points are write-once.
  - A time series maps timestamps to values. Its unit is taken from the
    first point.
  - Its `Display` renders a table.
  - The collection of series is get-or-create by label.
- **Evolution engine** (`evolution.dfy`, module `Evolution`):
  - Fitness weights are normalised by the running maximum, which starts
    at 0.0.
  - Selection keeps the top percentage.
  - An elite of one individual is the fallback when nobody is selected.
  - A generation breeds with a possible mutation, and a breeding failure
    rolls the generation back.
- **Bus-routing flavour of the engine** (`bus_routing.dfy`, module
  `BusRouting`). A reproduction round draws its parents from the whole
  population and skips failed reproductions.
- **Buses and bus stops** (`bus_world.dfy`, module `BusWorld`). They are
  containers with in-place updates. Removing a bus from a stop keeps the
  order of the other buses. Each renders as one line of text.
- **Shared helpers**: `Option`/`Result` (`wrappers.dfy`) and decimal/join/pad
  text helpers (`text.dfy`).

Where the source mutates an object (the scheduler, a time series, the
statistics, the simulation, a population, a bus, a stop), the model is a
class whose methods modify its fields. Where the source computes, the model
is a function. The simulation's run and the engines' loops are proved
against specification functions (`Replay`, `Weights`, `Kept`, `Fallback`,
`Successes`). The scheduler, series, bus and stop methods state their new
fields directly. Lemmas state what the source promises about these
functions and fields. A few lemmas state properties of the model's
renderings or arithmetic that the source does not promise itself; their
rows say so.

Two places where the code is followed over its own description:

- **Fallback elite.** The fallback loop of `evolve` compares with `>=`.
  Among equally fit individuals, the **last** one becomes the elite, not
  the first (`Evolution.FallbackIsLastFittest`).
- **`terminal_event` panics.** It unwraps the result of `next_event`. It
  therefore panics when the terminating event lies beyond the horizon
  (`Sim.Simulation.Run`).

## Model

| member | source | states |
|---|---|---|
| Events.Cmp | src/event/schedulable.rs:13-15 | `Greater` exactly when the first event is earlier, `Less` exactly when it is later, `Equal` exactly on equal timestamps |
| Events.PartialCmp | src/event/schedulable.rs:19-21 | always defined, and equal to `Cmp` |
| Events.CmpEqualIffEq | src/event/schedulable.rs:13-27 | `cmp` answers `Equal` if and only if `eq` holds |
| Events.CmpAntisymmetric | src/event/schedulable.rs:13-15 | swapping the arguments reverses the ordering |
| Events.CmpTotalPreorder | src/event/schedulable.rs:13-15 | "not less" is total and transitive |
| Events.Eq | src/event/schedulable.rs:25-27 | equal exactly when `cmp` answers `Equal`, in either argument order |
| Events.EqIgnoresPayload | src/event/schedulable.rs:25-27 | events that share a timestamp are equal, whatever their type, uid or data |
| Des.HeapTopIsEarliest | src/des/scheduler.rs:31 | what the max-heap may pop under the reversed order is exactly an earliest event |
| Des.EarliestExists | src/des/scheduler.rs:31-32 | a non-empty queue has an earliest event, so `pop` returns something |
| Des.Scheduler.constructor | src/des/scheduler.rs:16-22 | time 0, the given horizon, empty queue |
| Des.Scheduler.AddEvent | src/des/scheduler.rs:24-28 | the queue grows by exactly the event; time and horizon unchanged; a queue with nothing before the current time keeps that property when the event is not earlier |
| Des.Scheduler.NextEvent | src/des/scheduler.rs:30-42 | pops a heap top. Beyond the horizon it answers `None` and drops the event; otherwise the clock moves to its timestamp. An empty queue changes nothing. After `None`, every queued event lies beyond the horizon. When nothing queued lies before the current time, the clock does not go back, and that stays so (an event added earlier than the clock can move it back) |
| Des.UniqueHeapTop | src/des/scheduler.rs:30-42 | a strictly earliest event is the only possible pop |
| Des.HorizonExample | src/des/scheduler.rs:30-42 | with horizon 10 and events at 3, 7 and 15, the pops come out in the order 3, 7, 15, and only the last lies beyond the horizon |
| Statistics.NewDataPoint | src/statistics/data_point.rs:24-63 | every getter returns the value passed to `new` |
| Statistics.TimeSeries.constructor | src/statistics/timeseries.rs:30-36 | the given label, unit "Unknown", no entries |
| Statistics.TimeSeries.AddDataPoint | src/statistics/timeseries.rs:56-62 | the series becomes `WithPoint` of the old series |
| Statistics.WithPointFacts | src/statistics/timeseries.rs:56-62 | the label is kept. The timestamp maps to the value, and other entries are untouched. The map grows only for a new timestamp. The unit changes only while it is "Unknown" |
| Statistics.UnitFixedOnceKnown | src/statistics/timeseries.rs:56-62 | once known, the unit and the label survive any further points |
| Statistics.TimeSeries.GetLastValue | src/statistics/timeseries.rs:80-85 | the value at the largest timestamp; `None` (the panic) exactly for an empty series |
| Statistics.SeriesView.Lines | src/statistics/timeseries.rs:99-115 | four heading lines, then one row per entry. The i-th row is for the i-th smallest timestamp |
| Statistics.TimeSeries.Render | src/statistics/timeseries.rs:99-115 | the text starts with the heading (`HeadingText`: the rule of '=' as long as the label, the label, the rule, "Timestamp \| unit", one per line); an empty series renders the heading alone |
| Statistics.HeaderText | src/statistics/timeseries.rs:100-110 | the four heading lines, written one after another, are `HeadingText` |
| Statistics.Header | src/statistics/timeseries.rs:100-110 | a rule of '=' as long as the label, the label, the same rule, and "Timestamp \| unit" |
| Statistics.SortedKeys | src/statistics/timeseries.rs:111 | the map's keys, each once, strictly ascending, as `BTreeMap` iterates |
| Statistics.Rows | src/statistics/timeseries.rs:111-113 | one row per key, in key order, each showing that key's value |
| Text.PadRight | src/statistics/timeseries.rs:112 | `{:<9}`: the text, then spaces up to width 9, never truncated |
| Statistics.FirstWithLabel | src/statistics/stats.rs:104-108 | the first index with the label; `None` exactly when no series has it |
| Statistics.Stats.constructor | src/statistics/stats.rs:21-25 | no series |
| Statistics.Stats.AddStatistic | src/statistics/stats.rs:59-73 | the series list becomes `AddedStatistic` of the old list |
| Statistics.AddToExistingSeries | src/statistics/stats.rs:59-67 | with the label present, only the first series with it receives the point |
| Statistics.AddToNewSeries | src/statistics/stats.rs:68-72 | with the label absent, one series is appended: that label, the point's unit, just that point |
| Statistics.AddKeepsLabelsDistinct | src/statistics/stats.rs:59-73 | get-or-create never duplicates a label |
| Statistics.AddedSeriesIsFirst | src/statistics/stats.rs:59-108 | after adding, the lookup by the label finds the series that received the point: the existing first one with the label, or the one appended |
| Statistics.AddedPointIsFound | src/statistics/stats.rs:59-108 | after adding, a lookup by the label finds a series that holds the point |
| Statistics.Stats.GetSeriesByName | src/statistics/stats.rs:104-108 | the first series with the label; `None` exactly when there is none |
| Sim.ReplaySnoc | src/sim.rs:78-82 | replaying one more event continues from the shorter replay's state |
| Sim.RecordAllSnoc | src/sim.rs:79-80 | recording one more statistic adds it to the earlier result |
| Sim.RecordAllAppend | src/sim.rs:79-80 | recording two batches is recording the first, then the second |
| Sim.RecordAllKeepsLabelsDistinct | src/statistics/stats.rs:59-73 | any sequence of recordings keeps labels distinct |
| Sim.EnqueueAll | src/sim.rs:79-80 | the events a handler schedules join the queue, and nothing else changes |
| Sim.RecordEach | src/sim.rs:79-80 | the statistics a handler records are added in order |
| Sim.TerminalComesFirst | src/sim.rs:67-71 | when every queued event lies beyond the horizon, the terminating event is popped if it lies within the horizon; otherwise nothing within the horizon is popped |
| Sim.Simulation.constructor | src/sim.rs:53-65 | fresh scheduler at time 0 with the given horizon; only the initial event queued; empty statistics |
| Sim.Simulation.Dispatch | src/sim.rs:79-80 | the handler sees the scheduler's clock. On success the environment takes its new state, its events are enqueued and its statistics recorded. On failure it reports the handler's error. Time is unchanged |
| Sim.Simulation.TerminalEvent | src/sim.rs:67-74 | enqueue the terminating event, pop a heap top of the queue plus that event, and dispatch it. `None` is the `unwrap` panic. After the main loop, the event popped is the terminating event itself, or nothing. On success the queue is the old queue plus the terminating event, minus the popped event, plus what its handler scheduled |
| Sim.Simulation.Turn | src/sim.rs:78-81 | dispatch one released event, then pop a heap top of the queue as the handler left it. A next event lies within the horizon, the clock moves to it and only it leaves the queue. `None` means that queue was empty, or its popped heap top lay beyond the horizon and was dropped |
| Sim.Simulation.Advance | src/sim.rs:78-81 | one iteration of the main loop: the dispatched events stay a valid release order (`Released`), and on success the replay, environment, statistics and queue history all advance by one event |
| Sim.Simulation.DrainQueue | src/sim.rs:77-82 | the dispatched events are a release order of the scheduler: each is a heap top of the queue pending at its turn (the initial queue plus everything scheduled so far, minus what was dispatched) and lies within the horizon. The main loop agrees with `Replay` over them. When drained, the final queue is the pending queue minus a heap top beyond the horizon, or the pending queue was empty; the clock sits at the last dispatched event |
| Sim.Simulation.Conclude | src/sim.rs:83-92 | after the main loop: the terminating event is the handler's answer at the current clock, the `unwrap` panics exactly when it lies beyond the horizon, and a completed run adds its handler's events to the queue and the "Events Ran" count at its time to the statistics |
| Sim.Simulation.Run | src/sim.rs:76-93 | the dispatched events are a release order of the scheduler within the horizon, and the outcome is the one `Replay` predicts. The first handler failure is a panic. When drained, the queue left is the pending queue minus a dropped heap top beyond the horizon, or empty. The `unwrap` panics exactly when the terminating event lies beyond the horizon. A completed run holds the replay's state, that queue plus what the terminating handler scheduled, and the replay's statistics plus the "Events Ran" count at the terminating event's time |
| Sim.ReleasedWithinHorizon | src/des/scheduler.rs:33-35 | every event of a release order lies within the horizon |
| Sim.ReleasedSnoc | src/des/scheduler.rs:30-42 | a heap top of the pending queue within the horizon extends a release order |
| Sim.ReleasedInTimeOrder | src/des/scheduler.rs:30-42 | when handlers never schedule into the past, the events are released in non-decreasing timestamp order |
| Sim.ReleasedNotBeforePrevious | src/des/scheduler.rs:30-42 | under the same condition, each released event is no earlier than the one before it |
| Sim.NothingPendingBeforeLast | src/des/scheduler.rs:30-42 | under the same condition, nothing pending after a release is earlier than the last released event |
| Sim.NothingPendingBefore | src/des/scheduler.rs:30-42 | one step of the above: a heap top leaves nothing earlier, and its handler schedules nothing earlier |
| Sim.InTimeOrderSnoc | src/des/scheduler.rs:30-42 | a time-ordered sequence stays ordered when the next event is no earlier than its last |
| Sim.PendingSplit | src/sim.rs:78-81 | an event pending after one more turn was pending before it or was scheduled by it |
| Sim.PendingStep | src/sim.rs:78-81 | one turn removes the dispatched event from the pending queue and adds what its handler scheduled |
| Sim.ExhaustedLeavesOnlyLater | src/des/scheduler.rs:30-42 | after the main loop ends, every event in the queue, before and after the final pop, lies beyond the horizon, and the final pop removed at most one event |
| Sim.DrainStep | src/sim.rs:78-81 | a successful turn extends the replay, the release order and the recorded statistics by that event |
| Sim.FailStep | src/sim.rs:78-81 | a failing turn ends the replay with the handler's error, and the event still counts as released |
| Sim.Simulation.AddArbitraryEvent | src/sim.rs:126-128 | only enqueues the event |
| Evolution.FitnessOf | src/genetic_learning/evolution.rs:95-96 | one fitness per individual, in order |
| Evolution.Peak | src/genetic_learning/evolution.rs:92-99 | the running maximum from 0.0: at least 0, at least every fitness, and 0 or attained |
| Evolution.Normalise | src/genetic_learning/evolution.rs:105 | `fitness / max * 100.0`: with a non-zero maximum the finite quotient, non-negative exactly for a non-negative fitness under a positive maximum, and exactly 100 for the maximum itself; with a zero maximum NaN for 0/0 and an infinity of the fitness's sign otherwise |
| Evolution.Weights | src/genetic_learning/evolution.rs:91-107 | one weight per individual: its fitness normalised by `Peak` |
| Evolution.CollectFitness | src/genetic_learning/evolution.rs:92-101 | the first loop yields the fitnesses and their `Peak` |
| Evolution.NormaliseAll | src/genetic_learning/evolution.rs:103-105 | the second loop yields `Weights` |
| Evolution.Population.GetWeights | src/genetic_learning/evolution.rs:91-107 | the weights are `Weights` of the population's fitnesses |
| Evolution.WeightsAtMost100 | src/genetic_learning/evolution.rs:91-107 | weights are finite exactly when some fitness is positive, and then at most 100 |
| Evolution.FittestWeighs100 | src/genetic_learning/evolution.rs:103-105 | a positive maximum fitness weighs exactly 100 |
| Evolution.AtLeast | src/genetic_learning/evolution.rs:82 | `weight >= threshold` on floats: NaN and -inf fail, +inf passes, a finite weight passes exactly when it reaches the threshold |
| Evolution.KeptIncreasing | src/genetic_learning/evolution.rs:81-85 | the kept indices are strictly increasing, so selection keeps population order |
| Evolution.KeptMembership | src/genetic_learning/evolution.rs:81-85 | an index is kept if and only if its weight reaches the threshold |
| Evolution.KeptEmptyIff | src/genetic_learning/evolution.rs:81-85 | nothing is kept if and only if no weight reaches the threshold |
| Evolution.KeptSnoc | src/genetic_learning/evolution.rs:81-85 | one more weight adds its index exactly when it reaches the threshold |
| Evolution.KeptAll | src/genetic_learning/evolution.rs:81-85 | when every weight reaches the threshold, every index is kept, in order |
| Evolution.Picked | src/genetic_learning/evolution.rs:83 | the individuals at the chosen indices, in order |
| Evolution.KeepStep | src/genetic_learning/evolution.rs:81-85 | one step of the selection loop keeps the next individual exactly when its weight reaches the threshold |
| Evolution.KeepAtLeast | src/genetic_learning/evolution.rs:79-85 | the selection loop keeps, in order, the individuals whose weight reaches the threshold |
| Evolution.Population.Selection | src/genetic_learning/evolution.rs:71-89 | an error, with its message, exactly when p is 0 or over 100. Otherwise, in population order, the individuals whose weight reaches 100 - p |
| Evolution.PickedAll | src/genetic_learning/evolution.rs:83 | picking every index in order gives back the population |
| Evolution.SelectionOfAll | src/genetic_learning/evolution.rs:71-107 | `selection(100)` compares with 0: with a positive maximum an index is kept exactly when its fitness is not negative, so non-negative fitnesses keep every index, in order |
| Evolution.PickedKeptAll | src/genetic_learning/evolution.rs:79-85 | picking by the indices `selection(100)` keeps from non-negative fitnesses gives back the population |
| Evolution.SelectionOfAllPicksAll | src/genetic_learning/evolution.rs:71-107 | with a positive maximum and no negative fitness, `selection(100)` selects the whole population, in order |
| Evolution.SelectionEmptyIff | src/genetic_learning/evolution.rs:71-107 | for a valid p, nobody is selected exactly when no fitness is positive. The fittest are always selected |
| Evolution.Fallback | src/genetic_learning/evolution.rs:143-153 | an index within the population, or 0 when it is empty |
| Evolution.FallbackIsLastFittest | src/genetic_learning/evolution.rs:143-153 | with some fitness at least 0, the last index holding the maximum; with all negative, index 0 |
| Evolution.Population.FallbackIndex | src/genetic_learning/evolution.rs:144-152 | the loop computes `Fallback` |
| Evolution.Elite | src/genetic_learning/evolution.rs:140-154 | the elite is never empty and consists of population members |
| Evolution.Population.BreedChildren | src/genetic_learning/evolution.rs:156-170 | `count` children, each bred from two elite parents and possibly mutated; or the first failure of a pair of elite parents |
| Evolution.Population.Evolve | src/genetic_learning/evolution.rs:136-173 | an empty population panics on `populace[0]`. A failure leaves the population unchanged and comes from two elite parents. Success replaces the population by as many children of the elite |
| Evolution.Population.constructor | src/genetic_learning/evolution.rs:51-53 | holds the given individuals |
| Evolution.Population.Len | src/genetic_learning/evolution.rs:55-57 | the number of individuals |
| Evolution.Population.IsEmpty | src/genetic_learning/evolution.rs:59-61 | true exactly for no individuals |
| Evolution.Population.BreedFromParents | src/genetic_learning/evolution.rs:63-69 | the first parent's `reproduce` with the second, success and error passed through |
| Evolution.Population.At | src/genetic_learning/evolution.rs:119-121 | the individual at the index, or the out-of-bounds panic with length and index |
| Evolution.Population.Generation | src/genetic_learning/evolution.rs:175-177 | always 0 |
| BusRouting.NewDnaString | src/genetic_learning/bus_routing/evolution.rs:17-24 | `get_dna` returns the text given to `new` |
| BusRouting.Population.constructor | src/genetic_learning/bus_routing/evolution.rs:61-63 | holds the given individuals |
| BusRouting.Population.Reproduction | src/genetic_learning/bus_routing/evolution.rs:65-71 | the first parent's `reproduce` with the second's DNA, success and error passed through |
| BusRouting.Population.SecondParentOnlyByDna | src/genetic_learning/bus_routing/evolution.rs:65-71 | second parents with the same DNA give the same result |
| BusRouting.Evolution.constructor | src/genetic_learning/bus_routing/evolution.rs:92-97 | the given population at generation 0 |
| BusRouting.Evolution.Selection | src/genetic_learning/bus_routing/evolution.rs:110-126 | one weight per individual, normalised by the running maximum from 0.0 (`Evolution.Weights`) |
| BusRouting.Successes | src/genetic_learning/bus_routing/evolution.rs:137-150 | the children of a round, no more than its draws |
| BusRouting.OneChildPerSuccess | src/genetic_learning/bus_routing/evolution.rs:145-149 | exactly one child per successful reproduction |
| BusRouting.FullRoundIffNoFailure | src/genetic_learning/bus_routing/evolution.rs:145-149 | a round yields as many children as draws if and only if no reproduction failed |
| BusRouting.ChildrenComeFromDraws | src/genetic_learning/bus_routing/evolution.rs:143-147 | every child is the successful result of one draw's parents |
| BusRouting.Evolution.Reproduction | src/genetic_learning/bus_routing/evolution.rs:128-152 | one draw per individual, both parents from the whole population, the successful children in draw order; nothing changes |
| BusRouting.Evolution.Evolve | src/genetic_learning/bus_routing/evolution.rs:99-104 | the children of one reproduction round, at most one per individual; nothing changes |
| BusWorld.Bus.constructor | src/environment/bus_world/bus.rs:13-19 | the given uid, no passengers, no serviced stops |
| BusWorld.Bus.AddPassenger | src/environment/bus_world/bus.rs:21-23 | one passenger appended; uid and stops unchanged |
| BusWorld.Bus.AddServicedStop | src/environment/bus_world/bus.rs:25-27 | one stop appended; uid and passengers unchanged |
| BusWorld.Names | src/environment/bus_world/bus.rs:32-36 | one rendering per passenger, in order |
| BusWorld.BusText | src/environment/bus_world/bus.rs:31-39 | starts "Bus {uid}: Passengers: "; with no passengers that is all |
| BusWorld.Bus.Render | src/environment/bus_world/bus.rs:31-39 | the header, then the passengers joined by ", " |
| BusWorld.BusTextAfterBoarding | src/environment/bus_world/bus.rs:21-39 | boarding a passenger appends ", " and that passenger, or only the passenger on an empty bus |
| BusWorld.BusTextNamesTheBus | src/environment/bus_world/bus.rs:31-39 | a property of the model's rendering, not a promise of the source: equal renderings mean equal uids |
| BusWorld.BusStop.constructor | src/environment/bus_world/bus_stop.rs:13-20 | the given name, no passengers, no buses |
| BusWorld.BusStop.AddPassenger | src/environment/bus_world/bus_stop.rs:22-24 | one waiting passenger appended; other fields unchanged |
| BusWorld.BusStop.AddBus | src/environment/bus_world/bus_stop.rs:26-28 | one bus appended; other fields unchanged |
| BusWorld.UidsOf | src/environment/bus_world/bus_stop.rs:31-34 | the buses' uids, in order |
| BusWorld.Position | src/environment/bus_world/bus_stop.rs:31-35 | the first index holding the uid; `None` exactly when no bus has it |
| BusWorld.Without | src/environment/bus_world/bus_stop.rs:36 | `Vec::remove`: one element fewer, the others in order |
| BusWorld.WithoutLosesOne | src/environment/bus_world/bus_stop.rs:36 | removal loses exactly the removed element |
| BusWorld.BusStop.DrainBus | src/environment/bus_world/bus_stop.rs:30-37 | returns and removes the first bus with the uid, keeping the others in order. With none it is the `unwrap` panic and nothing changes |
| BusWorld.Transfer | src/environment/bus_world/bus_stop.rs:26-37 | draining from one stop and adding to another keeps the buses over both stops as a multiset, and the total count. A bus held once ends up once, at the destination |
| BusWorld.BusTexts | src/environment/bus_world/bus_stop.rs:42-46 | one rendering per bus, in order |
| BusWorld.StopText | src/environment/bus_world/bus_stop.rs:40-56 | starts "[name] (waiting\|completed) \t"; with no buses that is all |
| BusWorld.BusStop.Render | src/environment/bus_world/bus_stop.rs:40-56 | `StopText` of the name, the two counts and the bus renderings |
| BusWorld.StopTextAfterArrival | src/environment/bus_world/bus_stop.rs:40-56 | one more bus appends a space and its rendering, or only its rendering at an empty stop |
| BusWorld.StopTextCountsWaiting | src/environment/bus_world/bus_stop.rs:40-56 | a property of the model's rendering, not a promise of the source: equal renderings of a stop mean equal waiting counts |

## Left out

- I/O: `play_movie` (terminal control, `println!`, sleeping), every
  `println!`, and the plotting, benchmarks, CLI entry point and module
  wiring.
- Sim.Simulation.Run:
  - The source loop has no bound. The model takes a dispatch budget and
    reports `OutOfBudget` when it is used up. Every other outcome is exact.
  - The terminating event's handler may schedule further events. They
    stay queued: after a completed run the queue is what the main loop
    left plus what that handler scheduled. Nothing dispatches them.
- The environment, a trait object:
  - It is a state of type `S` with two total functions.
  - A handler sees the clock. It may change its state, schedule events and
    record statistics, in that order, or fail.
  - In the source it holds `&mut Scheduler` and could also pop events or
    move the clock. The model does not allow that.
  - `terminating_event` likewise only reads the clock.
- A handler's panic aborts the process in Rust. Here it is an error outcome
  that stops the run.
- Floating point:
  - `f32` fitness and `f64` statistic values are `real`.
  - Division by a zero maximum is modelled: the `Weight` datatype holds
    NaN and the infinities.
  - Rounding is not modelled, including at the selection threshold. For
    example, a fitness of 0.9 against a maximum of 1.0 weighs exactly 90.0
    in `f32` and is kept by `selection(10)`, while the real-valued weight
    is below 90 and is not kept.
  - How `f64` prints is left to a `renderValue` parameter.
- Integer width: `usize`, `u32` and the signed 32-bit event counter of
  `run` (an `i32`, since its literal is untyped) are unbounded naturals. No
  overflow is modelled: the counter would panic or wrap only after
  2^31 - 1 dispatches.
- Randomness: `choose` and `gen_range(0..100) < 10` are nondeterministic
  choices. Uniformity and the 10 % mutation rate are not modelled.
- BusRouting.Evolution.Reproduction: the two draws from the gene weights
  have no effect and are not modelled.
- BusRouting.Evolution.Evolve: returns the children instead of printing
  them.
- The DNA of the bus-routing engine is a JSON value. Here it is the abstract
  type parameter `D`.
- The `Dna` trait of the generic engine (`get_dna`, `get_species`) is never
  used by the engine and is not modelled.
- Evolution.Population.Evolve: the elite holds references into the old
  population. The model holds copies, which is indistinguishable because the
  old population is only replaced after breeding.
- Statistics.Stats: `all_series` owns its series. The model holds them as
  values, and adding a point replaces its slot.
- `Stats::default` is `Stats::new` and adds nothing.
- BusWorld.Bus and BusWorld.BusStop: a bus's serviced stops and a stop's
  buses are references to objects. The model therefore allows the same bus
  to sit in two stops at once, or twice in one, which Rust's ownership
  forbids. BusWorld.Transfer's "ends up once" holds only under its premise
  that the bus is held once.
- Evolution.MaximumScalesTo100 and Evolution.BelowMaximumScalesBelow100 are
  arithmetic facts about real division that the weight lemmas use; they
  state nothing the source promises.
- A passenger is a uid. How a passenger renders is a parameter, because the
  passenger's `Display` is not part of this model.
- The older generation of the simulator with `f64` timestamps is not part of
  this model. Nor are the per-event structs, their serde payloads and the
  bus-world setup helpers.
