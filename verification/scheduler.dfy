/**
  The discrete-event scheduler (src/des/scheduler.rs): a priority queue of
  pending events, the current simulation time and an inclusive horizon.
*/
module Des {
  import opened Wrappers
  import opened Events

  /**
    What `BinaryHeap::pop` may hand out: an element that no other element of
    the heap exceeds under `Ord`.  Among equal timestamps any one may come out.
  */
  predicate IsHeapTop(e: Event, q: multiset<Event>) {
    e in q && forall x :: x in q ==> Cmp(x, e) != Greater
  }

  /** `e` is an event of `q` with the smallest timestamp. */
  predicate IsEarliest(e: Event, q: multiset<Event>) {
    e in q && forall x :: x in q ==> e.timestamp <= x.timestamp
  }

  /** Every event of `q` lies at or after `t`. */
  ghost predicate NoneBefore(q: multiset<Event>, t: nat) {
    forall x :: x in q ==> t <= x.timestamp
  }

  /** Every event of `q` lies strictly after `t`. */
  ghost predicate AllAfter(q: multiset<Event>, t: nat) {
    forall x :: x in q ==> t < x.timestamp
  }

  /** Because the order is reversed, the heap's greatest element is the earliest event. */
  lemma HeapTopIsEarliest(e: Event, q: multiset<Event>)
    ensures IsHeapTop(e, q) <==> IsEarliest(e, q)
  {
  }

  /** A non-empty queue always has an earliest event, so `pop` always has something to return. */
  lemma {:induction false} EarliestExists(q: multiset<Event>)
    requires q != multiset{}
    ensures exists e :: IsEarliest(e, q)
  {
    var y :| y in q;
    var rest := q - multiset{y};
    assert forall x :: x in q ==> x == y || x in rest;
    if rest == multiset{} {
      assert IsEarliest(y, q);
    } else {
      EarliestExists(rest);
      var m :| IsEarliest(m, rest);
      if y.timestamp <= m.timestamp {
        assert IsEarliest(y, q);
      } else {
        assert IsEarliest(m, q);
      }
    }
  }

  class Scheduler {
    var currentTime: nat
    var runtime: nat
    var eventQueue: multiset<Event>

    /** `Scheduler::new`: time zero, the given horizon, nothing queued. */
    constructor (runtime: nat)
      ensures currentTime == 0 && this.runtime == runtime && eventQueue == multiset{}
    {
      currentTime := 0;
      this.runtime := runtime;
      eventQueue := multiset{};
    }

    /**
      `add_event`: the queue grows by exactly this event; its timestamp is
      checked against neither the current time nor the horizon.
    */
    method AddEvent(event: Event)
      modifies this
      ensures eventQueue == old(eventQueue) + multiset{event}
      ensures currentTime == old(currentTime) && runtime == old(runtime)
      ensures old(NoneBefore(eventQueue, currentTime)) && currentTime <= event.timestamp ==>
        NoneBefore(eventQueue, currentTime)
    {
      eventQueue := eventQueue + multiset{event};
    }

    /**
      `next_event`: pops an earliest event.  If it lies beyond the horizon the
      answer is `None` and the event is gone for good; otherwise the clock moves
      to its timestamp and it is returned.  The ghost `popped` says which event
      left the queue, if any.
    */
    method NextEvent() returns (r: Option<Event>, ghost popped: Option<Event>)
      modifies this
      ensures runtime == old(runtime)
      ensures popped.None? <==> old(eventQueue) == multiset{}
      ensures popped.None? ==> r.None? && eventQueue == old(eventQueue) && currentTime == old(currentTime)
      ensures popped.Some? ==>
        IsHeapTop(popped.value, old(eventQueue)) && eventQueue == old(eventQueue) - multiset{popped.value}
      ensures popped.Some? && popped.value.timestamp > runtime ==> r.None? && currentTime == old(currentTime)
      ensures popped.Some? && popped.value.timestamp <= runtime ==> r == popped && currentTime == popped.value.timestamp
      ensures r.Some? ==> r.value.timestamp <= runtime
      ensures r.None? ==> AllAfter(eventQueue, runtime)
      ensures old(NoneBefore(eventQueue, currentTime)) ==> old(currentTime) <= currentTime && NoneBefore(eventQueue, currentTime)
    {
      if eventQueue == multiset{} {
        return None, None;
      }
      EarliestExists(eventQueue);
      ghost var earliest :| IsEarliest(earliest, eventQueue);
      assert IsHeapTop(earliest, eventQueue);
      var event :| IsHeapTop(event, eventQueue);
      eventQueue := eventQueue - multiset{event};
      popped := Some(event);
      if event.timestamp > runtime {
        return None, popped;
      }
      currentTime := event.timestamp;
      r := Some(event);
    }
  }

  /** When one event is strictly earlier than all others, it is the only possible heap top. */
  lemma UniqueHeapTop(q: multiset<Event>, e: Event, p: Event)
    requires IsHeapTop(p, q) && e in q
    requires forall x :: x in q && x != e ==> e.timestamp < x.timestamp
    ensures p == e
  {
  }

  /**
    The horizon example: horizon 10, events at 3, 7 and 15.  Whatever the
    heap's tie order, the pops come out as the event at 3, then the event at 7
    (both within the horizon, so returned), then the event at 15, which lies
    beyond the horizon and leaves the queue empty.
  */
  lemma HorizonExample(a: Event, b: Event, c: Event, p1: Event, p2: Event, p3: Event)
    requires a.timestamp == 3 && b.timestamp == 7 && c.timestamp == 15
    requires IsHeapTop(p1, multiset{a, b, c})
    requires IsHeapTop(p2, multiset{a, b, c} - multiset{p1})
    requires IsHeapTop(p3, multiset{a, b, c} - multiset{p1} - multiset{p2})
    ensures p1 == a && p1.timestamp <= 10
    ensures p2 == b && p2.timestamp <= 10
    ensures p3 == c && p3.timestamp > 10
    ensures multiset{a, b, c} - multiset{p1} - multiset{p2} - multiset{p3} == multiset{}
  {
    UniqueHeapTop(multiset{a, b, c}, a, p1);
    assert multiset{a, b, c} - multiset{a} == multiset{b, c};
    UniqueHeapTop(multiset{b, c}, b, p2);
    assert multiset{b, c} - multiset{b} == multiset{c};
    UniqueHeapTop(multiset{c}, c, p3);
  }
}
