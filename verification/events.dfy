/**
  Schedulable events (src/event/schedulable.rs).

  An event carries a type tag, the uid of its origin, a logical timestamp and
  a payload.  Its ordering looks at the timestamp only, and is reversed, so
  that a max-heap hands out the earliest event first.
*/
module Events {
  import opened Wrappers

  /** `usize` timestamps and uids are unbounded naturals here. */
  datatype Event = Event(eventType: string, uid: nat, timestamp: nat, data: string)

  /** std::cmp::Ordering */
  datatype Ordering = Less | Equal | Greater {
    function Reverse(): Ordering {
      match this
      case Less => Greater
      case Equal => Equal
      case Greater => Less
    }
  }

  /** `usize::cmp` */
  function CompareNat(a: nat, b: nat): Ordering {
    if a < b then Less else if a == b then Equal else Greater
  }

  /** `Ord::cmp`: the later event is the smaller one. */
  function Cmp(a: Event, b: Event): (r: Ordering)
    ensures r == Greater <==> a.timestamp < b.timestamp
    ensures r == Less <==> a.timestamp > b.timestamp
    ensures r == Equal <==> a.timestamp == b.timestamp
  {
    CompareNat(a.timestamp, b.timestamp).Reverse()
  }

  /** `PartialOrd::partial_cmp`: always defined, and agrees with `Cmp`. */
  function PartialCmp(a: Event, b: Event): (r: Option<Ordering>)
    ensures r.Some? && r.value == Cmp(a, b)
  {
    Some(Cmp(a, b))
  }

  /**
    `PartialEq::eq`: type, uid and payload are ignored, so equality agrees
    with the ordering, as `Ord` requires of `Eq`.
  */
  function Eq(a: Event, b: Event): (r: bool)
    ensures r <==> Cmp(a, b) == Equal
    ensures r <==> Cmp(b, a) == Equal
  {
    a.timestamp == b.timestamp
  }

  /** `Cmp` answers `Equal` exactly when `Eq` holds. */
  lemma CmpEqualIffEq(a: Event, b: Event)
    ensures Cmp(a, b) == Equal <==> Eq(a, b)
  {
  }

  /** Swapping the arguments reverses the answer. */
  lemma CmpAntisymmetric(a: Event, b: Event)
    ensures Cmp(b, a) == Cmp(a, b).Reverse()
  {
  }

  /** "not smaller" is transitive and total: a total preorder on events. */
  lemma CmpTotalPreorder(a: Event, b: Event, c: Event)
    ensures Cmp(a, b) != Less || Cmp(b, a) != Less
    ensures Cmp(a, b) != Less && Cmp(b, c) != Less ==> Cmp(a, c) != Less
  {
  }

  /** Events that differ in everything but the timestamp are still equal. */
  lemma EqIgnoresPayload(a: Event, t: string, u: nat, d: string)
    ensures Eq(a, Event(t, u, a.timestamp, d))
    ensures Cmp(a, Event(t, u, a.timestamp, d)) == Equal
  {
  }
}
