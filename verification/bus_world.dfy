/**
  Buses and bus stops (src/environment/bus_world/bus.rs and bus_stop.rs).
  A bus carries passengers and remembers the stops it serviced; a stop holds
  the passengers waiting there, the passengers who completed their journey
  and the buses standing at it.  Both render as one line of text.

  A passenger is a uid with no behaviour; how a passenger renders is a
  parameter of the renderings.
*/
module BusWorld {
  import opened Wrappers
  import opened Text

  /** `Passenger`: a uid and nothing else. */
  datatype Passenger = Passenger(uid: nat)

  /** The renderings of the passengers, in order. */
  function Names(ps: seq<Passenger>, renderPassenger: Passenger -> string): (names: seq<string>)
    ensures |names| == |ps| && forall i :: 0 <= i < |ps| ==> names[i] == renderPassenger(ps[i])
  {
    seq(|ps|, i requires 0 <= i < |ps| => renderPassenger(ps[i]))
  }

  /** What a bus rendering starts with. */
  function BusHeader(uid: nat): string {
    "Bus " + NatToString(uid) + ": Passengers: "
  }

  /** A bus as text: its uid, then its passengers joined by ", ". */
  function BusText(uid: nat, ps: seq<Passenger>, renderPassenger: Passenger -> string): (s: string)
    ensures |BusHeader(uid)| <= |s| && s[..|BusHeader(uid)|] == BusHeader(uid)
    ensures ps == [] ==> s == BusHeader(uid)
  {
    BusHeader(uid) + Join(Names(ps, renderPassenger), ", ")
  }

  /** Boarding one more passenger extends the rendering by that passenger alone. */
  lemma BusTextAfterBoarding(uid: nat, ps: seq<Passenger>, p: Passenger, renderPassenger: Passenger -> string)
    ensures BusText(uid, ps + [p], renderPassenger) ==
      BusText(uid, ps, renderPassenger) + (if ps == [] then "" else ", ") + renderPassenger(p)
  {
    var names := Names(ps, renderPassenger);
    assert Names(ps + [p], renderPassenger) == names + [renderPassenger(p)];
    JoinSnoc(names, renderPassenger(p), ", ");
  }

  /** Moving the brackets of a concatenation of six texts. */
  lemma Regroup(a: string, b: string, c: char, d: string, e: string, f: string)
    ensures a + b + [c] + d + e + f == a + (b + [c] + (d + e + f))
  {
  }

  /** Texts that agree after the same prefix agree entirely. */
  lemma SamePrefixSameRest(p: string, x: string, y: string)
    requires p + x == p + y
    ensures x == y
  {
    assert x == (p + x)[|p|..];
    assert y == (p + y)[|p|..];
  }

  /** Splitting off the first character of a marker text. */
  lemma RegroupMarker(a: string, b: string, m: string, j: string)
    requires |m| > 0
    ensures a + b + m + j == a + (b + [m[0]] + (m[1..] + j))
  {
    assert m == [m[0]] + m[1..];
  }

  /** Two buses with different uids never render alike, whoever they carry. */
  lemma BusTextNamesTheBus(u1: nat, ps1: seq<Passenger>, u2: nat, ps2: seq<Passenger>, renderPassenger: Passenger -> string)
    requires BusText(u1, ps1, renderPassenger) == BusText(u2, ps2, renderPassenger)
    ensures u1 == u2
  {
    var tail := ": Passengers: ";
    var rest1 := tail[1..] + Join(Names(ps1, renderPassenger), ", ");
    var rest2 := tail[1..] + Join(Names(ps2, renderPassenger), ", ");
    RegroupMarker("Bus ", NatToString(u1), tail, Join(Names(ps1, renderPassenger), ", "));
    RegroupMarker("Bus ", NatToString(u2), tail, Join(Names(ps2, renderPassenger), ", "));
    SamePrefixSameRest("Bus ", NatToString(u1) + [':'] + rest1, NatToString(u2) + [':'] + rest2);
    NumberBeforeMarker(u1, u2, ':', rest1, rest2);
  }

  /** `Bus`: a uid, the passengers on board and the stops serviced. */
  class Bus {
    var uid: nat
    var passengers: seq<Passenger>
    var servicedStops: seq<BusStop>

    /** `Bus::new`: empty, with the given uid. */
    constructor(uid: nat)
      ensures this.uid == uid && passengers == [] && servicedStops == []
    {
      this.uid := uid;
      passengers := [];
      servicedStops := [];
    }

    /** `add_passenger`: boards one passenger at the back. */
    method AddPassenger(passenger: Passenger)
      modifies this
      ensures passengers == old(passengers) + [passenger]
      ensures uid == old(uid) && servicedStops == old(servicedStops)
    {
      passengers := passengers + [passenger];
    }

    /** `add_serviced_stop`: remembers one more stop at the back. */
    method AddServicedStop(stop: BusStop)
      modifies this
      ensures servicedStops == old(servicedStops) + [stop]
      ensures uid == old(uid) && passengers == old(passengers)
    {
      servicedStops := servicedStops + [stop];
    }

    /** `Display`: "Bus {uid}: Passengers: " and the passengers joined by ", ". */
    function Render(renderPassenger: Passenger -> string): (s: string)
      reads this
      ensures |BusHeader(uid)| <= |s| && s[..|BusHeader(uid)|] == BusHeader(uid)
      ensures s[|BusHeader(uid)|..] == Join(Names(passengers, renderPassenger), ", ")
    {
      BusText(uid, passengers, renderPassenger)
    }
  }

  /** The uids of the buses, in order. */
  function UidsOf(buses: seq<Bus>): (uids: seq<nat>)
    reads buses
    ensures |uids| == |buses| && forall i :: 0 <= i < |buses| ==> uids[i] == buses[i].uid
    decreases |buses|
  {
    if buses == [] then [] else UidsOf(buses[..|buses| - 1]) + [buses[|buses| - 1].uid]
  }

  /** `position(|b| b.uid == u)`: where `u` first occurs, if it does. */
  function Position(uids: seq<nat>, u: nat): (r: Option<nat>)
    ensures r.None? <==> u !in uids
    ensures r.Some? ==> r.value < |uids| && uids[r.value] == u
    ensures r.Some? ==> forall j :: 0 <= j < r.value ==> uids[j] != u
    decreases |uids|
  {
    if uids == [] then None
    else if uids[0] == u then Some(0)
    else match Position(uids[1..], u)
      case None => None
      case Some(k) => Some(k + 1)
  }

  /** `Vec::remove(k)`: the other elements, in their order, one fewer. */
  function Without<X>(s: seq<X>, k: nat): (r: seq<X>)
    requires k < |s|
    ensures |r| == |s| - 1
    ensures forall j :: 0 <= j < k ==> r[j] == s[j]
    ensures forall j :: k <= j < |r| ==> r[j] == s[j + 1]
  {
    s[..k] + s[k + 1..]
  }

  /** Removing an element keeps every other one: the multiset loses exactly it. */
  lemma WithoutLosesOne<X>(s: seq<X>, k: nat)
    requires k < |s|
    ensures multiset(Without(s, k)) + multiset{s[k]} == multiset(s)
  {
    assert s == s[..k] + [s[k]] + s[k + 1..];
  }

  /** The renderings of the buses, in order. */
  function BusTexts(buses: seq<Bus>, renderPassenger: Passenger -> string): (texts: seq<string>)
    reads buses
    ensures |texts| == |buses|
    ensures forall i :: 0 <= i < |buses| ==> texts[i] == buses[i].Render(renderPassenger)
    decreases |buses|
  {
    if buses == [] then []
    else BusTexts(buses[..|buses| - 1], renderPassenger) + [buses[|buses| - 1].Render(renderPassenger)]
  }

  /** What a stop rendering starts with. */
  function StopHeader(name: string, waiting: nat, completed: nat): string {
    "[" + name + "] (" + NatToString(waiting) + "|" + NatToString(completed) + ") \t"
  }

  /** A stop as text: name and passenger counts, then the buses joined by single spaces. */
  function StopText(name: string, waiting: nat, completed: nat, busTexts: seq<string>): (s: string)
    ensures |StopHeader(name, waiting, completed)| <= |s|
    ensures s[..|StopHeader(name, waiting, completed)|] == StopHeader(name, waiting, completed)
    ensures busTexts == [] ==> s == StopHeader(name, waiting, completed)
  {
    StopHeader(name, waiting, completed) + Join(busTexts, " ")
  }

  /** One more bus at the stop extends the rendering by that bus alone. */
  lemma StopTextAfterArrival(name: string, waiting: nat, completed: nat, busTexts: seq<string>, t: string)
    ensures StopText(name, waiting, completed, busTexts + [t]) ==
      StopText(name, waiting, completed, busTexts) + (if busTexts == [] then "" else " ") + t
  {
    JoinSnoc(busTexts, t, " ");
  }

  /** The rendering reports how many passengers wait at the stop. */
  lemma StopTextCountsWaiting(name: string, w1: nat, c1: nat, t1: seq<string>, w2: nat, c2: nat, t2: seq<string>)
    requires StopText(name, w1, c1, t1) == StopText(name, w2, c2, t2)
    ensures w1 == w2
  {
    var open := "[" + name + "] (";
    var rest1 := NatToString(c1) + ") \t" + Join(t1, " ");
    var rest2 := NatToString(c2) + ") \t" + Join(t2, " ");
    Regroup(open, NatToString(w1), '|', NatToString(c1), ") \t", Join(t1, " "));
    Regroup(open, NatToString(w2), '|', NatToString(c2), ") \t", Join(t2, " "));
    SamePrefixSameRest(open, NatToString(w1) + ['|'] + rest1, NatToString(w2) + ['|'] + rest2);
    NumberBeforeMarker(w1, w2, '|', rest1, rest2);
  }

  /** `BusStop`: a named stop with its passengers and the buses standing at it. */
  class BusStop {
    var name: string
    var waitingPassengers: seq<Passenger>
    var completedPassengers: seq<Passenger>
    var busesAtStop: seq<Bus>

    /** `BusStop::new`: empty, with the given name. */
    constructor(name: string)
      ensures this.name == name
      ensures waitingPassengers == [] && completedPassengers == [] && busesAtStop == []
    {
      this.name := name;
      waitingPassengers := [];
      completedPassengers := [];
      busesAtStop := [];
    }

    /** `add_passenger`: one more passenger waits, at the back. */
    method AddPassenger(passenger: Passenger)
      modifies this
      ensures waitingPassengers == old(waitingPassengers) + [passenger]
      ensures name == old(name) && completedPassengers == old(completedPassengers)
      ensures busesAtStop == old(busesAtStop)
    {
      waitingPassengers := waitingPassengers + [passenger];
    }

    /** `add_bus`: one more bus stands at the stop, at the back. */
    method AddBus(bus: Bus)
      modifies this
      ensures busesAtStop == old(busesAtStop) + [bus]
      ensures name == old(name) && waitingPassengers == old(waitingPassengers)
      ensures completedPassengers == old(completedPassengers)
    {
      busesAtStop := busesAtStop + [bus];
    }

    /**
      `drain_bus(u)`: takes out the first bus with uid `u`, leaving the others
      in their order; with no such bus the `unwrap` panics.
    */
    method DrainBus(busUid: nat) returns (r: Result<Bus, string>)
      modifies this
      ensures name == old(name) && waitingPassengers == old(waitingPassengers)
      ensures completedPassengers == old(completedPassengers)
      ensures match Position(old(UidsOf(busesAtStop)), busUid)
        case None => r == Err(UnwrapOnNone) && busesAtStop == old(busesAtStop)
        case Some(k) =>
          k < |old(busesAtStop)| && r == Ok(old(busesAtStop)[k]) && busesAtStop == Without(old(busesAtStop), k)
    {
      ghost var uids := UidsOf(busesAtStop);
      var i := 0;
      while i < |busesAtStop| && busesAtStop[i].uid != busUid
        invariant 0 <= i <= |busesAtStop|
        invariant forall j :: 0 <= j < i ==> uids[j] != busUid
      {
        i := i + 1;
      }
      if i == |busesAtStop| {
        return Err(UnwrapOnNone);
      }
      assert uids[i] == busUid;
      r := Ok(busesAtStop[i]);
      busesAtStop := Without(busesAtStop, i);
    }

    /** `Display`: "[name] (waiting|completed) \t" and the buses joined by single spaces. */
    function Render(renderPassenger: Passenger -> string): (s: string)
      reads this, busesAtStop
      ensures s == StopText(name, |waitingPassengers|, |completedPassengers|, BusTexts(busesAtStop, renderPassenger))
    {
      StopHeader(name, |waitingPassengers|, |completedPassengers|) + Join(BusTexts(busesAtStop, renderPassenger), " ")
    }
  }

  /**
    `drain_bus` on one stop followed by `add_bus` on another: the bus moves,
    no bus is lost or duplicated over the two stops.
  */
  method Transfer(from: BusStop, to: BusStop, busUid: nat) returns (r: Result<Bus, string>)
    requires from != to
    modifies from, to
    ensures r.Err? ==> r == Err(UnwrapOnNone) && busUid !in old(UidsOf(from.busesAtStop))
    ensures r.Err? ==> from.busesAtStop == old(from.busesAtStop) && to.busesAtStop == old(to.busesAtStop)
    ensures r.Ok? ==> r.value.uid == busUid && to.busesAtStop == old(to.busesAtStop) + [r.value]
    ensures |from.busesAtStop| + |to.busesAtStop| == old(|from.busesAtStop| + |to.busesAtStop|)
    ensures multiset(from.busesAtStop) + multiset(to.busesAtStop)
      == old(multiset(from.busesAtStop) + multiset(to.busesAtStop))
    ensures r.Ok? && old(multiset(from.busesAtStop)[r.value] + multiset(to.busesAtStop)[r.value]) == 1
      ==> r.value !in from.busesAtStop && multiset(to.busesAtStop)[r.value] == 1
  {
    ghost var fromBuses := from.busesAtStop;
    r := from.DrainBus(busUid);
    if r.Ok? {
      ghost var k := Position(UidsOf(fromBuses), busUid).value;
      WithoutLosesOne(fromBuses, k);
      to.AddBus(r.value);
    }
  }
}
