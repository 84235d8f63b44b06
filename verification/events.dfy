/**
 * The Future Event Set: scheduled events kept in insertion order and popped
 * earliest-time first (Python's `PriorityQueue` of tuples). Among events with
 * the same time the one inserted first is popped; the source leaves that
 * choice to tuple comparison.
 */
module Events {
  import opened Basics

  /** The event kinds of lab2/main.py; the lab1 drivers use the first two. */
  datatype Event =
    | Arrival(time: real, station: nat)
    | Departure(time: real, station: nat, server: nat)
    | SwitchOff(time: real, station: nat, duration: int)
    | Recharge(time: real, station: nat)

  /** No event is scheduled before `t`. */
  ghost predicate NotBefore(fes: seq<Event>, t: real)
  {
    forall i :: 0 <= i < |fes| ==> t <= fes[i].time
  }

  /** Index of the earliest event, the first one among equal times. */
  function EarliestIndex(fes: seq<Event>): (i: nat)
    requires |fes| > 0
    ensures i < |fes|
    ensures forall j :: 0 <= j < |fes| ==> fes[i].time <= fes[j].time
    ensures forall j :: 0 <= j < i ==> fes[i].time < fes[j].time
  {
    if |fes| == 1 then 0
    else
      var k := EarliestIndex(fes[..|fes| - 1]);
      if fes[|fes| - 1].time < fes[k].time then |fes| - 1 else k
  }

  datatype Popped = Popped(event: Event, rest: seq<Event>)

  /** `FES.get()`: remove and return an event with the least time. */
  function PopEarliest(fes: seq<Event>): (p: Popped)
    requires |fes| > 0
    ensures |p.rest| == |fes| - 1
    ensures multiset(fes) == multiset(p.rest) + multiset{p.event}
    ensures forall e :: e in p.rest ==> e in fes
    ensures p.event in fes
    ensures forall e :: e in p.rest ==> p.event.time <= e.time
  {
    var i := EarliestIndex(fes);
    assert fes == fes[..i] + [fes[i]] + fes[i + 1..];
    Popped(fes[i], fes[..i] + fes[i + 1..])
  }

  /** The clock never runs backwards: if nothing was scheduled before `t`, the
      popped event is not before `t`, and nothing left is before it. */
  lemma PopKeepsOrder(fes: seq<Event>, t: real)
    requires |fes| > 0 && NotBefore(fes, t)
    ensures t <= PopEarliest(fes).event.time
    ensures NotBefore(PopEarliest(fes).rest, PopEarliest(fes).event.time)
  {
    var p := PopEarliest(fes);
    forall i | 0 <= i < |p.rest|
      ensures p.event.time <= p.rest[i].time
    {
      assert p.rest[i] in p.rest;
    }
  }

  /** The pending events after the next arrival is scheduled. */
  function WithNextArrival(fes: seq<Event>, time: real, stationCount: nat, d: Draw): seq<Event>
    requires stationCount > 0
  {
    fes + [Arrival(time + d.interArrival, ResolveStation(stationCount, d.stationPick))]
  }

  // ---------------------------------------------------------------------------
  // Counting pending events of one class

  datatype Key =
    | ArrivalKey
    | DepartureKey(station: nat, server: nat)
    | AnyDepartureKey
    | SwitchOffKey(station: nat)
    | RechargeKey(station: nat)

  predicate Matches(e: Event, k: Key)
  {
    match k
    case ArrivalKey => e.Arrival?
    case DepartureKey(q, s) => e.Departure? && e.station == q && e.server == s
    case AnyDepartureKey => e.Departure?
    case SwitchOffKey(q) => e.SwitchOff? && e.station == q
    case RechargeKey(q) => e.Recharge? && e.station == q
  }

  function Bit(b: bool): nat
  {
    if b then 1 else 0
  }

  /** How many pending events are of class `k`. */
  function Count(fes: seq<Event>, k: Key): (n: nat)
    ensures n <= |fes|
  {
    if fes == [] then 0 else Count(fes[..|fes| - 1], k) + Bit(Matches(fes[|fes| - 1], k))
  }

  lemma {:induction false} CountAppend(a: seq<Event>, b: seq<Event>, k: Key)
    ensures Count(a + b, k) == Count(a, k) + Count(b, k)
    decreases |b|
  {
    if b == [] {
      assert a + b == a;
    } else {
      assert (a + b)[..|a + b| - 1] == a + b[..|b| - 1];
      CountAppend(a, b[..|b| - 1], k);
    }
  }

  /** Scheduling one event adds one to its own class only. */
  lemma CountSchedule(fes: seq<Event>, e: Event, k: Key)
    ensures Count(fes + [e], k) == Count(fes, k) + Bit(Matches(e, k))
  {
    assert (fes + [e])[..|fes|] == fes;
  }

  /** Popping removes exactly the popped event from its class. */
  lemma CountPop(fes: seq<Event>, k: Key)
    requires |fes| > 0
    ensures Count(fes, k) == Count(PopEarliest(fes).rest, k) + Bit(Matches(PopEarliest(fes).event, k))
  {
    var i := EarliestIndex(fes);
    assert fes == fes[..i] + [fes[i]] + fes[i + 1..];
    CountAppend(fes[..i] + [fes[i]], fes[i + 1..], k);
    CountAppend(fes[..i], [fes[i]], k);
    CountAppend(fes[..i], fes[i + 1..], k);
    assert Count([fes[i]], k) == Bit(Matches(fes[i], k)) by {
      assert [fes[i]][..0] == [];
    }
  }

  lemma {:induction false} CountPositiveNonEmpty(fes: seq<Event>, k: Key)
    requires Count(fes, k) > 0
    ensures |fes| > 0
  {
  }

  /** If every pending departure is for server `s` of station `q`, all of them
      are counted by that class. */
  lemma {:induction false} AllDeparturesOne(fes: seq<Event>, q: nat, s: nat)
    requires forall e :: e in fes && e.Departure? ==> e.station == q && e.server == s
    ensures Count(fes, AnyDepartureKey) == Count(fes, DepartureKey(q, s))
    decreases |fes|
  {
    if fes != [] {
      var init := fes[..|fes| - 1];
      assert forall e :: e in init ==> e in fes;
      assert fes[|fes| - 1] in fes;
      AllDeparturesOne(init, q, s);
    }
  }

  /** A class with no pending event has no member among the pending events. */
  lemma {:induction false} CountZeroNone(fes: seq<Event>, k: Key)
    requires Count(fes, k) == 0
    ensures forall e :: e in fes ==> !Matches(e, k)
    decreases |fes|
  {
    if fes != [] {
      var init := fes[..|fes| - 1];
      CountZeroNone(init, k);
      assert fes == init + [fes[|fes| - 1]];
    }
  }
}
