/**
 * The arrival/departure drivers of lab1/queue_two_MM1.py (several stations;
 * the station of the next arrival is drawn at random) and lab1/queueMM1-ES.py
 * (its instance with one station and one server).
 *
 * Random draws are inputs: each handled event may use one `Draw`. The main
 * result is `Inv`, kept by every event: stations stay valid and within their
 * buffers, `users` is the number of clients in the stations,
 * `arr == users + dep + los`, exactly one arrival is pending, and each busy
 * server has exactly one pending departure (an idle one none). So no
 * handler ever trips an assertion of the station or pops an empty list.
 */
module Lab1Sim {
  import opened Basics
  import opened Queues
  import opened Events
  import opened Measurements

  datatype Sim = Sim(time: real, fes: seq<Event>, stations: seq<Station<Usage>>, stats: Statistics)

  /** `ut += users * (time - oldT); oldT = time`. */
  function Tick(s: Statistics, time: real): Statistics
  {
    s.(ut := Cumulated(s.ut, s.users, s.oldT, time), oldT := time)
  }


  ghost predicate Selectable(st: Station<Usage>)
  {
    st.policy == RoundRobin ==> RotationOk(st)
  }

  datatype Served = Served(station: Station<Usage>, fes: seq<Event>)

  /** "If the server is idle start the service": engage a server when
      `can_engage_server` holds and schedule its departure. */
  function StartService(st: Station<Usage>, fes: seq<Event>, time: real, q: nat, d: Draw): (r: Served)
    requires Selectable(st)
    ensures !CanEngageServer(st) ==> r == Served(st, fes)
    ensures CanEngageServer(st) ==>
              var e := EngageServer(st, d.serverPick);
              r.station == e.station && r.fes == fes + [Departure(time + d.service, q, e.id)]
  {
    if CanEngageServer(st) then
      var e := EngageServer(st, d.serverPick);
      Served(e.station, fes + [Departure(time + d.service, q, e.id)])
    else
      Served(st, fes)
  }

  /** Starting a service engages one more server exactly when
      `can_engage_server` holds: an idle one, which becomes busy while every
      other server and the queue stay as they were, and its departure is the
      only event scheduled. */
  lemma StartServiceEngages(st: Station<Usage>, fes: seq<Event>, time: real, q: nat, d: Draw)
    requires Selectable(st)
    ensures var r, n := StartService(st, fes, time, q, d), Bit(CanEngageServer(st));
            && Busy(r.station.servers) == Busy(st.servers) + n
            && r.station.queue == st.queue && |r.station.servers| == |st.servers|
            && |r.fes| == |fes| + n && r.fes[..|fes|] == fes
    ensures var r := StartService(st, fes, time, q, d);
            CanEngageServer(st) ==>
              var e := r.fes[|fes|];
              && e.Departure? && e.station == q && time <= e.time
              && e.server < |st.servers| && st.servers[e.server].idle && !r.station.servers[e.server].idle
              && forall i :: 0 <= i < |st.servers| && i != e.server ==> r.station.servers[i] == st.servers[i]
  {
  }

  /** `arrival(time, FES, queue_id)` at time `sim.time`. */
  function OnArrival(sim: Sim, q: nat, d: Draw): (r: Sim)
    requires q < |sim.stations| && Selectable(sim.stations[q])
    ensures |r.stations| == |sim.stations|
    ensures r.time == sim.time
    ensures r.stats.arr == sim.stats.arr + 1
    ensures r.stats.dep == sim.stats.dep && r.stats.delay == sim.stats.delay
    ensures IsQueueFull(sim.stations[q]) ==>
              r.stats.los == sim.stats.los + 1 && r.stats.users == sim.stats.users
              && r.stations[q].queue == sim.stations[q].queue
    ensures !IsQueueFull(sim.stations[q]) ==>
              r.stats.los == sim.stats.los && r.stats.users == sim.stats.users + 1
              && r.stations[q].queue == sim.stations[q].queue + [NewTimedClient(TYPE1, sim.time)]
    ensures r.stats.ut == Cumulated(sim.stats.ut, sim.stats.users, sim.stats.oldT, sim.time)
    ensures r.stats.oldT == sim.time
    ensures forall k :: 0 <= k < |sim.stations| && k != q ==> r.stations[k] == sim.stations[k]
    ensures |r.fes| > |sim.fes| && r.fes[..|sim.fes| + 1] ==
              sim.fes + [Arrival(sim.time + d.interArrival, ResolveStation(|sim.stations|, d.stationPick))]
  {
    var st := sim.stations[q];
    var loss := IsQueueFull(st);
    var ticked := Tick(sim.stats.(arr := sim.stats.arr + 1), sim.time);
    var stats := if loss then ticked.(los := ticked.los + 1) else ticked.(users := ticked.users + 1);
    var admitted := Admitted(st, sim.time);
    var fes := WithNextArrival(sim.fes, sim.time, |sim.stations|, d);
    var served := StartService(admitted, fes, sim.time, q, d);
    Sim(sim.time, served.fes, sim.stations[q := served.station], stats)
  }

  /** The counters after a client that arrived at `arrival` leaves at `time`. */
  function DepartureStats(stats: Statistics, time: real, arrival: real): (r: Statistics)
    ensures r.dep == stats.dep + 1 && r.users == stats.users - 1
    ensures r.arr == stats.arr && r.los == stats.los
    ensures r.delay == stats.delay + (time - arrival)
    ensures r.ut == Cumulated(stats.ut, stats.users, stats.oldT, time) && r.oldT == time
  {
    var ticked := Tick(stats.(dep := stats.dep + 1), time);
    ticked.(delay := ticked.delay + (time - arrival), users := ticked.users - 1)
  }

  /** `departure(time, FES, queue_id, server_id)` at time `sim.time`; the
      requirements are those of `consume`. */
  function OnDeparture(sim: Sim, q: nat, s: nat, d: Draw): (r: Sim)
    requires q < |sim.stations| && Selectable(sim.stations[q])
    requires s < |sim.stations[q].servers| && Busy(sim.stations[q].servers) > 0
    requires |sim.stations[q].queue| > 0
    ensures |r.stations| == |sim.stations|
    ensures r.time == sim.time
    ensures r.stats.dep == sim.stats.dep + 1 && r.stats.users == sim.stats.users - 1
    ensures r.stats.arr == sim.stats.arr && r.stats.los == sim.stats.los
    ensures r.stats.delay == sim.stats.delay + (sim.time - sim.stations[q].queue[0].arrivalTime)
    ensures r.stats.ut == Cumulated(sim.stats.ut, sim.stats.users, sim.stats.oldT, sim.time)
    ensures r.stats.oldT == sim.time
    ensures r.stations[q].queue == sim.stations[q].queue[1..]
    ensures forall k :: 0 <= k < |sim.stations| && k != q ==> r.stations[k] == sim.stations[k]
    ensures |sim.fes| <= |r.fes| <= |sim.fes| + 1 && r.fes[..|sim.fes|] == sim.fes
  {
    var served := Depart(sim.stations[q], s, sim.fes, sim.time, q, d);
    Sim(sim.time, served.fes, sim.stations[q := served.station],
        DepartureStats(sim.stats, sim.time, sim.stations[q].queue[0].arrivalTime))
  }

  /** Station `q` hands its head client back and may start the next service. */
  function Depart(st: Station<Usage>, s: nat, fes: seq<Event>, time: real, q: nat, d: Draw): (r: Served)
    requires Selectable(st) && s < |st.servers| && Busy(st.servers) > 0 && |st.queue| > 0
    ensures r.station.queue == st.queue[1..]
    ensures |fes| <= |r.fes| <= |fes| + 1 && r.fes[..|fes|] == fes
  {
    var c := Consume(st, s);
    assert c.station.queue == st.queue[1..];
    var served := StartService(c.station, fes, time, q, d);
    assert served.station.queue == c.station.queue;
    served
  }

  // ---------------------------------------------------------------------------
  // The invariant

  /** One station: valid, within its buffer, and holding no client from the future. */
  ghost predicate StationOk(st: Station<Usage>, time: real)
  {
    Valid(st) && BufferOk(st) && forall k :: 0 <= k < |st.queue| ==> st.queue[k].arrivalTime <= time
  }

  ghost predicate StationsOk(stations: seq<Station<Usage>>, time: real)
  {
    forall q :: 0 <= q < |stations| ==> StationOk(stations[q], time)
  }

  /** A pending event names an existing station (and server). */
  ghost predicate Addressed(e: Event, stations: seq<Station<Usage>>)
  {
    match e
    case Arrival(_, q) => q < |stations|
    case Departure(_, q, s) => q < |stations| && s < |stations[q].servers|
    case SwitchOff(_, _, _) => true
    case Recharge(_, _) => true
  }

  ghost predicate AllAddressed(fes: seq<Event>, stations: seq<Station<Usage>>)
  {
    forall e :: e in fes ==> Addressed(e, stations)
  }

  /** One pending departure per busy server, none for an idle one. */
  ghost predicate Accounted(fes: seq<Event>, stations: seq<Station<Usage>>)
  {
    forall q, s :: 0 <= q < |stations| && 0 <= s < |stations[q].servers| ==>
      Count(fes, DepartureKey(q, s)) == BusyBit(stations[q].servers[s])
  }

  ghost predicate PendingOk(fes: seq<Event>, stations: seq<Station<Usage>>, time: real)
  {
    && NotBefore(fes, time)
    && AllAddressed(fes, stations)
    && Count(fes, ArrivalKey) == 1
    && Accounted(fes, stations)
  }

  ghost predicate CountersOk(stats: Statistics, stations: seq<Station<Usage>>, time: real)
  {
    && stats.users == Queued(stations)
    && stats.arr == stats.users + stats.dep + stats.los
    && 0 <= stats.dep && 0 <= stats.los
    && stats.oldT <= time && 0.0 <= stats.ut && 0.0 <= stats.delay
  }

  /** The simulation invariant of the lab1 drivers. */
  ghost predicate Inv(sim: Sim)
  {
    && |sim.stations| > 0
    && StationsOk(sim.stations, sim.time)
    && PendingOk(sim.fes, sim.stations, sim.time)
    && CountersOk(sim.stats, sim.stations, sim.time)
  }

  /** Same number of stations, each with the same number of servers and buffer size. */
  ghost predicate SameShape(a: seq<Station<Usage>>, b: seq<Station<Usage>>)
  {
    |a| == |b| && forall q :: 0 <= q < |a| ==> |a[q].servers| == |b[q].servers| && a[q].bufferSize == b[q].bufferSize
  }

  // Small facts about replacing one station and scheduling one event.

  lemma StationsReplace(stations: seq<Station<Usage>>, q: nat, st: Station<Usage>, t: real)
    requires q < |stations| && StationsOk(stations, t) && StationOk(st, t)
    ensures StationsOk(stations[q := st], t)
  {
  }

  lemma ShapeReplace(stations: seq<Station<Usage>>, q: nat, st: Station<Usage>)
    requires q < |stations|
    requires |st.servers| == |stations[q].servers| && st.bufferSize == stations[q].bufferSize
    ensures SameShape(stations, stations[q := st])
  {
  }

  lemma AddressedTransfers(fes: seq<Event>, a: seq<Station<Usage>>, b: seq<Station<Usage>>)
    requires SameShape(a, b) && AllAddressed(fes, a)
    ensures AllAddressed(fes, b)
  {
    forall e | e in fes
      ensures Addressed(e, b)
    {
      assert Addressed(e, a);
    }
  }

  lemma Schedule(fes: seq<Event>, e: Event, stations: seq<Station<Usage>>, t: real)
    requires NotBefore(fes, t) && t <= e.time
    requires AllAddressed(fes, stations) && Addressed(e, stations)
    ensures NotBefore(fes + [e], t) && AllAddressed(fes + [e], stations)
    ensures Count(fes + [e], ArrivalKey) == Count(fes, ArrivalKey) + Bit(e.Arrival?)
  {
    CountSchedule(fes, e, ArrivalKey);
  }

  /** Scheduling an event that is not a departure leaves the accounting alone. */
  lemma ScheduleOther(fes: seq<Event>, e: Event, stations: seq<Station<Usage>>)
    requires !e.Departure? && Accounted(fes, stations)
    ensures Accounted(fes + [e], stations)
  {
    forall q, s | 0 <= q < |stations| && 0 <= s < |stations[q].servers|
      ensures Count(fes + [e], DepartureKey(q, s)) == BusyBit(stations[q].servers[s])
    {
      CountSchedule(fes, e, DepartureKey(q, s));
    }
  }

  /** Replacing a station by one with the same servers leaves the accounting alone. */
  lemma AccountedReplace(fes: seq<Event>, stations: seq<Station<Usage>>, q: nat, st: Station<Usage>)
    requires q < |stations| && st.servers == stations[q].servers && Accounted(fes, stations)
    ensures Accounted(fes, stations[q := st])
  {
    var after := stations[q := st];
    forall q', s' | 0 <= q' < |after| && 0 <= s' < |after[q'].servers|
      ensures Count(fes, DepartureKey(q', s')) == BusyBit(after[q'].servers[s'])
    {
      assert after[q'].servers == stations[q'].servers;
    }
  }

  /** Starting a service keeps the departure accounting. */
  lemma StartServiceAccounted(fes: seq<Event>, stations: seq<Station<Usage>>, q: nat, time: real, d: Draw)
    requires q < |stations| && Selectable(stations[q]) && Accounted(fes, stations)
    ensures var sv := StartService(stations[q], fes, time, q, d);
            Accounted(sv.fes, stations[q := sv.station])
  {
    var st := stations[q];
    var sv := StartService(st, fes, time, q, d);
    if CanEngageServer(st) {
      var e := EngageServer(st, d.serverPick);
      var after := stations[q := sv.station];
      forall q', s' | 0 <= q' < |after| && 0 <= s' < |after[q'].servers|
        ensures Count(sv.fes, DepartureKey(q', s')) == BusyBit(after[q'].servers[s'])
      {
        CountSchedule(fes, Departure(time + d.service, q, e.id), DepartureKey(q', s'));
      }
    } else {
      assert stations[q := sv.station] == stations;
    }
  }

  /** Starting a service (or not) at station `q` keeps the station part of
      the invariant, the shape and the client count. */
  lemma ServiceKeepsStations(stations: seq<Station<Usage>>, q: nat, fes: seq<Event>, t: real, d: Draw)
    requires q < |stations| && StationsOk(stations, t)
    ensures var sv := StartService(stations[q], fes, t, q, d);
            var after := stations[q := sv.station];
            && StationsOk(after, t) && SameShape(stations, after) && Queued(after) == Queued(stations)
  {
    var st := stations[q];
    assert StationOk(st, t);
    var sv := StartService(st, fes, t, q, d);
    if CanEngageServer(st) {
      EngageKeepsValid(st, d.serverPick);
    }
    assert StationOk(sv.station, t);
    StationsReplace(stations, q, sv.station, t);
    ShapeReplace(stations, q, sv.station);
    QueuedUpdate(stations, q, sv.station);
  }

  /** Starting a service (or not) at station `q` keeps the pending-event part
      of the invariant. */
  lemma ServiceKeepsPending(stations: seq<Station<Usage>>, q: nat, fes: seq<Event>, t: real, d: Draw)
    requires q < |stations| && Selectable(stations[q]) && PendingOk(fes, stations, t)
    ensures var sv := StartService(stations[q], fes, t, q, d);
            PendingOk(sv.fes, stations[q := sv.station], t)
  {
    var st := stations[q];
    var sv := StartService(st, fes, t, q, d);
    var after := stations[q := sv.station];
    if CanEngageServer(st) {
      var e := EngageServer(st, d.serverPick);
      Schedule(fes, Departure(t + d.service, q, e.id), stations, t);
      ShapeReplace(stations, q, sv.station);
      AddressedTransfers(sv.fes, stations, after);
    } else {
      assert after == stations;
    }
    StartServiceAccounted(fes, stations, q, t, d);
  }

  lemma ServiceKeeps(stations: seq<Station<Usage>>, q: nat, fes: seq<Event>, t: real, d: Draw)
    requires q < |stations| && StationsOk(stations, t) && PendingOk(fes, stations, t)
    ensures var sv := StartService(stations[q], fes, t, q, d);
            var after := stations[q := sv.station];
            && StationsOk(after, t) && PendingOk(sv.fes, after, t)
            && SameShape(stations, after) && Queued(after) == Queued(stations)
  {
    assert StationOk(stations[q], t);
    ServiceKeepsStations(stations, q, fes, t, d);
    ServiceKeepsPending(stations, q, fes, t, d);
  }

  /** The pending events once the earliest is popped: the invariant's event
      part, except for the popped event itself. */
  ghost predicate PoppedOk(sim: Sim, p: Popped)
  {
    && sim.time <= p.event.time
    && StationsOk(sim.stations, p.event.time)
    && NotBefore(p.rest, p.event.time)
    && Addressed(p.event, sim.stations)
    && AllAddressed(p.rest, sim.stations)
    && Count(p.rest, ArrivalKey) == 1 - Bit(p.event.Arrival?)
  }

  /** What the invariant says about the event about to be handled. */
  lemma PoppedReady(sim: Sim)
    requires Inv(sim)
    ensures |sim.fes| > 0
    ensures PoppedOk(sim, PopEarliest(sim.fes))
    ensures var e := PopEarliest(sim.fes).event;
            !e.Departure? ==> Accounted(PopEarliest(sim.fes).rest, sim.stations)
  {
    CountPositiveNonEmpty(sim.fes, ArrivalKey);
    var p := PopEarliest(sim.fes);
    PopKeepsOrder(sim.fes, sim.time);
    CountPop(sim.fes, ArrivalKey);
    assert Addressed(p.event, sim.stations);
    if !p.event.Departure? {
      forall q, s | 0 <= q < |sim.stations| && 0 <= s < |sim.stations[q].servers|
        ensures Count(p.rest, DepartureKey(q, s)) == BusyBit(sim.stations[q].servers[s])
      {
        CountPop(sim.fes, DepartureKey(q, s));
      }
    }
    forall q | 0 <= q < |sim.stations|
      ensures StationOk(sim.stations[q], p.event.time)
    {
      assert StationOk(sim.stations[q], sim.time);
    }
  }

  /** A popped departure is for a busy server: its own pending departure
      was the only one. */
  lemma PoppedDepartureBusy(fes: seq<Event>, stations: seq<Station<Usage>>)
    requires |fes| > 0 && AllAddressed(fes, stations) && Accounted(fes, stations)
    requires PopEarliest(fes).event.Departure?
    ensures var p := PopEarliest(fes);
            var q, s := p.event.station, p.event.server;
            && q < |stations| && s < |stations[q].servers|
            && !stations[q].servers[s].idle
            && Count(p.rest, DepartureKey(q, s)) == 0
  {
    var p := PopEarliest(fes);
    assert Addressed(p.event, stations);
    CountPop(fes, DepartureKey(p.event.station, p.event.server));
  }

  /** Once the server of a popped departure is idle again, the accounting is restored. */
  lemma PoppedDepartureAccounted(fes: seq<Event>, stations: seq<Station<Usage>>, st: Station<Usage>)
    requires |fes| > 0 && AllAddressed(fes, stations) && Accounted(fes, stations)
    requires PopEarliest(fes).event.Departure?
    requires var e := PopEarliest(fes).event;
             && e.station < |stations| && |st.servers| == |stations[e.station].servers|
             && e.server < |st.servers| && st.servers[e.server].idle
             && forall i :: 0 <= i < |st.servers| && i != e.server ==> st.servers[i] == stations[e.station].servers[i]
    ensures Accounted(PopEarliest(fes).rest, stations[PopEarliest(fes).event.station := st])
  {
    var p := PopEarliest(fes);
    var q, s := p.event.station, p.event.server;
    PoppedDepartureBusy(fes, stations);
    var after := stations[q := st];
    forall q', s' | 0 <= q' < |after| && 0 <= s' < |after[q'].servers|
      ensures Count(p.rest, DepartureKey(q', s')) == BusyBit(after[q'].servers[s'])
    {
      CountPop(fes, DepartureKey(q', s'));
      if q' != q {
        assert after[q'] == stations[q'];
      } else if s' != s {
        assert after[q'].servers[s'] == stations[q].servers[s'];
      }
    }
  }

  /** What the invariant says about a departure about to be handled: its
      server is busy and its station holds a client, so `consume` succeeds. */
  lemma DepartureReady(sim: Sim)
    requires Inv(sim)
    ensures |sim.fes| > 0
    ensures var p := PopEarliest(sim.fes);
            p.event.Departure? ==>
              var q, s := p.event.station, p.event.server;
              && q < |sim.stations| && s < |sim.stations[q].servers|
              && !sim.stations[q].servers[s].idle
              && Busy(sim.stations[q].servers) > 0 && |sim.stations[q].queue| > 0
  {
    PoppedReady(sim);
    var p := PopEarliest(sim.fes);
    if p.event.Departure? {
      var q, s := p.event.station, p.event.server;
      PoppedDepartureBusy(sim.fes, sim.stations);
      assert StationOk(sim.stations[q], sim.time);
      ConsumeKeepsValid(sim.stations[q], s);
    }
  }

  /** Handle the earliest pending event (`FES.get()` and the `if` chain of the
      main loop; other kinds of events are ignored there). */
  function Step(sim: Sim, d: Draw): (r: Sim)
    requires Inv(sim)
  {
    PoppedReady(sim);
    DepartureReady(sim);
    var p := PopEarliest(sim.fes);
    var now := sim.(time := p.event.time, fes := p.rest);
    match p.event
    case Arrival(_, q) => OnArrival(now, q, d)
    case Departure(_, q, s) => OnDeparture(now, q, s, d)
    case SwitchOff(_, _, _) => now
    case Recharge(_, _) => now
  }

  /** The station an arrival lands in: the job is appended unless the buffer is full. */
  function Admitted(st: Station<Usage>, t: real): (r: Station<Usage>)
    ensures r.servers == st.servers && r.bufferSize == st.bufferSize
    ensures IsQueueFull(st) ==> r == st
    ensures !IsQueueFull(st) ==> r.queue == st.queue + [NewTimedClient(TYPE1, t)]
  {
    if IsQueueFull(st) then st else Insert(st, NewTimedClient(TYPE1, t))
  }

  /** The stations of an arrival before the service starts. */
  lemma ArrivalAdmitsStations(stations: seq<Station<Usage>>, q: nat, t: real)
    requires q < |stations| && StationsOk(stations, t)
    ensures var mid := stations[q := Admitted(stations[q], t)];
            && StationsOk(mid, t) && SameShape(stations, mid)
            && Queued(mid) == Queued(stations) + (if IsQueueFull(stations[q]) then 0 else 1)
  {
    var st := stations[q];
    var admitted := Admitted(st, t);
    assert StationOk(st, t);
    if !IsQueueFull(st) {
      InsertKeepsBounds(st, NewTimedClient(TYPE1, t));
      forall j | 0 <= j < |admitted.queue|
        ensures admitted.queue[j].arrivalTime <= t
      {
        if j < |st.queue| {
          assert admitted.queue[j] == st.queue[j];
        }
      }
    }
    assert StationOk(admitted, t);
    StationsReplace(stations, q, admitted, t);
    ShapeReplace(stations, q, admitted);
    QueuedUpdate(stations, q, admitted);
  }

  /** The events of an arrival before the service starts: the popped arrival
      is replaced by the next one. */
  lemma ArrivalAdmitsPending(sim: Sim, d: Draw)
    requires Inv(sim)
    ensures |sim.fes| > 0
    ensures var p := PopEarliest(sim.fes);
            p.event.Arrival? ==>
              var q, t := p.event.station, p.event.time;
              var mid := sim.stations[q := Admitted(sim.stations[q], t)];
              var fes1 := WithNextArrival(p.rest, t, |sim.stations|, d);
              q < |sim.stations| && PendingOk(fes1, mid, t)
  {
    PoppedReady(sim);
    var p := PopEarliest(sim.fes);
    if p.event.Arrival? {
      assert Addressed(p.event, sim.stations);
      AdmitsPending(p.rest, sim.stations, p.event.station, p.event.time, d);
    }
  }

  /** Admitting at station `q` and scheduling the next arrival, once the
      popped arrival is gone. */
  lemma AdmitsPending(rest: seq<Event>, stations: seq<Station<Usage>>, q: nat, t: real, d: Draw)
    requires q < |stations| && NotBefore(rest, t) && AllAddressed(rest, stations)
    requires Count(rest, ArrivalKey) == 0 && Accounted(rest, stations)
    ensures PendingOk(WithNextArrival(rest, t, |stations|, d), stations[q := Admitted(stations[q], t)], t)
  {
    var admitted := Admitted(stations[q], t);
    var mid := stations[q := admitted];
    var e := Arrival(t + d.interArrival, ResolveStation(|stations|, d.stationPick));
    assert WithNextArrival(rest, t, |stations|, d) == rest + [e];
    Schedule(rest, e, stations, t);
    ScheduleOther(rest, e, stations);
    AccountedReplace(rest + [e], stations, q, admitted);
    ShapeReplace(stations, q, admitted);
    AddressedTransfers(rest + [e], stations, mid);
  }

  lemma OnArrivalUt(sim: Sim, q: nat, d: Draw)
    requires q < |sim.stations| && Selectable(sim.stations[q])
    requires 0 <= sim.stats.users && sim.stats.oldT <= sim.time
    ensures sim.stats.ut <= OnArrival(sim, q, d).stats.ut
  {
    UtGrows(sim.stats.ut, sim.stats.users, sim.stats.oldT, sim.time);
  }

  /** An arrival handler, spelled out. */
  lemma OnArrivalParts(sim: Sim, q: nat, d: Draw)
    requires q < |sim.stations| && Selectable(sim.stations[q])
    ensures var fes1 := WithNextArrival(sim.fes, sim.time, |sim.stations|, d);
            var sv := StartService(Admitted(sim.stations[q], sim.time), fes1, sim.time, q, d);
            var r := OnArrival(sim, q, d);
            && r.fes == sv.fes
            && r.stations == sim.stations[q := Admitted(sim.stations[q], sim.time)][q := sv.station]
            && r.stats.users == sim.stats.users + (if IsQueueFull(sim.stations[q]) then 0 else 1)
  {
  }

  /** Handling an arrival is the arrival handler at the popped time. */
  lemma StepArrival(sim: Sim, d: Draw)
    requires Inv(sim) && |sim.fes| > 0 && PopEarliest(sim.fes).event.Arrival?
    ensures var p := PopEarliest(sim.fes);
            p.event.station < |sim.stations| &&
            Step(sim, d) == OnArrival(sim.(time := p.event.time, fes := p.rest), p.event.station, d)
  {
    PoppedReady(sim);
  }

  /** An arrival keeps the station and event parts of the invariant. */
  lemma ArrivalKeepsState(sim: Sim, d: Draw)
    requires Inv(sim) && |sim.fes| > 0 && PopEarliest(sim.fes).event.Arrival?
    ensures var r := Step(sim, d);
            && |r.stations| > 0 && sim.time <= r.time && SameShape(sim.stations, r.stations)
            && StationsOk(r.stations, r.time) && PendingOk(r.fes, r.stations, r.time)
            && Queued(r.stations) == Queued(sim.stations) + (if IsQueueFull(sim.stations[PopEarliest(sim.fes).event.station]) then 0 else 1)
  {
    PoppedReady(sim);
    var p := PopEarliest(sim.fes);
    var q, t := p.event.station, p.event.time;
    var now := sim.(time := t, fes := p.rest);
    StepArrival(sim, d);
    assert StationOk(sim.stations[q], sim.time);
    OnArrivalParts(now, q, d);
    ArrivalAdmitsPending(sim, d);
    ArrivalAdmitsStations(sim.stations, q, t);
    var mid := sim.stations[q := Admitted(sim.stations[q], t)];
    var fes1 := WithNextArrival(p.rest, t, |sim.stations|, d);
    assert fes1 == WithNextArrival(now.fes, now.time, |now.stations|, d);
    ServiceKeeps(mid, q, fes1, t, d);
  }

  lemma ArrivalKeepsInv(sim: Sim, d: Draw)
    requires Inv(sim) && |sim.fes| > 0 && PopEarliest(sim.fes).event.Arrival?
    ensures Inv(Step(sim, d)) && sim.time <= Step(sim, d).time && SameShape(sim.stations, Step(sim, d).stations)
  {
    PoppedReady(sim);
    var p := PopEarliest(sim.fes);
    var q, t := p.event.station, p.event.time;
    var now := sim.(time := t, fes := p.rest);
    StepArrival(sim, d);
    assert StationOk(sim.stations[q], sim.time);
    OnArrivalParts(now, q, d);
    ArrivalKeepsState(sim, d);
    OnArrivalUt(now, q, d);
  }

  /** The station and events of a departure before the next service starts. */
  lemma DepartureConsumes(sim: Sim)
    requires Inv(sim)
    ensures |sim.fes| > 0
    ensures var p := PopEarliest(sim.fes);
            p.event.Departure? ==>
              var q, s, t := p.event.station, p.event.server, p.event.time;
              && q < |sim.stations| && s < |sim.stations[q].servers|
              && Busy(sim.stations[q].servers) > 0 && |sim.stations[q].queue| > 0
              && var mid := sim.stations[q := Consume(sim.stations[q], s).station];
                 && StationsOk(mid, t) && PendingOk(p.rest, mid, t) && SameShape(sim.stations, mid)
                 && Queued(mid) + 1 == Queued(sim.stations)
                 && sim.stations[q].queue[0].arrivalTime <= t
  {
    PoppedReady(sim);
    DepartureReady(sim);
    var p := PopEarliest(sim.fes);
    if p.event.Departure? {
      var q, s, t := p.event.station, p.event.server, p.event.time;
      var st := sim.stations[q];
      assert StationOk(st, t);
      ConsumeKeepsValid(st, s);
      var c := Consume(st, s);
      var mid := sim.stations[q := c.station];
      assert StationOk(c.station, t);
      PoppedDepartureAccounted(sim.fes, sim.stations, c.station);
      StationsReplace(sim.stations, q, c.station, t);
      ShapeReplace(sim.stations, q, c.station);
      AddressedTransfers(p.rest, sim.stations, mid);
      QueuedUpdate(sim.stations, q, c.station);
    }
  }

  /** A departure handler, spelled out. */
  lemma OnDepartureParts(sim: Sim, q: nat, s: nat, d: Draw)
    requires q < |sim.stations| && Selectable(sim.stations[q])
    requires s < |sim.stations[q].servers| && Busy(sim.stations[q].servers) > 0
    requires |sim.stations[q].queue| > 0
    ensures var c := Consume(sim.stations[q], s);
            var sv := StartService(c.station, sim.fes, sim.time, q, d);
            var r := OnDeparture(sim, q, s, d);
            && r.fes == sv.fes
            && r.stations == sim.stations[q := c.station][q := sv.station]
  {
  }

  lemma OnDepartureUt(sim: Sim, q: nat, s: nat, d: Draw)
    requires q < |sim.stations| && Selectable(sim.stations[q])
    requires s < |sim.stations[q].servers| && Busy(sim.stations[q].servers) > 0
    requires |sim.stations[q].queue| > 0
    requires 0 <= sim.stats.users && sim.stats.oldT <= sim.time
    ensures sim.stats.ut <= OnDeparture(sim, q, s, d).stats.ut
  {
    UtGrows(sim.stats.ut, sim.stats.users, sim.stats.oldT, sim.time);
  }

  /** Handling a departure is the departure handler at the popped time. */
  lemma StepDeparture(sim: Sim, d: Draw)
    requires Inv(sim) && |sim.fes| > 0 && PopEarliest(sim.fes).event.Departure?
    ensures var p := PopEarliest(sim.fes);
            var q, s := p.event.station, p.event.server;
            && q < |sim.stations| && s < |sim.stations[q].servers|
            && Busy(sim.stations[q].servers) > 0 && |sim.stations[q].queue| > 0
            && Step(sim, d) == OnDeparture(sim.(time := p.event.time, fes := p.rest), q, s, d)
  {
    PoppedReady(sim);
    DepartureReady(sim);
  }

  /** A departure keeps the station and event parts of the invariant. */
  lemma DepartureKeepsState(sim: Sim, d: Draw)
    requires Inv(sim) && |sim.fes| > 0 && PopEarliest(sim.fes).event.Departure?
    ensures var r := Step(sim, d);
            && |r.stations| > 0 && sim.time <= r.time && SameShape(sim.stations, r.stations)
            && StationsOk(r.stations, r.time) && PendingOk(r.fes, r.stations, r.time)
            && Queued(r.stations) + 1 == Queued(sim.stations)
  {
    PoppedReady(sim);
    DepartureConsumes(sim);
    StepDeparture(sim, d);
    var p := PopEarliest(sim.fes);
    var q, s, t := p.event.station, p.event.server, p.event.time;
    var now := sim.(time := t, fes := p.rest);
    assert StationOk(sim.stations[q], sim.time);
    OnDepartureParts(now, q, s, d);
    var c := Consume(sim.stations[q], s);
    var mid := sim.stations[q := c.station];
    ServiceKeeps(mid, q, p.rest, t, d);
  }

  lemma DepartureKeepsInv(sim: Sim, d: Draw)
    requires Inv(sim) && |sim.fes| > 0 && PopEarliest(sim.fes).event.Departure?
    ensures Inv(Step(sim, d)) && sim.time <= Step(sim, d).time && SameShape(sim.stations, Step(sim, d).stations)
  {
    PoppedReady(sim);
    DepartureConsumes(sim);
    StepDeparture(sim, d);
    var p := PopEarliest(sim.fes);
    var q, s, t := p.event.station, p.event.server, p.event.time;
    var now := sim.(time := t, fes := p.rest);
    assert StationOk(sim.stations[q], sim.time);
    DepartureKeepsState(sim, d);
    OnDepartureUt(now, q, s, d);
  }

  lemma OtherKeepsInv(sim: Sim, d: Draw)
    requires Inv(sim) && |sim.fes| > 0
    requires !PopEarliest(sim.fes).event.Arrival? && !PopEarliest(sim.fes).event.Departure?
    ensures Inv(Step(sim, d)) && sim.time <= Step(sim, d).time && SameShape(sim.stations, Step(sim, d).stations)
  {
    PoppedReady(sim);
  }

  /** Every handled event keeps the invariant and moves the clock forward. */
  lemma StepKeepsInv(sim: Sim, d: Draw)
    requires Inv(sim)
    ensures Inv(Step(sim, d)) && sim.time <= Step(sim, d).time
    ensures SameShape(sim.stations, Step(sim, d).stations)
  {
    PoppedReady(sim);
    var e := PopEarliest(sim.fes).event;
    if e.Arrival? {
      ArrivalKeepsInv(sim, d);
    } else if e.Departure? {
      DepartureKeepsInv(sim, d);
    } else {
      OtherKeepsInv(sim, d);
    }
  }

  /** The main loop, `while time < SIM_TIME: handle FES.get()`; it also stops
      when the supplied draws run out. */
  function Run(sim: Sim, draws: seq<Draw>, simTime: real): (r: Sim)
    requires Inv(sim)
    ensures Inv(r) && sim.time <= r.time
    ensures SameShape(sim.stations, r.stations)
    ensures simTime <= sim.time ==> r == sim
    decreases |draws|
  {
    if simTime <= sim.time || |draws| == 0 then sim
    else
      StepKeepsInv(sim, draws[0]);
      Run(Step(sim, draws[0]), draws[1..], simTime)
  }

  /** The state before the loop: `stationCount` fresh stations, fresh
      counters, and the first arrival at time 0. */
  function Initial(stationCount: nat, serviceTimes: seq<real>, bufferSize: int, pick: nat): (sim: Sim)
    requires stationCount > 0
    ensures Inv(sim) && sim.time == 0.0
    ensures |sim.stations| == stationCount
    ensures forall q :: 0 <= q < stationCount ==>
              |sim.stations[q].servers| == |serviceTimes| && sim.stations[q].bufferSize == bufferSize
    ensures sim.stats == NewStatistics()
  {
    var st := NewStation(serviceTimes, bufferSize, NoUsage);
    var stations := seq(stationCount, _ => st);
    var sim := Sim(0.0, [Arrival(0.0, ResolveStation(stationCount, pick))], stations, NewStatistics());
    InitialInv(sim, st);
    sim
  }

  lemma InitialInv(sim: Sim, st: Station<Usage>)
    requires |sim.stations| > 0 && forall q :: 0 <= q < |sim.stations| ==> sim.stations[q] == st
    requires st.queue == [] && Valid(st) && BufferOk(st) && Busy(st.servers) == 0
    requires sim.stats == NewStatistics() && sim.time == 0.0
    requires |sim.fes| == 1 && sim.fes[0].Arrival? && sim.fes[0].time == 0.0 && sim.fes[0].station < |sim.stations|
    ensures Inv(sim)
  {
    assert sim.fes == [] + [sim.fes[0]];
    forall k: Key
      ensures Count(sim.fes, k) == Bit(Matches(sim.fes[0], k))
    {
      CountSchedule([], sim.fes[0], k);
    }
    forall q, s | 0 <= q < |sim.stations| && 0 <= s < |sim.stations[q].servers|
      ensures BusyBit(sim.stations[q].servers[s]) == 0
    {
      if !st.servers[s].idle {
        BusyUpdate(st.servers, s, st.servers[s].(idle := true));
      }
    }
    QueuedEmpty(sim.stations);
  }

  // ---------------------------------------------------------------------------
  // The two scripts' configurations

  /** queueMM1-ES: one station with one server of mean service time 20.0 and
      a buffer of 100 places. */
  const ES_SERVICE: real := 20.0
  const ES_BUFFER_SIZE: int := 100

  /** queue_two_MM1: `N_DRONES = 1` station with `m_ANTENNAS = 2` servers of
      mean service time 20.0 and a buffer of 300 places. */
  const TWO_SERVICE: real := 20.0
  const TWO_BUFFER_SIZE: int := 300

  function InitialES(pick: nat): (sim: Sim)
    ensures Inv(sim) && sim.time == 0.0
    ensures |sim.stations| == 1 && |sim.stations[0].servers| == 1
    ensures sim.stations[0].bufferSize == ES_BUFFER_SIZE
  {
    Initial(1, [ES_SERVICE], ES_BUFFER_SIZE, pick)
  }

  function InitialTwoMM1(pick: nat): (sim: Sim)
    ensures Inv(sim) && sim.time == 0.0
    ensures |sim.stations| == 1 && |sim.stations[0].servers| == 2
    ensures sim.stations[0].bufferSize == TWO_BUFFER_SIZE
  {
    Initial(1, [TWO_SERVICE, TWO_SERVICE], TWO_BUFFER_SIZE, pick)
  }

  /** In the single-server configuration of queueMM1-ES, at most 100 clients
      are ever in the system, a departure is pending exactly when the server
      is busy, and never more than one. */
  lemma ESBounds(sim: Sim)
    requires Inv(sim) && |sim.stations| == 1 && |sim.stations[0].servers| == 1
    requires sim.stations[0].bufferSize == ES_BUFFER_SIZE
    ensures 0 <= sim.stats.users <= ES_BUFFER_SIZE
    ensures sim.stats.arr == sim.stats.users + sim.stats.dep + sim.stats.los
    ensures Count(sim.fes, AnyDepartureKey) == BusyBit(sim.stations[0].servers[0]) <= 1
    ensures Count(sim.fes, AnyDepartureKey) == 1 <==> !sim.stations[0].servers[0].idle
  {
    assert sim.stations[..0] == [];
    assert Queued(sim.stations) == |sim.stations[0].queue|;
    assert StationOk(sim.stations[0], sim.time);
    forall e | e in sim.fes && e.Departure?
      ensures e.station == 0 && e.server == 0
    {
      assert Addressed(e, sim.stations);
    }
    AllDeparturesOne(sim.fes, 0, 0);
  }

  /** The ES run: whatever the draws, the bounds hold when the loop stops. */
  lemma ESRunBounded(pick: nat, draws: seq<Draw>, simTime: real)
    ensures var r := Run(InitialES(pick), draws, simTime);
            && 0 <= r.stats.users <= ES_BUFFER_SIZE
            && r.stats.arr == r.stats.users + r.stats.dep + r.stats.los
            && Count(r.fes, AnyDepartureKey) <= 1
  {
    var r := Run(InitialES(pick), draws, simTime);
    ESBounds(r);
  }
}
