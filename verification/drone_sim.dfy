/**
 * The drone simulation of lab2/main.py: each drone is a station with a
 * battery. A drone serves while its battery is IN_USE; when the charge runs
 * out it switches off, drops its clients and recharges for an hour, then
 * flies again on a full charge. Arrivals at a drone that is full or not in
 * use are lost, and so are departures that fire while their drone is not in
 * use.
 *
 * The switch-off clears the drone with `queue_clear` as written: the clients
 * are dropped but busy servers stay busy (see `Queues` for the corrected
 * clear). A departure that later fires at the EMPTY drone is counted as a
 * loss and does not release its server either.
 *
 * `Inv` is the invariant every handled event keeps: each drone is either in
 * use on a full charge with exactly one switch-off pending, or empty, with
 * no clients and exactly one recharge pending; exactly one arrival is pending; the
 * counters balance; and the history of records is complete and time-ordered.
 */
module DroneSim {
  import opened Basics
  import opened Queues
  import opened Events
  import opened Measurements

  const SERVICE: real := 0.01           // 1 / SERVICE_RATE
  const BUFFER_SIZE: int := 300
  const M_ANTENNAS: nat := 2
  const N_DRONES: nat := 1
  const SIM_TIME: real := 43200.0        // 12 hours
  const STARTING_TIME: real := 28800.0   // 8 * 3600, the offset of the plots

  /** The simulation state. `staleLosses` (departures counted as losses) and
      `dropped` (clients discarded at a switch-off) are tallies of the model
      only; the source keeps neither. */
  datatype DSim = DSim(
    time: real,
    fes: seq<Event>,
    drones: seq<Drone>,
    stats: Statistics,
    log: Measurements,
    staleLosses: nat,
    dropped: nat)

  /** The result of handling one event: the next state, or the failure of an
      assertion or of `pop(0)` inside `consume`. */
  datatype Outcome = Next(sim: DSim) | Fault(time: real)

  function Min(a: int, b: int): int
  {
    if a <= b then a else b
  }

  /** `send_drone(time, FES, queue_id, desired_time)`: a FULL battery goes IN_USE
      with its maximum residual time; the switch-off is scheduled after the
      whole residual time when `desired_time` is 0, after the smaller of the two
      otherwise. */
  function SendDrone(sim: DSim, q: nat, desired: int): (r: DSim)
    requires q < |sim.drones|
    ensures |r.drones| == |sim.drones|
    ensures forall k :: 0 <= k < |sim.drones| && k != q ==> r.drones[k] == sim.drones[k]
    ensures r.drones[q].station == sim.drones[q].station
    ensures var b, b' := sim.drones[q].battery, r.drones[q].battery;
            && (b.status == Full ==> b' == b.(status := InUse, residual := b.maxResidualTime))
            && (b.status != Full ==> b' == b)
    ensures |r.fes| == |sim.fes| + 1 && r.fes[..|sim.fes|] == sim.fes
    ensures var e := r.fes[|sim.fes|];
            var residual := r.drones[q].battery.residual;
            && e.SwitchOff? && e.station == q && e.time == sim.time + e.duration as real
            && (desired == 0 ==> e.duration == residual)
            && (desired != 0 ==> e.duration <= desired && e.duration <= residual
                                 && (e.duration == desired || e.duration == residual))
    ensures r.time == sim.time && r.stats == sim.stats && r.log == sim.log
    ensures r.staleLosses == sim.staleLosses && r.dropped == sim.dropped
  {
    var b' := Launched(sim.drones[q].battery);
    var tot := if desired == 0 then b'.residual else Min(desired, b'.residual);
    sim.(drones := sim.drones[q := sim.drones[q].(battery := b')],
         fes := sim.fes + [SwitchOff(sim.time + tot as real, q, tot)])
  }

  /** The battery of a drone sent out: a FULL battery goes IN_USE with its
      maximum residual time, any other is left as it is. */
  function Launched(b: Battery): Battery
  {
    if b.status == Full then b.(status := InUse, residual := b.maxResidualTime) else b
  }

  /** `schedule_recharge`: the recharge completes `RECHARGE_TIME` seconds later. */
  function ScheduleRecharge(fes: seq<Event>, time: real, q: nat): (r: seq<Event>)
    ensures r == fes + [Recharge(time + 3600.0, q)]
  {
    fes + [Recharge(time + RECHARGE_TIME as real, q)]
  }

  /** Scheduling a recharge adds one pending recharge of drone `q`, later
      than `time`, and leaves every other class of pending events as it was. */
  lemma RechargeScheduled(fes: seq<Event>, time: real, q: nat)
    ensures var r := ScheduleRecharge(fes, time, q);
            && |r| == |fes| + 1 && r[..|fes|] == fes && time < r[|fes|].time
            && Count(r, RechargeKey(q)) == Count(fes, RechargeKey(q)) + 1
            && (forall k: Key :: !(k.RechargeKey? && k.station == q) ==> Count(r, k) == Count(fes, k))
            && (NotBefore(fes, time) ==> NotBefore(r, time))
  {
    var e := Recharge(time + 3600.0, q);
    forall k
      ensures Count(fes + [e], k) == Count(fes, k) + Bit(Matches(e, k))
    {
      CountSchedule(fes, e, k);
    }
  }

  /** `evt_switch_off`: `tot` seconds of charge are used up; a drone with
      nothing left goes EMPTY, loses its clients and starts recharging.  The
      clients go by `queue_clear`, so its busy servers stay busy. */
  function OnSwitchOff(sim: DSim, q: nat, tot: int): (r: DSim)
    requires q < |sim.drones|
    ensures |r.drones| == |sim.drones|
    ensures forall k :: 0 <= k < |sim.drones| && k != q ==> r.drones[k] == sim.drones[k]
    ensures var b, b' := sim.drones[q].battery, r.drones[q].battery;
            && b'.residual == b.residual - tot
            && b'.maxResidualTime == b.maxResidualTime && b'.completeCycles == b.completeCycles
            && (b'.residual == 0 ==> b'.status == Empty)
            && (b'.residual != 0 ==> b'.status == b.status)
    ensures var st, st' := sim.drones[q].station, r.drones[q].station;
            var drained := sim.drones[q].battery.residual == tot;
            && (drained ==> st' == QueueClear(st) && r.dropped == sim.dropped + |st.queue|
                            && r.fes == ScheduleRecharge(sim.fes, sim.time, q))
            && (!drained ==> st' == st && r.dropped == sim.dropped && r.fes == sim.fes)
    ensures r.time == sim.time && r.stats == sim.stats && r.log == sim.log
    ensures r.staleLosses == sim.staleLosses
  {
    var dr := sim.drones[q];
    var battery := dr.battery.(residual := dr.battery.residual - tot);
    if battery.residual == 0 then
      sim.(drones := sim.drones[q := Drone(QueueClear(dr.station), battery.(status := Empty))],
           fes := ScheduleRecharge(sim.fes, sim.time, q),
           dropped := sim.dropped + |dr.station.queue|)
    else
      sim.(drones := sim.drones[q := dr.(battery := battery)])
  }

  /** `evt_recharge`: one more complete cycle, the battery is FULL, and the
      drone is sent out again for its whole residual time. */
  function OnRecharge(sim: DSim, q: nat): (r: DSim)
    requires q < |sim.drones|
    ensures |r.drones| == |sim.drones|
    ensures forall k :: 0 <= k < |sim.drones| && k != q ==> r.drones[k] == sim.drones[k]
    ensures r.drones[q].station == sim.drones[q].station
    ensures var b, b' := sim.drones[q].battery, r.drones[q].battery;
            && b'.status == InUse && b'.residual == b.maxResidualTime
            && b'.maxResidualTime == b.maxResidualTime && b'.completeCycles == b.completeCycles + 1
    ensures r.fes == sim.fes + [SwitchOff(sim.time + sim.drones[q].battery.maxResidualTime as real, q,
                                          sim.drones[q].battery.maxResidualTime)]
    ensures r.time == sim.time && r.stats == sim.stats && r.log == sim.log
    ensures r.staleLosses == sim.staleLosses && r.dropped == sim.dropped
  {
    var dr := sim.drones[q];
    var charged := sim.(drones := sim.drones[q := dr.(battery := dr.battery.(completeCycles := dr.battery.completeCycles + 1, status := Full))]);
    var r := SendDrone(charged, q, 0);
    assert r.fes == charged.fes + [r.fes[|charged.fes|]];
    r
  }

  /** "If the server is idle start the service", on a drone's station. */
  function Serve(st: Station<()>, fes: seq<Event>, time: real, q: nat, d: Draw): (r: (Station<()>, seq<Event>))
    requires st.policy == RoundRobin ==> RotationOk(st)
    ensures !CanEngageServer(st) ==> r == (st, fes)
    ensures CanEngageServer(st) ==>
              var e := EngageServer(st, d.serverPick);
              r == (e.station, fes + [Departure(time + d.service, q, e.id)])
    ensures r.0.queue == st.queue && |fes| <= |r.1| <= |fes| + 1 && r.1[..|fes|] == fes
  {
    if CanEngageServer(st) then
      var e := EngageServer(st, d.serverPick);
      (e.station, fes + [Departure(time + d.service, q, e.id)])
    else
      (st, fes)
  }

  /** Starting a service on a drone engages one more server exactly when
      `can_engage_server` holds: an idle one, which becomes busy while every
      other server and the queue stay as they were, and its departure is the
      only event scheduled. */
  lemma ServeEngages(st: Station<()>, fes: seq<Event>, time: real, q: nat, d: Draw)
    requires st.policy == RoundRobin ==> RotationOk(st)
    ensures var r, n := Serve(st, fes, time, q, d), Bit(CanEngageServer(st));
            && Busy(r.0.servers) == Busy(st.servers) + n
            && r.0.queue == st.queue && |r.0.servers| == |st.servers|
            && |r.1| == |fes| + n && r.1[..|fes|] == fes
    ensures var r := Serve(st, fes, time, q, d);
            CanEngageServer(st) ==>
              var e := r.1[|fes|];
              && e.Departure? && e.station == q && time <= e.time
              && e.server < |st.servers| && st.servers[e.server].idle && !r.0.servers[e.server].idle
              && forall i :: 0 <= i < |st.servers| && i != e.server ==> r.0.servers[i] == st.servers[i]
  {
  }

  /** As written, a drained drone keeps its busy servers: its clients are
      gone, yet `Busy` stays what it was, so the busy count can exceed the
      (empty) list and a later arrival may find no server it can engage. */
  lemma SwitchOffKeepsServersBusy(now: DSim, q: nat)
    requires q < |now.drones|
    ensures var r := OnSwitchOff(now, q, now.drones[q].battery.residual);
            && r.drones[q].battery.status == Empty && r.drones[q].station.queue == []
            && Busy(r.drones[q].station.servers) == Busy(now.drones[q].station.servers)
  {
  }

  /** `evt_arrival`: the client is lost when the drone's buffer is full or its
      battery is not IN_USE. Unlike the lab1 drivers, `ut` is cumulated after
      the change of `users`. A record is added, the next arrival scheduled,
      and a service started when possible. */
  function OnArrival(sim: DSim, q: nat, d: Draw): (r: DSim)
    requires q < |sim.drones| && RotationOk(sim.drones[q].station)
    ensures |r.drones| == |sim.drones| && r.time == sim.time
    ensures forall k :: 0 <= k < |sim.drones| && k != q ==> r.drones[k] == sim.drones[k]
    ensures r.drones[q].battery == sim.drones[q].battery
    ensures var lost := IsQueueFull(sim.drones[q].station) || sim.drones[q].battery.status != InUse;
            && (lost ==> r.stats.los == sim.stats.los + 1 && r.stats.users == sim.stats.users
                         && r.drones[q].station.queue == sim.drones[q].station.queue)
            && (!lost ==> r.stats.los == sim.stats.los && r.stats.users == sim.stats.users + 1
                          && r.drones[q].station.queue == sim.drones[q].station.queue + [Client(TYPE1, sim.time)])
    ensures r.stats.arr == sim.stats.arr + 1 && r.stats.dep == sim.stats.dep && r.stats.delay == sim.stats.delay
    ensures r.stats.ut == Cumulated(sim.stats.ut, r.stats.users, sim.stats.oldT, sim.time)
    ensures r.stats.oldT == sim.time
    ensures r.stats.drones == sim.stats.drones && r.stats.chargingDrones == sim.stats.chargingDrones
    ensures r.log == AddRecord(sim.log, sim.time, r.stats)
    ensures |r.fes| > |sim.fes| && r.fes[..|sim.fes| + 1] ==
              sim.fes + [Arrival(sim.time + d.interArrival, ResolveStation(|sim.drones|, d.stationPick))]
    ensures r.staleLosses == sim.staleLosses && r.dropped == sim.dropped
  {
    var dr := sim.drones[q];
    var stats := ArrivalStats(sim.stats, sim.time, Refused(dr));
    var fes := WithNextArrival(sim.fes, sim.time, |sim.drones|, d);
    var served := Arrive(dr, fes, sim.time, q, d);
    sim.(drones := sim.drones[q := dr.(station := served.0)], fes := served.1, stats := stats,
         log := AddRecord(sim.log, sim.time, stats))
  }

  /** The drone's side of an arrival: admit the client unless refused, then
      start a service if one can start. */
  function Arrive(dr: Drone, fes: seq<Event>, time: real, q: nat, d: Draw): (r: (Station<()>, seq<Event>))
    requires RotationOk(dr.station)
    ensures Refused(dr) ==> r.0.queue == dr.station.queue
    ensures !Refused(dr) ==> r.0.queue == dr.station.queue + [Client(TYPE1, time)]
    ensures |fes| <= |r.1| && r.1[..|fes|] == fes
  {
    Serve(Admit(dr, time), fes, time, q, d)
  }

  /** An arrival at this drone is lost. */
  predicate Refused(dr: Drone)
  {
    IsQueueFull(dr.station) || dr.battery.status != InUse
  }

  /** The drone's station after an arrival at `time`. */
  function Admit(dr: Drone, time: real): (st: Station<()>)
    ensures SamePool(st, dr.station)
    ensures Refused(dr) ==> st == dr.station
    ensures !Refused(dr) ==> st.queue == dr.station.queue + [Client(TYPE1, time)]
  {
    if Refused(dr) then dr.station else Insert(dr.station, Client(TYPE1, time))
  }

  /** The counters after an arrival at `time`, lost or admitted. */
  function ArrivalStats(s: Statistics, time: real, lost: bool): (r: Statistics)
    ensures r.arr == s.arr + 1 && r.dep == s.dep && r.delay == s.delay
    ensures lost ==> r.los == s.los + 1 && r.users == s.users
    ensures !lost ==> r.los == s.los && r.users == s.users + 1
    ensures r.drones == s.drones && r.chargingDrones == s.chargingDrones
    ensures r.ut == Cumulated(s.ut, r.users, s.oldT, time)
    ensures r.oldT == time
  {
    var counted := if lost then s.(los := s.los + 1) else s.(users := s.users + 1);
    counted.(arr := counted.arr + 1, ut := Cumulated(counted.ut, counted.users, counted.oldT, time), oldT := time)
  }

  /** A departure at a drone that is not IN_USE: counted as a loss, nothing
      else changes but the clock integral and the history. */
  function LostDeparture(sim: DSim): (r: DSim)
    ensures r.stats.los == sim.stats.los + 1 && r.staleLosses == sim.staleLosses + 1
    ensures r.stats == sim.stats.(los := r.stats.los, ut := r.stats.ut, oldT := r.stats.oldT)
    ensures r.stats.ut == Cumulated(sim.stats.ut, sim.stats.users, sim.stats.oldT, sim.time)
    ensures r.stats.oldT == sim.time
    ensures r.log == AddRecord(sim.log, sim.time, r.stats)
    ensures r.drones == sim.drones && r.fes == sim.fes && r.time == sim.time && r.dropped == sim.dropped
  {
    var counted := sim.stats.(los := sim.stats.los + 1);
    var stats := counted.(ut := Cumulated(counted.ut, counted.users, counted.oldT, sim.time), oldT := sim.time);
    sim.(stats := stats, log := AddRecord(sim.log, sim.time, stats), staleLosses := sim.staleLosses + 1)
  }

  /** The counters after a served departure of a client that arrived at
      `arrivalTime`. */
  function ServedStats(s: Statistics, time: real, arrivalTime: real): (r: Statistics)
    ensures r.dep == s.dep + 1 && r.users == s.users - 1
    ensures r.arr == s.arr && r.los == s.los
    ensures r.drones == s.drones && r.chargingDrones == s.chargingDrones
    ensures r.delay == s.delay + (time - arrivalTime)
    ensures r.ut == Cumulated(s.ut, r.users, s.oldT, time)
    ensures r.oldT == time
  {
    var counted := s.(dep := s.dep + 1, delay := s.delay + (time - arrivalTime), users := s.users - 1);
    counted.(ut := Cumulated(counted.ut, counted.users, counted.oldT, time), oldT := time)
  }

  /** A departure served by drone `q`: `consume` releases server `s` and hands
      back the oldest client, whose time in the system is added to `delay`. */
  function ServedDeparture(sim: DSim, q: nat, s: nat, d: Draw): (r: DSim)
    requires q < |sim.drones| && s < |sim.drones[q].station.servers| && RotationOk(sim.drones[q].station)
    requires Busy(sim.drones[q].station.servers) > 0 && |sim.drones[q].station.queue| > 0
    ensures |r.drones| == |sim.drones| && r.time == sim.time
    ensures forall k :: 0 <= k < |sim.drones| && k != q ==> r.drones[k] == sim.drones[k]
    ensures r.drones[q].battery == sim.drones[q].battery
    ensures r.drones[q].station.queue == sim.drones[q].station.queue[1..]
    ensures r.stats == ServedStats(sim.stats, sim.time, sim.drones[q].station.queue[0].arrivalTime)
    ensures r.log == AddRecord(sim.log, sim.time, r.stats)
    ensures |r.fes| >= |sim.fes| && r.fes[..|sim.fes|] == sim.fes
    ensures r.staleLosses == sim.staleLosses && r.dropped == sim.dropped
  {
    var dr := sim.drones[q];
    var c := Consume(dr.station, s);
    var served := Serve(c.station, sim.fes, sim.time, q, d);
    var stats := ServedStats(sim.stats, sim.time, c.client.arrivalTime);
    sim.(drones := sim.drones[q := dr.(station := served.0)], fes := served.1, stats := stats,
         log := AddRecord(sim.log, sim.time, stats))
  }

  /** `evt_departure`: a departure at a drone that is not IN_USE is counted as
      a loss; otherwise the oldest client leaves through `consume`, which fails
      when no server is busy or the list is empty. In both cases `ut` is
      cumulated after the change of `users`, and a record is added. */
  function OnDeparture(sim: DSim, q: nat, s: nat, d: Draw): (r: Outcome)
    requires q < |sim.drones| && s < |sim.drones[q].station.servers| && RotationOk(sim.drones[q].station)
    ensures var st := sim.drones[q].station;
            r.Fault? <==> sim.drones[q].battery.status == InUse && (Busy(st.servers) == 0 || |st.queue| == 0)
    ensures r.Fault? ==> r.time == sim.time
    ensures r.Next? && sim.drones[q].battery.status != InUse ==> r.sim == LostDeparture(sim)
    ensures r.Next? && sim.drones[q].battery.status == InUse ==> r.sim == ServedDeparture(sim, q, s, d)
  {
    var st := sim.drones[q].station;
    if sim.drones[q].battery.status != InUse then Next(LostDeparture(sim))
    else if Busy(st.servers) == 0 || |st.queue| == 0 then Fault(sim.time)
    else Next(ServedDeparture(sim, q, s, d))
  }

  // ---------------------------------------------------------------------------
  // The invariant

  /** The drones' stations, in order. */
  function Stations(drones: seq<Drone>): (r: seq<Station<()>>)
    ensures |r| == |drones|
    ensures forall q :: 0 <= q < |drones| ==> r[q] == drones[q].station
  {
    seq(|drones|, q requires 0 <= q < |drones| => drones[q].station)
  }

  /** Clients held by all drones. */
  function Held(drones: seq<Drone>): nat
  {
    Queued(Stations(drones))
  }

  lemma HeldUpdate(drones: seq<Drone>, q: nat, dr: Drone)
    requires q < |drones|
    ensures Held(drones[q := dr]) == Held(drones) - |drones[q].station.queue| + |dr.station.queue|
  {
    assert Stations(drones[q := dr]) == Stations(drones)[q := dr.station];
    QueuedUpdate(Stations(drones), q, dr.station);
  }

  /** One drone: a consistent rotation, a queue within its buffer and with no
      client from the future, and a battery either IN_USE on a full charge or
      EMPTY with no charge and an empty queue; its servers may stay busy. */
  ghost predicate DroneOk(dr: Drone, time: real)
  {
    var st, b := dr.station, dr.battery;
    && RotationOk(st) && BufferOk(st)
    && (forall k :: 0 <= k < |st.queue| ==> st.queue[k].arrivalTime <= time)
    && b.maxResidualTime > 0 && b.completeCycles >= 0
    && (b.status == InUse || b.status == Empty)
    && (b.status == InUse ==> b.residual == b.maxResidualTime)
    && (b.status == Empty ==> b.residual == 0 && st.queue == [])
  }

  ghost predicate DronesOk(drones: seq<Drone>, time: real)
  {
    forall q :: 0 <= q < |drones| ==> DroneOk(drones[q], time)
  }

  /** A pending event names an existing drone (and server), and a pending
      switch-off uses up exactly what is left of the battery. */
  ghost predicate WellFormed(e: Event, drones: seq<Drone>)
  {
    && e.station < |drones|
    && (e.Departure? ==> e.server < |drones[e.station].station.servers|)
    && (e.SwitchOff? ==> e.duration == drones[e.station].battery.residual)
  }

  ghost predicate AllWellFormed(fes: seq<Event>, drones: seq<Drone>)
  {
    forall i :: 0 <= i < |fes| ==> WellFormed(fes[i], drones)
  }

  /** The classes of events whose number the battery cycle determines. */
  predicate Tracked(k: Key)
  {
    k.ArrivalKey? || k.SwitchOffKey? || k.RechargeKey?
  }

  /** How many events of a tracked class are pending: one arrival, one
      switch-off per drone IN_USE, one recharge per EMPTY drone. */
  function Expected(drones: seq<Drone>, k: Key): nat
  {
    match k
    case ArrivalKey => 1
    case SwitchOffKey(q) => Bit(q < |drones| && drones[q].battery.status == InUse)
    case RechargeKey(q) => Bit(q < |drones| && drones[q].battery.status == Empty)
    case _ => 0
  }

  ghost predicate Balanced(fes: seq<Event>, drones: seq<Drone>)
  {
    forall k :: Tracked(k) ==> Count(fes, k) == Expected(drones, k)
  }

  ghost predicate PendingOk(fes: seq<Event>, drones: seq<Drone>, time: real)
  {
    NotBefore(fes, time) && AllWellFormed(fes, drones) && Balanced(fes, drones)
  }

  /** Every client that entered is still held, was dropped at a switch-off,
      or has departed; every arrival is admitted or lost, and every
      departure event is served or counted as a loss. */
  ghost predicate CountersOk(sim: DSim)
  {
    var s := sim.stats;
    && s.users == Held(sim.drones) + sim.dropped
    && s.arr + sim.staleLosses == s.users + s.dep + s.los
    && 0 <= s.dep && 0 <= s.los
    && s.oldT <= sim.time && 0.0 <= s.ut && 0.0 <= s.delay
  }

  /** One record per arrival and per departure event, in time order, none
      later than the last event counted. */
  ghost predicate LogOk(log: Measurements, s: Statistics, staleLosses: nat)
  {
    && Aligned(log)
    && |log.users| == s.arr + s.dep + staleLosses
    && (forall i, j :: 0 <= i <= j < |log.users| ==> log.users[i].0 <= log.users[j].0)
    && (forall i :: 0 <= i < |log.users| ==> log.users[i].0 <= s.oldT)
  }

  ghost predicate Inv(sim: DSim)
  {
    && |sim.drones| > 0
    && DronesOk(sim.drones, sim.time)
    && PendingOk(sim.fes, sim.drones, sim.time)
    && CountersOk(sim)
    && LogOk(sim.log, sim.stats, sim.staleLosses)
  }

  /** The state right after `e` was popped and the clock moved to its time:
      `Inv` with `e` still counted among the pending events. */
  ghost predicate MidOk(now: DSim, e: Event)
  {
    && |now.drones| > 0 && e.time == now.time
    && DronesOk(now.drones, now.time)
    && NotBefore(now.fes, now.time) && AllWellFormed(now.fes, now.drones) && WellFormed(e, now.drones)
    && (forall k :: Tracked(k) ==> Count(now.fes, k) + Bit(Matches(e, k)) == Expected(now.drones, k))
    && CountersOk(now)
    && LogOk(now.log, now.stats, now.staleLosses)
  }

  /** Popping the earliest event: some event is pending, the clock does not
      go back, and the popped state is `MidOk`. */
  lemma PopMid(sim: DSim)
    requires Inv(sim)
    ensures |sim.fes| > 0
    ensures var p := PopEarliest(sim.fes);
            sim.time <= p.event.time && MidOk(sim.(time := p.event.time, fes := p.rest), p.event)
  {
    assert Tracked(ArrivalKey);
    CountPositiveNonEmpty(sim.fes, ArrivalKey);
    var p := PopEarliest(sim.fes);
    PopKeepsOrder(sim.fes, sim.time);
    var now := sim.(time := p.event.time, fes := p.rest);
    forall k | Tracked(k)
      ensures Count(now.fes, k) + Bit(Matches(p.event, k)) == Expected(now.drones, k)
    {
      CountPop(sim.fes, k);
    }
    forall i | 0 <= i < |p.rest|
      ensures WellFormed(p.rest[i], now.drones)
    {
      assert p.rest[i] in sim.fes;
    }
    assert DronesOk(now.drones, now.time) by {
      forall q | 0 <= q < |now.drones|
        ensures DroneOk(now.drones[q], now.time)
      {
        assert DroneOk(sim.drones[q], sim.time);
      }
    }
  }

  lemma DronesReplace(drones: seq<Drone>, q: nat, dr: Drone, time: real)
    requires DronesOk(drones, time) && q < |drones| && DroneOk(dr, time)
    ensures DronesOk(drones[q := dr], time)
  {
  }

  /** Pending events stay well formed when only drone `q` changes, keeping
      its servers, and either its residual charge or no switch-off of it is
      pending. */
  lemma WellFormedTransfers(fes: seq<Event>, a: seq<Drone>, b: seq<Drone>, q: nat)
    requires AllWellFormed(fes, a) && |a| == |b| && q < |a|
    requires forall k :: 0 <= k < |a| && k != q ==> a[k] == b[k]
    requires |a[q].station.servers| == |b[q].station.servers|
    requires a[q].battery.residual == b[q].battery.residual || Count(fes, SwitchOffKey(q)) == 0
    ensures AllWellFormed(fes, b)
  {
    if Count(fes, SwitchOffKey(q)) == 0 {
      CountZeroNone(fes, SwitchOffKey(q));
    }
    forall i | 0 <= i < |fes|
      ensures WellFormed(fes[i], b)
    {
      assert fes[i] in fes;
      assert WellFormed(fes[i], a);
    }
  }

  // ---------------------------------------------------------------------------
  // Switch-off

  /** A popped switch-off is the only one of its drone, which is IN_USE and
      is drained by it. */
  lemma SwitchOffDrains(now: DSim, q: nat, tot: int)
    requires MidOk(now, SwitchOff(now.time, q, tot))
    ensures q < |now.drones| && now.drones[q].battery.status == InUse
    ensures tot == now.drones[q].battery.residual
    ensures Count(now.fes, SwitchOffKey(q)) == 0
  {
    assert Tracked(SwitchOffKey(q));
  }

  lemma SwitchOffKeepsDrones(now: DSim, q: nat, tot: int)
    requires q < |now.drones| && DronesOk(now.drones, now.time)
    requires now.drones[q].battery.status == InUse && tot == now.drones[q].battery.residual
    ensures var r := OnSwitchOff(now, q, tot);
            && DronesOk(r.drones, now.time)
            && r.drones[q].battery.status == Empty
            && r.stats.users == Held(r.drones) + r.dropped - Held(now.drones) - now.dropped + now.stats.users
  {
    var r := OnSwitchOff(now, q, tot);
    assert r.drones == now.drones[q := r.drones[q]];
    assert DroneOk(now.drones[q], now.time);
    DronesReplace(now.drones, q, r.drones[q], now.time);
    HeldUpdate(now.drones, q, r.drones[q]);
  }

  lemma SwitchOffKeepsPending(now: DSim, q: nat, tot: int)
    requires NotBefore(now.fes, now.time) && AllWellFormed(now.fes, now.drones)
    requires forall k :: Tracked(k) ==> Count(now.fes, k) + Bit(Matches(SwitchOff(now.time, q, tot), k)) == Expected(now.drones, k)
    requires q < |now.drones| && now.drones[q].battery.status == InUse
    requires tot == now.drones[q].battery.residual && Count(now.fes, SwitchOffKey(q)) == 0
    ensures PendingOk(OnSwitchOff(now, q, tot).fes, OnSwitchOff(now, q, tot).drones, now.time)
  {
    var r := OnSwitchOff(now, q, tot);
    var e := Recharge(now.time + 3600.0, q);
    assert r.fes == now.fes + [e];
    WellFormedTransfers(now.fes, now.drones, r.drones, q);
    TurnBalanced(now.fes, now.drones, r.drones, SwitchOff(now.time, q, tot), e);
  }

  /** A battery turning over trades the popped event for the scheduled one in
      the counts: a drained drone's switch-off for its recharge, or a
      recharged drone's recharge for its next switch-off. */
  lemma TurnBalanced(fes: seq<Event>, a: seq<Drone>, b: seq<Drone>, off: Event, e: Event)
    requires e.station == off.station && off.station < |a| == |b|
    requires forall k :: Tracked(k) ==> Count(fes, k) + Bit(Matches(off, k)) == Expected(a, k)
    requires || (off.SwitchOff? && e.Recharge? && a[off.station].battery.status == InUse
                 && b[off.station].battery.status == Empty)
             || (off.Recharge? && e.SwitchOff? && a[off.station].battery.status == Empty
                 && b[off.station].battery.status == InUse)
    requires forall j :: 0 <= j < |a| && j != off.station ==> a[j].battery.status == b[j].battery.status
    ensures Balanced(fes + [e], b)
  {
    forall k | Tracked(k)
      ensures Count(fes + [e], k) == Expected(b, k)
    {
      CountSchedule(fes, e, k);
    }
  }

  /** `evt_switch_off` keeps the invariant: the drone goes EMPTY, its
      clients are dropped and its recharge is pending. */
  lemma SwitchOffKeepsInv(now: DSim, q: nat, tot: int)
    requires MidOk(now, SwitchOff(now.time, q, tot))
    ensures q < |now.drones| && Inv(OnSwitchOff(now, q, tot))
    ensures OnSwitchOff(now, q, tot).drones[q].battery.status == Empty
  {
    SwitchOffDrains(now, q, tot);
    SwitchOffKeepsDrones(now, q, tot);
    SwitchOffKeepsPending(now, q, tot);
  }

  // ---------------------------------------------------------------------------
  // Recharge

  lemma RechargeReady(now: DSim, q: nat)
    requires MidOk(now, Recharge(now.time, q))
    ensures q < |now.drones| && now.drones[q].battery.status == Empty
    ensures Count(now.fes, RechargeKey(q)) == 0 && Count(now.fes, SwitchOffKey(q)) == 0
  {
    assert Tracked(RechargeKey(q));
    assert Tracked(SwitchOffKey(q));
  }

  lemma RechargeKeepsDrones(now: DSim, q: nat)
    requires q < |now.drones| && DronesOk(now.drones, now.time)
    requires now.drones[q].battery.status == Empty
    ensures var r := OnRecharge(now, q);
            && DronesOk(r.drones, now.time) && Held(r.drones) == Held(now.drones)
  {
    var r := OnRecharge(now, q);
    assert r.drones == now.drones[q := r.drones[q]];
    assert DroneOk(now.drones[q], now.time);
    DronesReplace(now.drones, q, r.drones[q], now.time);
    HeldUpdate(now.drones, q, r.drones[q]);
  }

  lemma RechargeKeepsPending(now: DSim, q: nat)
    requires NotBefore(now.fes, now.time) && AllWellFormed(now.fes, now.drones)
    requires forall k :: Tracked(k) ==> Count(now.fes, k) + Bit(Matches(Recharge(now.time, q), k)) == Expected(now.drones, k)
    requires q < |now.drones| && now.drones[q].battery.status == Empty && now.drones[q].battery.maxResidualTime > 0
    requires Count(now.fes, RechargeKey(q)) == 0 && Count(now.fes, SwitchOffKey(q)) == 0
    ensures PendingOk(OnRecharge(now, q).fes, OnRecharge(now, q).drones, now.time)
  {
    var r := OnRecharge(now, q);
    var max := now.drones[q].battery.maxResidualTime;
    var e := SwitchOff(now.time + max as real, q, max);
    assert r.fes == now.fes + [e];
    WellFormedTransfers(now.fes, now.drones, r.drones, q);
    TurnBalanced(now.fes, now.drones, r.drones, Recharge(now.time, q), e);
  }

  /** `evt_recharge` keeps the invariant: the drone is IN_USE again on a full
      charge, with one switch-off pending. */
  lemma RechargeKeepsInv(now: DSim, q: nat)
    requires MidOk(now, Recharge(now.time, q))
    ensures q < |now.drones| && Inv(OnRecharge(now, q))
    ensures OnRecharge(now, q).drones[q].battery.status == InUse
  {
    RechargeReady(now, q);
    RechargeKeepsDrones(now, q);
    assert DroneOk(now.drones[q], now.time);
    RechargeKeepsPending(now, q);
  }

  // ---------------------------------------------------------------------------
  // Arrival and departure

  /** The pending events stay as they were judged when only drone `q`'s
      station changes, keeping its number of servers. */
  lemma PendingTransfers(fes: seq<Event>, a: seq<Drone>, b: seq<Drone>, q: nat, t: real)
    requires PendingOk(fes, a, t) && |a| == |b| && q < |a|
    requires forall k :: 0 <= k < |a| && k != q ==> a[k] == b[k]
    requires |a[q].station.servers| == |b[q].station.servers| && a[q].battery == b[q].battery
    ensures PendingOk(fes, b, t)
  {
    WellFormedTransfers(fes, a, b, q);
    forall k | Tracked(k)
      ensures Count(fes, k) == Expected(b, k)
    {
      assert Expected(a, k) == Expected(b, k);
    }
  }

  /** Scheduling a departure leaves every tracked class as it was. */
  lemma ScheduleDeparture(fes: seq<Event>, drones: seq<Drone>, e: Event, t: real)
    requires PendingOk(fes, drones, t) && e.Departure? && WellFormed(e, drones) && t <= e.time
    ensures PendingOk(fes + [e], drones, t)
  {
    forall k | Tracked(k)
      ensures Count(fes + [e], k) == Expected(drones, k)
    {
      CountSchedule(fes, e, k);
    }
  }

  /** Starting a service on drone `q` keeps the pending events in order. */
  lemma ServeKeepsPending(fes: seq<Event>, drones: seq<Drone>, q: nat, st: Station<()>, t: real, d: Draw)
    requires PendingOk(fes, drones, t) && q < |drones| && RotationOk(st)
    requires |st.servers| == |drones[q].station.servers|
    ensures PendingOk(Serve(st, fes, t, q, d).1, drones, t)
  {
    if CanEngageServer(st) {
      var e := EngageServer(st, d.serverPick);
      ScheduleDeparture(fes, drones, Departure(t + d.service, q, e.id), t);
    }
  }

  /** Starting a service keeps a drone consistent: only a server changes, and
      the queue stays as it is. */
  lemma ServeKeepsDrone(dr: Drone, st: Station<()>, fes: seq<Event>, t: real, q: nat, d: Draw)
    requires DroneOk(dr.(station := st), t)
    ensures var st' := Serve(st, fes, t, q, d).0;
            && DroneOk(dr.(station := st'), t)
            && |st'.servers| == |st.servers| && st'.queue == st.queue
  {
  }

  /** The drone's side of an arrival keeps it consistent. */
  lemma ArriveKeepsDrone(dr: Drone, fes: seq<Event>, t: real, q: nat, d: Draw)
    requires DroneOk(dr, t)
    ensures var st' := Arrive(dr, fes, t, q, d).0;
            DroneOk(dr.(station := st'), t) && |st'.servers| == |dr.station.servers|
  {
    var adm := Admit(dr, t);
    assert DroneOk(dr.(station := adm), t);
    ServeKeepsDrone(dr, adm, fes, t, q, d);
  }

  /** After an arrival drone `q` is still consistent, holding one more client
      unless the arrival was lost. */
  lemma ArrivalKeepsDrones(now: DSim, q: nat, d: Draw)
    requires q < |now.drones| && DronesOk(now.drones, now.time)
    ensures var r := OnArrival(now, q, d);
            && DronesOk(r.drones, now.time)
            && |r.drones[q].station.servers| == |now.drones[q].station.servers|
            && Held(r.drones) == Held(now.drones) + (if Refused(now.drones[q]) then 0 else 1)
  {
    var dr := now.drones[q];
    assert DroneOk(dr, now.time);
    var fes1 := WithNextArrival(now.fes, now.time, |now.drones|, d);
    ArriveKeepsDrone(dr, fes1, now.time, q, d);
    var dr' := dr.(station := Arrive(dr, fes1, now.time, q, d).0);
    assert OnArrival(now, q, d).drones == now.drones[q := dr'];
    DronesReplace(now.drones, q, dr', now.time);
    HeldUpdate(now.drones, q, dr');
  }

  /** The popped arrival is replaced by the next one. */
  lemma NextArrivalPending(fes: seq<Event>, drones: seq<Drone>, t: real, q: nat, d: Draw)
    requires |drones| > 0 && NotBefore(fes, t) && AllWellFormed(fes, drones)
    requires forall k :: Tracked(k) ==> Count(fes, k) + Bit(Matches(Arrival(t, q), k)) == Expected(drones, k)
    ensures PendingOk(WithNextArrival(fes, t, |drones|, d), drones, t)
  {
    var next := Arrival(t + d.interArrival, ResolveStation(|drones|, d.stationPick));
    assert WithNextArrival(fes, t, |drones|, d) == fes + [next];
    forall k | Tracked(k)
      ensures Count(fes + [next], k) == Expected(drones, k)
    {
      CountSchedule(fes, next, k);
    }
  }

  /** The drone's side of an arrival keeps the pending events consistent
      with the drones. */
  lemma ArrivePending(fes: seq<Event>, drones: seq<Drone>, q: nat, t: real, d: Draw)
    requires PendingOk(fes, drones, t) && q < |drones| && RotationOk(drones[q].station)
    ensures var r := Arrive(drones[q], fes, t, q, d);
            PendingOk(r.1, drones[q := drones[q].(station := r.0)], t)
  {
    var dr := drones[q];
    var adm := Admit(dr, t);
    ServeKeepsPending(fes, drones, q, adm, t, d);
    var r := Serve(adm, fes, t, q, d);
    PendingTransfers(r.1, drones, drones[q := dr.(station := r.0)], q, t);
  }

  lemma ArrivalKeepsPending(now: DSim, q: nat, d: Draw)
    requires MidOk(now, Arrival(now.time, q))
    ensures q < |now.drones|
    ensures PendingOk(OnArrival(now, q, d).fes, OnArrival(now, q, d).drones, now.time)
  {
    var t := now.time;
    var dr := now.drones[q];
    assert DroneOk(dr, t);
    var fes1 := WithNextArrival(now.fes, t, |now.drones|, d);
    NextArrivalPending(now.fes, now.drones, t, q, d);
    ArrivePending(fes1, now.drones, q, t, d);
    var a := Arrive(dr, fes1, t, q, d);
    var r := OnArrival(now, q, d);
    assert r.drones == now.drones[q := dr.(station := a.0)];
    assert r.fes == a.1;
  }

  /** The history stays complete and in order when one record is added at a
      time not before the last one. */
  lemma LogStep(log: Measurements, s: Statistics, stale: nat, time: real, s': Statistics, stale': nat)
    requires LogOk(log, s, stale) && s.oldT <= time
    requires s'.oldT == time && s'.arr + s'.dep + stale' == s.arr + s.dep + stale + 1
    ensures LogOk(AddRecord(log, time, s'), s', stale')
  {
    var r := AddRecord(log, time, s');
    AppendedKeepsPrefix(r.users, log.users, (time, s'.users));
  }

  lemma ArrivalUt(s: Statistics, time: real, lost: bool)
    requires 0 <= s.users && s.oldT <= time
    ensures s.ut <= ArrivalStats(s, time, lost).ut
  {
    var r := ArrivalStats(s, time, lost);
    UtGrows(s.ut, r.users, s.oldT, time);
  }

  lemma ServedUt(s: Statistics, time: real, arrivalTime: real)
    requires 1 <= s.users && s.oldT <= time
    ensures s.ut <= ServedStats(s, time, arrivalTime).ut
  {
    var r := ServedStats(s, time, arrivalTime);
    UtGrows(s.ut, r.users, s.oldT, time);
  }

  lemma ArrivalKeepsCounters(now: DSim, q: nat, d: Draw)
    requires q < |now.drones| && DronesOk(now.drones, now.time) && CountersOk(now)
    ensures CountersOk(OnArrival(now, q, d))
  {
    ArrivalKeepsDrones(now, q, d);
    ArrivalUt(now.stats, now.time, Refused(now.drones[q]));
  }

  lemma ArrivalKeepsLog(now: DSim, q: nat, d: Draw)
    requires q < |now.drones| && RotationOk(now.drones[q].station)
    requires LogOk(now.log, now.stats, now.staleLosses) && now.stats.oldT <= now.time
    ensures LogOk(OnArrival(now, q, d).log, OnArrival(now, q, d).stats, OnArrival(now, q, d).staleLosses)
  {
    var r := OnArrival(now, q, d);
    LogStep(now.log, now.stats, now.staleLosses, now.time, r.stats, r.staleLosses);
  }

  /** `evt_arrival` keeps the invariant. */
  lemma ArrivalKeepsInv(now: DSim, q: nat, d: Draw)
    requires MidOk(now, Arrival(now.time, q))
    ensures q < |now.drones| && RotationOk(now.drones[q].station) && Inv(OnArrival(now, q, d))
  {
    assert DroneOk(now.drones[q], now.time);
    ArrivalKeepsDrones(now, q, d);
    ArrivalKeepsPending(now, q, d);
    ArrivalKeepsCounters(now, q, d);
    ArrivalKeepsLog(now, q, d);
  }

  /** A departure at a drone that is not IN_USE changes no drone and no
      pending event. */
  lemma LostDepartureKeepsInv(now: DSim, q: nat, s: nat)
    requires MidOk(now, Departure(now.time, q, s))
    ensures Inv(LostDeparture(now))
  {
    var r := LostDeparture(now);
    forall k | Tracked(k)
      ensures Count(now.fes, k) == Expected(now.drones, k)
    {
    }
    UtGrows(now.stats.ut, now.stats.users, now.stats.oldT, now.time);
    LogStep(now.log, now.stats, now.staleLosses, now.time, r.stats, r.staleLosses);
  }

  lemma ServedKeepsDrones(now: DSim, q: nat, s: nat, d: Draw)
    requires q < |now.drones| && DronesOk(now.drones, now.time)
    requires s < |now.drones[q].station.servers| && now.drones[q].battery.status == InUse
    requires Busy(now.drones[q].station.servers) > 0 && |now.drones[q].station.queue| > 0
    ensures var r := ServedDeparture(now, q, s, d);
            && DronesOk(r.drones, now.time)
            && |r.drones[q].station.servers| == |now.drones[q].station.servers|
            && Held(r.drones) + 1 == Held(now.drones)
  {
    var dr := now.drones[q];
    assert DroneOk(dr, now.time);
    var c := Consume(dr.station, s);
    assert DroneOk(dr.(station := c.station), now.time);
    ServeKeepsDrone(dr, c.station, now.fes, now.time, q, d);
    var r := ServedDeparture(now, q, s, d);
    assert r.drones == now.drones[q := dr.(station := Serve(c.station, now.fes, now.time, q, d).0)];
    DronesReplace(now.drones, q, r.drones[q], now.time);
    HeldUpdate(now.drones, q, r.drones[q]);
  }

  lemma ServedKeepsPending(now: DSim, q: nat, s: nat, d: Draw)
    requires MidOk(now, Departure(now.time, q, s)) && now.drones[q].battery.status == InUse
    requires Busy(now.drones[q].station.servers) > 0 && |now.drones[q].station.queue| > 0
    ensures PendingOk(ServedDeparture(now, q, s, d).fes, ServedDeparture(now, q, s, d).drones, now.time)
  {
    var t := now.time;
    var dr := now.drones[q];
    assert DroneOk(dr, t);
    forall k | Tracked(k)
      ensures Count(now.fes, k) == Expected(now.drones, k)
    {
    }
    var c := Consume(dr.station, s);
    ServeKeepsPending(now.fes, now.drones, q, c.station, t, d);
    var r := ServedDeparture(now, q, s, d);
    assert r.drones == now.drones[q := dr.(station := Serve(c.station, now.fes, t, q, d).0)];
    assert r.fes == Serve(c.station, now.fes, t, q, d).1;
    PendingTransfers(r.fes, now.drones, r.drones, q, t);
  }

  lemma ServedKeepsCounters(now: DSim, q: nat, s: nat, d: Draw)
    requires q < |now.drones| && DronesOk(now.drones, now.time) && CountersOk(now)
    requires s < |now.drones[q].station.servers| && now.drones[q].battery.status == InUse
    requires Busy(now.drones[q].station.servers) > 0 && |now.drones[q].station.queue| > 0
    ensures CountersOk(ServedDeparture(now, q, s, d))
  {
    ServedKeepsDrones(now, q, s, d);
    assert DroneOk(now.drones[q], now.time);
    assert now.drones[q].station.queue[0].arrivalTime <= now.time;
    ServedUt(now.stats, now.time, now.drones[q].station.queue[0].arrivalTime);
  }

  lemma ServedKeepsLog(now: DSim, q: nat, s: nat, d: Draw)
    requires q < |now.drones| && RotationOk(now.drones[q].station)
    requires s < |now.drones[q].station.servers|
    requires Busy(now.drones[q].station.servers) > 0 && |now.drones[q].station.queue| > 0
    requires LogOk(now.log, now.stats, now.staleLosses) && now.stats.oldT <= now.time
    ensures LogOk(ServedDeparture(now, q, s, d).log, ServedDeparture(now, q, s, d).stats,
                  ServedDeparture(now, q, s, d).staleLosses)
  {
    var r := ServedDeparture(now, q, s, d);
    LogStep(now.log, now.stats, now.staleLosses, now.time, r.stats, r.staleLosses);
  }

  /** `evt_departure` keeps the invariant whenever it does not fail. */
  lemma DepartureKeepsInv(now: DSim, q: nat, s: nat, d: Draw)
    requires MidOk(now, Departure(now.time, q, s))
    ensures q < |now.drones| && s < |now.drones[q].station.servers| && RotationOk(now.drones[q].station)
    ensures OnDeparture(now, q, s, d).Next? ==> Inv(OnDeparture(now, q, s, d).sim)
  {
    assert DroneOk(now.drones[q], now.time);
    var st := now.drones[q].station;
    if now.drones[q].battery.status != InUse {
      LostDepartureKeepsInv(now, q, s);
    } else if Busy(st.servers) > 0 && |st.queue| > 0 {
      ServedKeepsInv(now, q, s, d);
    }
  }

  /** A departure served by a drone IN_USE keeps the invariant. */
  lemma ServedKeepsInv(now: DSim, q: nat, s: nat, d: Draw)
    requires MidOk(now, Departure(now.time, q, s)) && now.drones[q].battery.status == InUse
    requires Busy(now.drones[q].station.servers) > 0 && |now.drones[q].station.queue| > 0
    ensures Inv(ServedDeparture(now, q, s, d))
  {
    assert DroneOk(now.drones[q], now.time);
    ServedKeepsDrones(now, q, s, d);
    ServedKeepsPending(now, q, s, d);
    ServedKeepsCounters(now, q, s, d);
    ServedKeepsLog(now, q, s, d);
  }

  // ---------------------------------------------------------------------------
  // The event loop

  /** One iteration of the main loop: pop the earliest event, move the clock
      to it and dispatch it to its handler. */
  function Step(sim: DSim, d: Draw): (r: Outcome)
    requires Inv(sim)
    ensures r.Next? ==> Inv(r.sim) && sim.time <= r.sim.time && |r.sim.drones| == |sim.drones|
    ensures r.Fault? ==> sim.time <= r.time
  {
    PopMid(sim);
    var p := PopEarliest(sim.fes);
    Dispatch(sim.(time := p.event.time, fes := p.rest), p.event, d)
  }

  /** The handler of `e`, run on the state the pop left behind. */
  function Dispatch(now: DSim, e: Event, d: Draw): (r: Outcome)
    requires MidOk(now, e)
    ensures r.Next? ==> Inv(r.sim) && now.time <= r.sim.time && |r.sim.drones| == |now.drones|
    ensures r.Fault? ==> now.time <= r.time
  {
    match e
    case Arrival(_, q) =>
      ArrivalKeepsInv(now, q, d);
      Next(OnArrival(now, q, d))
    case Departure(_, q, s) =>
      DepartureKeepsInv(now, q, s, d);
      OnDeparture(now, q, s, d)
    case SwitchOff(_, q, tot) =>
      SwitchOffKeepsInv(now, q, tot);
      Next(OnSwitchOff(now, q, tot))
    case Recharge(_, q) =>
      RechargeKeepsInv(now, q);
      Next(OnRecharge(now, q))
  }

  /** `while time < SIM_TIME`: events are handled until the clock reaches
      `simTime`, a handler fails, or the draws run out. */
  function Run(sim: DSim, draws: seq<Draw>, simTime: real): (r: Outcome)
    requires Inv(sim)
    ensures r.Next? ==> Inv(r.sim) && sim.time <= r.sim.time && |r.sim.drones| == |sim.drones|
    ensures r.Fault? ==> sim.time <= r.time
    ensures simTime <= sim.time ==> r == Next(sim)
    decreases |draws|
  {
    if simTime <= sim.time || |draws| == 0 then Next(sim)
    else
      match Step(sim, draws[0])
      case Fault(t) => Fault(t)
      case Next(next) => Run(next, draws[1..], simTime)
  }

  /** The switch-offs `send_drone(time, FES, i)` schedules for the first `k`
      drones, in order. */
  function SwitchOffs(drones: seq<Drone>, time: real, k: nat): (r: seq<Event>)
    requires k <= |drones|
    ensures |r| == k
    ensures forall j :: 0 <= j < k ==>
              var residual := Launched(drones[j].battery).residual;
              r[j] == SwitchOff(time + residual as real, j, residual)
  {
    if k == 0 then []
    else
      var residual := Launched(drones[k - 1].battery).residual;
      SwitchOffs(drones, time, k - 1) + [SwitchOff(time + residual as real, k - 1, residual)]
  }

  /** The first `k` drones scheduled: one switch-off for each of them and
      nothing else. */
  lemma {:induction false} SwitchOffsCount(drones: seq<Drone>, time: real, k: nat, key: Key)
    requires k <= |drones|
    ensures Count(SwitchOffs(drones, time, k), key) == Bit(key.SwitchOffKey? && key.station < k)
    decreases k
  {
    if k > 0 {
      var prev := SwitchOffs(drones, time, k - 1);
      var residual := Launched(drones[k - 1].battery).residual;
      var e := SwitchOff(time + residual as real, k - 1, residual);
      assert SwitchOffs(drones, time, k) == prev + [e];
      SwitchOffsCount(drones, time, k - 1, key);
      CountSchedule(prev, e, key);
      assert Matches(e, key) <==> key.SwitchOffKey? && key.station == k - 1;
    }
  }

  /** `r` is `sim` after `send_drone` for the first `k` drones: their
      batteries are launched and their switch-offs appended, in order;
      nothing else changes. */
  ghost predicate LaunchedUpTo(sim: DSim, r: DSim, k: nat)
    requires k <= |sim.drones|
  {
    && |r.drones| == |sim.drones| && r.time == sim.time
    && (forall j :: 0 <= j < |sim.drones| ==> r.drones[j].station == sim.drones[j].station)
    && (forall j :: 0 <= j < k ==> r.drones[j].battery == Launched(sim.drones[j].battery))
    && (forall j :: k <= j < |sim.drones| ==> r.drones[j] == sim.drones[j])
    && r.fes == sim.fes + SwitchOffs(sim.drones, sim.time, k)
    && r.stats == sim.stats && r.log == sim.log
    && r.staleLosses == sim.staleLosses && r.dropped == sim.dropped
  }

  /** `send_drone(time, FES, i)` for the first `k` drones, in order. */
  function Launch(sim: DSim, k: nat): (r: DSim)
    requires k <= |sim.drones|
    ensures LaunchedUpTo(sim, r, k)
    decreases k
  {
    if k == 0 then sim
    else
      var prev := Launch(sim, k - 1);
      LaunchStep(sim, prev, k);
      SendDrone(prev, k - 1, 0)
  }

  lemma LaunchStep(sim: DSim, prev: DSim, k: nat)
    requires 0 < k <= |sim.drones| && LaunchedUpTo(sim, prev, k - 1)
    ensures LaunchedUpTo(sim, SendDrone(prev, k - 1, 0), k)
  {
    var r := SendDrone(prev, k - 1, 0);
    var residual := Launched(sim.drones[k - 1].battery).residual;
    var e := SwitchOff(sim.time + residual as real, k - 1, residual);
    assert r.drones[k - 1].battery == Launched(sim.drones[k - 1].battery);
    assert r.fes[|prev.fes|] == e;
    assert r.fes == prev.fes + [e];
    SwitchOffsStep(sim.drones, sim.time, k);
  }

  lemma SwitchOffsStep(drones: seq<Drone>, time: real, k: nat)
    requires 0 < k <= |drones|
    ensures var residual := Launched(drones[k - 1].battery).residual;
            SwitchOffs(drones, time, k) == SwitchOffs(drones, time, k - 1) + [SwitchOff(time + residual as real, k - 1, residual)]
  {
  }

  /** The state before the loop: `n` new drones, each sent out on a full
      charge, then the first arrival at time 0 at a drone chosen by `pick`.
      `random.choice` needs at least one drone. */
  function Initial(n: nat, serviceTimes: seq<real>, bufferSize: int, pick: nat): DSim
    requires n > 0
  {
    var launched := Launch(Fleet(n, serviceTimes, bufferSize), n);
    launched.(fes := launched.fes + [Arrival(0.0, ResolveStation(n, pick))])
  }

  /** The invariant holds before the loop. */
  lemma InitialInv(n: nat, serviceTimes: seq<real>, bufferSize: int, pick: nat)
    requires n > 0
    ensures Inv(Initial(n, serviceTimes, bufferSize, pick))
    ensures Initial(n, serviceTimes, bufferSize, pick).time == 0.0
    ensures |Initial(n, serviceTimes, bufferSize, pick).drones| == n
  {
    LaunchedFleet(n, serviceTimes, bufferSize);
    LaunchedFleetCounts(Fleet(n, serviceTimes, bufferSize));
    LaunchedInv(Launch(Fleet(n, serviceTimes, bufferSize), n), NewStation(serviceTimes, bufferSize, ()), pick);
  }

  /** Before the loop every drone is new and IN_USE on a full charge, one
      switch-off per drone is pending at the end of its charge, then the
      first arrival at time 0, and every counter is zero. */
  lemma InitialShape(n: nat, serviceTimes: seq<real>, bufferSize: int, pick: nat)
    requires n > 0
    ensures var sim := Initial(n, serviceTimes, bufferSize, pick);
            && sim.stats == NewStatistics() && sim.log == NoMeasurements
            && sim.staleLosses == 0 && sim.dropped == 0
            && (forall q :: 0 <= q < n ==>
                  sim.drones[q] == Drone(NewStation(serviceTimes, bufferSize, ()), Battery(1500, 1500, InUse, 0)))
            && |sim.fes| == n + 1 && sim.fes[n] == Arrival(0.0, ResolveStation(n, pick))
            && (forall j :: 0 <= j < n ==> sim.fes[j] == SwitchOff(1500.0, j, 1500))
  {
    LaunchedFleet(n, serviceTimes, bufferSize);
    var launched := Launch(Fleet(n, serviceTimes, bufferSize), n);
    var sim := Initial(n, serviceTimes, bufferSize, pick);
    assert sim.drones == launched.drones && sim.stats == launched.stats && sim.log == launched.log;
    assert sim.fes == launched.fes + [Arrival(0.0, ResolveStation(n, pick))];
    assert Launched(NewBattery()) == Battery(1500, 1500, InUse, 0);
    forall j | 0 <= j < n
      ensures sim.fes[j] == SwitchOff(1500.0, j, 1500)
    {
      assert sim.fes[j] == launched.fes[j];
    }
  }

  /** `n` new drones, nothing scheduled, every counter zero. */
  function Fleet(n: nat, serviceTimes: seq<real>, bufferSize: int): (sim: DSim)
    ensures |sim.drones| == n && sim.time == 0.0 && sim.fes == []
    ensures forall q :: 0 <= q < n ==> sim.drones[q] == Drone(NewStation(serviceTimes, bufferSize, ()), NewBattery())
    ensures sim.stats == NewStatistics() && sim.log == NoMeasurements
    ensures sim.staleLosses == 0 && sim.dropped == 0
  {
    DSim(0.0, [], seq(n, _ => NewDrone(serviceTimes, bufferSize)), NewStatistics(), NoMeasurements, 0, 0)
  }

  lemma LaunchedFleet(n: nat, serviceTimes: seq<real>, bufferSize: int)
    ensures var launched := Launch(Fleet(n, serviceTimes, bufferSize), n);
            && |launched.drones| == n && launched.time == 0.0
            && (forall q :: 0 <= q < n ==>
                  launched.drones[q] == Drone(NewStation(serviceTimes, bufferSize, ()), Launched(NewBattery())))
            && launched.stats == NewStatistics() && launched.log == NoMeasurements
            && launched.staleLosses == 0 && launched.dropped == 0
    ensures var launched := Launch(Fleet(n, serviceTimes, bufferSize), n);
            && |launched.fes| == n
            && (forall j :: 0 <= j < n ==> launched.fes[j] == SwitchOff(1500.0, j, 1500))
  {
    var sim0 := Fleet(n, serviceTimes, bufferSize);
    LaunchedFleetEvents(sim0);
  }

  lemma LaunchedFleetEvents(sim0: DSim)
    requires sim0.fes == [] && sim0.time == 0.0
    requires forall q :: 0 <= q < |sim0.drones| ==> sim0.drones[q].battery == NewBattery()
    ensures var n := |sim0.drones|;
            var launched := Launch(sim0, n);
            && |launched.fes| == n
            && (forall j :: 0 <= j < n ==> launched.fes[j] == SwitchOff(1500.0, j, 1500))
  {
    var n := |sim0.drones|;
    var offs := SwitchOffs(sim0.drones, 0.0, n);
    assert Launch(sim0, n).fes == offs by {
      assert [] + offs == offs;
    }
    assert Launched(NewBattery()).residual == 1500;
  }

  /** Launching a new fleet schedules one switch-off per drone and nothing else. */
  lemma LaunchedFleetCounts(sim0: DSim)
    requires sim0.fes == []
    ensures var n := |sim0.drones|;
            forall key :: Count(Launch(sim0, n).fes, key) == Bit(key.SwitchOffKey? && key.station < n)
  {
    var n := |sim0.drones|;
    var offs := SwitchOffs(sim0.drones, sim0.time, n);
    assert Launch(sim0, n).fes == offs by {
      assert [] + offs == offs;
    }
    forall key
      ensures Count(offs, key) == Bit(key.SwitchOffKey? && key.station < n)
    {
      SwitchOffsCount(sim0.drones, sim0.time, n, key);
    }
  }

  lemma LaunchedInv(launched: DSim, st: Station<()>, pick: nat)
    requires |launched.drones| > 0 && launched.time == 0.0
    requires forall q :: 0 <= q < |launched.drones| ==> launched.drones[q] == Drone(st, Launched(NewBattery()))
    requires st.queue == [] && RotationOk(st) && BufferOk(st) && Busy(st.servers) == 0
    requires |launched.fes| == |launched.drones|
    requires forall j :: 0 <= j < |launched.fes| ==> launched.fes[j] == SwitchOff(1500.0, j, 1500)
    requires forall key :: Count(launched.fes, key) == Bit(key.SwitchOffKey? && key.station < |launched.drones|)
    requires launched.stats == NewStatistics() && launched.log == NoMeasurements
    requires launched.staleLosses == 0 && launched.dropped == 0
    ensures var n := |launched.drones|;
            Inv(launched.(fes := launched.fes + [Arrival(0.0, ResolveStation(n, pick))]))
  {
    var n := |launched.drones|;
    var arrival := Arrival(0.0, ResolveStation(n, pick));
    var sim := launched.(fes := launched.fes + [arrival]);
    LaunchedDronesOk(launched.drones, st);
    assert Launched(NewBattery()) == Battery(1500, 1500, InUse, 0);
    LaunchedPending(launched.fes, launched.drones, arrival);
    LaunchedHeldNone(launched.drones, st);
    assert sim.drones == launched.drones && sim.stats == launched.stats && sim.time == launched.time;
  }

  lemma LaunchedDronesOk(drones: seq<Drone>, st: Station<()>)
    requires forall q :: 0 <= q < |drones| ==> drones[q] == Drone(st, Launched(NewBattery()))
    requires st.queue == [] && RotationOk(st) && BufferOk(st) && Busy(st.servers) == 0
    ensures DronesOk(drones, 0.0)
  {
    assert Launched(NewBattery()) == Battery(1500, 1500, InUse, 0);
  }

  lemma LaunchedHeldNone(drones: seq<Drone>, st: Station<()>)
    requires forall q :: 0 <= q < |drones| ==> drones[q] == Drone(st, Launched(NewBattery()))
    requires st.queue == []
    ensures Held(drones) == 0
  {
    assert forall q :: 0 <= q < |drones| ==> Stations(drones)[q].queue == [];
    QueuedEmpty(Stations(drones));
  }

  lemma LaunchedPending(fes: seq<Event>, drones: seq<Drone>, arrival: Event)
    requires forall q :: 0 <= q < |drones| ==> drones[q].battery.status == InUse && drones[q].battery.residual == 1500
    requires |fes| == |drones|
    requires forall j :: 0 <= j < |fes| ==> fes[j].SwitchOff? && fes[j].time == 1500.0 && fes[j].station == j && fes[j].duration == 1500
    requires forall key :: Count(fes, key) == Bit(key.SwitchOffKey? && key.station < |drones|)
    requires arrival.Arrival? && arrival.time == 0.0 && arrival.station < |drones|
    ensures PendingOk(fes + [arrival], drones, 0.0)
  {
    var all := fes + [arrival];
    forall i | 0 <= i < |all|
      ensures 0.0 <= all[i].time && WellFormed(all[i], drones)
    {
      if i < |fes| {
        assert all[i] == fes[i];
      }
    }
    forall k | Tracked(k)
      ensures Count(all, k) == Expected(drones, k)
    {
      CountSchedule(fes, arrival, k);
    }
  }

  /** The set-up of `__main__`, as a step of its own: the state before the
      loop, satisfying `Inv`. */
  method Boot(n: nat, serviceTimes: seq<real>, bufferSize: int, pick: nat) returns (sim: DSim)
    requires n > 0
    ensures Inv(sim) && sim.time == 0.0 && |sim.drones| == n
    ensures sim.stats == NewStatistics() && sim.log == NoMeasurements
  {
    InitialInv(n, serviceTimes, bufferSize, pick);
    InitialShape(n, serviceTimes, bufferSize, pick);
    sim := Initial(n, serviceTimes, bufferSize, pick);
  }

  /** A whole run: the drones are launched, then events are handled until
      the clock reaches `simTime`. Unless a departure faults, the run ends in a
      state satisfying `Inv`, whose history is time-ordered. */
  method Simulate(n: nat, serviceTimes: seq<real>, bufferSize: int, pick: nat, draws: seq<Draw>, simTime: real)
    returns (r: Outcome)
    requires n > 0
    ensures r.Next? ==> Inv(r.sim) && 0.0 <= r.sim.time && |r.sim.drones| == n
    ensures r.Next? ==> forall i, j :: 0 <= i <= j < |r.sim.log.users| ==> r.sim.log.users[i].0 <= r.sim.log.users[j].0
    ensures r.Fault? ==> 0.0 <= r.time
  {
    var init := Boot(n, serviceTimes, bufferSize, pick);
    r := Run(init, draws, simTime);
  }

  /** lab2/main.py's `__main__`: one drone with two antennas and a buffer of
      300, simulated for 12 hours. */
  method MainRun(pick: nat, draws: seq<Draw>) returns (r: Outcome)
    ensures r.Next? ==> Inv(r.sim) && |r.sim.drones| == N_DRONES
  {
    r := Simulate(N_DRONES, seq(M_ANTENNAS, _ => SERVICE), BUFFER_SIZE, pick, draws, SIM_TIME);
  }
}
