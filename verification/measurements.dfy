/**
 * Running counters (`Statistics`) and the append-only history of samples
 * (`Measurements`) of utils/measurements.py.
 */
module Measurements {

  datatype Statistics = Statistics(
    arr: int,             // arrivals
    dep: int,             // departures
    los: int,             // losses
    users: int,           // clients in the system
    drones: int,          // active drones
    chargingDrones: int,  // drones recharging
    ut: real,             // time integral of `users`
    oldT: real,           // time of the previous event
    delay: real)          // summed time in system of departed clients

  /** A fresh `Statistics()`: every counter is zero. */
  function NewStatistics(): (s: Statistics)
    ensures s.arr == 0 && s.dep == 0 && s.los == 0 && s.users == 0
    ensures s.drones == 0 && s.chargingDrones == 0
    ensures s.ut == 0.0 && s.oldT == 0.0 && s.delay == 0.0
  {
    Statistics(0, 0, 0, 0, 0, 0, 0.0, 0.0, 0.0)
  }

  /** `ut += users * (to - from)`: the area under the number of users while
      `users` of them were present from `from` to `to`. */
  function Cumulated(ut: real, users: int, from: real, to: real): real
  {
    ut + users as real * (to - from)
  }

  /** Cumulating never decreases `ut` while the clock moves forward and the
      number of users is not negative. */
  lemma UtGrows(ut: real, users: int, from: real, to: real)
    requires 0 <= users && from <= to
    ensures ut <= Cumulated(ut, users, from, to)
  {
    MulNonNegative(users as real, to - from);
  }

  lemma MulNonNegative(a: real, b: real)
    requires 0.0 <= a && 0.0 <= b
    ensures 0.0 <= a * b
  {
  }

  /** Seven lists of (time, value) samples. */
  datatype Measurements = Measurements(
    users: seq<(real, int)>,
    drones: seq<(real, int)>,
    chargingDrones: seq<(real, int)>,
    arrivals: seq<(real, int)>,
    departures: seq<(real, int)>,
    losses: seq<(real, int)>,
    delay: seq<(real, real)>)

  const NoMeasurements := Measurements([], [], [], [], [], [], [])

  /** `after` is `before` with `entry` appended, and nothing else changed. */
  ghost predicate AppendedOnce<V>(after: seq<(real, V)>, before: seq<(real, V)>, entry: (real, V))
  {
    |after| == |before| + 1 && after[..|before|] == before && after[|before|] == entry
  }

  /** The seven lists have one entry per sample, with equal times at equal indices. */
  ghost predicate Aligned(m: Measurements)
  {
    var n := |m.users|;
    && |m.drones| == n && |m.chargingDrones| == n && |m.arrivals| == n
    && |m.departures| == n && |m.losses| == n && |m.delay| == n
    && forall i :: 0 <= i < n ==>
         && m.drones[i].0 == m.users[i].0 && m.chargingDrones[i].0 == m.users[i].0
         && m.arrivals[i].0 == m.users[i].0 && m.departures[i].0 == m.users[i].0
         && m.losses[i].0 == m.users[i].0 && m.delay[i].0 == m.users[i].0
  }

  /** `add_record(time, data)`: one sample of each counter, taken from `data`. */
  function AddRecord(m: Measurements, time: real, data: Statistics): (r: Measurements)
    ensures AppendedOnce(r.users, m.users, (time, data.users))
    ensures AppendedOnce(r.drones, m.drones, (time, data.drones))
    ensures AppendedOnce(r.chargingDrones, m.chargingDrones, (time, data.chargingDrones))
    ensures AppendedOnce(r.arrivals, m.arrivals, (time, data.arr))
    ensures AppendedOnce(r.departures, m.departures, (time, data.dep))
    ensures AppendedOnce(r.losses, m.losses, (time, data.los))
    ensures AppendedOnce(r.delay, m.delay, (time, data.delay))
    ensures Aligned(m) ==> Aligned(r)
  {
    Measurements(
      m.users + [(time, data.users)],
      m.drones + [(time, data.drones)],
      m.chargingDrones + [(time, data.chargingDrones)],
      m.arrivals + [(time, data.arr)],
      m.departures + [(time, data.dep)],
      m.losses + [(time, data.los)],
      m.delay + [(time, data.delay)])
  }

  /** The history built by recording each (time, statistics) snapshot in turn. */
  function RecordAll(snaps: seq<(real, Statistics)>): Measurements
  {
    if snaps == [] then NoMeasurements
    else
      var last := snaps[|snaps| - 1];
      AddRecord(RecordAll(snaps[..|snaps| - 1]), last.0, last.1)
  }

  lemma AppendedKeepsPrefix<V>(after: seq<(real, V)>, before: seq<(real, V)>, entry: (real, V))
    requires AppendedOnce(after, before, entry)
    ensures forall i :: 0 <= i < |before| ==> after[i] == before[i]
  {
    forall i | 0 <= i < |before|
      ensures after[i] == before[i]
    {
      assert after[..|before|][i] == after[i];
    }
  }

  /** Entry i of a list holds snapshot i's time and value. */
  ghost predicate Logs<V>(column: seq<(real, V)>, snaps: seq<(real, Statistics)>, f: Statistics -> V)
  {
    |column| == |snaps| && forall i :: 0 <= i < |snaps| ==> column[i] == (snaps[i].0, f(snaps[i].1))
  }

  lemma LogsStep<V>(after: seq<(real, V)>, before: seq<(real, V)>, snaps: seq<(real, Statistics)>, f: Statistics -> V)
    requires |snaps| > 0 && Logs(before, snaps[..|snaps| - 1], f)
    requires AppendedOnce(after, before, (snaps[|snaps| - 1].0, f(snaps[|snaps| - 1].1)))
    ensures Logs(after, snaps, f)
  {
    AppendedKeepsPrefix(after, before, (snaps[|snaps| - 1].0, f(snaps[|snaps| - 1].1)));
    forall i | 0 <= i < |snaps| - 1
      ensures after[i] == (snaps[i].0, f(snaps[i].1))
    {
      assert snaps[..|snaps| - 1][i] == snaps[i];
    }
  }

  /** The history is a faithful log: entry i of every list is snapshot i's
      time and the matching counter of snapshot i's statistics. */
  lemma {:induction false} RecordAllIsLog(snaps: seq<(real, Statistics)>)
    ensures Aligned(RecordAll(snaps))
    ensures Logs(RecordAll(snaps).users, snaps, (s: Statistics) => s.users)
    ensures Logs(RecordAll(snaps).drones, snaps, (s: Statistics) => s.drones)
    ensures Logs(RecordAll(snaps).chargingDrones, snaps, (s: Statistics) => s.chargingDrones)
    ensures Logs(RecordAll(snaps).arrivals, snaps, (s: Statistics) => s.arr)
    ensures Logs(RecordAll(snaps).departures, snaps, (s: Statistics) => s.dep)
    ensures Logs(RecordAll(snaps).losses, snaps, (s: Statistics) => s.los)
    ensures Logs(RecordAll(snaps).delay, snaps, (s: Statistics) => s.delay)
    decreases |snaps|
  {
    if snaps != [] {
      var init := snaps[..|snaps| - 1];
      RecordAllIsLog(init);
      var m := RecordAll(init);
      var r := RecordAll(snaps);
      LogsStep(r.users, m.users, snaps, (s: Statistics) => s.users);
      LogsStep(r.drones, m.drones, snaps, (s: Statistics) => s.drones);
      LogsStep(r.chargingDrones, m.chargingDrones, snaps, (s: Statistics) => s.chargingDrones);
      LogsStep(r.arrivals, m.arrivals, snaps, (s: Statistics) => s.arr);
      LogsStep(r.departures, m.departures, snaps, (s: Statistics) => s.dep);
      LogsStep(r.losses, m.losses, snaps, (s: Statistics) => s.los);
      LogsStep(r.delay, m.delay, snaps, (s: Statistics) => s.delay);
    }
  }

  /** The two lists a `dispatch_*` method returns. */
  datatype Series<V> = Series(times: seq<real>, values: seq<V>)

  /** The loop shared by every `dispatch_*`: times shifted by `startingTime`
      and converted from seconds to hours, values passed through. */
  function Dispatch<V>(history: seq<(real, V)>, startingTime: real): (r: Series<V>)
    ensures |r.times| == |history| && |r.values| == |history|
    ensures forall i :: 0 <= i < |history| ==>
              r.times[i] == (history[i].0 + startingTime) / 3600.0 && r.values[i] == history[i].1
  {
    if history == [] then Series([], [])
    else
      var init := Dispatch(history[..|history| - 1], startingTime);
      var last := history[|history| - 1];
      Series(init.times + [(last.0 + startingTime) / 3600.0], init.values + [last.1])
  }

  /** Time-ordered samples give time-ordered dispatched hours. */
  lemma DispatchMonotone<V>(history: seq<(real, V)>, startingTime: real)
    requires forall i, j :: 0 <= i <= j < |history| ==> history[i].0 <= history[j].0
    ensures var r := Dispatch(history, startingTime);
            forall i, j :: 0 <= i <= j < |r.times| ==> r.times[i] <= r.times[j]
  {
    var r := Dispatch(history, startingTime);
    forall i, j | 0 <= i <= j < |r.times|
      ensures r.times[i] <= r.times[j]
    {
      assert history[i].0 + startingTime <= history[j].0 + startingTime;
      DivideMonotone(history[i].0 + startingTime, history[j].0 + startingTime);
    }
  }

  lemma DivideMonotone(a: real, b: real)
    requires a <= b
    ensures a / 3600.0 <= b / 3600.0
  {
  }

  function DispatchUsers(m: Measurements, startingTime: real): Series<int>
  {
    Dispatch(m.users, startingTime)
  }

  function DispatchDrones(m: Measurements, startingTime: real): Series<int>
  {
    Dispatch(m.drones, startingTime)
  }

  function DispatchChargingDrones(m: Measurements, startingTime: real): Series<int>
  {
    Dispatch(m.chargingDrones, startingTime)
  }

  function DispatchArrivals(m: Measurements, startingTime: real): Series<int>
  {
    Dispatch(m.arrivals, startingTime)
  }

  function DispatchDepartures(m: Measurements, startingTime: real): Series<int>
  {
    Dispatch(m.departures, startingTime)
  }

  function DispatchLosses(m: Measurements, startingTime: real): Series<int>
  {
    Dispatch(m.losses, startingTime)
  }

  function DispatchDelay(m: Measurements, startingTime: real): Series<real>
  {
    Dispatch(m.delay, startingTime)
  }
}
