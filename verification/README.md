# Drone-network queueing simulator — Dafny model

This project models the discrete-event queueing kernel of a Python
coursework simulator. In the simulator, drones carry antennas that serve
mobile users. The model covers five parts:

- **The M/M/m/B station** (`MMmB`, `queues.dfy`). It is one FIFO list of clients and a
  pool of servers with an idle flag and a mean service time. It has a buffer
  bound where 0 means "never full", and three idle-server choosers (fastest,
  random, round-robin over a rotation list). The drone variant carries a
  `Battery`. The lab1 variant counts each server's engaged time and
  selections. Both variants are one generic `Station<X>`: `X` is `()` for
  the drone station and `Usage` for the lab1 one.
- **The Future Event Set** (`events.dfy`). It is a sequence of events popped
  earliest first, with per-class counts that the invariants use.
- **Statistics and the measurement history** (`measurements.dfy`). The
  counters start at zero. `add_record` appends one entry to each of seven
  aligned lists. The `dispatch_*` projections turn times into hours of the day.
- **The two lab1 drivers** (`lab1_sim.dfy`): `queue_two_MM1.py` and
  `queueMM1-ES.py`. They share one state, one step function and one
  invariant:
  - `users` is the number of clients in the stations;
  - `arr == users + dep + los`;
  - exactly one arrival is pending;
  - one departure is pending per busy server;
  - no event lies in the past.
- **The drone driver of `lab2/main.py`** (`drone_sim.dfy`). It covers the
  battery lifecycle: `send_drone`, `evt_switch_off`, `schedule_recharge` and
  `evt_recharge`. It also covers the battery-aware arrival and departure
  handlers and the main loop. Its invariant ties each drone's battery state
  to its pending SWITCH_OFF or RECHARGE. Each run ends either in a state
  that satisfies the invariant or in an explicit `Fault`.
- **The pure helpers of `lab2/lab2.py`** (`schedule.dfy`):
  - the availability predicates;
  - the power-supply intervals;
  - the counting of working cycles and working time;
  - `HH:MM:SS` strings;
  - the start times of working intervals;
  - working-slot detection and warm-up;
  - the ranking by departure percentage.

Random draws are inputs. Each handled event consumes one `Draw`, which holds
the inter-arrival time, the service time, the station pick and the server
pick. `resolve_MMm` maps the station pick to a key `0 .. n-1`. Times are
`real`, and battery values and the `lab2.py` schedule values are `int`
seconds.

Where the code and its documentation disagree, the model follows the code.
Where the code cannot run as written, the model follows its evident intent
instead, and each such case is also listed under "## Left out":

- **Switch-offs and `users`.** In `lab2/main.py`, clearing a drone's queue at
  switch-off does not decrement the global `users`. A departure that arrives
  while the battery is not IN_USE counts a loss for a client that was already
  counted. So `arr == users + dep + los` does not hold for that driver. The
  model keeps two model-only tallies, `dropped` (clients cleared at
  switch-off) and `staleLosses` (losses counted by stale departures). It
  proves `users == Held + dropped` and `arr + staleLosses == users + dep + los`.
- **Stale departures.** In `lab2/main.py`, a departure whose client was
  cleared at switch-off can reach the drone after it is IN_USE again. Then
  `consume` fails its assertion or pops an empty list. The model makes this
  an explicit `Fault` outcome of the step.
- **Cumulating `ut`.** `lab2/main.py` adds `users × (time − oldT)` after
  changing `users`. The lab1 drivers do it before the change. Each driver is
  modelled as written.
- **`add_record` call shape.** `lab2/main.py` calls `add_record` with keyword
  arguments that `utils/measurements.py` does not accept. The model records
  `(time, data)` with `users` taken from the driver's global counter.
- **Counter constructors.** The drivers construct `Statistics(0, 0, 0, 0, 0, 0)`
  and `Measure(0, 0, 0, 0, 0, 0)`, but both constructors take no arguments.
  The model starts from the zeroed counters.
- **Switch-off clear.** `lab2/main.py` drains a drone with `queue_clear`,
  which drops the clients but leaves busy servers busy. The model does the
  same (see Findings for the corrected clear).
- **`queueMM1-ES.py`.** It imports a `Packet` that `utils/queues.py` does
  not define. The model uses the station's client record.
- **Falsy time 0.** `calculate_warmup_period` tests `if transient_period:`,
  so a buffer that fills at time 0 falls back to the peak time. The model
  keeps this.
- **Unbound supply locals.** `define_working_and_charging_interval` leaves
  its locals unbound for any other supply name. The model returns `None`
  there.
- **`BatteryStatus`.** `BatteryStatus` in `utils/queues.py` has no PAUSED,
  but `is_drone_ready` tests it. The model's status type includes `Paused`
  for that predicate. No handler ever sets it.

## Model

| member | source | states |
|---|---|---|
| Basics.ResolveStation | lab1/queue_two_MM1.py:24-25 | the chosen station is always an existing key `0 .. n-1` |
| Basics.TruncDiv | lab2/lab2.py:492 | `int(a / b)` for a positive divisor: the quotient truncated toward zero, bracketed by multiples of `b` on both signs of `a` |
| Queues.NewTimedClient | lab1/queues.py:4-8 | a new client keeps its type and arrival time and has no service start time |
| Queues.Engage | lab1/queues.py:17-20 | `engage(d)` makes the server busy, adds `d` to its engaged time and exactly 1 to its selection count, and keeps its service time |
| Queues.Disengage | lab1/queues.py:22-23 | `disengage` makes the server idle and leaves both counters and the service time unchanged |
| Queues.ServeAllCounts | lab1/queues.py:17-23 | after a run of engage/disengage cycles, the selection count grows by the number of cycles and the engaged time by the sum of their durations |
| Queues.IdleIds | utils/queues.py:66-67 | the available servers are exactly the idle ones, in increasing id order, and number the servers minus the busy ones |
| Queues.MakeServers | utils/queues.py:46 | one idle server per service time, in order |
| Queues.NewStation | utils/queues.py:41-48 | a new station has an empty list, idle servers with the given service times, the fastest policy and the station invariant |
| Queues.NewBattery | utils/queues.py:30-38 | a new battery is FULL with residual 0, no complete cycle and a maximum residual of 1500 seconds |
| Queues.NewDrone | utils/queues.py:41-48 | a new drone station is empty, valid and idle, with a new battery |
| Queues.IsQueueFull | utils/queues.py:60-61 | full holds iff the buffer bound is positive and the list has exactly that length; a bound of 0 or less is never full |
| Queues.Insert | utils/queues.py:53-55 | a client is appended at the back: the length grows by one, earlier clients are unchanged, and servers, rotation, bound and policy stay the same |
| Queues.InsertKeepsBounds | lab1/queues.py:33-41 | inserting into a non-full station keeps the length within a positive bound and keeps the station invariant |
| Queues.GetLastAfterInsert | lab1/queues.py:78-79 | `get_last` after an insert returns the client just inserted |
| Queues.CanEngageServer | utils/queues.py:69-71 | service may start exactly when fewer servers are busy than exist and than clients are listed; then some server is idle and a client waits beyond those in service |
| Queues.GetServerFastest | utils/queues.py:76-77 | the fastest policy returns an idle server; no idle server is strictly faster, and every idle server before it is strictly slower, as `min` keeps the first |
| Queues.GetServerRandom | utils/queues.py:73-74 | the random policy returns one of the available (idle) servers, whatever the pick |
| Queues.FirstIdleFrom | utils/queues.py:80-83 | the round-robin scan stops at the first idle server in rotation order |
| Queues.GetServerRoundRobin | utils/queues.py:79-85 | round-robin returns an idle server; the new rotation is a permutation of the old one, with the servers passed over and the chosen one moved to the back |
| Queues.SelectServer | utils/queues.py:89 | the station's policy yields an idle server; the rotation stays a permutation and changes only under round-robin |
| Queues.EngageServer | utils/queues.py:87-91 | exactly the chosen idle server becomes busy and its service time is returned; other servers, the list and the bound are untouched; the busy count grows by one |
| Queues.EngageKeepsValid | utils/queues.py:69-91 | engaging only when `can_engage_server` holds keeps busy servers no more than the clients in the list |
| Queues.Consume | utils/queues.py:93-96 | `consume` returns the head client, removes it from the list, marks the given server idle and changes nothing else |
| Queues.ConsumeKeepsValid | utils/queues.py:93-96 | consuming at a busy server keeps the station invariant and the bound, and lowers the busy count by one |
| Queues.InsertThenConsumeIsFifo | utils/queues.py:53-96 | the list is FIFO: inserting then consuming returns the old head, and the inserted client ends up at the back |
| Queues.QueueClear | utils/queues.py:50-51 | `queue_clear` empties the list and leaves every server flag, the rotation, the bound and the policy untouched |
| Queues.QueueClearStrandsBusyServer | utils/queues.py:50-51 | a valid station with a client in service becomes invalid after `queue_clear`, and cannot start service again after a new insert |
| Queues.ForceClear | utils/queues.py:50-51 | the corrected clear empties the list and idles every server, keeping service times, counters, rotation, bound and policy, and keeps the station invariant |
| Events.EarliestIndex | lab2/main.py:239 | `FES.get()` takes an event with the least time, the first of equal times |
| Events.PopEarliest | lab2/main.py:239 | popping removes exactly one pending event: the rest plus the popped one is the same multiset, and no remaining event is earlier |
| Events.PopKeepsOrder | lab2/main.py:238-248 | if nothing pending is before the clock, the popped time is not before it and nothing left is before the popped time |
| Events.CountPop | lab2/main.py:239 | popping lowers the count of the popped event's class by one and no other class |
| Events.CountAppend | lab2/main.py:50 | counts of an event class add up over concatenated event lists |
| Measurements.NewStatistics | utils/measurements.py:1-11 | a fresh `Statistics` has every counter at zero |
| Measurements.AddRecord | utils/measurements.py:24-31 | each of the seven lists gets exactly one `(time, value)` entry holding the matching counter, earlier entries stay, and aligned lists stay aligned |
| Measurements.AppendedKeepsPrefix | utils/measurements.py:24-31 | after `add_record` every earlier entry is unchanged |
| Measurements.RecordAllIsLog | utils/measurements.py:24-31 | after records for a sequence of snapshots, each list is exactly the `(time, counter)` history of those snapshots, and all lists are aligned |
| Measurements.Dispatch | utils/measurements.py:33-87 | every `dispatch_*` keeps the length, passes the values through in order and maps each time to `(t + starting_time) / 3600` |
| Measurements.DispatchMonotone | utils/measurements.py:33-39 | time-ordered history gives time-ordered dispatched times |
| Lab1Sim.StartServiceEngages | lab1/queue_two_MM1.py:57-64 | the busy count grows by one exactly when `can_engage_server` holds, the queue and every other server are untouched, and the only new event is a departure, not earlier than now, for a server that was idle and is now busy |
| Lab1Sim.Admitted | lab1/queue_two_MM1.py:41-48 | an arrival at a full station changes nothing; otherwise a new client with the arrival time is appended |
| Lab1Sim.OnArrival | lab1/queue_two_MM1.py:28-64 | `arr` always grows by one; a full queue adds a loss only, otherwise `users` grows and the client is queued; the next arrival is scheduled |
| Lab1Sim.OnDeparture | lab1/queue_two_MM1.py:67-93 | the head client leaves: `dep` grows and `users` drops by one, `delay` grows by its time in the system, and a new service may start |
| Lab1Sim.OnArrivalUt | lab1/queue_two_MM1.py:39-40 | an arrival never lowers `ut` |
| Lab1Sim.OnDepartureUt | lab1/queue_two_MM1.py:78-79 | a departure never lowers `ut` |
| Lab1Sim.DepartureReady | lab1/queue_two_MM1.py:74 | under the invariant a popped departure names a busy server of a non-empty station, so `consume`'s assertion holds |
| Lab1Sim.ArrivalKeepsInv | lab1/queue_two_MM1.py:28-64 | an arrival keeps the driver invariant: `users` equals the clients queued, `arr == users + dep + los`, one arrival and one departure per busy server pending, bounds respected |
| Lab1Sim.DepartureKeepsInv | lab1/queue_two_MM1.py:67-93 | a departure keeps the same invariant |
| Lab1Sim.StepKeepsInv | lab1/queue_two_MM1.py:111-118 | every handled event keeps the invariant and never moves the clock back |
| Lab1Sim.Run | lab1/queue_two_MM1.py:111-118 | the loop ends in a state satisfying the invariant, no earlier than it started, and does nothing once the clock has reached the end |
| Lab1Sim.Initial | lab1/queue_two_MM1.py:99-108 | before the loop: fresh stations of the configured shape, zeroed counters, one arrival at time 0, and the invariant |
| Lab1Sim.InitialTwoMM1 | lab1/queue_two_MM1.py:6-21 | queue_two_MM1's configuration: one station with two servers and a buffer of 300 |
| Lab1Sim.InitialES | lab1/queueMM1-ES.py:6-19 | queueMM1-ES's configuration: one station with one server and a buffer of 100 |
| Lab1Sim.ESBounds | lab1/queueMM1-ES.py:22-85 | with one server: `0 <= users <= 100`, `arr == users + dep + los`, and a departure is pending exactly when the server is busy, never more than one |
| Lab1Sim.ESRunBounded | lab1/queueMM1-ES.py:88-110 | whatever the draws, the ES run ends within those bounds |
| DroneSim.SendDrone | lab2/main.py:40-50 | a FULL battery goes IN_USE at its maximum residual; exactly one SWITCH_OFF is scheduled after the residual time, or after the smaller of that and the desired time |
| DroneSim.RechargeScheduled | lab2/main.py:53-54 | the pending recharges of that drone grow by one, every other class of pending events keeps its count, and no event of the list is earlier than now if none was before |
| DroneSim.OnSwitchOff | lab2/main.py:57-63 | the residual drops by the switch-off's duration; at 0 the drone goes EMPTY, its station is cleared by `queue_clear` and one recharge is scheduled; otherwise its status is unchanged |
| DroneSim.SwitchOffKeepsServersBusy | lab2/main.py:60-63 | a drained drone is EMPTY with no clients, yet keeps every busy server busy |
| DroneSim.OnRecharge | lab2/main.py:66-71 | one more complete cycle; the drone is IN_USE again on a full residual with one new SWITCH_OFF |
| DroneSim.ServeEngages | lab2/main.py:112-119 | the drone's busy count grows by one exactly when `can_engage_server` holds, the queue and every other server are untouched, and the only new event is a departure, not earlier than now, for a server that was idle and is now busy |
| DroneSim.Admit | lab2/main.py:83-91 | an arrival is refused when the buffer is full or the battery is not IN_USE; otherwise the client is appended, and the servers are untouched either way |
| DroneSim.ArrivalStats | lab2/main.py:83-96 | `arr` always grows; a loss grows `los` only, otherwise `users` grows; `ut` is cumulated with the new `users` |
| DroneSim.OnArrival | lab2/main.py:74-119 | the full arrival handler: loss rule, counters, one history record, the next arrival, and service start |
| DroneSim.LostDeparture | lab2/main.py:131-133 | a departure at a drone that is not IN_USE only counts a loss, cumulates `ut` and adds a record |
| DroneSim.ServedStats | lab2/main.py:135-154 | a served departure grows `dep`, lowers `users` by one and adds the client's time in the system to `delay` |
| DroneSim.ServedDeparture | lab2/main.py:134-161 | the head client leaves the drone's list, the counters follow, and one record is added |
| DroneSim.OnDeparture | lab2/main.py:122-161 | the departure handler fails exactly when the drone is IN_USE with no busy server or no client; otherwise it is the lost or the served departure |
| DroneSim.PopMid | lab2/main.py:239 | under the invariant some event is pending and the popped one is not in the past |
| DroneSim.SwitchOffDrains | lab2/main.py:57-63 | a popped SWITCH_OFF is for an IN_USE drone and uses up exactly its residual, and it was that drone's only one |
| DroneSim.SwitchOffKeepsInv | lab2/main.py:57-63 | a switch-off keeps the invariant and leaves the drone EMPTY with its recharge pending |
| DroneSim.RechargeReady | lab2/main.py:66-71 | a popped RECHARGE is for an EMPTY drone with no other recharge or switch-off pending |
| DroneSim.RechargeKeepsInv | lab2/main.py:66-71 | a recharge keeps the invariant and leaves the drone IN_USE |
| DroneSim.ArrivalKeepsInv | lab2/main.py:74-119 | an arrival keeps the invariant |
| DroneSim.ArrivalKeepsCounters | lab2/main.py:83-96 | an arrival keeps `users == Held + dropped`, `arr + staleLosses == users + dep + los` and the non-negative counters |
| DroneSim.ArrivalKeepsLog | lab2/main.py:98-103 | an arrival keeps the history aligned and time-ordered, one record per handled arrival and departure |
| DroneSim.LostDepartureKeepsInv | lab2/main.py:131-133 | a lost departure keeps the invariant |
| DroneSim.ServedKeepsCounters | lab2/main.py:134-154 | a served departure keeps the counter equations |
| DroneSim.ServedKeepsLog | lab2/main.py:156-161 | a served departure keeps the history aligned and time-ordered |
| DroneSim.DepartureKeepsInv | lab2/main.py:122-161 | a departure that does not fail keeps the invariant |
| DroneSim.Step | lab2/main.py:239-248 | one loop iteration keeps the invariant and the number of drones, and never moves the clock back |
| DroneSim.Run | lab2/main.py:238-248 | the loop ends in an invariant state or a fault, no earlier than it started, and does nothing once the clock has reached the end |
| DroneSim.SwitchOffs | lab2/main.py:233-234 | launching the first `k` drones schedules their switch-offs in order, each at the end of its full residual |
| DroneSim.SwitchOffsCount | lab2/main.py:233-234 | launching schedules exactly one switch-off per launched drone and no other event |
| DroneSim.Launch | lab2/main.py:233-234 | `send_drone` for the first `k` drones sets their batteries IN_USE and appends their switch-offs; stations and counters are untouched |
| DroneSim.Fleet | lab2/main.py:32 | `N_DRONES` new drones with new batteries, nothing pending, zero counters |
| DroneSim.InitialShape | lab2/main.py:226-235 | before the loop every drone is IN_USE at 1500 seconds, one switch-off per drone is pending at 1500, then the first arrival at 0, and every counter is zero |
| DroneSim.InitialInv | lab2/main.py:226-235 | the state before the loop satisfies the invariant |
| DroneSim.Boot | lab2/main.py:222-235 | the set-up yields an invariant state at time 0 with the configured number of drones and zero counters |
| DroneSim.Simulate | lab2/main.py:226-248 | a whole run ends in an invariant state with a time-ordered users history, or in a fault at a non-negative time |
| DroneSim.MainRun | lab2/main.py:222-248 | the run with the script's constants (one drone with two antennas, buffer 300, 12 hours) ends in an invariant state with `N_DRONES` drones unless it faults |
| Schedule.IsDroneReady | lab2/lab2.py:45-55 | a ready drone is in a working slot and under its cycle limit, and is never also available |
| Schedule.SupplyFromName | lab2/lab2.py:465-483 | a recognised name is the name of its supply, and no supply has an unrecognised name |
| Schedule.WorkingAndCharging | lab2/lab2.py:465-483 | a known supply gives its maximum residual and the 3600-second recharge; any other name is outside the domain |
| Schedule.WorkingAndChargingTable | lab2/lab2.py:465-483 | BAT, W45, W65 and W75 give (1500, 3600), (2100, 3600), (2400, 3600) and (2700, 3600) |
| Schedule.CyclesIn | lab2/lab2.py:491-500 | for a non-negative period, the count is the number of working intervals, one starting every cycle from 0, that end within the period; a negative period truncates toward zero |
| Schedule.CyclesFit | lab2/lab2.py:492-498 | the remainder after whole cycles lies in `[0, cycle)`, and `int(res / w) > 0` holds iff the remainder holds a whole working interval |
| Schedule.CyclesPerInterval | lab2/lab2.py:486-500 | a slot's cycles are the count above for `end − start`, or undefined for an unknown supply |
| Schedule.SumCyclesAppend | lab2/lab2.py:505-507 | the summed cycles of concatenated slot lists add up |
| Schedule.SumCyclesNonNegative | lab2/lab2.py:505-507 | slots that do not end before they start never give a negative count |
| Schedule.Cap | lab2/lab2.py:509-511 | an integer limit caps the count at the limit, and with no limit the count is unchanged |
| Schedule.WorkingCycles | lab2/lab2.py:503-513 | the capped sum of the slots' cycles; an unknown supply fails only when there is a slot to count |
| Schedule.WorkingTime | lab2/lab2.py:516-519 | the working time is the working cycles times the supply's working interval, and fails for an unknown supply |
| Schedule.WorkingTimeBounds | lab2/lab2.py:503-519 | the working time is a non-negative whole number of working intervals, and at most the cap times the interval |
| Schedule.ValueDigits | lab2/lab2.py:420 | the decimal digits of a number read back as that number |
| Schedule.Pad2Reads | lab2/lab2.py:420 | `{n:02}` of a non-negative number is at least two digits that read back as it, and exactly two below 100 |
| Schedule.TimeStringReads | lab2/lab2.py:405-420 | the string is hours, minutes and seconds separated by colons, with minutes and seconds below 60 and `HH·3600 + MM·60 + SS` equal to the input; below 100 hours it is `HH:MM:SS` |
| Schedule.StartTimes | lab2/lab2.py:343-354 | the result is strictly increasing multiples of the 5100-second cycle (25·60 + 60·60) between 0 and the last whole cycle of the simulated time, inside the first slot, and includes every such multiple; no slot gives an error |
| Schedule.DetectSlotsSound | lab2/lab2.py:277-292 | on time-sorted samples every slot starts no later than it ends, each starts more than the gap after the previous one ended, and every sample with users lies in a slot |
| Schedule.SimulatedSlots | lab2/lab2.py:264-292 | the users history of a simulated drone network is time-sorted, so its detected slots have those guarantees |
| Schedule.FirstFull | lab2/lab2.py:302-311 | the first in-slot sample whose users reach the buffer size, if any; no earlier in-slot sample reaches it |
| Schedule.FirstPeak | lab2/lab2.py:302-307 | the first in-slot sample with the most users, when positive; no in-slot sample has more and every earlier one has fewer |
| Schedule.PeakScanMeaning | lab2/lab2.py:295-311 | the warm-up loop finds the first full sample, and the peak among the samples up to it |
| Schedule.WarmupMeaning | lab2/lab2.py:295-322 | the warm-up time is the buffer-full time unless that is absent or 0, otherwise the first peak's time or the slot's start; it lies within the slot |
| Schedule.CalculateWarmup | lab2/lab2.py:253-330 | one warm-up time and one steady-state slot per detected slot, each steady slot running from the warm-up to the slot's end and inside the slot for sorted samples; an empty history is an error |
| Schedule.InsertDescending | lab2/lab2.py:531-535 | inserting into a descending list keeps it descending and adds exactly the one entry |
| Schedule.InsertDescendingStable | lab2/lab2.py:531-535 | the inserted entry lands after every entry of equal percentage |
| Schedule.DescendingPairs | lab2/lab2.py:531-535 | non-increasing neighbours make every earlier entry at least every later one |
| Schedule.SortByPercentage | lab2/lab2.py:522-540 | the result is a permutation of the items, so it has exactly the input keys, in non-increasing percentage, with entries of equal percentage in their input order (a stable sort) |

## Left out

- Random sampling (`random.expovariate`, `random.choice`, `random.seed`) is not modelled. Each event takes a `Draw` parameter, and `resolve_MMm` and the random policy take a pick.
- The main loops stop when the supplied draws run out, as well as at the simulated-time limit. A run longer than the draws is not modelled.
- Floating-point rounding is not modelled: times are exact reals. The rounded rates and ratios of `overall_metrics` and `save_steady_state_metrics` are left out.
- Among events with equal times, the first scheduled one is popped. Python's `PriorityQueue` compares the next tuple field instead. In `lab2/main.py` that field is an `Enum` that cannot be ordered. In `lab1/queue_two_MM1.py` and `lab1/queueMM1-ES.py` it is the string tag, so at equal times an arrival pops before a departure whatever the scheduling order, and equal tags fall back to the station or server id.
- Plotting (`plot_*` and the matplotlib scripts), printing, `clear_folder`, `check_json_file_exists` and all file and JSON writes are left out. `calculate_warmup_period` and `start_working_intervals` keep only their computed values.
- The event handlers of `lab2/lab2.py` are left out. They call station methods (`switch_on`, `battery_consume`, `is_in_working_slot`, …) and a `history` API that the station and measurement classes do not define. For the same reason, `IsDroneAvailable` and `IsDroneReady` take the slot and cycle-limit queries as inputs.
- The task and experiment scripts of both labs, `arrivals_profile.py` and `lab1/measurements.py` (a counter record with no behaviour) are not part of this model.
- `sort_and_filter_by_departure_percentage` is modelled on real percentages. Its "N/A" values, which make Python's comparison raise against numbers, are left out.
- Schedule.StartTimes: the simulated time is an integer number of seconds, not a float.
- Schedule.CyclesIn: `int(P / cycle)` is modelled as exact integer truncation. Float division of very large periods is not modelled.
- DroneSim.OnDeparture: a stale departure that reaches an IN_USE drone is a `Fault` outcome. Python's behaviour after the failed assertion or the empty `pop` is not modelled.
- DroneSim.OnSwitchOff: the drone's servers are not idled at switch-off, as written; so `Busy` may exceed the drained list and the model does not promise that a recharged drone can serve again.
- Measurements.AddRecord: `lab2/main.py` calls `add_record` with keyword arguments that `utils/measurements.py` does not accept, so the call raises; the model records `(time, data)` as evidently intended.
- DroneSim.Fleet: `lab2/main.py` builds `Statistics(0, 0, 0, 0, 0, 0)` with a constructor that takes no arguments, so the call raises; the model starts from zeroed counters as evidently intended.
- Schedule.CalculateWarmup: `lab2/lab2.py` reads `measurements.history`, which the `Measurements` class of `utils/measurements.py` does not define; the model takes the `(time, users)` samples that history evidently means as its input.
- Lab1Sim.Initial: `Statistics(0, 0, 0, 0, 0, 0)` and `Measure(0, 0, 0, 0, 0, 0)` pass arguments to constructors that take none, so the drivers raise; the model starts from zeroed counters as evidently intended.
- The battery fields of the lab1 drivers' stations are left out, because those drivers never read them.

## Findings

| source | as written | input that shows it | evidently intended | confidence | as-written member | corrected member |
|---|---|---|---|---|---|---|
| utils/queues.py:50-51 | `queue_clear` empties the client list but leaves busy servers busy | a station with one server busy on its only client: after `queue_clear` the busy count (1) exceeds the list length (0), and after a new insert `can_engage_server` is false, so the client never gets service and a later `consume` pops the wrong client | clearing the station also idles its servers, as at a drone switch-off | not executed | Queues.QueueClearStrandsBusyServer | Queues.ForceClear |
