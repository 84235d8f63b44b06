/**
 * The pure scheduling helpers of lab2/lab2.py: the availability predicates,
 * the working and charging intervals of each power supply, the counting of
 * working cycles, clock strings, the start times of working intervals, the
 * detection of working slots and their warm-up, and the ranking of results.
 */
module Schedule {
  import opened Basics
  import opened Queues
  import DroneSim

  // ---------------------------------------------------------------------------
  // Availability

  /** `is_drone_available`: in a working slot, under the cycle limit, IN_USE
      and with room in the buffer. Whether the drone is in a working slot or
      has exceeded its cycles is passed in: the station has no such methods. */
  predicate IsDroneAvailable(inSlot: bool, exceeded: bool, status: BatteryStatus, full: bool)
  {
    inSlot && !exceeded && status == InUse && !full
  }

  /** `is_drone_ready`: PAUSED or FULL, in a working slot and under the cycle
      limit. A ready drone is never available. */
  function IsDroneReady(inSlot: bool, exceeded: bool, status: BatteryStatus): (ready: bool)
    ensures ready ==> inSlot && !exceeded
    ensures ready ==> forall full :: !IsDroneAvailable(inSlot, exceeded, status, full)
  {
    (status == Paused || status == Full) && inSlot && !exceeded
  }

  // ---------------------------------------------------------------------------
  // Power supplies

  function SupplyName(p: PowerSupply): string
  {
    match p
    case Bat => "BAT"
    case W45 => "W45"
    case W65 => "W65"
    case W75 => "W75"
  }

  /** The supply a name denotes; `None` for any other name. */
  function SupplyFromName(name: string): (r: Option<PowerSupply>)
    ensures r.Some? ==> SupplyName(r.value) == name
    ensures r.None? ==> forall p :: SupplyName(p) != name
  {
    if name == "BAT" then Some(Bat)
    else if name == "W45" then Some(W45)
    else if name == "W65" then Some(W65)
    else if name == "W75" then Some(W75)
    else None
  }

  /** Every supply's name is read back as that supply. */
  lemma SupplyNameRoundTrip(p: PowerSupply)
    ensures SupplyFromName(SupplyName(p)) == Some(p)
  {
  }

  /** `define_working_and_charging_interval`: the seconds of work on a full
      battery and the seconds of a recharge. Any other name leaves both
      locals unbound, which raises; that is `None` here. */
  function WorkingAndCharging(name: string): (r: Option<(int, int)>)
    ensures r.Some? <==> SupplyFromName(name).Some?
    ensures r.Some? ==> r.value == (ResidualTimeMax(SupplyFromName(name).value), RECHARGE_TIME)
  {
    match SupplyFromName(name)
    case None => None
    case Some(p) => Some((ResidualTimeMax(p), RECHARGE_TIME))
  }

  /** The table of intervals, in seconds. */
  lemma WorkingAndChargingTable()
    ensures WorkingAndCharging("BAT") == Some((1500, 3600))
    ensures WorkingAndCharging("W45") == Some((2100, 3600))
    ensures WorkingAndCharging("W65") == Some((2400, 3600))
    ensures WorkingAndCharging("W75") == Some((2700, 3600))
    ensures WorkingAndCharging("BASE") == None
  {
    SupplyNameRoundTrip(Bat);
    SupplyNameRoundTrip(W45);
    SupplyNameRoundTrip(W65);
    SupplyNameRoundTrip(W75);
  }

  // ---------------------------------------------------------------------------
  // Working cycles

  /** The body of `calculate_working_cycles_per_interval` once the intervals
      are known: whole cycles in `period`, plus one when the remainder holds a
      whole working interval. For a non-negative period that is the number of
      working intervals, one starting every `w + c` seconds from 0, that end
      within the period; a negative period is truncated toward zero. */
  function CyclesIn(period: int, w: int, c: int): (n: int)
    requires w > 0 && c >= 0
    ensures period >= 0 ==> n >= 0 && (n == 0 || (n - 1) * (w + c) + w <= period) && period < n * (w + c) + w
    ensures period < 0 ==> n <= 0 && n * (w + c) - (w + c) < period <= n * (w + c)
  {
    var cycle := w + c;
    var slots := TruncDiv(period, cycle);
    var res := period - cycle * slots;
    if res > 0 && TruncDiv(res, w) > 0 then
      CyclesFit(period, w, c, slots, res);
      slots + 1
    else
      CyclesFit(period, w, c, slots, res);
      slots
  }

  lemma CyclesFit(period: int, w: int, c: int, slots: int, res: int)
    requires w > 0 && c >= 0
    requires slots == TruncDiv(period, w + c) && res == period - (w + c) * slots
    ensures period >= 0 ==> 0 <= slots && 0 <= res < w + c
    ensures res > 0 ==> (TruncDiv(res, w) > 0 <==> res >= w)
    ensures period < 0 ==> slots <= 0 && res <= 0
  {
    if period >= 0 {
      NonNegativeQuotient(period, w + c, slots);
    } else {
      NegativeQuotient(period, w + c, slots);
    }
    if res > 0 {
      NonNegativeQuotient(res, w, TruncDiv(res, w));
      PositiveQuotient(res, w, TruncDiv(res, w));
    }
  }

  lemma NonNegativeQuotient(a: int, b: int, q: int)
    requires b > 0 && a >= 0 && q * b <= a < q * b + b
    ensures q >= 0 && 0 <= a - q * b < b
  {
    if q < 0 {
      MulMonotone(q, -1, b);
    }
  }

  lemma NegativeQuotient(a: int, b: int, q: int)
    requires b > 0 && a < 0 && q * b - b < a <= q * b
    ensures q <= 0 && a - q * b <= 0
  {
    if q > 0 {
      MulMonotone(1, q, b);
    }
  }

  lemma PositiveQuotient(a: int, b: int, q: int)
    requires b > 0 && q >= 0 && q * b <= a < q * b + b
    ensures q > 0 <==> a >= b
  {
    if q > 0 {
      assert (q - 1) * b >= 0;
    }
  }

  /** `calculate_working_cycles_per_interval` for the slot `[start, end]`. */
  function CyclesPerInterval(slot: (int, int), name: string): (r: Option<int>)
    ensures r.Some? <==> WorkingAndCharging(name).Some?
    ensures r.Some? ==> var (w, c) := WorkingAndCharging(name).value;
                        r.value == CyclesIn(slot.1 - slot.0, w, c)
  {
    match WorkingAndCharging(name)
    case None => None
    case Some((w, c)) => Some(CyclesIn(slot.1 - slot.0, w, c))
  }

  /** The cycles of all slots, summed. */
  function SumCycles(slots: seq<(int, int)>, w: int, c: int): int
    requires w > 0 && c >= 0
  {
    if slots == [] then 0
    else SumCycles(slots[..|slots| - 1], w, c) + CyclesIn(slots[|slots| - 1].1 - slots[|slots| - 1].0, w, c)
  }

  lemma {:induction false} SumCyclesAppend(a: seq<(int, int)>, b: seq<(int, int)>, w: int, c: int)
    requires w > 0 && c >= 0
    ensures SumCycles(a + b, w, c) == SumCycles(a, w, c) + SumCycles(b, w, c)
    decreases |b|
  {
    if b == [] {
      assert a + b == a;
    } else {
      assert (a + b)[..|a + b| - 1] == a + b[..|b| - 1];
      SumCyclesAppend(a, b[..|b| - 1], w, c);
    }
  }

  /** Slots that do not end before they start never give a negative count. */
  lemma {:induction false} SumCyclesNonNegative(slots: seq<(int, int)>, w: int, c: int)
    requires w > 0 && c >= 0
    requires forall k :: 0 <= k < |slots| ==> slots[k].0 <= slots[k].1
    ensures SumCycles(slots, w, c) >= 0
    decreases |slots|
  {
    if slots != [] {
      SumCyclesNonNegative(slots[..|slots| - 1], w, c);
    }
  }

  /** `if isinstance(max_recharges, int)`: an integer limit caps the count,
      anything else leaves it alone. */
  function Cap(n: int, maxRecharges: Option<int>): (r: int)
    ensures r <= n
    ensures maxRecharges.Some? ==> r <= maxRecharges.value && (r == n || r == maxRecharges.value)
    ensures maxRecharges.None? ==> r == n
  {
    if maxRecharges.Some? && n > maxRecharges.value then maxRecharges.value else n
  }

  /** `calculate_working_cycles`: the cycles of every slot, capped. The intervals
      are looked up once per slot, so with no slot an unknown name goes
      unnoticed. */
  function WorkingCycles(maxRecharges: Option<int>, name: string, slots: seq<(int, int)>): (r: Option<int>)
    ensures r.None? <==> |slots| > 0 && WorkingAndCharging(name).None?
    ensures slots == [] ==> r == Some(Cap(0, maxRecharges))
    ensures |slots| > 0 && r.Some? ==>
              var (w, c) := WorkingAndCharging(name).value;
              r.value == Cap(SumCycles(slots, w, c), maxRecharges)
  {
    if slots == [] then Some(Cap(0, maxRecharges))
    else
      match WorkingAndCharging(name)
      case None => None
      case Some((w, c)) => Some(Cap(SumCycles(slots, w, c), maxRecharges))
  }

  /** `working_time_by_schedule_and_recharges`: the working cycles times the
      working interval. It looks the intervals up itself, so an unknown name
      always fails. */
  function WorkingTime(maxRecharges: Option<int>, slots: seq<(int, int)>, name: string): (r: Option<int>)
    ensures r.Some? <==> WorkingAndCharging(name).Some?
    ensures r.Some? ==> r.value == WorkingCycles(maxRecharges, name, slots).value * WorkingAndCharging(name).value.0
  {
    match WorkingAndCharging(name)
    case None => None
    case Some((w, _)) => Some(WorkingCycles(maxRecharges, name, slots).value * w)
  }

  /** The working time is a whole number of working intervals, never more than
      the cap allows, and never negative for well-ordered slots and a
      non-negative cap. */
  lemma WorkingTimeBounds(maxRecharges: Option<int>, slots: seq<(int, int)>, name: string)
    requires WorkingAndCharging(name).Some?
    requires forall k :: 0 <= k < |slots| ==> slots[k].0 <= slots[k].1
    requires maxRecharges.Some? ==> maxRecharges.value >= 0
    ensures var t, w := WorkingTime(maxRecharges, slots, name).value, WorkingAndCharging(name).value.0;
            && t >= 0 && t % w == 0
            && (maxRecharges.Some? ==> t <= maxRecharges.value * w)
  {
    var (w, c) := WorkingAndCharging(name).value;
    var n := WorkingCycles(maxRecharges, name, slots).value;
    if slots != [] {
      SumCyclesNonNegative(slots, w, c);
    }
    assert n >= 0;
    assert WorkingTime(maxRecharges, slots, name).value == n * w;
    MulNonNegativeInt(n, w);
    if maxRecharges.Some? {
      MulMonotone(n, maxRecharges.value, w);
    }
    MulMod(n, w);
  }

  /** A multiple of `w` leaves no remainder. */
  lemma MulMod(n: int, w: int)
    requires w > 0
    ensures (n * w) % w == 0
  {
    var q, m := (n * w) / w, (n * w) % w;
    assert (n - q) * w == m;
    if n - q > 0 {
      MulMonotone(1, n - q, w);
    } else if n - q < 0 {
      MulMonotone(n - q, -1, w);
    }
  }

  lemma MulNonNegativeInt(a: int, b: int)
    requires a >= 0 && b >= 0
    ensures a * b >= 0
  {
  }

  lemma MulMonotone(a: int, b: int, w: int)
    requires a <= b && w >= 0
    ensures a * w <= b * w
  {
  }

  // ---------------------------------------------------------------------------
  // Clock strings

  function DigitChar(d: nat): char
    requires d < 10
  {
    "0123456789"[d]
  }

  /** The decimal digits of `n`, without leading zeros. */
  function Digits(n: nat): (s: string)
    ensures |s| >= 1
    ensures forall i :: 0 <= i < |s| ==> '0' <= s[i] <= '9'
    decreases n
  {
    if n < 10 then [DigitChar(n)] else Digits(n / 10) + [DigitChar(n % 10)]
  }

  /** The number a string of decimal digits denotes. */
  function Value(s: string): int
  {
    if s == [] then 0 else 10 * Value(s[..|s| - 1]) + (s[|s| - 1] as int - '0' as int)
  }

  lemma {:induction false} ValueDigits(n: nat)
    ensures Value(Digits(n)) == n
    decreases n
  {
    if n >= 10 {
      ValueDigits(n / 10);
      var s := Digits(n);
      assert s[..|s| - 1] == Digits(n / 10);
    }
  }

  /** `f"{n:02}"`: at least two characters, zero-padded after the sign. */
  function Pad2(n: int): (s: string)
  {
    if n < 0 then "-" + Digits(-n)
    else if n < 10 then "0" + Digits(n)
    else Digits(n)
  }

  lemma Pad2Reads(n: nat)
    ensures |Pad2(n)| >= 2 && Value(Pad2(n)) == n
    ensures forall i :: 0 <= i < |Pad2(n)| ==> '0' <= Pad2(n)[i] <= '9'
    ensures n < 100 ==> |Pad2(n)| == 2
  {
    ValueDigits(n);
    if n < 10 {
      assert ("0" + Digits(n))[..1] == "0";
    } else {
      var s := Digits(n);
      if n < 100 {
        assert |Digits(n / 10)| == 1;
      }
    }
  }

  /** `seconds_to_time_string`: hours, minutes and seconds, each written
      with at least two digits and separated by colons. Python's `//` and `%`
      floor, as Dafny's do for a positive divisor. */
  function TimeString(seconds: int): string
  {
    Pad2(seconds / 3600) + ":" + Pad2(seconds % 3600 / 60) + ":" + Pad2(seconds % 60)
  }

  /** Reading back a clock string: hours from everything before the second
      to last colon, then two digits of minutes and two of seconds, each
      below 60, that add up to the given seconds. Below 100 hours the string
      is `HH:MM:SS`. */
  lemma TimeStringReads(seconds: nat)
    ensures var s := TimeString(seconds);
            && |s| >= 8 && s[|s| - 3] == ':' && s[|s| - 6] == ':'
            && var h, m, sec := Value(s[..|s| - 6]), Value(s[|s| - 5..|s| - 3]), Value(s[|s| - 2..]);
               && 0 <= m < 60 && 0 <= sec < 60
               && h * 3600 + m * 60 + sec == seconds
    ensures seconds < 360000 ==> |TimeString(seconds)| == 8
  {
    var h, m, sec := seconds / 3600, seconds % 3600 / 60, seconds % 60;
    ClockSplit(seconds);
    Pad2Reads(h);
    Pad2Reads(m);
    Pad2Reads(sec);
    Joined(Pad2(h), Pad2(m), Pad2(sec));
  }

  lemma ClockSplit(seconds: nat)
    ensures 0 <= seconds % 3600 / 60 < 60 && 0 <= seconds % 60 < 60
    ensures seconds / 3600 * 3600 + seconds % 3600 / 60 * 60 + seconds % 60 == seconds
    ensures seconds < 360000 ==> seconds / 3600 < 100
  {
    var r := seconds % 3600;
    assert seconds == seconds / 3600 * 3600 + r;
    assert r == r / 60 * 60 + r % 60;
    assert r % 60 == seconds % 60 by {
      assert seconds == (seconds / 3600 * 60) * 60 + r;
    }
  }

  lemma Joined(a: string, b: string, c: string)
    requires |a| >= 2 && |b| == 2 && |c| == 2
    ensures var s := a + ":" + b + ":" + c;
            && |s| == |a| + 6 && s[|s| - 3] == ':' && s[|s| - 6] == ':'
            && s[..|s| - 6] == a && s[|s| - 5..|s| - 3] == b && s[|s| - 2..] == c
  {
  }

  // ---------------------------------------------------------------------------
  // Start times of working intervals

  /** The cycle `start_working_intervals` assumes whatever the supply: 25
      minutes of work and an hour of recharge. */
  const WORKING_CYCLE: int := 25 * 60 + 60 * 60

  /** The start of the `i`-th cycle from time 0. */
  function CycleStart(i: int): int
  {
    WORKING_CYCLE * i
  }

  /** A time that some cycle starts at. */
  predicate OnCycle(t: int)
  {
    t % WORKING_CYCLE == 0
  }

  lemma CycleStartOnCycle(i: int)
    ensures OnCycle(CycleStart(i))
  {
  }

  /** A cycle start before the `i`-th is no later than the one before it. */
  lemma CycleBelow(t: int, i: int)
    requires OnCycle(t) && t < CycleStart(i)
    ensures t <= CycleStart(i - 1)
  {
    var q := t / WORKING_CYCLE;
    assert t == CycleStart(q);
    assert q < i;
  }

  /** Every collected time is a cycle start in `[start, end]` below `bound`. */
  predicate StartsBelow(ts: seq<int>, start: int, end: int, bound: int)
  {
    forall j :: 0 <= j < |ts| ==> start <= ts[j] <= end && 0 <= ts[j] < bound && OnCycle(ts[j])
  }

  /** One more cycle: the bound moves up a cycle, with or without its start. */
  lemma StartsStep(ts: seq<int>, start: int, end: int, i: int)
    requires 0 <= i && StartsBelow(ts, start, end, CycleStart(i))
    ensures StartsBelow(ts, start, end, CycleStart(i + 1))
    ensures start <= CycleStart(i) <= end ==> StartsBelow(ts + [CycleStart(i)], start, end, CycleStart(i + 1))
  {
    CycleStartOnCycle(i);
  }

  /** `start_working_intervals`: the cycle starts from 0 up to the last whole
      cycle of the simulated time that fall inside the first working slot.
      Without a first slot the source raises; that is `None` here. */
  method StartTimes(simTime: int, slots: seq<(int, int)>) returns (r: Option<seq<int>>)
    ensures r.None? <==> slots == []
    ensures r.Some? ==>
              var ts, last := r.value, TruncDiv(simTime, WORKING_CYCLE);
              && (forall j :: 0 <= j < |ts| ==>
                    slots[0].0 <= ts[j] <= slots[0].1 && 0 <= ts[j] <= CycleStart(last) && OnCycle(ts[j]))
              && (forall j :: 0 < j < |ts| ==> ts[j - 1] < ts[j])
              && (forall i :: 0 <= i <= last && slots[0].0 <= CycleStart(i) <= slots[0].1 ==> CycleStart(i) in ts)
  {
    if slots == [] {
      return None;
    }
    var start, end := slots[0].0, slots[0].1;
    var last := TruncDiv(simTime, WORKING_CYCLE);
    var count := if last < 0 then 0 else last + 1;
    var ts: seq<int> := [];
    var i := 0;
    while i < count
      invariant 0 <= i <= count
      invariant StartsBelow(ts, start, end, CycleStart(i))
      invariant forall j :: 0 < j < |ts| ==> ts[j - 1] < ts[j]
      invariant forall i' :: 0 <= i' < i && start <= CycleStart(i') <= end ==> CycleStart(i') in ts
    {
      var t := CycleStart(i);
      StartsStep(ts, start, end, i);
      if start <= t <= end {
        ts := ts + [t];
      }
      i := i + 1;
    }
    forall j | 0 <= j < |ts|
      ensures ts[j] <= CycleStart(last)
    {
      CycleBelow(ts[j], i);
    }
    return Some(ts);
  }

  // ---------------------------------------------------------------------------
  // Working slots and their warm-up

  /** The default `gap_threshold` of `calculate_warmup_period`. */
  const GAP_THRESHOLD: real := 100.0

  /** `(time, users)` samples in time order, as the users history records them. */
  predicate TimesSorted(samples: seq<(real, int)>)
  {
    forall i, j :: 0 <= i < j < |samples| ==> samples[i].0 <= samples[j].0
  }

  /** The state of the slot-detection loop: whether a slot is open, its start,
      the last time with users, and the slots closed so far. */
  datatype Scan = Scan(inSlot: bool, start: real, last: real, slots: seq<(real, real)>)

  /** One sample of the slot-detection loop: a sample with users opens a slot
      or extends the open one; an empty sample more than `gap` after the last
      busy one closes it. */
  function ScanStep(st: Scan, sample: (real, int), gap: real): Scan
  {
    if sample.1 != 0 then
      if st.inSlot then st.(last := sample.0) else Scan(true, sample.0, sample.0, st.slots)
    else if st.inSlot && sample.0 - st.last > gap then
      Scan(false, st.start, st.last, st.slots + [(st.start, st.last)])
    else st
  }

  /** The loop after the first `n` samples. */
  function ScanPrefix(samples: seq<(real, int)>, gap: real, n: nat): Scan
    requires n <= |samples|
  {
    if n == 0 then Scan(false, 0.0, 0.0, [])
    else ScanStep(ScanPrefix(samples, gap, n - 1), samples[n - 1], gap)
  }

  /** The working slots `[start, end]` of `calculate_warmup_period`; a slot
      still open after the last sample ends at its last busy time. */
  function DetectSlots(samples: seq<(real, int)>, gap: real): seq<(real, real)>
  {
    var st := ScanPrefix(samples, gap, |samples|);
    if st.inSlot then st.slots + [(st.start, st.last)] else st.slots
  }

  /** Each slot starts no later than it ends, and more than `gap` after the
      previous one ended. */
  predicate Separated(slots: seq<(real, real)>, gap: real)
  {
    && (forall k :: 0 <= k < |slots| ==> slots[k].0 <= slots[k].1)
    && (forall k :: 0 < k < |slots| ==> slots[k - 1].1 + gap < slots[k].0)
  }

  ghost predicate Covered(t: real, slots: seq<(real, real)>)
  {
    exists k :: 0 <= k < |slots| && slots[k].0 <= t <= slots[k].1
  }

  /** What the loop keeps true after `n` time-sorted samples. */
  ghost predicate ScanOk(st: Scan, samples: seq<(real, int)>, gap: real, n: nat)
    requires n <= |samples|
  {
    && Separated(st.slots, gap)
    && (st.inSlot ==> st.start <= st.last)
    && (st.inSlot && |st.slots| > 0 ==> st.slots[|st.slots| - 1].1 + gap < st.start)
    && (n > 0 && st.inSlot ==> st.last <= samples[n - 1].0)
    && (n > 0 && !st.inSlot && |st.slots| > 0 ==> st.slots[|st.slots| - 1].1 + gap < samples[n - 1].0)
    && (n == 0 ==> !st.inSlot && st.slots == [])
    && (forall i :: 0 <= i < n && samples[i].1 != 0 ==>
          Covered(samples[i].0, st.slots) || (st.inSlot && st.start <= samples[i].0 <= st.last))
  }

  lemma CoveredAppend(t: real, slots: seq<(real, real)>, x: (real, real))
    requires Covered(t, slots)
    ensures Covered(t, slots + [x])
  {
    var k :| 0 <= k < |slots| && slots[k].0 <= t <= slots[k].1;
    assert (slots + [x])[k] == slots[k];
  }

  lemma {:induction false} ScanPrefixOk(samples: seq<(real, int)>, gap: real, n: nat)
    requires TimesSorted(samples) && n <= |samples|
    ensures ScanOk(ScanPrefix(samples, gap, n), samples, gap, n)
  {
    if n > 0 {
      ScanPrefixOk(samples, gap, n - 1);
      ScanStepOk(samples, gap, n);
    }
  }

  lemma ScanStepOk(samples: seq<(real, int)>, gap: real, n: nat)
    requires TimesSorted(samples) && 0 < n <= |samples|
    requires ScanOk(ScanPrefix(samples, gap, n - 1), samples, gap, n - 1)
    ensures ScanOk(ScanPrefix(samples, gap, n), samples, gap, n)
  {
    var st := ScanPrefix(samples, gap, n - 1);
    var (t, u) := samples[n - 1];
    if n > 1 {
      assert samples[n - 2].0 <= t;
    }
    if u != 0 {
      ScanBusyOk(st, samples, gap, n);
    } else if st.inSlot && t - st.last > gap {
      ScanCloseOk(st, samples, gap, n);
    } else {
      ScanIdleOk(st, samples, gap, n);
    }
  }

  /** A sample with users opens a slot or extends the open one. */
  lemma ScanBusyOk(st: Scan, samples: seq<(real, int)>, gap: real, n: nat)
    requires 0 < n <= |samples| && ScanOk(st, samples, gap, n - 1) && samples[n - 1].1 != 0
    requires n > 1 ==> samples[n - 2].0 <= samples[n - 1].0
    ensures ScanOk(ScanStep(st, samples[n - 1], gap), samples, gap, n)
  {
  }

  /** An empty sample more than `gap` after the last busy one closes the slot. */
  lemma ScanCloseOk(st: Scan, samples: seq<(real, int)>, gap: real, n: nat)
    requires 0 < n <= |samples| && ScanOk(st, samples, gap, n - 1) && samples[n - 1].1 == 0
    requires st.inSlot && samples[n - 1].0 - st.last > gap
    ensures ScanOk(ScanStep(st, samples[n - 1], gap), samples, gap, n)
  {
    var st' := ScanStep(st, samples[n - 1], gap);
    var x := (st.start, st.last);
    assert st'.slots == st.slots + [x];
    forall i | 0 <= i < n && samples[i].1 != 0
      ensures Covered(samples[i].0, st'.slots)
    {
      if Covered(samples[i].0, st.slots) {
        CoveredAppend(samples[i].0, st.slots, x);
      } else {
        assert st'.slots[|st.slots|] == x;
      }
    }
  }

  /** Any other empty sample changes nothing. */
  lemma ScanIdleOk(st: Scan, samples: seq<(real, int)>, gap: real, n: nat)
    requires 0 < n <= |samples| && ScanOk(st, samples, gap, n - 1) && samples[n - 1].1 == 0
    requires !(st.inSlot && samples[n - 1].0 - st.last > gap)
    requires n > 1 ==> samples[n - 2].0 <= samples[n - 1].0
    ensures ScanOk(ScanStep(st, samples[n - 1], gap), samples, gap, n)
  {
  }

  /** For time-sorted samples the slots are separated by more than the gap,
      and every sample with users lies in one of them. */
  lemma DetectSlotsSound(samples: seq<(real, int)>, gap: real)
    requires TimesSorted(samples)
    ensures Separated(DetectSlots(samples, gap), gap)
    ensures forall i :: 0 <= i < |samples| && samples[i].1 != 0 ==> Covered(samples[i].0, DetectSlots(samples, gap))
  {
    var st := ScanPrefix(samples, gap, |samples|);
    ScanPrefixOk(samples, gap, |samples|);
    if st.inSlot {
      var x := (st.start, st.last);
      var slots := st.slots + [x];
      forall i | 0 <= i < |samples| && samples[i].1 != 0
        ensures Covered(samples[i].0, slots)
      {
        if Covered(samples[i].0, st.slots) {
          CoveredAppend(samples[i].0, st.slots, x);
        } else {
          assert slots[|st.slots|] == x;
        }
      }
    }
  }

  /** The users history of a simulated drone network is in time order, so the
      slots found in it are separated by more than the gap and cover every
      moment with users. */
  lemma SimulatedSlots(sim: DroneSim.DSim)
    requires DroneSim.Inv(sim)
    ensures TimesSorted(sim.log.users)
    ensures Separated(DetectSlots(sim.log.users, GAP_THRESHOLD), GAP_THRESHOLD)
    ensures forall i :: 0 <= i < |sim.log.users| && sim.log.users[i].1 != 0 ==>
              Covered(sim.log.users[i].0, DetectSlots(sim.log.users, GAP_THRESHOLD))
  {
    DetectSlotsSound(sim.log.users, GAP_THRESHOLD);
  }

  /** A sample whose time lies in the slot. */
  predicate InSlot(sample: (real, int), slot: (real, real))
  {
    slot.0 <= sample.0 <= slot.1
  }

  /** The state of the warm-up loop over one slot: the time the buffer filled,
      once found, and the largest user count so far with its time. */
  datatype Peak = Peak(transient: Option<real>, maxUsers: int, maxTime: real)

  /** The warm-up loop after the first `n` samples; it stops at the first
      sample of the slot whose users reach the buffer size. */
  function PeakScan(samples: seq<(real, int)>, slot: (real, real), bufferSize: int, n: nat): Peak
    requires n <= |samples|
  {
    if n == 0 then Peak(None, 0, slot.0)
    else
      var p := PeakScan(samples, slot, bufferSize, n - 1);
      var (t, u) := samples[n - 1];
      if p.transient.Some? || !InSlot(samples[n - 1], slot) then p
      else
        var p1 := if u > p.maxUsers then Peak(None, u, t) else p;
        if u >= bufferSize then p1.(transient := Some(t)) else p1
  }

  /** The warm-up time of one slot: the time the buffer filled, unless there
      is none or it is 0 (Python's `if transient_period:` takes 0 for
      false), and otherwise the time of the peak. */
  function Warmup(samples: seq<(real, int)>, slot: (real, real), bufferSize: int): real
  {
    var p := PeakScan(samples, slot, bufferSize, |samples|);
    if p.transient.Some? && p.transient.value != 0.0 then p.transient.value else p.maxTime
  }

  /** The first sample of the slot, among the first `n`, whose users reach
      the buffer size. */
  function FirstFull(samples: seq<(real, int)>, slot: (real, real), bufferSize: int, n: nat): (r: Option<nat>)
    requires n <= |samples|
    ensures r.Some? ==> r.value < n && InSlot(samples[r.value], slot) && samples[r.value].1 >= bufferSize
    ensures r.Some? ==> forall i :: 0 <= i < r.value && InSlot(samples[i], slot) ==> samples[i].1 < bufferSize
    ensures r.None? ==> forall i :: 0 <= i < n && InSlot(samples[i], slot) ==> samples[i].1 < bufferSize
  {
    if n == 0 then None
    else
      var f := FirstFull(samples, slot, bufferSize, n - 1);
      if f.Some? then f
      else if InSlot(samples[n - 1], slot) && samples[n - 1].1 >= bufferSize then Some(n - 1)
      else None
  }

  /** The first sample of the slot, among the first `n`, with the most users,
      when that is more than none. */
  function FirstPeak(samples: seq<(real, int)>, slot: (real, real), n: nat): (r: Option<nat>)
    requires n <= |samples|
    ensures r.Some? ==> r.value < n && InSlot(samples[r.value], slot) && samples[r.value].1 > 0
    ensures r.Some? ==> forall i :: 0 <= i < n && InSlot(samples[i], slot) ==> samples[i].1 <= samples[r.value].1
    ensures r.Some? ==> forall i :: 0 <= i < r.value && InSlot(samples[i], slot) ==> samples[i].1 < samples[r.value].1
    ensures r.None? ==> forall i :: 0 <= i < n && InSlot(samples[i], slot) ==> samples[i].1 <= 0
  {
    if n == 0 then None
    else
      var f := FirstPeak(samples, slot, n - 1);
      var best := if f.Some? then samples[f.value].1 else 0;
      if InSlot(samples[n - 1], slot) && samples[n - 1].1 > best then Some(n - 1) else f
  }

  /** The loop finds the first full sample, and up to it the first peak. */
  ghost predicate PeakMeans(samples: seq<(real, int)>, slot: (real, real), bufferSize: int, n: nat)
    requires n <= |samples|
  {
    var p, f := PeakScan(samples, slot, bufferSize, n), FirstFull(samples, slot, bufferSize, n);
    && p.transient == (if f.Some? then Some(samples[f.value].0) else None)
    && var m := FirstPeak(samples, slot, if f.Some? then f.value + 1 else n);
       && p.maxUsers == (if m.Some? then samples[m.value].1 else 0)
       && p.maxTime == (if m.Some? then samples[m.value].0 else slot.0)
  }

  lemma {:induction false} PeakScanMeaning(samples: seq<(real, int)>, slot: (real, real), bufferSize: int, n: nat)
    requires n <= |samples|
    ensures var p, f := PeakScan(samples, slot, bufferSize, n), FirstFull(samples, slot, bufferSize, n);
            && p.transient == (if f.Some? then Some(samples[f.value].0) else None)
            && var m := FirstPeak(samples, slot, if f.Some? then f.value + 1 else n);
               && p.maxUsers == (if m.Some? then samples[m.value].1 else 0)
               && p.maxTime == (if m.Some? then samples[m.value].0 else slot.0)
  {
    PeakScanInduction(samples, slot, bufferSize, n);
  }

  lemma {:induction false} PeakScanInduction(samples: seq<(real, int)>, slot: (real, real), bufferSize: int, n: nat)
    requires n <= |samples|
    ensures PeakMeans(samples, slot, bufferSize, n)
  {
    if n > 0 {
      PeakScanInduction(samples, slot, bufferSize, n - 1);
      PeakStep(samples, slot, bufferSize, n);
    }
  }

  /** One more sample, before or after the buffer first filled. */
  lemma PeakStep(samples: seq<(real, int)>, slot: (real, real), bufferSize: int, n: nat)
    requires 0 < n <= |samples| && PeakMeans(samples, slot, bufferSize, n - 1)
    ensures PeakMeans(samples, slot, bufferSize, n)
  {
    var p := PeakScan(samples, slot, bufferSize, n - 1);
    var f := FirstFull(samples, slot, bufferSize, n - 1);
    if f.Some? {
      assert FirstFull(samples, slot, bufferSize, n) == f;
      assert PeakScan(samples, slot, bufferSize, n) == p;
    } else if !InSlot(samples[n - 1], slot) {
      assert FirstFull(samples, slot, bufferSize, n) == None;
      assert PeakScan(samples, slot, bufferSize, n) == p;
      assert FirstPeak(samples, slot, n) == FirstPeak(samples, slot, n - 1);
    } else {
      var m := FirstPeak(samples, slot, n - 1);
      var u := samples[n - 1].1;
      assert p.maxUsers == (if m.Some? then samples[m.value].1 else 0);
      assert FirstPeak(samples, slot, n) == if u > p.maxUsers then Some(n - 1) else m;
      var p1 := if u > p.maxUsers then Peak(None, u, samples[n - 1].0) else p;
      if u >= bufferSize {
        assert FirstFull(samples, slot, bufferSize, n) == Some(n - 1);
        assert PeakScan(samples, slot, bufferSize, n) == p1.(transient := Some(samples[n - 1].0));
      } else {
        assert FirstFull(samples, slot, bufferSize, n) == None;
        assert PeakScan(samples, slot, bufferSize, n) == p1;
      }
    }
  }

  /** The warm-up time of a slot is the time its buffer first filled, when
      that is not 0; otherwise the time of the first peak up to then, or the
      slot's start when nobody was served. It lies within the slot. */
  lemma WarmupMeaning(samples: seq<(real, int)>, slot: (real, real), bufferSize: int)
    ensures var w, f := Warmup(samples, slot, bufferSize), FirstFull(samples, slot, bufferSize, |samples|);
            var m := FirstPeak(samples, slot, if f.Some? then f.value + 1 else |samples|);
            && (f.Some? && samples[f.value].0 != 0.0 ==> w == samples[f.value].0)
            && (!(f.Some? && samples[f.value].0 != 0.0) ==> w == (if m.Some? then samples[m.value].0 else slot.0))
    ensures slot.0 <= slot.1 ==> slot.0 <= Warmup(samples, slot, bufferSize) <= slot.1
  {
    PeakScanMeaning(samples, slot, bufferSize, |samples|);
  }

  lemma WarmupInSlot(samples: seq<(real, int)>, slot: (real, real), bufferSize: int)
    requires slot.0 <= slot.1
    ensures slot.0 <= Warmup(samples, slot, bufferSize) <= slot.1
  {
    WarmupMeaning(samples, slot, bufferSize);
  }

  /** `calculate_warmup_period`: the working slots of the users history, and
      for each its warm-up time and the steady-state slot from there to the
      slot's end (which the source saves as JSON). An empty history cannot be
      unpacked by the source; that is `None` here. */
  method CalculateWarmup(bufferSize: int, samples: seq<(real, int)>, gap: real)
    returns (warmups: Option<seq<real>>, steady: seq<(real, real)>)
    ensures warmups.None? <==> samples == []
    ensures warmups.Some? ==>
              var slots := DetectSlots(samples, gap);
              && |warmups.value| == |slots| == |steady|
              && forall k :: 0 <= k < |slots| ==>
                   warmups.value[k] == Warmup(samples, slots[k], bufferSize) && steady[k] == (warmups.value[k], slots[k].1)
    ensures warmups.Some? && TimesSorted(samples) ==>
              forall k :: 0 <= k < |steady| ==> DetectSlots(samples, gap)[k].0 <= steady[k].0 <= steady[k].1
  {
    if samples == [] {
      return None, [];
    }
    var slots := DetectSlots(samples, gap);
    var sorted := TimesSorted(samples);
    if sorted {
      DetectSlotsSound(samples, gap);
    }
    var ws: seq<real> := [];
    steady := [];
    var k := 0;
    while k < |slots|
      invariant 0 <= k <= |slots|
      invariant |ws| == k && |steady| == k
      invariant forall j :: 0 <= j < k ==> ws[j] == Warmup(samples, slots[j], bufferSize) && steady[j] == (ws[j], slots[j].1)
      invariant sorted ==> forall j :: 0 <= j < k ==> slots[j].0 <= steady[j].0 <= steady[j].1
    {
      var w := Warmup(samples, slots[k], bufferSize);
      if sorted {
        WarmupInSlot(samples, slots[k], bufferSize);
      }
      ws := ws + [w];
      steady := steady + [(w, slots[k].1)];
      k := k + 1;
    }
    warmups := Some(ws);
  }

  // ---------------------------------------------------------------------------
  // Ranking by departure percentage

  /** Entries in non-increasing order of percentage: no entry is above the
      one before it. */
  predicate Descending(s: seq<(string, real)>)
  {
    forall i :: 0 < i < |s| ==> s[i - 1].1 >= s[i].1
  }

  /** Non-increasing neighbours make the whole list non-increasing. */
  lemma {:induction false} DescendingPairs(s: seq<(string, real)>, i: nat, j: nat)
    requires Descending(s) && i <= j < |s|
    ensures s[i].1 >= s[j].1
    decreases j - i
  {
    if i < j {
      DescendingPairs(s, i, j - 1);
    }
  }

  /** The entries with percentage `v`, in their order. */
  function WithPercentage(s: seq<(string, real)>, v: real): seq<(string, real)>
  {
    if s == [] then [] else (if s[0].1 == v then [s[0]] else []) + WithPercentage(s[1..], v)
  }

  lemma {:induction false} WithPercentageAppend(a: seq<(string, real)>, b: seq<(string, real)>, v: real)
    ensures WithPercentage(a + b, v) == WithPercentage(a, v) + WithPercentage(b, v)
    decreases |a|
  {
    if a != [] {
      assert (a + b)[1..] == a[1..] + b;
      WithPercentageAppend(a[1..], b, v);
    } else {
      assert a + b == b;
    }
  }

  lemma WithPercentageCons(a: (string, real), t: seq<(string, real)>, v: real)
    ensures WithPercentage([a] + t, v) == (if a.1 == v then [a] else []) + WithPercentage(t, v)
  {
    assert ([a] + t)[1..] == t;
  }

  lemma WithPercentageOne(x: (string, real), v: real)
    ensures WithPercentage([x], v) == if x.1 == v then [x] else []
  {
    assert [x][1..] == [];
  }

  /** No entry of a descending list headed below `v` has percentage `v`. */
  lemma {:induction false} WithPercentageAbove(s: seq<(string, real)>, v: real)
    requires Descending(s) && s != [] && s[0].1 < v
    ensures WithPercentage(s, v) == []
    decreases |s|
  {
    if |s| > 1 {
      WithPercentageAbove(s[1..], v);
    }
  }

  /** Insert `x` after every entry of at least its percentage. */
  function InsertDescending(x: (string, real), s: seq<(string, real)>): (r: seq<(string, real)>)
    requires Descending(s)
    ensures Descending(r)
    ensures |r| == |s| + 1 && multiset(r) == multiset(s) + multiset{x}
    ensures r[0] == x || (s != [] && r[0] == s[0])
  {
    if s == [] then [x]
    else if s[0].1 >= x.1 then
      var rest := InsertDescending(x, s[1..]);
      KeepHead(x, s, rest);
      [s[0]] + rest
    else
      DescendingCons(x, s);
      [x] + s
  }

  /** The head of `s` stays in front of the insertion into the rest of `s`. */
  lemma KeepHead(x: (string, real), s: seq<(string, real)>, rest: seq<(string, real)>)
    requires Descending(s) && s != [] && s[0].1 >= x.1
    requires Descending(rest) && multiset(rest) == multiset(s[1..]) + multiset{x}
    requires rest != [] && (rest[0] == x || (|s| > 1 && rest[0] == s[1]))
    ensures Descending([s[0]] + rest)
    ensures multiset([s[0]] + rest) == multiset(s) + multiset{x}
  {
    DescendingCons(s[0], rest);
    assert s == [s[0]] + s[1..];
  }

  lemma DescendingCons(a: (string, real), s: seq<(string, real)>)
    requires Descending(s) && (s == [] || a.1 >= s[0].1)
    ensures Descending([a] + s)
  {
    forall i | 0 < i < |[a] + s|
      ensures ([a] + s)[i - 1].1 >= ([a] + s)[i].1
    {
      if i > 1 {
        assert ([a] + s)[i - 1] == s[i - 2] && ([a] + s)[i] == s[i - 1];
      }
    }
  }

  /** Inserting `x` puts it after every entry of equal percentage. */
  lemma {:induction false} InsertDescendingStable(x: (string, real), s: seq<(string, real)>, v: real)
    requires Descending(s)
    ensures WithPercentage(InsertDescending(x, s), v) == WithPercentage(s, v) + WithPercentage([x], v)
    decreases |s|
  {
    WithPercentageOne(x, v);
    if s != [] && s[0].1 >= x.1 {
      InsertDescendingStable(x, s[1..], v);
      InsertBehind(x, s, v);
    } else if s != [] {
      if x.1 == v {
        WithPercentageAbove(s, v);
      }
      InsertAhead(x, s, v);
    }
  }

  lemma InsertBehind(x: (string, real), s: seq<(string, real)>, v: real)
    requires Descending(s) && s != [] && s[0].1 >= x.1
    requires WithPercentage(InsertDescending(x, s[1..]), v) == WithPercentage(s[1..], v) + WithPercentage([x], v)
    ensures WithPercentage(InsertDescending(x, s), v) == WithPercentage(s, v) + WithPercentage([x], v)
  {
    UnfoldBehind(x, s);
    ConsFilterHead(InsertDescending(x, s[1..]), s, WithPercentage([x], v), v);
  }

  lemma UnfoldBehind(x: (string, real), s: seq<(string, real)>)
    requires Descending(s) && s != [] && s[0].1 >= x.1
    ensures InsertDescending(x, s) == [s[0]] + InsertDescending(x, s[1..])
  {
  }

  /** Filtering commutes with putting the head of `t` in front. */
  lemma ConsFilterHead(rest: seq<(string, real)>, t: seq<(string, real)>, tail: seq<(string, real)>, v: real)
    requires t != [] && WithPercentage(rest, v) == WithPercentage(t[1..], v) + tail
    ensures WithPercentage([t[0]] + rest, v) == WithPercentage(t, v) + tail
  {
    WithPercentageCons(t[0], rest, v);
  }

  lemma InsertAhead(x: (string, real), s: seq<(string, real)>, v: real)
    requires Descending(s) && s != [] && s[0].1 < x.1
    requires x.1 == v ==> WithPercentage(s, v) == []
    requires WithPercentage([x], v) == if x.1 == v then [x] else []
    ensures WithPercentage(InsertDescending(x, s), v) == WithPercentage(s, v) + WithPercentage([x], v)
  {
    assert InsertDescending(x, s) == [x] + s;
    WithPercentageCons(x, s, v);
  }

  /** `sort_and_filter_by_departure_percentage`, on the `(key, percentage)`
      items in dictionary order: a permutation in non-increasing order of
      percentage that keeps entries of equal percentage in their order, as
      Python's stable `sorted(..., reverse=True)` does. */
  function SortByPercentage(entries: seq<(string, real)>): (r: seq<(string, real)>)
    ensures |r| == |entries| && multiset(r) == multiset(entries)
    ensures Descending(r)
    ensures forall v :: WithPercentage(r, v) == WithPercentage(entries, v)
  {
    if entries == [] then []
    else
      var init, x := entries[..|entries| - 1], entries[|entries| - 1];
      var sorted := SortByPercentage(init);
      assert entries == init + [x];
      SortStep(init, x, sorted);
      InsertDescending(x, sorted)
  }

  lemma SortStep(init: seq<(string, real)>, x: (string, real), sorted: seq<(string, real)>)
    requires Descending(sorted)
    requires forall v :: WithPercentage(sorted, v) == WithPercentage(init, v)
    ensures forall v :: WithPercentage(InsertDescending(x, sorted), v) == WithPercentage(init + [x], v)
  {
    forall v
      ensures WithPercentage(InsertDescending(x, sorted), v) == WithPercentage(init + [x], v)
    {
      InsertDescendingStable(x, sorted, v);
      WithPercentageAppend(init, [x], v);
    }
  }
}
