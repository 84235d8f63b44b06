/**
 * The M/M/m/B station: one FIFO list of clients whose head entries are the
 * ones in service, a pool of servers keyed 0..m-1, a buffer bound where 0
 * means "never full", and a pluggable choice among idle servers.
 *
 * utils/queues.py and lab1/queues.py implement the same station; they differ
 * only in what a server record carries (lab1 adds busy-time and selection
 * counters) and in the battery, which only the utils variant owns. The
 * station is therefore generic in the server's extra record `X`:
 * `Station<()>` is the utils variant (paired with a `Battery` in `Drone`),
 * `Station<Usage>` the lab1 variant.
 */
module Queues {
  import opened Basics

  /** A job. utils/queues.py's Client holds a type tag and an arrival time;
      lab1/queues.py's also holds a start-of-service time, None when created. */
  datatype Client =
    | Client(kind: int, arrivalTime: real)
    | TimedClient(kind: int, arrivalTime: real, startServiceTime: Option<real>)

  /** lab1/queues.py's Client constructor. */
  function NewTimedClient(kind: int, arrivalTime: real): (c: Client)
    ensures c.TimedClient? && c.startServiceTime == None
    ensures c.kind == kind && c.arrivalTime == arrivalTime
  {
    TimedClient(kind, arrivalTime, None)
  }

  // ---------------------------------------------------------------------------
  // Servers

  datatype Server<X> = Server(idle: bool, serviceTime: real, usage: X)

  /** lab1/queues.py's per-server counters. */
  datatype Usage = Usage(totalTimeEngaged: real, selectionCount: nat)

  const NoUsage := Usage(0.0, 0)

  /** lab1 `Server.engage(duration)`. */
  function Engage(s: Server<Usage>, duration: real): (r: Server<Usage>)
    ensures !r.idle && r.serviceTime == s.serviceTime
    ensures r.usage.totalTimeEngaged == s.usage.totalTimeEngaged + duration
    ensures r.usage.selectionCount == s.usage.selectionCount + 1
  {
    Server(false, s.serviceTime, Usage(s.usage.totalTimeEngaged + duration, s.usage.selectionCount + 1))
  }

  /** lab1 `Server.disengage()`: only the idle flag changes. */
  function Disengage<X>(s: Server<X>): (r: Server<X>)
    ensures r.idle && r.serviceTime == s.serviceTime && r.usage == s.usage
  {
    s.(idle := true)
  }

  function Sum(ds: seq<real>): real
  {
    if ds == [] then 0.0 else Sum(ds[..|ds| - 1]) + ds[|ds| - 1]
  }

  /** A server taken through one engage/disengage cycle per duration in `ds`. */
  function ServeAll(s: Server<Usage>, ds: seq<real>): Server<Usage>
  {
    if ds == [] then s else Disengage(Engage(ServeAll(s, ds[..|ds| - 1]), ds[|ds| - 1]))
  }

  /** The counters are exact: one selection per engagement and the sum of the
      engaged durations, whatever the interleaving with `disengage`. */
  lemma {:induction false} ServeAllCounts(s: Server<Usage>, ds: seq<real>)
    ensures ServeAll(s, ds).usage.selectionCount == s.usage.selectionCount + |ds|
    ensures ServeAll(s, ds).usage.totalTimeEngaged == s.usage.totalTimeEngaged + Sum(ds)
    ensures ServeAll(s, ds).serviceTime == s.serviceTime
    ensures ds != [] ==> ServeAll(s, ds).idle
  {
    if ds != [] {
      ServeAllCounts(s, ds[..|ds| - 1]);
    }
  }

  /** Number of servers that are not idle (`_get_servers_working`). */
  function Busy<X>(servers: seq<Server<X>>): (n: nat)
    ensures n <= |servers|
  {
    if servers == [] then 0
    else Busy(servers[..|servers| - 1]) + (if servers[|servers| - 1].idle then 0 else 1)
  }

  function BusyBit<X>(s: Server<X>): nat
  {
    if s.idle then 0 else 1
  }

  /** Changing one server changes the busy count by that server's own change. */
  lemma {:induction false} BusyUpdate<X>(servers: seq<Server<X>>, i: nat, v: Server<X>)
    requires i < |servers|
    ensures Busy(servers[i := v]) == Busy(servers) - BusyBit(servers[i]) + BusyBit(v)
    decreases |servers|
  {
    var n := |servers|;
    if i == n - 1 {
      assert servers[i := v][..n - 1] == servers[..n - 1];
    } else {
      assert servers[i := v][..n - 1] == servers[..n - 1][i := v];
      BusyUpdate(servers[..n - 1], i, v);
    }
  }

  lemma {:induction false} BusyBelowSizeHasIdle<X>(servers: seq<Server<X>>)
    requires Busy(servers) < |servers|
    ensures exists i :: 0 <= i < |servers| && servers[i].idle
    decreases |servers|
  {
    var n := |servers|;
    if !servers[n - 1].idle {
      BusyBelowSizeHasIdle(servers[..n - 1]);
      var i :| 0 <= i < n - 1 && servers[..n - 1][i].idle;
      assert servers[i].idle;
    }
  }

  lemma {:induction false} AllIdleBusyZero<X>(servers: seq<Server<X>>)
    requires forall i :: 0 <= i < |servers| ==> servers[i].idle
    ensures Busy(servers) == 0
    decreases |servers|
  {
    if servers != [] {
      AllIdleBusyZero(servers[..|servers| - 1]);
    }
  }

  lemma {:induction false} BusyPositiveHasBusy<X>(servers: seq<Server<X>>)
    requires Busy(servers) > 0
    ensures exists i :: 0 <= i < |servers| && !servers[i].idle
    decreases |servers|
  {
    var n := |servers|;
    if servers[n - 1].idle {
      BusyPositiveHasBusy(servers[..n - 1]);
      var i :| 0 <= i < n - 1 && !servers[..n - 1][i].idle;
      assert !servers[i].idle;
    }
  }

  /** The ids of the idle servers, in key order (`_get_available_servers`). */
  function IdleIds<X>(servers: seq<Server<X>>): (ids: seq<nat>)
    ensures |ids| + Busy(servers) == |servers|
    ensures forall k :: 0 <= k < |ids| ==> ids[k] < |servers| && servers[ids[k]].idle
    ensures forall i :: 0 <= i < |servers| && servers[i].idle ==> i in ids
    ensures forall k, l :: 0 <= k < l < |ids| ==> ids[k] < ids[l]
  {
    if servers == [] then []
    else
      var prefix := IdleIds(servers[..|servers| - 1]);
      prefix + (if servers[|servers| - 1].idle then [|servers| - 1] else [])
  }

  // ---------------------------------------------------------------------------
  // The station

  /** Which `_get_server_*` method the station's `_scheduling_policy` points at. */
  datatype Policy = Fastest | Random | RoundRobin

  datatype Station<X> = Station(
    bufferSize: int,          // B; 0 (or less) means the queue is never full
    queue: seq<Client>,       // clients in service first, then waiting ones
    servers: seq<Server<X>>,  // server id = index
    rotation: seq<nat>,       // `_rr_scheduling`
    policy: Policy)

  function Ids(n: nat): (r: seq<nat>)
    ensures |r| == n && forall i :: 0 <= i < n ==> r[i] == i
  {
    if n == 0 then [] else Ids(n - 1) + [n - 1]
  }

  function MakeServers<X>(serviceTimes: seq<real>, usage: X): (r: seq<Server<X>>)
    ensures |r| == |serviceTimes|
    ensures forall i :: 0 <= i < |r| ==> r[i] == Server(true, serviceTimes[i], usage)
  {
    seq(|serviceTimes|, i requires 0 <= i < |serviceTimes| => Server(true, serviceTimes[i], usage))
  }

  /** The round-robin list is a permutation of the server ids. */
  ghost predicate RotationOk<X>(st: Station<X>)
  {
    multiset(st.rotation) == multiset(Ids(|st.servers|))
  }

  /** The station invariant: the rotation is a permutation of the ids and the
      servers in service are never more than the clients in the list. */
  ghost predicate Valid<X>(st: Station<X>)
  {
    RotationOk(st) && Busy(st.servers) <= |st.queue|
  }

  /** A positive buffer bound is respected. */
  ghost predicate BufferOk<X>(st: Station<X>)
  {
    st.bufferSize > 0 ==> |st.queue| <= st.bufferSize
  }

  /** Everything but the list of clients is the same. */
  ghost predicate SamePool<X>(a: Station<X>, b: Station<X>)
  {
    a.bufferSize == b.bufferSize && a.servers == b.servers
    && a.rotation == b.rotation && a.policy == b.policy
  }

  lemma RotationMember<X>(st: Station<X>, x: nat)
    requires RotationOk(st)
    ensures x in st.rotation <==> x < |st.servers|
  {
    var ids := Ids(|st.servers|);
    assert x in st.rotation <==> x in multiset(st.rotation);
    if x < |st.servers| {
      assert ids[x] == x;
    }
  }

  lemma RotationBounded<X>(st: Station<X>)
    requires RotationOk(st)
    ensures forall k :: 0 <= k < |st.rotation| ==> st.rotation[k] < |st.servers|
  {
    forall k | 0 <= k < |st.rotation|
      ensures st.rotation[k] < |st.servers|
    {
      RotationMember(st, st.rotation[k]);
    }
  }

  /** The `MMmB(service_times, buffer_size)` constructor; `usage` is the
      server's initial extra record. */
  function NewStation<X>(serviceTimes: seq<real>, bufferSize: int, usage: X): (st: Station<X>)
    ensures st.queue == [] && st.bufferSize == bufferSize && st.policy == Fastest
    ensures |st.servers| == |serviceTimes|
    ensures forall i :: 0 <= i < |serviceTimes| ==>
              st.servers[i].idle && st.servers[i].serviceTime == serviceTimes[i] && st.servers[i].usage == usage
    ensures Busy(st.servers) == 0 && Valid(st) && BufferOk(st)
  {
    var servers := MakeServers(serviceTimes, usage);
    AllIdleBusyZero(servers);
    Station(bufferSize, [], servers, Ids(|serviceTimes|), Fastest)
  }

  /** `is_queue_full`. */
  function IsQueueFull<X>(st: Station<X>): (full: bool)
    ensures full ==> st.bufferSize > 0 && |st.queue| == st.bufferSize
    ensures st.bufferSize > 0 && |st.queue| == st.bufferSize ==> full
    ensures st.bufferSize <= 0 ==> !full
  {
    |st.queue| == st.bufferSize && st.bufferSize > 0
  }

  /** `insert`: append at the back; the source asserts the queue is not full. */
  function Insert<X>(st: Station<X>, c: Client): (r: Station<X>)
    requires !IsQueueFull(st)
    ensures |r.queue| == |st.queue| + 1
    ensures r.queue[..|st.queue|] == st.queue && r.queue[|st.queue|] == c
    ensures SamePool(r, st)
  {
    st.(queue := st.queue + [c])
  }

  /** Inserting keeps the buffer bound and the station invariant. */
  lemma InsertKeepsBounds<X>(st: Station<X>, c: Client)
    requires !IsQueueFull(st) && BufferOk(st) && Valid(st)
    ensures BufferOk(Insert(st, c)) && Valid(Insert(st, c))
  {
  }

  /** Clients held by all stations. */
  function Queued<X>(stations: seq<Station<X>>): nat
  {
    if stations == [] then 0
    else Queued(stations[..|stations| - 1]) + |stations[|stations| - 1].queue|
  }

  lemma {:induction false} QueuedUpdate<X>(stations: seq<Station<X>>, q: nat, st: Station<X>)
    requires q < |stations|
    ensures Queued(stations[q := st]) == Queued(stations) - |stations[q].queue| + |st.queue|
    decreases |stations|
  {
    var n := |stations|;
    if q == n - 1 {
      assert stations[q := st][..n - 1] == stations[..n - 1];
    } else {
      assert stations[q := st][..n - 1] == stations[..n - 1][q := st];
      QueuedUpdate(stations[..n - 1], q, st);
    }
  }

  lemma {:induction false} QueuedEmpty<X>(stations: seq<Station<X>>)
    requires forall q :: 0 <= q < |stations| ==> stations[q].queue == []
    ensures Queued(stations) == 0
    decreases |stations|
  {
    if stations != [] {
      QueuedEmpty(stations[..|stations| - 1]);
    }
  }

  /** `get_last`: the most recently inserted client. */
  function GetLast<X>(st: Station<X>): (c: Client)
    requires |st.queue| > 0
    ensures c in st.queue
  {
    st.queue[|st.queue| - 1]
  }

  lemma GetLastAfterInsert<X>(st: Station<X>, c: Client)
    requires !IsQueueFull(st)
    ensures GetLast(Insert(st, c)) == c
  {
  }

  /** `can_engage_server`: fewer servers in service than servers, and than clients. */
  function CanEngageServer<X>(st: Station<X>): (b: bool)
    ensures b ==> |st.queue| > 0 && exists i :: 0 <= i < |st.servers| && st.servers[i].idle
    ensures b ==> Busy(st.servers) < |st.queue|
    ensures Busy(st.servers) < |st.servers| && Busy(st.servers) < |st.queue| ==> b
    ensures b ==> Busy(st.servers) < |st.servers|
  {
    var working := Busy(st.servers);
    if working < |st.servers| && working < |st.queue| then
      BusyBelowSizeHasIdle(st.servers);
      true
    else
      false
  }

  /** The idle server with the smallest mean service time among ids `< n`; the
      first such id on ties, as Python's `min` keeps the first minimum. */
  function FastestAmong<X>(servers: seq<Server<X>>, n: nat): (r: Option<nat>)
    requires n <= |servers|
    ensures r.Some? <==> exists i :: 0 <= i < n && servers[i].idle
    ensures r.Some? ==> r.value < n && servers[r.value].idle
    ensures r.Some? ==> forall i :: 0 <= i < n && servers[i].idle ==>
                          servers[r.value].serviceTime <= servers[i].serviceTime
    ensures r.Some? ==> forall i :: 0 <= i < r.value && servers[i].idle ==>
                          servers[r.value].serviceTime < servers[i].serviceTime
  {
    if n == 0 then None
    else
      var best := FastestAmong(servers, n - 1);
      if servers[n - 1].idle && (best.None? || servers[n - 1].serviceTime < servers[best.value].serviceTime)
      then Some(n - 1)
      else best
  }

  /** `_get_server_fastest`. */
  function GetServerFastest<X>(st: Station<X>): (id: nat)
    requires Busy(st.servers) < |st.servers|
    ensures id < |st.servers| && st.servers[id].idle
    ensures forall i :: 0 <= i < |st.servers| && st.servers[i].idle ==>
              st.servers[id].serviceTime <= st.servers[i].serviceTime
    ensures forall i :: 0 <= i < id && st.servers[i].idle ==>
              st.servers[id].serviceTime < st.servers[i].serviceTime
  {
    BusyBelowSizeHasIdle(st.servers);
    FastestAmong(st.servers, |st.servers|).value
  }

  /** `_get_server_random`: `random.choice` over the idle ids; the draw is the
      parameter `pick`, reduced modulo the number of idle servers. */
  function GetServerRandom<X>(st: Station<X>, pick: nat): (id: nat)
    requires Busy(st.servers) < |st.servers|
    ensures id < |st.servers| && st.servers[id].idle
    ensures id in IdleIds(st.servers)
  {
    var ids := IdleIds(st.servers);
    ids[pick % |ids|]
  }

  /** Position of the first idle server in the rotation at or after `k`. */
  function FirstIdleFrom<X>(servers: seq<Server<X>>, rotation: seq<nat>, k: nat): (j: nat)
    requires forall m :: 0 <= m < |rotation| ==> rotation[m] < |servers|
    requires exists m :: k <= m < |rotation| && servers[rotation[m]].idle
    ensures k <= j < |rotation| && servers[rotation[j]].idle
    ensures forall m :: k <= m < j ==> !servers[rotation[m]].idle
    decreases |rotation| - k
  {
    if servers[rotation[k]].idle then k
    else FirstIdleFrom(servers, rotation, k + 1)
  }

  /** A chosen server and the rotation list after the choice. */
  datatype Pick = Pick(id: nat, rotation: seq<nat>)

  lemma RotationHasIdle<X>(st: Station<X>)
    requires RotationOk(st) && Busy(st.servers) < |st.servers|
    ensures forall m :: 0 <= m < |st.rotation| ==> st.rotation[m] < |st.servers|
    ensures exists m :: 0 <= m < |st.rotation| && st.servers[st.rotation[m]].idle
  {
    RotationBounded(st);
    BusyBelowSizeHasIdle(st.servers);
    var i :| 0 <= i < |st.servers| && st.servers[i].idle;
    RotationMember(st, i);
    var m :| 0 <= m < |st.rotation| && st.rotation[m] == i;
  }

  lemma RotateKeepsMultiset(rot: seq<nat>, j: nat)
    requires j < |rot|
    ensures multiset(rot[j + 1..] + rot[..j + 1]) == multiset(rot)
  {
    assert rot == rot[..j + 1] + rot[j + 1..];
  }

  /** `_get_server_roundrobin`: pop from the front, re-append busy ids, and
      append the first idle one. It terminates because the rotation holds every
      id and some server is idle. */
  function GetServerRoundRobin<X>(st: Station<X>): (p: Pick)
    requires RotationOk(st) && Busy(st.servers) < |st.servers|
    ensures p.id < |st.servers| && st.servers[p.id].idle
    ensures multiset(p.rotation) == multiset(st.rotation)
    ensures |p.rotation| > 0 && p.rotation[|p.rotation| - 1] == p.id
    ensures exists j :: 0 <= j < |st.rotation| && st.rotation[j] == p.id
              && p.rotation == st.rotation[j + 1..] + st.rotation[..j + 1]
              && forall m :: 0 <= m < j && st.rotation[m] < |st.servers| ==> !st.servers[st.rotation[m]].idle
  {
    RotationHasIdle(st);
    var j := FirstIdleFrom(st.servers, st.rotation, 0);
    RotateKeepsMultiset(st.rotation, j);
    Pick(st.rotation[j], st.rotation[j + 1..] + st.rotation[..j + 1])
  }

  /** The configured policy; `pick` is the random draw, used by `Random` only. */
  function SelectServer<X>(st: Station<X>, pick: nat): (p: Pick)
    requires Busy(st.servers) < |st.servers|
    requires st.policy == RoundRobin ==> RotationOk(st)
    ensures p.id < |st.servers| && st.servers[p.id].idle
    ensures multiset(p.rotation) == multiset(st.rotation)
    ensures st.policy != RoundRobin ==> p.rotation == st.rotation
    ensures st.policy == Fastest ==> forall i :: 0 <= i < |st.servers| && st.servers[i].idle ==>
              st.servers[p.id].serviceTime <= st.servers[i].serviceTime
  {
    match st.policy
    case Fastest => Pick(GetServerFastest(st), st.rotation)
    case Random => Pick(GetServerRandom(st, pick), st.rotation)
    case RoundRobin => GetServerRoundRobin(st)
  }

  /** Result of `engage_server`: the new station, the server id and its mean service time. */
  datatype Engaged<X> = Engaged(station: Station<X>, id: nat, serviceTime: real)

  /** `engage_server`: the source asserts some server is idle. Exactly the chosen
      (idle) server becomes busy; its mean service time is returned; the list of
      clients and every other server (counters included) are untouched. */
  function EngageServer<X>(st: Station<X>, pick: nat): (e: Engaged<X>)
    requires Busy(st.servers) < |st.servers|
    requires st.policy == RoundRobin ==> RotationOk(st)
    ensures e.id < |st.servers| && st.servers[e.id].idle
    ensures e.serviceTime == st.servers[e.id].serviceTime
    ensures |e.station.servers| == |st.servers|
    ensures !e.station.servers[e.id].idle
    ensures e.station.servers[e.id].serviceTime == st.servers[e.id].serviceTime
    ensures e.station.servers[e.id].usage == st.servers[e.id].usage
    ensures forall i :: 0 <= i < |st.servers| && i != e.id ==> e.station.servers[i] == st.servers[i]
    ensures Busy(e.station.servers) == Busy(st.servers) + 1
    ensures e.station.queue == st.queue && e.station.bufferSize == st.bufferSize
    ensures e.station.policy == st.policy
    ensures multiset(e.station.rotation) == multiset(st.rotation)
    ensures st.policy != RoundRobin ==> e.station.rotation == st.rotation
  {
    var p := SelectServer(st, pick);
    var s := st.servers[p.id];
    BusyUpdate(st.servers, p.id, s.(idle := false));
    Engaged(st.(servers := st.servers[p.id := s.(idle := false)], rotation := p.rotation), p.id, s.serviceTime)
  }

  /** Engaging when `can_engage_server` holds keeps the station invariant. */
  lemma EngageKeepsValid<X>(st: Station<X>, pick: nat)
    requires Valid(st) && CanEngageServer(st)
    ensures Valid(EngageServer(st, pick).station)
    ensures BufferOk(st) ==> BufferOk(EngageServer(st, pick).station)
  {
  }

  /** Result of `consume`: the new station and the client that left. */
  datatype Consumed<X> = Consumed(station: Station<X>, client: Client)

  /** `consume(server_id)`: the source asserts some server is busy and pops the
      head of the list (an `IndexError` on an empty list). The given server
      becomes idle and the oldest client leaves. */
  function Consume<X>(st: Station<X>, id: nat): (c: Consumed<X>)
    requires Busy(st.servers) > 0 && id < |st.servers| && |st.queue| > 0
    ensures c.client == st.queue[0]
    ensures |c.station.queue| == |st.queue| - 1
    ensures forall k :: 0 <= k < |c.station.queue| ==> c.station.queue[k] == st.queue[k + 1]
    ensures |c.station.servers| == |st.servers| && c.station.servers[id].idle
    ensures c.station.servers[id].serviceTime == st.servers[id].serviceTime
    ensures c.station.servers[id].usage == st.servers[id].usage
    ensures forall i :: 0 <= i < |st.servers| && i != id ==> c.station.servers[i] == st.servers[i]
    ensures c.station.rotation == st.rotation && c.station.bufferSize == st.bufferSize
    ensures c.station.policy == st.policy
  {
    Consumed(st.(servers := st.servers[id := st.servers[id].(idle := true)], queue := st.queue[1..]), st.queue[0])
  }

  /** Consuming on behalf of a busy server frees exactly one server and one
      client, so the invariant and the buffer bound survive. */
  lemma ConsumeKeepsValid<X>(st: Station<X>, id: nat)
    requires Valid(st) && BufferOk(st) && id < |st.servers| && !st.servers[id].idle
    ensures Busy(st.servers) > 0 && |st.queue| > 0
    ensures Valid(Consume(st, id).station) && BufferOk(Consume(st, id).station)
    ensures Busy(Consume(st, id).station.servers) == Busy(st.servers) - 1
  {
    BusyUpdate(st.servers, id, st.servers[id].(idle := true));
  }

  /** FIFO: an insertion at the back does not change who leaves next, and
      the client inserted queues up behind the rest. */
  lemma {:induction false} InsertThenConsumeIsFifo<X>(st: Station<X>, c: Client, id: nat)
    requires !IsQueueFull(st) && Busy(st.servers) > 0 && id < |st.servers| && |st.queue| > 0
    ensures Consume(Insert(st, c), id).client == st.queue[0]
    ensures Consume(Insert(st, c), id).station.queue == Consume(st, id).station.queue + [c]
  {
    assert (st.queue + [c])[1..] == st.queue[1..] + [c];
  }

  /** `queue_clear` as written: the list is emptied, the servers are not. */
  function QueueClear<X>(st: Station<X>): (r: Station<X>)
    ensures r.queue == []
    ensures r.servers == st.servers && r.rotation == st.rotation
    ensures r.bufferSize == st.bufferSize && r.policy == st.policy
  {
    st.(queue := [])
  }

  /** Counterexample: a station serving one client on its only server. After
      `queue_clear` the server stays busy with nobody to serve, the invariant
      is broken, and a newly admitted client can never be served, because
      `can_engage_server` needs the busy count below the number of servers. */
  lemma QueueClearStrandsBusyServer()
    ensures var st := Station(0, [Client(1, 0.0)], [Server(false, 1.0, ())], [0], Fastest);
            Valid(st)
            && !Valid(QueueClear(st))
            && !CanEngageServer(Insert(QueueClear(st), Client(1, 5.0)))
  {
    var st := Station(0, [Client(1, 0.0)], [Server(false, 1.0, ())], [0], Fastest);
    assert Busy(st.servers) == 1 by {
      assert st.servers[..0] == [];
    }
    assert multiset(st.rotation) == multiset(Ids(1)) by {
      assert Ids(1) == [0];
    }
  }

  /** The corrected clear: every client is dropped and every server released. */
  function ForceClear<X>(st: Station<X>): (r: Station<X>)
    ensures r.queue == [] && Busy(r.servers) == 0
    ensures |r.servers| == |st.servers|
    ensures forall i :: 0 <= i < |st.servers| ==>
              r.servers[i].idle && r.servers[i].serviceTime == st.servers[i].serviceTime
              && r.servers[i].usage == st.servers[i].usage
    ensures r.rotation == st.rotation && r.bufferSize == st.bufferSize && r.policy == st.policy
    ensures RotationOk(st) ==> Valid(r) && BufferOk(r)
  {
    var servers := seq(|st.servers|, i requires 0 <= i < |st.servers| => st.servers[i].(idle := true));
    AllIdleBusyZero(servers);
    st.(queue := [], servers := servers)
  }

  // ---------------------------------------------------------------------------
  // Battery (utils/queues.py only)

  /** `BatteryStatus`. utils/queues.py defines EMPTY, FULL and IN_USE; PAUSED is
      referred to by lab2/lab2.py and is never produced by a modelled operation. */
  datatype BatteryStatus = Empty | Full | InUse | Paused

  /** The power-supply classes (lab2/lab2.py's names; `BASE` in utils/queues.py is `BAT`). */
  datatype PowerSupply = Bat | W45 | W65 | W75

  /** `ResidualTimeMax`: seconds of operation on a full battery. */
  function ResidualTimeMax(p: PowerSupply): nat
  {
    match p
    case Bat => 25 * 60
    case W45 => 35 * 60
    case W65 => 40 * 60
    case W75 => 45 * 60
  }

  const RECHARGE_TIME: int := 3600
  const MAX_CYCLES: int := 3

  datatype Battery = Battery(maxResidualTime: int, residual: int, status: BatteryStatus, completeCycles: int)

  /** A new battery: FULL, nothing consumed yet, BASE maximum residual. */
  function NewBattery(): (b: Battery)
    ensures b.status == Full && b.residual == 0 && b.completeCycles == 0
    ensures b.maxResidualTime == ResidualTimeMax(Bat) == 1500
  {
    Battery(ResidualTimeMax(Bat), 0, Full, 0)
  }

  /** utils/queues.py's MMmB: a station with a battery. */
  datatype Drone = Drone(station: Station<()>, battery: Battery)

  function NewDrone(serviceTimes: seq<real>, bufferSize: int): (d: Drone)
    ensures d.station.queue == [] && Valid(d.station) && BufferOk(d.station)
    ensures |d.station.servers| == |serviceTimes| && Busy(d.station.servers) == 0
    ensures d.battery == NewBattery()
  {
    Drone(NewStation(serviceTimes, bufferSize, ()), NewBattery())
  }
}
