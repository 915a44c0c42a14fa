/** The manager of worker processes: which process serves which graphs. Acquiring
    has two locked sections with an unlocked spawn between them, so requests of
    several graphs interleave. */
module WorkerManager {
  import opened Basics
  import opened ControlMessages

  type Channel = nat

  datatype RecordState = HealthyRecord | StoppingRecord | UnhealthyRecord

  datatype Record = Record(id: nat, runtime: RuntimeConfig, channel: Channel, state: RecordState, graphs: set<u64>)

  /** What a graph is handed. */
  datatype Lease = Lease(id: nat, runtime: RuntimeConfig, channel: Channel)

  function LeaseOf(r: Record): Lease {
    Lease(r.id, r.runtime, r.channel)
  }

  predicate Live(healthy: set<Channel>, r: Record) {
    r.state == HealthyRecord && r.channel in healthy
  }

  predicate Matches(healthy: set<Channel>, r: Record, runtime: RuntimeConfig) {
    Live(healthy, r) && r.runtime == runtime
  }

  /** Unhealthy, or idle and of another runtime. */
  predicate Retires(healthy: set<Channel>, r: Record, runtime: RuntimeConfig) {
    !Live(healthy, r) || (r.graphs == {} && r.runtime != runtime)
  }

  // ---- the locked sections on values ----------------------------------------------

  function Kept(ws: seq<Record>, healthy: set<Channel>, runtime: RuntimeConfig): seq<Record> {
    if ws == [] then []
    else
      var n := |ws| - 1;
      Kept(ws[..n], healthy, runtime) + if Retires(healthy, ws[n], runtime) then [] else [ws[n]]
  }

  function Retired(ws: seq<Record>, healthy: set<Channel>, runtime: RuntimeConfig): seq<Lease> {
    if ws == [] then []
    else
      var n := |ws| - 1;
      Retired(ws[..n], healthy, runtime) + if Retires(healthy, ws[n], runtime) then [LeaseOf(ws[n])] else []
  }

  /** The first worker that serves the runtime takes the graph on. */
  function Join(ws: seq<Record>, healthy: set<Channel>, runtime: RuntimeConfig, graph: u64): (r: (seq<Record>, Option<Lease>))
    ensures |r.0| == |ws|
  {
    if ws == [] then ([], None)
    else if Matches(healthy, ws[0], runtime) then
      ([ws[0].(graphs := ws[0].graphs + {graph})] + ws[1..], Some(LeaseOf(ws[0])))
    else
      var (rest, lease) := Join(ws[1..], healthy, runtime, graph);
      ([ws[0]] + rest, lease)
  }

  function FirstWithId(ws: seq<Record>, id: nat): (i: nat)
    ensures i <= |ws|
    ensures i < |ws| ==> ws[i].id == id
    ensures forall j :: 0 <= j < i ==> ws[j].id != id
  {
    if ws == [] || ws[0].id == id then 0 else 1 + FirstWithId(ws[1..], id)
  }

  ghost predicate AnotherRuntimeLives(ws: seq<Record>, healthy: set<Channel>, r: Record) {
    exists j :: 0 <= j < |ws| && ws[j].id != r.id && Live(healthy, ws[j]) && ws[j].runtime != r.runtime
  }

  ghost function Released(ws: seq<Record>, healthy: set<Channel>, id: nat, graph: u64): seq<Record> {
    var i := FirstWithId(ws, id);
    if i == |ws| then ws
    else
      var r := ws[i].(graphs := ws[i].graphs - {graph});
      if r.graphs == {} && AnotherRuntimeLives(ws, healthy, r) then ws[..i] + ws[i + 1..] else ws[i := r]
  }

  function Without(ws: seq<Record>, id: nat): seq<Record> {
    var i := FirstWithId(ws, id);
    if i == |ws| then ws else ws[..i] + ws[i + 1..]
  }

  class MtlWorkerManager {
    var nextWorkerId: nat
    var workers: seq<Record>
    /** Channels whose process answers; only the outside changes it. */
    var healthy: set<Channel>
    /** The leases a Shutdown request has been sent for. */
    var shutDown: seq<Lease>

    constructor ()
      ensures nextWorkerId == 1 && workers == [] && shutDown == []
    {
      nextWorkerId, workers, healthy, shutDown := 1, [], {}, [];
    }

    method CollectRetirable(runtime: RuntimeConfig) returns (retired: seq<Lease>)
      modifies this`workers
      ensures workers == Kept(old(workers), healthy, runtime)
      ensures retired == Retired(old(workers), healthy, runtime)
    {
      retired := [];
      var i := 0;
      ghost var n := 0;
      while i < |workers|
        invariant 0 <= i <= |workers| && 0 <= n <= |old(workers)|
        invariant workers[..i] == Kept(old(workers)[..n], healthy, runtime)
        invariant workers[i..] == old(workers)[n..]
        invariant retired == Retired(old(workers)[..n], healthy, runtime)
        decreases |workers| - i
      {
        assert old(workers)[..n + 1][..n] == old(workers)[..n];
        assert workers[i] == workers[i..][0] == old(workers)[n];
        if Retires(healthy, workers[i], runtime) {
          retired := retired + [LeaseOf(workers[i])];
          workers := workers[..i] + workers[i + 1..];
          assert workers[i..] == old(workers)[n..][1..];
        } else {
          i := i + 1;
          assert workers[i..] == old(workers)[n..][1..];
        }
        n := n + 1;
      }
      assert old(workers)[n..] == [];
      assert old(workers)[..n] == old(workers);
      assert workers[..i] == workers;
    }

    method JoinWorker(runtime: RuntimeConfig, graph: u64) returns (lease: Option<Lease>)
      modifies this`workers
      ensures (workers, lease) == Join(old(workers), healthy, runtime, graph)
    {
      assert workers[..0] == [] && workers[0..] == workers;
      for i := 0 to |workers|
        invariant workers == old(workers)
        invariant Join(workers, healthy, runtime, graph).0 == workers[..i] + Join(workers[i..], healthy, runtime, graph).0
        invariant Join(workers, healthy, runtime, graph).1 == Join(workers[i..], healthy, runtime, graph).1
      {
        if Matches(healthy, workers[i], runtime) {
          lease := Some(LeaseOf(workers[i]));
          workers := workers[i := workers[i].(graphs := workers[i].graphs + {graph})];
          JoinsHere(old(workers), healthy, runtime, graph, i);
          return;
        }
        JoinsLater(workers, healthy, runtime, graph, i);
      }
      assert workers[..|workers|] == workers && workers[|workers|..] == [];
      assert Join(workers, healthy, runtime, graph).0 == workers;
      lease := None;
    }

    /** The first locked section: retire, then try to share. The retired are shut
        down after the lock is dropped. */
    method AcquireFirst(runtime: RuntimeConfig, graph: u64) returns (lease: Option<Lease>)
      modifies this`workers, this`shutDown
      ensures (workers, lease) == Join(Kept(old(workers), healthy, runtime), healthy, runtime, graph)
      ensures shutDown == old(shutDown) + Retired(old(workers), healthy, runtime)
    {
      var retired := CollectRetirable(runtime);
      lease := JoinWorker(runtime, graph);
      shutDown := shutDown + retired;
    }

    /** The second locked section, with a freshly spawned process at hand: share
        what has appeared meanwhile and retire the spawned one, or register it. */
    method AcquireSecond(runtime: RuntimeConfig, graph: u64, spawned: Channel) returns (lease: Lease)
      modifies this`workers, this`nextWorkerId, this`shutDown
      ensures var (joined, shared) := Join(old(workers), healthy, runtime, graph);
              if shared.Some? then
                && workers == joined && lease == shared.value && nextWorkerId == old(nextWorkerId)
                && shutDown == old(shutDown) + [Lease(0, runtime, spawned)]
              else
                && workers == old(workers) + [Record(old(nextWorkerId), runtime, spawned, HealthyRecord, {graph})]
                && lease == Lease(old(nextWorkerId), runtime, spawned)
                && nextWorkerId == old(nextWorkerId) + 1 && shutDown == old(shutDown)
    {
      var shared := JoinWorker(runtime, graph);
      if shared.Some? {
        shutDown := shutDown + [Lease(0, runtime, spawned)];
        return shared.value;
      }
      JoinNone(old(workers), healthy, runtime, graph);
      lease := Lease(nextWorkerId, runtime, spawned);
      workers := workers + [Record(nextWorkerId, runtime, spawned, HealthyRecord, {graph})];
      nextWorkerId := nextWorkerId + 1;
    }

    /** No Shutdown request is sent for a worker retired here: the function returns
        before it would be. */
    method ReleaseGraph(id: nat, graph: u64)
      modifies this`workers
      ensures workers == if id == 0 || graph == 0 then old(workers) else Released(old(workers), healthy, id, graph)
    {
      if id == 0 || graph == 0 {
        return;
      }
      for i := 0 to |workers|
        invariant workers == old(workers)
        invariant forall j :: 0 <= j < i ==> workers[j].id != id
      {
        if workers[i].id == id {
          var r := workers[i].(graphs := workers[i].graphs - {graph});
          if r.graphs != {} {
            workers := workers[i := r];
            return;
          }
          var another := false;
          for j := 0 to |workers|
            invariant another <==> exists k :: 0 <= k < j && workers[k].id != id && Live(healthy, workers[k]) && workers[k].runtime != r.runtime
          {
            if workers[j].id != id && Live(healthy, workers[j]) && workers[j].runtime != r.runtime {
              another := true;
            }
          }
          workers := if another then workers[..i] + workers[i + 1..] else workers[i := r];
          return;
        }
      }
    }

    method InvalidateWorker(id: nat)
      modifies this`workers, this`shutDown
      ensures workers == if id == 0 then old(workers) else Without(old(workers), id)
      ensures shutDown == if id == 0 || FirstWithId(old(workers), id) == |old(workers)| then old(shutDown)
                          else old(shutDown) + [LeaseOf(old(workers)[FirstWithId(old(workers), id)])]
    {
      if id == 0 {
        return;
      }
      for i := 0 to |workers|
        invariant workers == old(workers) && shutDown == old(shutDown)
        invariant forall j :: 0 <= j < i ==> workers[j].id != id
      {
        if workers[i].id == id {
          shutDown := shutDown + [LeaseOf(workers[i])];
          workers := workers[..i] + workers[i + 1..];
          return;
        }
      }
    }
  }

  lemma JoinsHere(ws: seq<Record>, healthy: set<Channel>, runtime: RuntimeConfig, graph: u64, i: nat)
    requires i < |ws| && Matches(healthy, ws[i], runtime)
    ensures var r := ws[i].(graphs := ws[i].graphs + {graph});
            && ws[..i] + Join(ws[i..], healthy, runtime, graph).0 == ws[i := r]
            && Join(ws[i..], healthy, runtime, graph).1 == Some(LeaseOf(ws[i]))
  {
    assert ws[i..][0] == ws[i] && ws[i..][1..] == ws[i + 1..];
  }

  lemma JoinsLater(ws: seq<Record>, healthy: set<Channel>, runtime: RuntimeConfig, graph: u64, i: nat)
    requires i < |ws| && !Matches(healthy, ws[i], runtime)
    ensures ws[..i] + Join(ws[i..], healthy, runtime, graph).0 == ws[..i + 1] + Join(ws[i + 1..], healthy, runtime, graph).0
    ensures Join(ws[i..], healthy, runtime, graph).1 == Join(ws[i + 1..], healthy, runtime, graph).1
  {
    assert ws[i..][0] == ws[i] && ws[i..][1..] == ws[i + 1..];
  }

  lemma {:induction false} JoinNone(ws: seq<Record>, healthy: set<Channel>, runtime: RuntimeConfig, graph: u64)
    ensures Join(ws, healthy, runtime, graph).1.None? <==> forall i :: 0 <= i < |ws| ==> !Matches(healthy, ws[i], runtime)
    ensures Join(ws, healthy, runtime, graph).1.None? ==> Join(ws, healthy, runtime, graph).0 == ws
  {
    if ws != [] && !Matches(healthy, ws[0], runtime) {
      JoinNone(ws[1..], healthy, runtime, graph);
      assert forall i :: 1 <= i < |ws| ==> ws[i] == ws[1..][i - 1];
    }
  }

  // ---- the manager under interleaving ------------------------------------------------

  /** A request between its two locked sections. */
  datatype Pending = Pending(graph: u64, runtime: RuntimeConfig, spawned: Option<Channel>)

  datatype Sys = Sys(
    nextId: nat,
    workers: seq<Record>,
    healthy: set<Channel>,
    nextChannel: Channel,
    pending: map<u64, Pending>,
    /** Leases handed out and not given back. */
    held: map<u64, Lease>,
    /** Workers that some graph has reported broken, or that all were told to stop. */
    given: set<nat>)

  const START := Sys(1, [], {}, 0, map[], map[], {})

  datatype Step =
    | First(graph: u64, runtime: RuntimeConfig)
    | Spawn(graph: u64)
    | SpawnFails(graph: u64)
    | Second(graph: u64)
    | Release(graph: u64)
    | Invalidate(graph: u64)
    | ShutdownAll
    | ChannelFails(channel: Channel)

  ghost predicate Enabled(s: Sys, a: Step) {
    match a
    case First(g, _) => g != 0 && g !in s.pending && g !in s.held
    case Spawn(g) => g in s.pending && s.pending[g].spawned.None?
    case SpawnFails(g) => g in s.pending && s.pending[g].spawned.None?
    case Second(g) => g in s.pending && s.pending[g].spawned.Some?
    case Release(g) => g in s.held
    case Invalidate(g) => g in s.held
    case ShutdownAll => true
    case ChannelFails(c) => true
  }

  ghost function DoFirst(s: Sys, g: u64, runtime: RuntimeConfig): Sys {
    var (ws, lease) := Join(Kept(s.workers, s.healthy, runtime), s.healthy, runtime, g);
    if lease.Some? then s.(workers := ws, held := s.held[g := lease.value])
    else s.(workers := ws, pending := s.pending[g := Pending(g, runtime, None)])
  }

  ghost function DoSecond(s: Sys, g: u64): Sys
    requires Enabled(s, Second(g))
  {
    var p := s.pending[g];
    var (ws, shared) := Join(s.workers, s.healthy, p.runtime, g);
    var s1 := s.(pending := s.pending - {g});
    if shared.Some? then s1.(workers := ws, held := s.held[g := shared.value])
    else
      var r := Record(s.nextId, p.runtime, p.spawned.value, HealthyRecord, {g});
      s1.(workers := s.workers + [r], held := s.held[g := LeaseOf(r)], nextId := s.nextId + 1)
  }

  function Ids(ws: seq<Record>): (ids: set<nat>)
    ensures forall i :: 0 <= i < |ws| ==> ws[i].id in ids
  {
    set i | 0 <= i < |ws| :: ws[i].id
  }

  ghost function Do(s: Sys, a: Step): Sys
    requires Enabled(s, a)
  {
    match a
    case First(g, runtime) => DoFirst(s, g, runtime)
    case Spawn(g) =>
      s.(pending := s.pending[g := s.pending[g].(spawned := Some(s.nextChannel))],
         healthy := s.healthy + {s.nextChannel}, nextChannel := s.nextChannel + 1)
    case SpawnFails(g) => s.(pending := s.pending - {g})
    case Second(g) => DoSecond(s, g)
    case Release(g) =>
      s.(workers := Released(s.workers, s.healthy, s.held[g].id, g), held := s.held - {g})
    case Invalidate(g) =>
      s.(workers := Without(s.workers, s.held[g].id), held := s.held - {g}, given := s.given + {s.held[g].id})
    case ShutdownAll => s.(workers := [], given := s.given + Ids(s.workers))
    case ChannelFails(c) => s.(healthy := s.healthy - {c})
  }

  // ---- the invariant --------------------------------------------------------------------

  ghost predicate DistinctIds(ws: seq<Record>) {
    forall i, j :: 0 <= i < j < |ws| ==> ws[i].id != ws[j].id
  }

  ghost predicate IdsOk(s: Sys) {
    && s.nextId > 0
    && (forall i :: 0 <= i < |s.workers| ==> 0 < s.workers[i].id < s.nextId && s.workers[i].state == HealthyRecord)
    && DistinctIds(s.workers)
  }

  /** At most one live worker for each runtime. */
  ghost predicate OneLivePerRuntime(ws: seq<Record>, healthy: set<Channel>) {
    forall i, j :: 0 <= i < j < |ws| && Live(healthy, ws[i]) && Live(healthy, ws[j]) ==> ws[i].runtime != ws[j].runtime
  }

  ghost predicate Serves(ws: seq<Record>, lease: Lease, g: u64) {
    exists i :: 0 <= i < |ws| && LeaseOf(ws[i]) == lease && g in ws[i].graphs
  }

  /** A graph that holds a lease is served by that worker, as long as the process
      answers and no one has given the worker up. */
  ghost predicate HeldOk(s: Sys) {
    forall g :: g in s.held ==>
      && 0 < s.held[g].id < s.nextId
      && (s.held[g].channel in s.healthy && s.held[g].id !in s.given ==> Serves(s.workers, s.held[g], g))
  }

  ghost predicate GivenOk(s: Sys) {
    && (forall i :: 0 <= i < |s.workers| ==> s.workers[i].id !in s.given)
    && (forall id :: id in s.given ==> id < s.nextId)
    && (forall g :: g in s.pending ==> g !in s.held)
  }

  /** Spawned processes get channels never seen before. */
  ghost predicate ChannelsOk(s: Sys) {
    && (forall i :: 0 <= i < |s.workers| ==> s.workers[i].channel < s.nextChannel)
    && (forall g :: g in s.held ==> s.held[g].channel < s.nextChannel)
    && (forall g :: g in s.pending && s.pending[g].spawned.Some? ==> s.pending[g].spawned.value < s.nextChannel)
  }

  ghost predicate Inv(s: Sys) {
    IdsOk(s) && OneLivePerRuntime(s.workers, s.healthy) && HeldOk(s) && GivenOk(s) && ChannelsOk(s)
  }

  lemma {:induction false} KeptMembers(ws: seq<Record>, healthy: set<Channel>, runtime: RuntimeConfig)
    ensures forall r :: r in Kept(ws, healthy, runtime) <==> r in ws && !Retires(healthy, r, runtime)
  {
    hide Retires;
    if ws != [] {
      KeptMembers(ws[..|ws| - 1], healthy, runtime);
      assert ws == ws[..|ws| - 1] + [ws[|ws| - 1]];
    }
  }

  /** r can join ws without a second id or a second live worker for its runtime. */
  ghost predicate Apart(ws: seq<Record>, healthy: set<Channel>, r: Record) {
    forall w :: w in ws ==> w.id != r.id && (Live(healthy, w) && Live(healthy, r) ==> w.runtime != r.runtime)
  }

  lemma SnocApart(ws: seq<Record>, healthy: set<Channel>, r: Record)
    requires DistinctIds(ws) && OneLivePerRuntime(ws, healthy) && Apart(ws, healthy, r)
    ensures DistinctIds(ws + [r]) && OneLivePerRuntime(ws + [r], healthy)
  {
    hide Live;
    forall i | 0 <= i < |ws|
      ensures ws[i].id != r.id && (Live(healthy, ws[i]) && Live(healthy, r) ==> ws[i].runtime != r.runtime)
    {
      assert ws[i] in ws;
    }
  }

  lemma LastApart(ws: seq<Record>, healthy: set<Channel>)
    requires ws != [] && DistinctIds(ws) && OneLivePerRuntime(ws, healthy)
    ensures var n := |ws| - 1;
            DistinctIds(ws[..n]) && OneLivePerRuntime(ws[..n], healthy) && Apart(ws[..n], healthy, ws[n])
  {
    hide Live;
    var n := |ws| - 1;
    forall w | w in ws[..n]
      ensures w.id != ws[n].id && (Live(healthy, w) && Live(healthy, ws[n]) ==> w.runtime != ws[n].runtime)
    {
      var i :| 0 <= i < n && ws[i] == w;
    }
  }

  lemma {:induction false} KeptFacts(ws: seq<Record>, healthy: set<Channel>, runtime: RuntimeConfig)
    requires DistinctIds(ws) && OneLivePerRuntime(ws, healthy)
    ensures forall r :: r in Kept(ws, healthy, runtime) <==> r in ws && !Retires(healthy, r, runtime)
    ensures DistinctIds(Kept(ws, healthy, runtime)) && OneLivePerRuntime(Kept(ws, healthy, runtime), healthy)
  {
    hide Retires;
    hide Live;
    KeptMembers(ws, healthy, runtime);
    if ws != [] {
      var n := |ws| - 1;
      LastApart(ws, healthy);
      KeptFacts(ws[..n], healthy, runtime);
      if !Retires(healthy, ws[n], runtime) {
        SnocApart(Kept(ws[..n], healthy, runtime), healthy, ws[n]);
      }
    }
  }

  ghost predicate Joined(ws: seq<Record>, js: seq<Record>, graph: u64, lease: Option<Lease>) {
    && |js| == |ws|
    && (forall i :: 0 <= i < |ws| ==>
          && LeaseOf(js[i]) == LeaseOf(ws[i]) && js[i].state == ws[i].state
          && ws[i].graphs <= js[i].graphs <= ws[i].graphs + {graph})
    && (lease.Some? ==> Serves(js, lease.value, graph))
  }

  lemma {:induction false} JoinFacts(ws: seq<Record>, healthy: set<Channel>, runtime: RuntimeConfig, graph: u64)
    ensures var (js, lease) := Join(ws, healthy, runtime, graph); Joined(ws, js, graph, lease)
  {
    if ws != [] {
      var (js, lease) := Join(ws, healthy, runtime, graph);
      if Matches(healthy, ws[0], runtime) {
        assert LeaseOf(js[0]) == lease.value && graph in js[0].graphs;
      } else {
        JoinFacts(ws[1..], healthy, runtime, graph);
        if lease.Some? {
          var k :| 0 <= k < |js[1..]| && LeaseOf(js[1..][k]) == lease.value && graph in js[1..][k].graphs;
          assert LeaseOf(js[k + 1]) == lease.value && graph in js[k + 1].graphs;
        }
      }
    }
  }

  /** Sharing a worker changes nothing but its set of graphs. */
  lemma JoinedKeeps(ws: seq<Record>, js: seq<Record>, healthy: set<Channel>, graph: u64, lease: Option<Lease>)
    requires Joined(ws, js, graph, lease)
    ensures DistinctIds(ws) ==> DistinctIds(js)
    ensures OneLivePerRuntime(ws, healthy) ==> OneLivePerRuntime(js, healthy)
    ensures forall l, g :: Serves(ws, l, g) ==> Serves(js, l, g)
  {
    forall l, g | Serves(ws, l, g) ensures Serves(js, l, g) {
      var i :| 0 <= i < |ws| && LeaseOf(ws[i]) == l && g in ws[i].graphs;
      assert LeaseOf(js[i]) == l && g in js[i].graphs;
    }
    if DistinctIds(ws) {
      forall i, j | 0 <= i < j < |js| ensures js[i].id != js[j].id {
        assert LeaseOf(js[i]).id == ws[i].id && LeaseOf(js[j]).id == ws[j].id;
      }
    }
    if OneLivePerRuntime(ws, healthy) {
      forall i, j | 0 <= i < j < |js| && Live(healthy, js[i]) && Live(healthy, js[j]) ensures js[i].runtime != js[j].runtime {
        assert LeaseOf(js[i]) == LeaseOf(ws[i]) && LeaseOf(js[j]) == LeaseOf(ws[j]);
      }
    }
  }

  /** Retiring leaves every live worker with graphs in place. */
  lemma KeptServes(ws: seq<Record>, healthy: set<Channel>, runtime: RuntimeConfig, l: Lease, g: u64)
    requires Serves(ws, l, g) && l.channel in healthy
    requires forall i :: 0 <= i < |ws| ==> ws[i].state == HealthyRecord
    ensures Serves(Kept(ws, healthy, runtime), l, g)
  {
    KeptMembers(ws, healthy, runtime);
    var i :| 0 <= i < |ws| && LeaseOf(ws[i]) == l && g in ws[i].graphs;
    assert !Retires(healthy, ws[i], runtime);
    assert ws[i] in Kept(ws, healthy, runtime);
  }

  lemma FirstInv(s: Sys, g: u64, runtime: RuntimeConfig)
    requires Inv(s) && Enabled(s, First(g, runtime))
    ensures Inv(DoFirst(s, g, runtime))
  {
    hide Retires;
    hide Matches;
    hide Kept;
    hide Join;
    var kept := Kept(s.workers, s.healthy, runtime);
    var (ws, lease) := Join(kept, s.healthy, runtime, g);
    var t := DoFirst(s, g, runtime);
    KeptFacts(s.workers, s.healthy, runtime);
    JoinFacts(kept, s.healthy, runtime, g);
    JoinedKeeps(kept, ws, s.healthy, g, lease);
    KeptRecords(s, kept, ws, g, lease);
    forall h | h in t.held
      ensures 0 < t.held[h].id < t.nextId
      ensures t.held[h].channel in t.healthy && t.held[h].id !in t.given ==> Serves(ws, t.held[h], h)
    {
      if h == g {
        LeaseIsOfRecord(ws, lease.value, g);
      } else if t.held[h].channel in t.healthy && t.held[h].id !in t.given {
        KeptServes(s.workers, s.healthy, runtime, s.held[h], h);
      }
    }
  }

  lemma LeaseIsOfRecord(ws: seq<Record>, l: Lease, g: u64)
    requires Serves(ws, l, g)
    ensures exists i :: 0 <= i < |ws| && ws[i].id == l.id && ws[i].channel == l.channel
  {
  }

  lemma KeptRecords(s: Sys, kept: seq<Record>, ws: seq<Record>, g: u64, lease: Option<Lease>)
    requires IdsOk(s) && GivenOk(s) && ChannelsOk(s) && Joined(kept, ws, g, lease)
    requires forall r :: r in kept ==> r in s.workers
    ensures forall i :: 0 <= i < |ws| ==>
              && 0 < ws[i].id < s.nextId && ws[i].state == HealthyRecord && ws[i].id !in s.given
              && ws[i].channel < s.nextChannel
  {
    forall i | 0 <= i < |ws|
      ensures 0 < ws[i].id < s.nextId && ws[i].state == HealthyRecord && ws[i].id !in s.given
      ensures ws[i].channel < s.nextChannel
    {
      assert kept[i] in s.workers;
      assert LeaseOf(ws[i]) == LeaseOf(kept[i]);
    }
  }

  lemma SecondInv(s: Sys, g: u64)
    requires Inv(s) && Enabled(s, Second(g))
    ensures Inv(DoSecond(s, g))
  {
    hide Matches;
    hide Join;
    var p := s.pending[g];
    var (ws, shared) := Join(s.workers, s.healthy, p.runtime, g);
    var t := DoSecond(s, g);
    JoinFacts(s.workers, s.healthy, p.runtime, g);
    JoinedKeeps(s.workers, ws, s.healthy, g, shared);
    KeptRecords(s, s.workers, ws, g, shared);
    if shared.Some? {
      LeaseIsOfRecord(ws, shared.value, g);
    } else {
      RegisterInv(s, g);
    }
  }

  /** Registering the spawned process: no live worker serves the runtime yet. */
  lemma RegisterInv(s: Sys, g: u64)
    requires Inv(s) && Enabled(s, Second(g))
    requires Join(s.workers, s.healthy, s.pending[g].runtime, g).1.None?
    ensures Inv(DoSecond(s, g))
  {
    hide Join;
    var p := s.pending[g];
    var t := DoSecond(s, g);
    JoinNone(s.workers, s.healthy, p.runtime, g);
    var n := |s.workers|;
    assert t.workers[..n] == s.workers;
    forall l, h | Serves(s.workers, l, h) ensures Serves(t.workers, l, h) {
      var i :| 0 <= i < n && LeaseOf(s.workers[i]) == l && h in s.workers[i].graphs;
      assert t.workers[i] == s.workers[i];
    }
    assert LeaseOf(t.workers[n]) == t.held[g] && g in t.workers[n].graphs;
    forall i | 0 <= i < n && Live(t.healthy, t.workers[i]) ensures t.workers[i].runtime != t.workers[n].runtime {
      assert !Matches(s.healthy, s.workers[i], p.runtime);
    }
  }

  /** rs comes from ws by removing records and shrinking sets of graphs. */
  ghost predicate Shrunk(ws: seq<Record>, rs: seq<Record>, from: int, shift: int)
    requires 0 <= from && 0 <= shift && |rs| + shift == |ws|
  {
    forall i {:trigger rs[i]} :: 0 <= i < |rs| ==> SameWorker(rs[i], ws[if i < from then i else i + shift])
  }

  predicate SameWorker(a: Record, b: Record) {
    a.id == b.id && a.runtime == b.runtime && a.channel == b.channel && a.state == b.state
  }

  lemma ShrunkKeeps(ws: seq<Record>, rs: seq<Record>, from: int, shift: int, healthy: set<Channel>)
    requires 0 <= from && 0 <= shift && |rs| + shift == |ws| && Shrunk(ws, rs, from, shift)
    ensures DistinctIds(ws) ==> DistinctIds(rs)
    ensures OneLivePerRuntime(ws, healthy) ==> OneLivePerRuntime(rs, healthy)
    ensures forall i :: 0 <= i < |rs| ==>
              exists k :: 0 <= k < |ws| && SameWorker(rs[i], ws[k])
  {
    forall i, j | 0 <= i < j < |rs|
      ensures DistinctIds(ws) ==> rs[i].id != rs[j].id
      ensures OneLivePerRuntime(ws, healthy) && Live(healthy, rs[i]) && Live(healthy, rs[j]) ==> rs[i].runtime != rs[j].runtime
    {
      var k, l := if i < from then i else i + shift, if j < from then j else j + shift;
      assert SameWorker(rs[i], ws[k]) && SameWorker(rs[j], ws[l]);
    }
    forall i | 0 <= i < |rs| ensures exists k :: 0 <= k < |ws| && SameWorker(rs[i], ws[k]) {
      assert SameWorker(rs[i], ws[if i < from then i else i + shift]);
    }
  }

  lemma RemovedShrunk(ws: seq<Record>, i: nat)
    requires i < |ws|
    ensures Shrunk(ws, ws[..i] + ws[i + 1..], i, 1)
  {
    var rs := ws[..i] + ws[i + 1..];
    forall j | 0 <= j < |rs| ensures SameWorker(rs[j], ws[if j < i then j else j + 1]) {
      assert rs[j] == ws[if j < i then j else j + 1];
    }
  }

  lemma ReleasedShrunk(ws: seq<Record>, healthy: set<Channel>, id: nat, g: u64)
    ensures var rs := Released(ws, healthy, id, g);
            |rs| <= |ws| && Shrunk(ws, rs, FirstWithId(ws, id), |ws| - |rs|)
  {
    var i := FirstWithId(ws, id);
    if i < |ws| {
      RemovedShrunk(ws, i);
    }
  }

  lemma WithoutShrunk(ws: seq<Record>, id: nat)
    ensures var rs := Without(ws, id);
            |rs| <= |ws| && Shrunk(ws, rs, FirstWithId(ws, id), |ws| - |rs|)
  {
    hide Shrunk;
    var i := FirstWithId(ws, id);
    if i < |ws| {
      RemovedShrunk(ws, i);
    } else {
      SameShrunk(ws, i);
    }
  }

  lemma SameShrunk(ws: seq<Record>, i: nat)
    ensures Shrunk(ws, ws, i, 0)
  {
  }

  /** Ids being distinct, the worker is gone. */
  lemma WithoutGone(ws: seq<Record>, id: nat, j: nat)
    requires DistinctIds(ws) && j < |Without(ws, id)|
    ensures Without(ws, id)[j].id != id
  {
    var i := FirstWithId(ws, id);
    if i < |ws| {
      assert Without(ws, id)[j] == ws[if j < i then j else j + 1];
    }
  }

  /** Nothing but the sets of graphs and the number of records changes. */
  lemma ShrunkInv(s: Sys, rs: seq<Record>, from: int)
    requires IdsOk(s) && GivenOk(s) && ChannelsOk(s) && OneLivePerRuntime(s.workers, s.healthy)
    requires 0 <= from && |rs| <= |s.workers| && Shrunk(s.workers, rs, from, |s.workers| - |rs|)
    ensures var t := s.(workers := rs);
            IdsOk(t) && GivenOk(t) && ChannelsOk(t) && OneLivePerRuntime(rs, s.healthy)
  {
    ShrunkKeeps(s.workers, rs, from, |s.workers| - |rs|, s.healthy);
    forall i | 0 <= i < |rs|
      ensures 0 < rs[i].id < s.nextId && rs[i].state == HealthyRecord && rs[i].id !in s.given && rs[i].channel < s.nextChannel
    {
      var k :| 0 <= k < |s.workers| && SameWorker(rs[i], s.workers[k]);
    }
  }

  lemma ReleaseInv(s: Sys, g: u64)
    requires Inv(s) && Enabled(s, Release(g))
    ensures Inv(Do(s, Release(g)))
  {
    hide Released;
    hide Shrunk;
    var t := Do(s, Release(g));
    var id := s.held[g].id;
    ReleasedShrunk(s.workers, s.healthy, id, g);
    ShrunkInv(s, t.workers, FirstWithId(s.workers, id));
    forall h | h in t.held && t.held[h].channel in t.healthy && t.held[h].id !in t.given
      ensures Serves(t.workers, t.held[h], h)
    {
      var k :| 0 <= k < |s.workers| && LeaseOf(s.workers[k]) == t.held[h] && h in s.workers[k].graphs;
      StillServed(s.workers, s.healthy, id, g, k, h);
    }
  }

  /** Releasing one graph never takes a worker away from another graph. */
  lemma StillServed(ws: seq<Record>, healthy: set<Channel>, id: nat, g: u64, k: nat, h: u64)
    requires k < |ws| && h in ws[k].graphs && h != g
    ensures Serves(Released(ws, healthy, id, g), LeaseOf(ws[k]), h)
  {
    var i := FirstWithId(ws, id);
    var rs := Released(ws, healthy, id, g);
    if k == i {
      assert h in ws[i].graphs - {g};
      assert LeaseOf(rs[i]) == LeaseOf(ws[i]) && h in rs[i].graphs;
    } else if |rs| < |ws| {
      var m := if k < i then k else k - 1;
      assert rs[m] == ws[k];
    } else {
      assert LeaseOf(rs[k]) == LeaseOf(ws[k]) && h in rs[k].graphs;
    }
  }

  lemma WithoutServes(ws: seq<Record>, id: nat, l: Lease, h: u64)
    requires Serves(ws, l, h) && l.id != id
    ensures Serves(Without(ws, id), l, h)
  {
    var k :| 0 <= k < |ws| && LeaseOf(ws[k]) == l && h in ws[k].graphs;
    var i := FirstWithId(ws, id);
    if i < |ws| {
      var m := if k < i then k else k - 1;
      assert Without(ws, id)[m] == ws[k];
    }
  }

  lemma InvalidateInv(s: Sys, g: u64)
    requires Inv(s) && Enabled(s, Invalidate(g))
    ensures Inv(Do(s, Invalidate(g)))
  {
    hide Without;
    hide Shrunk;
    var t := Do(s, Invalidate(g));
    var id := s.held[g].id;
    WithoutShrunk(s.workers, id);
    ShrunkInv(s, t.workers, FirstWithId(s.workers, id));
    forall j | 0 <= j < |t.workers| ensures t.workers[j].id != id {
      WithoutGone(s.workers, id, j);
    }
    forall h | h in t.held && t.held[h].channel in t.healthy && t.held[h].id !in t.given
      ensures Serves(t.workers, t.held[h], h)
    {
      WithoutServes(s.workers, id, t.held[h], h);
    }
  }

  lemma ShutdownInv(s: Sys)
    requires Inv(s)
    ensures Inv(Do(s, ShutdownAll))
  {
    forall h | h in s.held && s.held[h].channel in s.healthy && s.held[h].id !in s.given
      ensures s.held[h].id in Ids(s.workers)
    {
      LeaseIsOfRecord(s.workers, s.held[h], h);
    }
  }

  lemma OtherInv(s: Sys, a: Step)
    requires Inv(s) && Enabled(s, a) && (a.Spawn? || a.SpawnFails? || a.ChannelFails?)
    ensures Inv(Do(s, a))
  {
  }

  lemma StepInv(s: Sys, a: Step)
    requires Inv(s) && Enabled(s, a)
    ensures Inv(Do(s, a))
  {
    hide Inv;
    match a
    case First(g, runtime) => FirstInv(s, g, runtime);
    case Second(g) => SecondInv(s, g);
    case Release(g) => ReleaseInv(s, g);
    case Invalidate(g) => InvalidateInv(s, g);
    case ShutdownAll => ShutdownInv(s);
    case _ => OtherInv(s, a);
  }

  // ---- whole runs ------------------------------------------------------------------------

  ghost predicate Possible(s: Sys, steps: seq<Step>)
    decreases |steps|, 0
  {
    steps == [] ||
    (Possible(s, steps[..|steps| - 1]) && Enabled(After(s, steps[..|steps| - 1]), steps[|steps| - 1]))
  }

  ghost function After(s: Sys, steps: seq<Step>): Sys
    requires Possible(s, steps)
    decreases |steps|, 1
  {
    if steps == [] then s else Do(After(s, steps[..|steps| - 1]), steps[|steps| - 1])
  }

  lemma {:induction false} RunInv(steps: seq<Step>)
    requires Possible(START, steps)
    ensures Inv(After(START, steps))
  {
    hide Enabled;
    hide Do;
    if steps != [] {
      RunInv(steps[..|steps| - 1]);
      StepInv(After(START, steps[..|steps| - 1]), steps[|steps| - 1]);
    }
  }

  /** However the requests interleave: no two live workers serve one runtime, ids
      are distinct, and every graph that holds a lease is served by that worker
      until its process dies, some graph gives the worker up, or all are stopped. */
  lemma ManagerSafety(steps: seq<Step>)
    requires Possible(START, steps)
    ensures var t := After(START, steps);
            && OneLivePerRuntime(t.workers, t.healthy)
            && DistinctIds(t.workers)
            && forall g :: g in t.held && t.held[g].channel in t.healthy && t.held[g].id !in t.given ==>
                 Serves(t.workers, t.held[g], g)
  {
    RunInv(steps);
  }

  /** Where the workers of one state come from. */
  ghost predicate FromOrNew(s: Sys, t: Sys) {
    && s.nextId <= t.nextId
    && forall i :: 0 <= i < |t.workers| ==>
         s.nextId <= t.workers[i].id || exists k :: 0 <= k < |s.workers| && SameWorker(t.workers[i], s.workers[k])
  }

  lemma JoinedFrom(ws: seq<Record>, js: seq<Record>, g: u64, lease: Option<Lease>)
    requires Joined(ws, js, g, lease)
    ensures forall i :: 0 <= i < |js| ==> SameWorker(js[i], ws[i])
  {
    forall i | 0 <= i < |js| ensures SameWorker(js[i], ws[i]) {
      assert LeaseOf(js[i]) == LeaseOf(ws[i]);
    }
  }

  lemma StepFromOrNew(s: Sys, a: Step)
    requires Inv(s) && Enabled(s, a)
    ensures FromOrNew(s, Do(s, a))
  {
    hide Kept;
    hide Join;
    hide Released;
    hide Without;
    hide Shrunk;
    match a
    case First(g, runtime) =>
      var kept := Kept(s.workers, s.healthy, runtime);
      var (ws, lease) := Join(kept, s.healthy, runtime, g);
      KeptFacts(s.workers, s.healthy, runtime);
      JoinFacts(kept, s.healthy, runtime, g);
      JoinedFrom(kept, ws, g, lease);
      forall i | 0 <= i < |ws| ensures exists k :: 0 <= k < |s.workers| && SameWorker(ws[i], s.workers[k]) {
        assert kept[i] in s.workers;
      }
    case Second(g) =>
      var (ws, lease) := Join(s.workers, s.healthy, s.pending[g].runtime, g);
      JoinFacts(s.workers, s.healthy, s.pending[g].runtime, g);
      JoinedFrom(s.workers, ws, g, lease);
    case Release(g) =>
      ReleasedShrunk(s.workers, s.healthy, s.held[g].id, g);
      var rs := Released(s.workers, s.healthy, s.held[g].id, g);
      ShrunkKeeps(s.workers, rs, FirstWithId(s.workers, s.held[g].id), |s.workers| - |rs|, s.healthy);
    case Invalidate(g) =>
      WithoutShrunk(s.workers, s.held[g].id);
      var rs := Without(s.workers, s.held[g].id);
      ShrunkKeeps(s.workers, rs, FirstWithId(s.workers, s.held[g].id), |s.workers| - |rs|, s.healthy);
    case _ =>
  }

  lemma FromOrNewTransitive(s: Sys, t: Sys, u: Sys)
    requires FromOrNew(s, t) && FromOrNew(t, u)
    ensures FromOrNew(s, u)
  {
    forall i | 0 <= i < |u.workers|
      ensures s.nextId <= u.workers[i].id || exists k :: 0 <= k < |s.workers| && SameWorker(u.workers[i], s.workers[k])
    {
      if u.workers[i].id < s.nextId {
        var k :| 0 <= k < |t.workers| && SameWorker(u.workers[i], t.workers[k]);
        var l :| 0 <= l < |s.workers| && SameWorker(t.workers[k], s.workers[l]);
        assert SameWorker(u.workers[i], s.workers[l]);
      }
    }
  }

  /** Ids are never reused: from any reachable state on, a worker is one of those
      there now, with the same process and runtime, or has an id not given yet. */
  lemma {:induction false} IdsNeverReused(s: Sys, steps: seq<Step>)
    requires Inv(s) && Possible(s, steps)
    ensures Inv(After(s, steps)) && FromOrNew(s, After(s, steps))
  {
    hide Enabled;
    hide Do;
    hide Inv;
    hide FromOrNew;
    if steps == [] {
      SameFromOrNew(s);
    } else {
      var init, a := steps[..|steps| - 1], steps[|steps| - 1];
      IdsNeverReused(s, init);
      StepInv(After(s, init), a);
      StepFromOrNew(After(s, init), a);
      FromOrNewTransitive(s, After(s, init), After(s, steps));
    }
  }

  lemma SameFromOrNew(s: Sys)
    ensures FromOrNew(s, s)
  {
  }

  /** The graph that acquires or releases in a step. */
  ghost predicate ActsFor(a: Step, g: u64) {
    match a
    case First(h, _) => h == g
    case Spawn(h) => h == g
    case SpawnFails(h) => h == g
    case Second(h) => h == g
    case Release(h) => h == g
    case _ => false
  }

  /** Acquiring or releasing for one graph never removes a live worker that other
      graphs use: it stays, and so do they. */
  lemma LiveWorkersStay(s: Sys, a: Step, g: u64, k: nat, h: u64)
    requires Inv(s) && Enabled(s, a) && ActsFor(a, g)
    requires k < |s.workers| && Live(s.healthy, s.workers[k]) && h in s.workers[k].graphs && h != g
    ensures Serves(Do(s, a).workers, LeaseOf(s.workers[k]), h)
  {
    hide Kept;
    hide Join;
    hide Released;
    var l := LeaseOf(s.workers[k]);
    assert Serves(s.workers, l, h);
    match a
    case First(_, runtime) =>
      var kept := Kept(s.workers, s.healthy, runtime);
      var (ws, lease) := Join(kept, s.healthy, runtime, g);
      KeptServes(s.workers, s.healthy, runtime, l, h);
      JoinFacts(kept, s.healthy, runtime, g);
      JoinedKeeps(kept, ws, s.healthy, g, lease);
    case Second(_) =>
      var (ws, lease) := Join(s.workers, s.healthy, s.pending[g].runtime, g);
      JoinFacts(s.workers, s.healthy, s.pending[g].runtime, g);
      JoinedKeeps(s.workers, ws, s.healthy, g, lease);
      if lease.None? {
        assert Do(s, a).workers[k] == s.workers[k];
      }
    case Release(_) => StillServed(s.workers, s.healthy, s.held[g].id, g, k, h);
    case _ =>
  }
}
