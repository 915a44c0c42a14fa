/** The client of one receive graph and the two media proxies that share it: a
    counted start and stop over one worker lease, through every failure exit. */
module GraphClient {
  import opened Basics
  import opened ControlMessages

  /** What the client asks of the worker and tells the manager. */
  datatype Action =
    | AskHealth
    | AskStart
    | AskStop
    | AskStats
    | Register
    | Unregister
    | Give(worker: nat)
    | Report(worker: nat)

  datatype WorkerLease = WorkerLease(worker: nat, channel: bool)

  // ---- what the replies mean -------------------------------------------------------

  const INVALID_BACKEND_STATE: u32 := 6

  /** The last four error codes are runtime failures of the backend. */
  predicate BackendRuntimeError(code: u32) {
    6 <= code <= 9
  }

  datatype Verdict = Accepted | Refused(code: u32)

  function RefusalOf(e: Event, id: u64): Verdict {
    if e.Failure? && e.requestId == id then Refused(e.error) else Refused(INVALID_BACKEND_STATE)
  }

  function InterpretStart(e: Event, id: u64, graph: u64): Verdict {
    if e.Started? && e.requestId == id && e.graphId == graph then Accepted else RefusalOf(e, id)
  }

  function InterpretStop(e: Event, id: u64, graph: u64): Verdict {
    if e.Stopped? && e.requestId == id && e.graphId == graph then Accepted else RefusalOf(e, id)
  }

  function InterpretHealth(e: Event, id: u64): Verdict {
    if e.Health? && e.requestId == id && e.healthy then Accepted else RefusalOf(e, id)
  }

  function InterpretStats(e: Event, id: u64, graph: u64): Verdict {
    if e.Statistics? && e.requestId == id && e.graphId == graph then Accepted else RefusalOf(e, id)
  }

  /** One request and what came back: no reply if the transaction failed. */
  datatype Exchange = Exchange(id: u64, reply: Option<Event>)

  /** Everything a start meets on its way. */
  datatype StartEnv = StartEnv(
    acquired: Option<WorkerLease>, health: Exchange, ringsReady: bool, registers: bool, start: Exchange)

  // ---- the client on values ----------------------------------------------------------

  datatype Client = Client(
    graph: u64,
    video: Option<RuntimeConfig>,
    audio: Option<RuntimeConfig>,
    sink: Option<nat>,
    lease: Option<WorkerLease>,
    async: bool,
    handler: bool,
    registered: bool,
    running: bool,
    count: nat,
    log: seq<Action>)

  /** Neither medium, or two different runtimes. */
  predicate Resolvable(c: Client) {
    (c.video.Some? || c.audio.Some?) && (c.video.Some? && c.audio.Some? ==> c.audio == c.video)
  }

  function Logged(c: Client, a: Action): Client {
    c.(log := c.log + [a])
  }

  function ClearStarted(c: Client): Client {
    var c1 := c.(running := false, count := 0);
    var c2 := if c.handler && c.lease.Some? && c.lease.value.channel then Logged(c1, Unregister) else c1;
    c2.(handler := false, async := false)
  }

  /** The manager is told the graph no longer needs the worker. */
  function ReleaseAll(c: Client): Client {
    var c1 := ClearStarted(c);
    var c2 := if c1.registered && c1.lease.Some? then Logged(c1, Give(c1.lease.value.worker)) else c1;
    c2.(registered := false, lease := None)
  }

  /** The manager is told the worker is broken. */
  function InvalidateAll(c: Client): Client {
    var c1 := ClearStarted(c);
    var c2 := if c1.lease.Some? then Logged(c1, Report(c1.lease.value.worker)) else c1;
    c2.(registered := false, lease := None)
  }

  function HealthOf(x: Exchange): Verdict {
    if x.reply.Some? then InterpretHealth(x.reply.value, x.id) else Refused(INVALID_BACKEND_STATE)
  }

  /** From the acquired lease to the started graph. */
  function StartOn(c: Client, lease: WorkerLease, env: StartEnv): (Client, bool) {
    var c1 := c.(lease := Some(lease), registered := true);
    if !lease.channel then (ReleaseAll(c1), false)
    else
      var c2 := Logged(c1, AskHealth);
      if HealthOf(env.health).Refused? then (InvalidateAll(c2), false)
      else if !env.ringsReady then (ReleaseAll(c2), false)
      else
        var c3 := c2.(async := true);
        if !env.registers then (InvalidateAll(c3), false)
        else
          var c4 := Logged(Logged(c3.(handler := true), Register), AskStart);
          if env.start.reply.None? then (InvalidateAll(c4), false)
          else match InterpretStart(env.start.reply.value, env.start.id, c.graph)
            case Refused(code) => (if BackendRuntimeError(code) then InvalidateAll(c4) else ReleaseAll(c4), false)
            case Accepted => (c4.(running := true, count := 1), true)
  }

  function Start(c: Client, env: StartEnv): (Client, bool) {
    if c.running then (c.(count := c.count + 1), true)
    else if c.sink.None? || !Resolvable(c) then (c, false)
    else match env.acquired
      case None => (c, false)
      case Some(lease) => StartOn(c, lease, env)
  }

  function Stop(c: Client, x: Exchange): (Client, bool) {
    if !c.running then (ReleaseAll(c), true)
    else if c.count > 1 then (c.(count := c.count - 1), true)
    else if c.lease.None? || !c.lease.value.channel then (ReleaseAll(c), false)
    else
      var c1 := Logged(c, AskStop);
      if x.reply.None? then (InvalidateAll(c1), false)
      else if InterpretStop(x.reply.value, x.id, c.graph).Refused? then (InvalidateAll(c1), false)
      else (ReleaseAll(c1), true)
  }

  function StopNow(c: Client, x: Exchange): Client {
    Stop(if c.running then c.(count := 1) else c, x).0
  }

  function Stats(c: Client, health: Exchange, x: Exchange): (Client, bool) {
    if !c.running || c.lease.None? || !c.lease.value.channel then (c, false)
    else
      var c1 := Logged(c, AskHealth);
      if HealthOf(health).Refused? then (InvalidateAll(c1), false)
      else if c.video.None? && c.audio.None? then (ReleaseAll(c1), false)
      else
        var c2 := Logged(c1, AskStats);
        if x.reply.None? then (InvalidateAll(c2), false)
        else if InterpretStats(x.reply.value, x.id, c.graph).Refused? then (InvalidateAll(c2), false)
        else (c2, true)
  }

  function Attach(c: Client, sink: nat): (Client, bool) {
    if c.sink.Some? && c.sink.value != sink then (c, false) else (c.(sink := Some(sink)), true)
  }

  function Detach(c: Client, sink: Option<nat>): Client {
    if sink.None? || c.sink == sink then c.(sink := None) else c
  }

  /** Between calls: running, lease, registration with the manager, event handler
      and a positive count all go together. */
  predicate Consistent(c: Client) {
    && c.lease.Some? == c.running && c.registered == c.running && c.handler == c.running && c.async == c.running
    && (c.count > 0) == c.running
    && (c.lease.Some? ==> c.lease.value.channel)
    && (c.running ==> Resolvable(c))
  }

  class MtlWorkerGraphClient {
    const graph: u64
    var video: Option<RuntimeConfig>
    var audio: Option<RuntimeConfig>
    var sink: Option<nat>
    var lease: Option<WorkerLease>
    var async: bool
    var handler: bool
    var registered: bool
    var running: bool
    var count: nat
    var log: seq<Action>

    ghost function Abs(): Client
      reads this
    {
      Client(graph, video, audio, sink, lease, async, handler, registered, running, count, log)
    }

    constructor (id: u64)
      ensures Abs() == Client(id, None, None, None, None, false, false, false, false, 0, [])
    {
      graph, video, audio, sink, lease := id, None, None, None, None;
      async, handler, registered, running, count, log := false, false, false, false, 0, [];
    }

    method ConfigureVideo(runtime: RuntimeConfig) returns (r: Result<bool>)
      modifies this
      ensures r.Ok? <==> !old(running) && (old(audio).Some? ==> old(audio).value == runtime)
      ensures Abs() == if r.Ok? then old(Abs()).(video := Some(runtime)) else old(Abs())
    {
      if running {
        return Err(InvalidBackendState);
      }
      if audio.Some? && audio.value != runtime {
        return Err(InvalidValue);
      }
      video := Some(runtime);
      return Ok(true);
    }

    method ConfigureAudio(runtime: RuntimeConfig) returns (r: Result<bool>)
      modifies this
      ensures r.Ok? <==> !old(running) && (old(video).Some? ==> old(video).value == runtime)
      ensures Abs() == if r.Ok? then old(Abs()).(audio := Some(runtime)) else old(Abs())
    {
      if running {
        return Err(InvalidBackendState);
      }
      if video.Some? && video.value != runtime {
        return Err(InvalidValue);
      }
      audio := Some(runtime);
      return Ok(true);
    }

    method AttachSink(s: nat) returns (ok: bool)
      modifies this
      ensures (Abs(), ok) == Attach(old(Abs()), s)
    {
      if sink.Some? && sink.value != s {
        return false;
      }
      sink := Some(s);
      return true;
    }

    method DetachSink(s: Option<nat>)
      modifies this
      ensures Abs() == Detach(old(Abs()), s)
    {
      if s.None? || sink == s {
        sink := None;
      }
    }

    method ClearStartedGraphState()
      modifies this
      ensures Abs() == ClearStarted(old(Abs()))
    {
      running := false;
      count := 0;
      if handler && lease.Some? && lease.value.channel {
        log := log + [Unregister];
      }
      handler := false;
      async := false;
    }

    method ReleaseGraphAndClearLease()
      modifies this
      ensures Abs() == ReleaseAll(old(Abs()))
    {
      ClearStartedGraphState();
      if registered && lease.Some? {
        log := log + [Give(lease.value.worker)];
      }
      registered := false;
      lease := None;
    }

    method InvalidateWorkerAndClearLease()
      modifies this
      ensures Abs() == InvalidateAll(old(Abs()))
    {
      ClearStartedGraphState();
      if lease.Some? {
        log := log + [Report(lease.value.worker)];
      }
      registered := false;
      lease := None;
    }

    method StartGraph(env: StartEnv) returns (ok: bool)
      modifies this
      ensures (Abs(), ok) == Start(old(Abs()), env)
    {
      if running {
        count := count + 1;
        return true;
      }
      if sink.None? {
        return false;
      }
      if (video.None? && audio.None?) || (video.Some? && audio.Some? && audio != video) {
        return false;
      }
      if env.acquired.None? {
        return false;
      }
      ok := StartWithLease(env.acquired.value, env);
    }

    method StartWithLease(acquired: WorkerLease, env: StartEnv) returns (ok: bool)
      modifies this
      ensures (Abs(), ok) == StartOn(old(Abs()), acquired, env)
    {
      hide ReleaseAll;
      hide InvalidateAll;
      hide InterpretStart;
      hide HealthOf;
      hide BackendRuntimeError;
      lease := Some(acquired);
      registered := true;
      if !lease.value.channel {
        ReleaseGraphAndClearLease();
        return false;
      }
      log := log + [AskHealth];
      if HealthOf(env.health).Refused? {
        InvalidateWorkerAndClearLease();
        return false;
      }
      if !env.ringsReady {
        ReleaseGraphAndClearLease();
        return false;
      }
      async := true;
      if !env.registers {
        InvalidateWorkerAndClearLease();
        return false;
      }
      handler := true;
      log := log + [Register];
      log := log + [AskStart];
      if env.start.reply.None? {
        InvalidateWorkerAndClearLease();
        return false;
      }
      var started := InterpretStart(env.start.reply.value, env.start.id, graph);
      if started.Refused? {
        if BackendRuntimeError(started.code) {
          InvalidateWorkerAndClearLease();
        } else {
          ReleaseGraphAndClearLease();
        }
        return false;
      }
      running := true;
      count := 1;
      return true;
    }

    method StopGraph(x: Exchange) returns (ok: bool)
      modifies this
      ensures (Abs(), ok) == Stop(old(Abs()), x)
    {
      if !running {
        ReleaseGraphAndClearLease();
        return true;
      }
      if count > 1 {
        count := count - 1;
        return true;
      }
      if lease.None? || !lease.value.channel {
        ReleaseGraphAndClearLease();
        return false;
      }
      log := log + [AskStop];
      if x.reply.None? {
        InvalidateWorkerAndClearLease();
        return false;
      }
      if InterpretStop(x.reply.value, x.id, graph).Refused? {
        InvalidateWorkerAndClearLease();
        return false;
      }
      ReleaseGraphAndClearLease();
      return true;
    }

    method StopNoexcept(x: Exchange)
      modifies this
      ensures Abs() == StopNow(old(Abs()), x)
    {
      if running {
        count := 1;
      }
      var ok := StopGraph(x);
    }

    method QueryStats(health: Exchange, x: Exchange) returns (ok: bool)
      modifies this
      ensures (Abs(), ok) == Stats(old(Abs()), health, x)
    {
      if !running || lease.None? || !lease.value.channel {
        return false;
      }
      log := log + [AskHealth];
      if HealthOf(health).Refused? {
        InvalidateWorkerAndClearLease();
        return false;
      }
      if video.None? && audio.None? {
        ReleaseGraphAndClearLease();
        return false;
      }
      log := log + [AskStats];
      if x.reply.None? {
        InvalidateWorkerAndClearLease();
        return false;
      }
      if InterpretStats(x.reply.value, x.id, graph).Refused? {
        InvalidateWorkerAndClearLease();
        return false;
      }
      return true;
    }
  }

  // ---- every call keeps the client consistent -------------------------------------------

  predicate Idle(c: Client) {
    c.lease.None? && !c.async && !c.handler && !c.registered && !c.running && c.count == 0
  }

  lemma ClearedIdle(c: Client)
    ensures forall d :: d == ReleaseAll(c) || d == InvalidateAll(c) ==>
              Idle(d) && d.sink == c.sink && d.video == c.video && d.audio == c.audio && d.graph == c.graph
  {
  }

  lemma StartOnConsistent(c: Client, lease: WorkerLease, env: StartEnv)
    requires Resolvable(c)
    ensures var (d, ok) := StartOn(c, lease, env);
            && Consistent(d) && ok == d.running && d.count == (if ok then 1 else 0) && d.sink == c.sink
  {
    hide ReleaseAll;
    hide InvalidateAll;
    hide InterpretStart;
    hide HealthOf;
    hide BackendRuntimeError;
    var c1 := c.(lease := Some(lease), registered := true);
    var c2 := Logged(c1, AskHealth);
    var c3 := c2.(async := true);
    var c4 := Logged(Logged(c3.(handler := true), Register), AskStart);
    ClearedIdle(c1);
    ClearedIdle(c2);
    ClearedIdle(c3);
    ClearedIdle(c4);
  }

  lemma StartConsistent(c: Client, env: StartEnv)
    requires Consistent(c)
    ensures var (d, ok) := Start(c, env);
            && Consistent(d) && ok == d.running
            && d.count == (if ok then c.count + 1 else 0)
            && d.sink == c.sink && (c.running ==> d.log == c.log)
  {
    hide StartOn;
    if Resolvable(c) && env.acquired.Some? {
      StartOnConsistent(c, env.acquired.value, env);
    }
  }

  lemma StopConsistent(c: Client, x: Exchange)
    requires Consistent(c)
    ensures var (d, ok) := Stop(c, x);
            && Consistent(d) && d.count == (if c.count > 0 then c.count - 1 else 0)
            && d.sink == c.sink
            && (c.count != 1 ==> d.log == c.log)
  {
  }

  /** The worker says that it is healthy and sends the statistics asked for. */
  predicate Answers(graph: u64, health: Exchange, stats: Exchange) {
    && health.reply.Some? && stats.reply.Some?
    && var h, s := health.reply.value, stats.reply.value;
       && h.Health? && h.requestId == health.id && h.healthy
       && s.Statistics? && s.requestId == stats.id && s.graphId == graph
  }

  /** A query succeeds exactly when something runs and the worker answers. */
  lemma StatsConsistent(c: Client, health: Exchange, x: Exchange)
    requires Consistent(c)
    ensures var (d, ok) := Stats(c, health, x);
            && Consistent(d) && d.running == ok && d.count == (if ok then c.count else 0) && d.sink == c.sink
            && (ok <==> c.running && Answers(c.graph, health, x))
  {
  }

  // ---- the two proxies --------------------------------------------------------------------

  datatype Proxy = Proxy(started: bool, sink: Option<nat>)

  function ProxyStart(c: Client, p: Proxy, sink: nat, env: StartEnv): (Client, Proxy, bool) {
    if p.started then (c, p, p.sink == Some(sink))
    else
      var (c1, attached) := Attach(c, sink);
      if !attached then (c1, p, false)
      else
        var (c2, ok) := Start(c1, env);
        if ok then (c2, Proxy(true, Some(sink)), true)
        else (if c2.running then c2 else Detach(c2, Some(sink)), p.(sink := None), false)
  }

  function ProxyStop(c: Client, p: Proxy, x: Exchange): (Client, Proxy, bool) {
    if !p.started then (c, p.(sink := None), true)
    else
      var (c1, ok) := Stop(c, x);
      (if c1.running then c1 else Detach(c1, p.sink), Proxy(false, None), ok)
  }

  class MtlRxBackendProxy {
    const client: MtlWorkerGraphClient?
    var started: bool
    var sink: Option<nat>

    ghost function Abs(): Proxy
      reads this
    {
      Proxy(started, sink)
    }

    constructor (c: MtlWorkerGraphClient?)
      ensures client == c && Abs() == Proxy(false, None)
    {
      client, started, sink := c, false, None;
    }

    method StartProxy(s: nat, env: StartEnv) returns (ok: bool)
      modifies this, client
      ensures client == null ==> !ok && Abs() == old(Abs())
      ensures client != null ==> (client.Abs(), Abs(), ok) == ProxyStart(old(client.Abs()), old(Abs()), s, env)
    {
      if client == null {
        return false;
      }
      if started {
        return sink == Some(s);
      }
      var attached := client.AttachSink(s);
      if !attached {
        return false;
      }
      sink := Some(s);
      ok := client.StartGraph(env);
      if !ok {
        if !client.running {
          client.DetachSink(sink);
        }
        sink := None;
        return;
      }
      started := true;
    }

    method StopProxy(x: Exchange) returns (ok: bool)
      modifies this, client
      ensures client == null ==> ok && Abs() == Proxy(false, None)
      ensures client != null ==> (client.Abs(), Abs(), ok) == ProxyStop(old(client.Abs()), old(Abs()), x)
    {
      if client == null {
        sink, started := None, false;
        return true;
      }
      if !started {
        sink := None;
        return true;
      }
      var attached := sink;
      ok := client.StopGraph(x);
      if !client.running {
        client.DetachSink(attached);
      }
      sink, started := None, false;
    }
  }

  // ---- runs of a graph ------------------------------------------------------------------------

  datatype Graph = Graph(client: Client, video: Proxy, audio: Proxy)

  datatype Medium = Video | Audio

  datatype Call =
    | StartOne(m: Medium, sink: nat, env: StartEnv)
    | StopOne(m: Medium, stop: Exchange)
    | Query(health: Exchange, stats: Exchange)
    | Destroy(active: bool, videoStop: Exchange, audioStop: Exchange, last: Exchange)

  function ProxyOf(g: Graph, m: Medium): Proxy {
    if m.Video? then g.video else g.audio
  }

  function Other(m: Medium): Medium {
    if m.Video? then Audio else Video
  }

  function WithProxy(g: Graph, m: Medium, p: Proxy): Graph {
    if m.Video? then g.(video := p) else g.(audio := p)
  }

  function StopProxyOf(g: Graph, m: Medium, x: Exchange): Graph {
    var (c, p, ok) := ProxyStop(g.client, ProxyOf(g, m), x);
    WithProxy(g.(client := c), m, p)
  }

  /** The owner stops both proxies if it believes that sessions run or the client
      says so; then proxies and client go, and the client stops itself once more. */
  function DestroyGraph(g: Graph, active: bool, videoStop: Exchange, audioStop: Exchange, last: Exchange): Graph {
    var g1 := if active || g.client.running then StopProxyOf(StopProxyOf(g, Video, videoStop), Audio, audioStop) else g;
    Graph(StopNow(g1.client, last), Proxy(false, None), Proxy(false, None))
  }

  /** A proxy that was never made is like one that was never started. */
  ghost function AbsOf(p: MtlRxBackendProxy?): Proxy
    reads p
  {
    if p == null then Proxy(false, None) else p.Abs()
  }

  method DestroyConfiguredGraph(client: MtlWorkerGraphClient, video: MtlRxBackendProxy?, audio: MtlRxBackendProxy?,
                                active: bool, videoStop: Exchange, audioStop: Exchange, last: Exchange)
    requires video != null ==> video.client == client && video != audio
    requires audio != null ==> audio.client == client
    modifies client, video, audio
    ensures client.Abs() == DestroyGraph(Graph(old(client.Abs()), old(AbsOf(video)), old(AbsOf(audio))),
                                         active, videoStop, audioStop, last).client
  {
    hide Stop;
    if active || client.running {
      if video != null {
        var stopped := video.StopProxy(videoStop);
      }
      if audio != null {
        var stopped := audio.StopProxy(audioStop);
      }
    }
    client.StopNoexcept(last);
  }

  function DoCall(g: Graph, call: Call): Graph {
    match call
    case StartOne(m, sink, env) =>
      var (c, p, ok) := ProxyStart(g.client, ProxyOf(g, m), sink, env);
      WithProxy(g.(client := c), m, p)
    case StopOne(m, x) => StopProxyOf(g, m, x)
    case Query(health, x) => g.(client := Stats(g.client, health, x).0)
    case Destroy(active, videoStop, audioStop, last) => DestroyGraph(g, active, videoStop, audioStop, last)
  }

  function Started(p: Proxy): nat {
    if p.started then 1 else 0
  }

  /** The client counts the started proxies, which all have its sink. */
  predicate GraphOk(g: Graph) {
    && Consistent(g.client)
    && g.client.count == Started(g.video) + Started(g.audio)
    && (g.video.started ==> g.video.sink.Some? && g.video.sink == g.client.sink)
    && (g.audio.started ==> g.audio.sink.Some? && g.audio.sink == g.client.sink)
    && (g.client.sink.Some? <==> g.client.running)
  }

  /** A statistics query that the worker does not answer while something runs. */
  predicate Breaks(g: Graph, call: Call) {
    call.Query? && g.client.running && !Answers(g.client.graph, call.health, call.stats)
  }

  /** What such a query leaves: an idle client, and started proxies that do not
      know. */
  predicate Broken(g: Graph) {
    && Idle(g.client) && Consistent(g.client)
    && (g.video.started || g.audio.started)
    && (g.video.started ==> g.video.sink.Some? && g.video.sink == g.client.sink)
    && (g.audio.started ==> g.audio.sink.Some? && g.audio.sink == g.client.sink)
  }

  /** What destruction leaves. */
  predicate Gone(g: Graph) {
    Idle(g.client) && Consistent(g.client) && !g.video.started && !g.audio.started
  }

  lemma StopNowIdle(c: Client, x: Exchange)
    requires Consistent(c)
    ensures Idle(StopNow(c, x)) && Consistent(StopNow(c, x)) && StopNow(c, x).sink == c.sink
  {
    StopConsistent(if c.running then c.(count := 1) else c, x);
  }

  /** Destruction leaves nothing running, whatever state the proxies are in. */
  lemma DestroyEnds(g: Graph, call: Call)
    requires Consistent(g.client) && call.Destroy?
    ensures Gone(DoCall(g, call))
    ensures GraphOk(g) || (Broken(g) && call.active) ==> GraphOk(DoCall(g, call))
  {
    hide Stop;
    StopConsistent(g.client, call.videoStop);
    var g1 := StopProxyOf(g, Video, call.videoStop);
    StopConsistent(g1.client, call.audioStop);
    var g2 := StopProxyOf(g1, Audio, call.audioStop);
    StopNowIdle(if call.active || g.client.running then g2.client else g.client, call.last);
  }

  /** A call keeps the count right, unless it is a statistics query that fails while
      something runs: then the count is zero and the proxies do not know. This is
      why the owner destroys the graph after such a query. */
  lemma CallKeepsGraph(g: Graph, call: Call)
    requires GraphOk(g)
    ensures GraphOk(DoCall(g, call)) <==> !Breaks(g, call)
    ensures Breaks(g, call) ==> Broken(DoCall(g, call))
  {
    hide DestroyGraph;
    match call
    case StartOne(m, sink, env) => StartConsistent(Attach(g.client, sink).0, env);
    case StopOne(m, x) => StopConsistent(g.client, x);
    case Query(health, x) => StatsConsistent(g.client, health, x);
    case Destroy(_, _, _, _) => DestroyEnds(g, call);
  }

  const RUNTIME := RuntimeConfig(RuntimePort([101, 110, 112, 49], [10, 0, 0, 1]), None)

  /** A start in which everything works: worker 1, healthy, sessions of graph 1 started. */
  const WORKS := StartEnv(Some(WorkerLease(1, true)), Exchange(1, Some(Health(1, true, []))), true, true,
                          Exchange(2, Some(Event.Started(2, 1))))

  /** A health check that gets no reply. */
  const SILENT := Query(Exchange(3, None), Exchange(4, None))

  /** Such a query, and what happens if the owner carries on: the client counts none
      of the two proxies that were started, then one of them, and the first stop
      ends the sessions the other still uses. */
  lemma SilentQuery()
    ensures var g0 := FreshGraph(1, Some(RUNTIME), None);
            var g2 := DoCall(DoCall(g0, StartOne(Video, 7, WORKS)), StartOne(Audio, 7, WORKS));
            var g3 := DoCall(g2, SILENT);
            var g4 := DoCall(DoCall(g3, StopOne(Video, Exchange(5, None))), StartOne(Video, 7, WORKS));
            var g5 := DoCall(g4, StopOne(Audio, Exchange(6, Some(Stopped(6, 1)))));
            && GraphOk(g2) && g2.client.count == 2
            && Breaks(g2, SILENT) && g3.client.count == 0 && g3.video.started && g3.audio.started
            && g4.client.count == 1 && g4.video.started && g4.audio.started
            && !g5.client.running && g5.video.started
  {
  }

  /** Running, lease, registration, handler and a positive count go together after
      any calls at all, sensible or not. */
  lemma {:induction false} RunConsistent(g: Graph, calls: seq<Call>)
    requires Consistent(g.client)
    ensures Consistent(AfterCalls(g, calls).client)
  {
    hide Start, Stop, Stats, DestroyGraph;
    if calls != [] {
      var n := |calls| - 1;
      RunConsistent(g, calls[..n]);
      var h := AfterCalls(g, calls[..n]);
      match calls[n]
      case StartOne(m, sink, env) => StartConsistent(Attach(h.client, sink).0, env);
      case StopOne(m, x) => StopConsistent(h.client, x);
      case Query(health, x) => StatsConsistent(h.client, health, x);
      case Destroy(_, _, _, _) => DestroyEnds(h, calls[n]);
    }
  }

  function Asks(log: seq<Action>, a: Action): nat {
    if log == [] then 0 else Asks(log[..|log| - 1], a) + if log[|log| - 1] == a then 1 else 0
  }

  /** The call stops the only started proxy of a running graph, or destroys the
      graph while it runs. */
  predicate LastStop(g: Graph, call: Call) {
    && g.client.running
    && (call.Destroy? ||
        (call.StopOne? && ProxyOf(g, call.m).started && !ProxyOf(g, Other(call.m)).started))
  }

  /** The call starts the first proxy, and gets as far as the worker. */
  predicate FirstStart(g: Graph, call: Call) {
    call.StartOne? && !g.client.running
  }

  lemma LogSnoc(c: Client, a: Action, b: Action)
    ensures Asks(Logged(c, a).log, b) == Asks(c.log, b) + if a == b then 1 else 0
  {
  }

  lemma ClearedAsks(c: Client)
    ensures forall d :: d == ReleaseAll(c) || d == InvalidateAll(c) ==>
              Asks(d.log, AskStop) == Asks(c.log, AskStop) && Asks(d.log, AskStart) == Asks(c.log, AskStart)
  {
    hide Asks;
    var c1 := ClearStarted(c);
    LogSnoc(c.(running := false, count := 0), Unregister, AskStop);
    LogSnoc(c.(running := false, count := 0), Unregister, AskStart);
    if c.lease.Some? {
      var w := c.lease.value.worker;
      LogSnoc(c1, Give(w), AskStop);
      LogSnoc(c1, Give(w), AskStart);
      LogSnoc(c1, Report(w), AskStop);
      LogSnoc(c1, Report(w), AskStart);
    }
  }

  lemma StartAsks(c: Client, lease: WorkerLease, env: StartEnv)
    ensures var d := StartOn(c, lease, env).0;
            && Asks(d.log, AskStop) == Asks(c.log, AskStop)
            && Asks(c.log, AskStart) <= Asks(d.log, AskStart) <= Asks(c.log, AskStart) + 1
            && (StartOn(c, lease, env).1 ==> Asks(d.log, AskStart) == Asks(c.log, AskStart) + 1)
  {
    hide Asks;
    hide ReleaseAll;
    hide InvalidateAll;
    hide InterpretStart;
    hide HealthOf;
    hide BackendRuntimeError;
    var c1 := c.(lease := Some(lease), registered := true);
    var c2 := Logged(c1, AskHealth);
    var c3 := c2.(async := true);
    var c4 := Logged(c3.(handler := true), Register);
    ClearedAsks(c1);
    ClearedAsks(c2);
    ClearedAsks(c3);
    ClearedAsks(Logged(c4, AskStart));
    LogSnoc(c1, AskHealth, AskStop);
    LogSnoc(c1, AskHealth, AskStart);
    LogSnoc(c3.(handler := true), Register, AskStop);
    LogSnoc(c3.(handler := true), Register, AskStart);
    LogSnoc(c4, AskStart, AskStop);
    LogSnoc(c4, AskStart, AskStart);
  }

  lemma StopAsks(c: Client, x: Exchange)
    requires Consistent(c)
    ensures var d := Stop(c, x).0;
            && Asks(d.log, AskStop) == Asks(c.log, AskStop) + (if c.count == 1 then 1 else 0)
            && Asks(d.log, AskStart) == Asks(c.log, AskStart)
  {
    hide Asks;
    hide ReleaseAll;
    hide InvalidateAll;
    hide InterpretStop;
    ClearedAsks(c);
    ClearedAsks(Logged(c, AskStop));
    LogSnoc(c, AskStop, AskStop);
    LogSnoc(c, AskStop, AskStart);
  }

  lemma StatsAsks(c: Client, health: Exchange, x: Exchange)
    ensures var d := Stats(c, health, x).0;
            Asks(d.log, AskStop) == Asks(c.log, AskStop) && Asks(d.log, AskStart) == Asks(c.log, AskStart)
  {
    hide Asks;
    hide ReleaseAll;
    hide InvalidateAll;
    hide InterpretStats;
    hide HealthOf;
    var c1 := Logged(c, AskHealth);
    ClearedAsks(c1);
    ClearedAsks(Logged(c1, AskStats));
    LogSnoc(c, AskHealth, AskStop);
    LogSnoc(c, AskHealth, AskStart);
    LogSnoc(c1, AskStats, AskStop);
    LogSnoc(c1, AskStats, AskStart);
  }

  lemma StopNowAsks(c: Client, x: Exchange)
    requires Consistent(c)
    ensures var d := StopNow(c, x);
            && Asks(d.log, AskStop) == Asks(c.log, AskStop) + (if c.running then 1 else 0)
            && Asks(d.log, AskStart) == Asks(c.log, AskStart)
  {
    hide Asks, Stop;
    StopAsks(if c.running then c.(count := 1) else c, x);
  }

  /** Destroying a running graph sends one StopSessions, from the last proxy or from
      the client itself; destroying an idle one sends none. */
  lemma DestroyAsks(g: Graph, call: Call)
    requires call.Destroy? && (GraphOk(g) || Broken(g))
    ensures var log, log1 := g.client.log, DoCall(g, call).client.log;
            && Asks(log1, AskStop) == Asks(log, AskStop) + (if g.client.running then 1 else 0)
            && Asks(log1, AskStart) == Asks(log, AskStart)
  {
    hide Asks, Stop, StopNow;
    StopConsistent(g.client, call.videoStop);
    StopAsks(g.client, call.videoStop);
    var g1 := StopProxyOf(g, Video, call.videoStop);
    StopConsistent(g1.client, call.audioStop);
    StopAsks(g1.client, call.audioStop);
    var g2 := StopProxyOf(g1, Audio, call.audioStop);
    StopNowAsks(if call.active || g.client.running then g2.client else g.client, call.last);
  }

  /** StopSessions is sent exactly when the last started proxy stops or a running
      graph is destroyed; StartSessions at most once, and only when the first proxy
      starts. */
  lemma CallAsks(g: Graph, call: Call)
    requires GraphOk(g)
    ensures var log, log1 := g.client.log, DoCall(g, call).client.log;
            && Asks(log1, AskStop) == Asks(log, AskStop) + (if LastStop(g, call) then 1 else 0)
            && Asks(log, AskStart) <= Asks(log1, AskStart) <= Asks(log, AskStart) + (if FirstStart(g, call) then 1 else 0)
  {
    hide Asks, StartOn, DestroyGraph;
    match call
    case StartOne(m, sink, env) =>
      if env.acquired.Some? {
        StartAsks(Attach(g.client, sink).0, env.acquired.value, env);
      }
    case StopOne(m, x) => StopAsks(g.client, x);
    case Query(health, x) => StatsAsks(g.client, health, x);
    case Destroy(_, _, _, _) => DestroyAsks(g, call);
  }

  /** What the owner does: after a query that fails while something runs it destroys
      the graph, and of a destroyed graph nothing is asked. */
  ghost predicate Ordinary(g: Graph, calls: seq<Call>) {
    |calls| > 1 ==>
      var n := |calls| - 1;
      && Ordinary(g, calls[..n])
      && !calls[n - 1].Destroy?
      && (EndsBroken(g, calls[..n]) ==> calls[n].Destroy?)
  }

  predicate EndsBroken(g: Graph, calls: seq<Call>) {
    calls != [] && Breaks(AfterCalls(g, calls[..|calls| - 1]), calls[|calls| - 1])
  }

  function AfterCalls(g: Graph, calls: seq<Call>): Graph {
    if calls == [] then g else DoCall(AfterCalls(g, calls[..|calls| - 1]), calls[|calls| - 1])
  }

  function LastStops(g: Graph, calls: seq<Call>): nat {
    if calls == [] then 0
    else
      var n := |calls| - 1;
      LastStops(g, calls[..n]) + if LastStop(AfterCalls(g, calls[..n]), calls[n]) then 1 else 0
  }

  function FreshGraph(id: u64, video: Option<RuntimeConfig>, audio: Option<RuntimeConfig>): Graph {
    Graph(Client(id, video, audio, None, None, false, false, false, false, 0, []), Proxy(false, None), Proxy(false, None))
  }

  /** Over whole runs of starts, stops and queries by the two proxies up to the
      destruction of the graph, whatever fails on the way: until a query fails while
      something runs the count is the number of started proxies, destruction leaves
      nothing behind, and StopSessions has been sent once for each last stop. */
  lemma {:induction false} RunOfGraph(id: u64, video: Option<RuntimeConfig>, audio: Option<RuntimeConfig>, calls: seq<Call>)
    requires Ordinary(FreshGraph(id, video, audio), calls)
    ensures var g0 := FreshGraph(id, video, audio);
            var g := AfterCalls(g0, calls);
            && Consistent(g.client)
            && (if EndsBroken(g0, calls) then Broken(g)
                else if calls != [] && calls[|calls| - 1].Destroy? then
                  Gone(g) && (calls[|calls| - 1].active || !EndsBroken(g0, calls[..|calls| - 1]) ==> GraphOk(g))
                else GraphOk(g))
            && Asks(g.client.log, AskStop) == LastStops(g0, calls)
  {
    hide DoCall, Asks, Breaks;
    if calls == [] {
      NothingAsked();
    } else {
      var n := |calls| - 1;
      var g0 := FreshGraph(id, video, audio);
      var g := AfterCalls(g0, calls[..n]);
      RunOfGraph(id, video, audio, calls[..n]);
      if EndsBroken(g0, calls[..n]) {
        DestroyEnds(g, calls[n]);
        DestroyAsks(g, calls[n]);
        NotAQuery(g, calls[n]);
      } else {
        CallKeepsGraph(g, calls[n]);
        CallAsks(g, calls[n]);
        if calls[n].Destroy? {
          DestroyEnds(g, calls[n]);
          NotAQuery(g, calls[n]);
        }
      }
    }
  }

  lemma NotAQuery(g: Graph, call: Call)
    requires call.Destroy?
    ensures !Breaks(g, call)
  {
  }

  lemma NothingAsked()
    ensures Asks([], AskStop) == 0
  {
  }
}
