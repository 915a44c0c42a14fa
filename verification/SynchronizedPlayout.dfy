/** The sink that lines video and audio up by media time: two sorted queues, one
    playout anchor, and the thread that hands the earlier head on when its time
    has come. */
module SynchronizedPlayout {
  import opened Basics
  import opened RtpTimestamps

  const MAX_DURATION: int := 0x7FFF_FFFF_FFFF_FFFF
  /** The largest time point of the local clock. */
  const MAX_TIME: int := 0x7FFF_FFFF_FFFF_FFFF

  datatype Kind = Video | Audio

  datatype Queued = Queued(frame: nat, rtp: u32, ns: u64)

  datatype Line = Line(mapper: MapperState, queue: seq<Queued>, accepted: nat, delivered: nat, dropped: nat)

  datatype Anchor = Anchor(ns: u64, at: int)

  datatype SinkConfig = SinkConfig(
    enableVideo: bool,
    enableAudio: bool,
    videoMapper: MapperConfig,
    audioMapper: MapperConfig,
    delay: u64,
    maxVideo: nat,
    maxAudio: nat)

  datatype Sink = Sink(
    running: bool,
    stopRequested: bool,
    failed: bool,
    anchor: Option<Anchor>,
    video: Line,
    audio: Line,
    mappingErrors: nat,
    outputErrors: nat)

  function LineOf(s: Sink, k: Kind): Line {
    if k.Video? then s.video else s.audio
  }

  function WithLine(s: Sink, k: Kind, l: Line): Sink {
    if k.Video? then s.(video := l) else s.(audio := l)
  }

  predicate Wanted(cfg: SinkConfig, k: Kind) {
    if k.Video? then cfg.enableVideo else cfg.enableAudio
  }

  function MapperOf(cfg: SinkConfig, k: Kind): MapperConfig {
    if k.Video? then cfg.videoMapper else cfg.audioMapper
  }

  function Bound(cfg: SinkConfig, k: Kind): nat {
    if k.Video? then cfg.maxVideo else cfg.maxAudio
  }

  function Clamp(ns: u64): int {
    if ns > MAX_DURATION then MAX_DURATION else ns
  }

  // ---- the queue -----------------------------------------------------------------

  /** How many at the front are not later than the item. */
  function NotLater(queue: seq<Queued>, ns: u64): (n: nat)
    ensures n <= |queue|
    ensures forall i :: 0 <= i < n ==> queue[i].ns <= ns
    ensures n < |queue| ==> ns < queue[n].ns
  {
    if queue == [] || ns < queue[0].ns then 0 else 1 + NotLater(queue[1..], ns)
  }

  function Inserted(queue: seq<Queued>, item: Queued): seq<Queued> {
    var n := NotLater(queue, item.ns);
    queue[..n] + [item] + queue[n..]
  }

  predicate Ascending(queue: seq<Queued>) {
    forall i, j :: 0 <= i < j < |queue| ==> queue[i].ns <= queue[j].ns
  }

  lemma InsertedAt(queue: seq<Queued>, item: Queued, j: nat)
    requires j <= |queue|
    ensures var n := NotLater(queue, item.ns);
            Inserted(queue, item)[j] == if j < n then queue[j] else if j == n then item else queue[j - 1]
  {
    hide NotLater;
  }

  /** For any sorted queue the result is sorted and holds the item besides. */
  lemma InsertedAscending(queue: seq<Queued>, item: Queued)
    requires Ascending(queue)
    ensures Ascending(Inserted(queue, item))
    ensures multiset(Inserted(queue, item)) == multiset(queue) + multiset{item}
  {
    InsertedSame(queue, item);
    hide Inserted;
    var n := NotLater(queue, item.ns);
    forall i, j | 0 <= i < j < |queue| + 1
      ensures Inserted(queue, item)[i].ns <= Inserted(queue, item)[j].ns
    {
      InsertedAt(queue, item, i);
      InsertedAt(queue, item, j);
      if n < |queue| && n < j {
        assert n == j - 1 || queue[n].ns <= queue[j - 1].ns;
      }
    }
  }

  lemma InsertedSame(queue: seq<Queued>, item: Queued)
    ensures |Inserted(queue, item)| == |queue| + 1
    ensures multiset(Inserted(queue, item)) == multiset(queue) + multiset{item}
  {
    var n := NotLater(queue, item.ns);
    assert queue == queue[..n] + queue[n..];
  }

  lemma InsertedLast(queue: seq<Queued>, item: Queued)
    requires forall i :: 0 <= i < |queue| ==> queue[i].ns <= item.ns
    ensures Inserted(queue, item) == queue + [item]
  {
  }

  function Excess(queue: seq<Queued>, bound: nat): nat {
    if |queue| > bound then |queue| - bound else 0
  }

  // ---- the sink on values ------------------------------------------------------------

  /** Sorted in, then trimmed from the front down to the bound. */
  function Enqueued(bound: nat, l: Line, item: Queued): Line {
    var queue := Inserted(l.queue, item);
    var excess := Excess(queue, bound);
    Line(l.mapper, queue[excess..], l.accepted + 1, l.delivered, l.dropped + excess)
  }

  /** One frame or block offered at local time now. */
  function Receive(cfg: SinkConfig, s: Sink, k: Kind, frame: nat, rtp: u32, now: int): Sink {
    var l := LineOf(s, k);
    if !Wanted(cfg, k) then s
    else if !s.running || s.failed then WithLine(s, k, l.(dropped := l.dropped + 1))
    else
      var (m, r) := Map(MapperOf(cfg, k), l.mapper, rtp);
      match r
      case Err(_) =>
        WithLine(s, k, l.(mapper := m, dropped := l.dropped + 1)).(mappingErrors := s.mappingErrors + 1)
      case Ok(ns) =>
        WithLine(s, k, Enqueued(Bound(cfg, k), l.(mapper := m), Queued(frame, rtp, ns))).(
          anchor := if s.anchor.Some? then s.anchor else Some(Anchor(ns, now + Clamp(cfg.delay))))
  }

  /** The earlier of the two heads, video when they agree. */
  function NextPending(s: Sink): (k: Option<Kind>)
    ensures k.None? <==> s.video.queue == [] && s.audio.queue == []
    ensures k.Some? ==> LineOf(s, k.value).queue != []
  {
    if s.video.queue == [] && s.audio.queue == [] then None
    else if s.video.queue == [] then Some(Audio)
    else if s.audio.queue == [] then Some(Video)
    else if s.video.queue[0].ns <= s.audio.queue[0].ns then Some(Video)
    else Some(Audio)
  }

  function PlayoutTime(anchor: Option<Anchor>, ns: u64, now: int): int {
    match anchor
    case None => now
    case Some(a) =>
      if ns <= a.ns then a.at
      else
        var relative := Clamp(ns - a.ns);
        if relative > MAX_TIME - a.at then MAX_TIME else a.at + relative
  }

  /** One look of the playout thread at the queues. */
  function Take(s: Sink, now: int): (Sink, Option<(Kind, Queued)>) {
    match NextPending(s)
    case None => (s, None)
    case Some(k) =>
      var l := LineOf(s, k);
      if PlayoutTime(s.anchor, l.queue[0].ns, now) > now then (s, None)
      else (WithLine(s, k, l.(queue := l.queue[1..])), Some((k, l.queue[0])))
  }

  function Begin(s: Sink): Sink {
    if s.running then s
    else s.(running := true, stopRequested := false, failed := false, anchor := None,
            video := s.video.(queue := []), audio := s.audio.(queue := []))
  }

  function Halt(s: Sink): Sink {
    s.(running := false, stopRequested := true)
  }

  function Cleared(s: Sink): Sink {
    s.(anchor := None, video := s.video.(queue := []), audio := s.audio.(queue := []))
  }

  function HandedOver(s: Sink, k: Kind, ok: bool): Sink {
    if ok then WithLine(s, k, LineOf(s, k).(delivered := LineOf(s, k).delivered + 1))
    else s.(running := false, stopRequested := true, failed := true, outputErrors := s.outputErrors + 1)
  }

  const EMPTY_LINE := Line(FRESH, [], 0, 0, 0)
  const IDLE := Sink(false, false, false, None, EMPTY_LINE, EMPTY_LINE, 0, 0)

  // ---- the sink and its thread, one locked section at a time ------------------------------

  datatype Thread = Absent | Looking | Holding(kind: Kind, item: Queued)

  /** How an accepted item left its queue. */
  datatype Departure =
    | Trimmed(item: Queued)
    | Taken(item: Queued, at: int, other: Option<u64>)

  /** What happened to one kind since the sink was last started, and over its life. */
  datatype History = History(
    arrived: seq<Queued>, left: seq<Departure>, offered: nat, trimmed: nat, cleared: nat, lost: nat)

  datatype System = System(sink: Sink, thread: Thread, stopping: bool, video: History, audio: History)

  datatype Step =
    | Arrive(kind: Kind, frame: nat, rtp: u32, now: int)
    | Look(now: int)
    | HandOver(ok: bool)
    | Start
    | AskStop
    | FinishStop

  function HistoryOf(y: System, k: Kind): History {
    if k.Video? then y.video else y.audio
  }

  function WithHistory(y: System, k: Kind, h: History): System {
    if k.Video? then y.(video := h) else y.(audio := h)
  }

  /** The thread exists only between a start and the end of the following stop;
      start and stop are called one after the other. */
  predicate Enabled(y: System, step: Step) {
    match step
    case Arrive(_, _, _, _) => true
    case Look(_) => y.thread.Looking?
    case HandOver(_) => y.thread.Holding?
    case Start => !y.stopping
    case AskStop => !y.stopping
    case FinishStop => y.stopping && y.thread.Absent?
  }

  function TrimmedAway(queue: seq<Queued>, n: nat): seq<Departure>
    requires n <= |queue|
  {
    seq(n, i requires 0 <= i < n => Trimmed(queue[i]))
  }

  function EnqueuedHistory(bound: nat, queue: seq<Queued>, h: History, item: Queued): History {
    var longer := Inserted(queue, item);
    var excess := Excess(longer, bound);
    h.(arrived := h.arrived + [item], left := h.left + TrimmedAway(longer, excess), trimmed := h.trimmed + excess)
  }

  function ArriveHistory(cfg: SinkConfig, s: Sink, h: History, k: Kind, frame: nat, rtp: u32): History {
    if !Wanted(cfg, k) then h
    else
      var h1 := h.(offered := h.offered + 1);
      if !s.running || s.failed then h1
      else
        var (m, r) := Map(MapperOf(cfg, k), LineOf(s, k).mapper, rtp);
        match r
        case Err(_) => h1
        case Ok(ns) =>
          EnqueuedHistory(Bound(cfg, k), LineOf(s, k).queue, h1, Queued(frame, rtp, ns))
  }

  function Emptied(h: History, queue: seq<Queued>): History {
    h.(arrived := [], left := [], cleared := h.cleared + |queue|)
  }

  function BothEmptied(y: System): System {
    y.(video := Emptied(y.video, y.sink.video.queue), audio := Emptied(y.audio, y.sink.audio.queue))
  }

  function Other(k: Kind): Kind {
    if k.Video? then Audio else Video
  }

  function HeadOf(l: Line): Option<u64> {
    if l.queue == [] then None else Some(l.queue[0].ns)
  }

  function LookNext(y: System, now: int): System {
    if y.sink.stopRequested then y.(thread := Absent)
    else
      var (s, taken) := Take(y.sink, now);
      match taken
      case None => y
      case Some(t) =>
        var h := HistoryOf(y, t.0);
        WithHistory(y, t.0, h.(left := h.left + [Taken(t.1, now, HeadOf(LineOf(y.sink, Other(t.0))))])).(
          sink := s, thread := Holding(t.0, t.1))
  }

  function HandOverNext(y: System, ok: bool): System
    requires y.thread.Holding?
  {
    var k := y.thread.kind;
    var h := HistoryOf(y, k);
    var y1 := y.(sink := HandedOver(y.sink, k, ok), thread := if ok then Looking else Absent);
    if ok then y1 else WithHistory(y1, k, h.(lost := h.lost + 1))
  }

  function Next(cfg: SinkConfig, y: System, step: Step): System
    requires Enabled(y, step)
  {
    match step
    case Arrive(k, frame, rtp, now) =>
      WithHistory(y, k, ArriveHistory(cfg, y.sink, HistoryOf(y, k), k, frame, rtp)).(
        sink := Receive(cfg, y.sink, k, frame, rtp, now))
    case Look(now) => LookNext(y, now)
    case HandOver(ok) => HandOverNext(y, ok)
    case Start =>
      if y.sink.running then y else BothEmptied(y).(sink := Begin(y.sink), thread := Looking)
    case AskStop => y.(sink := Halt(y.sink), stopping := true)
    case FinishStop => BothEmptied(y).(sink := Cleared(y.sink), stopping := false)
  }

  // ---- what every run keeps --------------------------------------------------------------

  function Items(left: seq<Departure>): seq<Queued> {
    seq(|left|, i requires 0 <= i < |left| => left[i].item)
  }

  /** An item is taken at or after its playout time, and only when the other
      queue has nothing earlier; a tie goes to video. */
  predicate TakenRight(anchor: Option<Anchor>, k: Kind, d: Departure) {
    d.Taken? ==>
      && anchor.Some?
      && PlayoutTime(anchor, d.item.ns, d.at) <= d.at
      && (d.other.Some? ==> if k.Video? then d.item.ns <= d.other.value else d.item.ns < d.other.value)
  }

  function InHand(y: System, k: Kind): nat {
    if y.thread.Holding? && y.thread.kind == k then 1 else 0
  }

  /** Of one kind: nothing is reordered, lost or invented since the start. */
  predicate InOrder(cfg: MapperConfig, l: Line, h: History) {
    && Items(h.left) + l.queue == h.arrived
    && Ascending(h.arrived)
    && (forall i :: 0 <= i < |h.arrived| ==> h.arrived[i].ns <= Standing(cfg, l.mapper))
    && MapperInv(l.mapper)
  }

  /** Of one kind: everything ever offered is accounted for. */
  predicate Accounted(l: Line, h: History, hand: nat) {
    && l.accepted + l.dropped == h.offered + h.trimmed
    && l.accepted == l.delivered + hand + |l.queue| + h.trimmed + h.cleared + h.lost
  }

  predicate Kept(cfg: MapperConfig, bound: nat, anchor: Option<Anchor>, k: Kind, l: Line, h: History, hand: nat) {
    && InOrder(cfg, l, h)
    && |l.queue| <= bound
    && (forall i :: 0 <= i < |h.left| ==> TakenRight(anchor, k, h.left[i]))
    && (h.arrived != [] ==> anchor.Some?)
    && Accounted(l, h, hand)
  }

  predicate KindInv(cfg: SinkConfig, y: System, k: Kind) {
    Kept(MapperOf(cfg, k), Bound(cfg, k), y.sink.anchor, k, LineOf(y.sink, k), HistoryOf(y, k), InHand(y, k))
  }

  /** A thread runs only while the sink runs or is being stopped, so that a start
      never meets the previous one. */
  predicate ThreadInv(y: System) {
    && (y.stopping ==> !y.sink.running)
    && (y.sink.running <==> !y.sink.stopRequested && !y.thread.Absent?)
    && (!y.thread.Absent? && !y.sink.running ==> y.stopping)
    && (y.sink.failed ==> !y.sink.running)
  }

  predicate Inv(cfg: SinkConfig, y: System) {
    KindInv(cfg, y, Video) && KindInv(cfg, y, Audio) && ThreadInv(y)
  }

  const NOTHING := History([], [], 0, 0, 0, 0)
  const INITIAL := System(IDLE, Absent, false, NOTHING, NOTHING)

  lemma InitialInv(cfg: SinkConfig)
    ensures Inv(cfg, INITIAL)
  {
  }

  // ---- one arrival ---------------------------------------------------------------------

  lemma QueueLast(left: seq<Departure>, queue: seq<Queued>, arrived: seq<Queued>, item: Queued)
    requires Items(left) + queue == arrived
    requires forall i :: 0 <= i < |arrived| ==> arrived[i].ns <= item.ns
    ensures Inserted(queue, item) == queue + [item]
  {
    hide Inserted, Items;
    var n := |Items(left)|;
    forall i | 0 <= i < |queue|
      ensures queue[i].ns <= item.ns
    {
      assert arrived[n + i] == queue[i];
    }
    InsertedLast(queue, item);
  }

  lemma TrimmedItems(left: seq<Departure>, longer: seq<Queued>, excess: nat)
    requires excess <= |longer|
    ensures Items(left + TrimmedAway(longer, excess)) == Items(left) + longer[..excess]
  {
  }

  lemma AscendingAppend(arrived: seq<Queued>, item: Queued)
    requires Ascending(arrived)
    requires forall i :: 0 <= i < |arrived| ==> arrived[i].ns <= item.ns
    ensures Ascending(arrived + [item])
  {
  }

  /** The new item goes last and the oldest are trimmed: order is kept. */
  lemma AppendInOrder(left: seq<Departure>, queue: seq<Queued>, arrived: seq<Queued>, item: Queued, excess: nat)
    requires Items(left) + queue == arrived && Ascending(arrived)
    requires forall i :: 0 <= i < |arrived| ==> arrived[i].ns <= item.ns
    requires excess <= |queue| + 1
    ensures Inserted(queue, item) == queue + [item]
    ensures Items(left + TrimmedAway(queue + [item], excess)) + (queue + [item])[excess..] == arrived + [item]
    ensures Ascending(arrived + [item])
  {
    hide Inserted, Items, TrimmedAway, Ascending;
    QueueLast(left, queue, arrived, item);
    AscendingAppend(arrived, item);
    var longer := queue + [item];
    TrimmedItems(left, longer, excess);
    assert longer == longer[..excess] + longer[excess..];
    assert Items(left) + longer[..excess] + longer[excess..] == Items(left) + longer;
  }

  lemma EnqueueKeeps(cfg: MapperConfig, bound: nat, anchor: Option<Anchor>, k: Kind, l: Line, h: History, hand: nat,
                     m: MapperState, item: Queued)
    requires Kept(cfg, bound, anchor, k, l, h, hand) && anchor.Some? && MapperInv(m)
    requires Standing(cfg, l.mapper) <= item.ns == Standing(cfg, m)
    ensures Kept(cfg, bound, anchor, k, Enqueued(bound, l.(mapper := m), item),
                 EnqueuedHistory(bound, l.queue, h.(offered := h.offered + 1), item), hand)
  {
    hide Standing, Inserted, PlayoutTime, MapperInv;
    var excess := Excess(l.queue + [item], bound);
    AppendInOrder(h.left, l.queue, h.arrived, item, excess);
    TrimmedNotTaken(l.queue + [item], excess);
  }

  /** Nothing was taken before there is an anchor, so setting it harms nothing. */
  lemma AnchorKeeps(cfg: MapperConfig, bound: nat, k: Kind, l: Line, h: History, hand: nat, anchor: Anchor)
    requires Kept(cfg, bound, None, k, l, h, hand)
    ensures Kept(cfg, bound, Some(anchor), k, l, h, hand)
  {
  }

  /** Refused or not wanted: only the counts move, and the mapper forward. */
  lemma RefuseKeeps(cfg: MapperConfig, bound: nat, anchor: Option<Anchor>, k: Kind, l: Line, h: History, hand: nat,
                    m: MapperState)
    requires Kept(cfg, bound, anchor, k, l, h, hand) && MapperInv(m)
    requires Standing(cfg, l.mapper) <= Standing(cfg, m)
    ensures Kept(cfg, bound, anchor, k, l.(mapper := m, dropped := l.dropped + 1), h.(offered := h.offered + 1), hand)
  {
  }

  lemma ArriveKeeps(cfg: SinkConfig, y: System, k: Kind, frame: nat, rtp: u32, now: int)
    requires Inv(cfg, y)
    ensures Inv(cfg, Next(cfg, y, Arrive(k, frame, rtp, now)))
  {
    hide Map, Standing, Enqueued, EnqueuedHistory, Clamp, Kept, MapperInv;
    var l, h := LineOf(y.sink, k), HistoryOf(y, k);
    var c, n, hand := MapperOf(cfg, k), Bound(cfg, k), InHand(y, k);
    var y' := Next(cfg, y, Arrive(k, frame, rtp, now));
    var (m, r) := Map(c, l.mapper, rtp);
    KeptMapper(c, n, y.sink.anchor, k, l, h, hand);
    MapMovesForward(c, l.mapper, rtp);
    if Wanted(cfg, k) {
      if !y.sink.running || y.sink.failed {
        RefuseKeeps(c, n, y.sink.anchor, k, l, h, hand, l.mapper);
      } else if r.Err? {
        RefuseKeeps(c, n, y.sink.anchor, k, l, h, hand, m);
      } else {
        var k2 := Other(k);
        var anchor := y'.sink.anchor;
        if y.sink.anchor.None? {
          AnchorKeeps(c, n, k, l, h, hand, anchor.value);
          AnchorKeeps(MapperOf(cfg, k2), Bound(cfg, k2), k2, LineOf(y.sink, k2), HistoryOf(y, k2), InHand(y, k2), anchor.value);
        }
        EnqueueKeeps(c, n, anchor, k, l, h, hand, m, Queued(frame, rtp, r.value));
      }
    }
  }

  lemma KeptMapper(cfg: MapperConfig, bound: nat, anchor: Option<Anchor>, k: Kind, l: Line, h: History, hand: nat)
    requires Kept(cfg, bound, anchor, k, l, h, hand)
    ensures MapperInv(l.mapper)
  {
  }

  lemma TrimmedNotTaken(queue: seq<Queued>, n: nat)
    requires n <= |queue|
    ensures |TrimmedAway(queue, n)| == n
    ensures forall i :: 0 <= i < n ==> TrimmedAway(queue, n)[i].Trimmed?
  {
  }

  // ---- the thread ------------------------------------------------------------------------

  lemma TakeKeeps(cfg: MapperConfig, bound: nat, anchor: Option<Anchor>, k: Kind, l: Line, h: History, d: Departure)
    requires Kept(cfg, bound, anchor, k, l, h, 0)
    requires l.queue != [] && d.Taken? && d.item == l.queue[0]
    requires anchor.Some? ==> TakenRight(anchor, k, d)
    ensures Kept(cfg, bound, anchor, k, l.(queue := l.queue[1..]), h.(left := h.left + [d]), 1)
    ensures anchor.Some?
  {
    hide Standing, Ascending, PlayoutTime, MapperInv;
    assert |h.arrived| == |Items(h.left)| + |l.queue|;
    assert Items(h.left + [d]) == Items(h.left) + [l.queue[0]];
    assert l.queue == [l.queue[0]] + l.queue[1..];
    assert Items(h.left) + [l.queue[0]] + l.queue[1..] == Items(h.left) + l.queue;
  }

  lemma LookKeeps(cfg: SinkConfig, y: System, now: int)
    requires Inv(cfg, y) && y.thread.Looking?
    ensures Inv(cfg, Next(cfg, y, Look(now)))
  {
    hide Kept, PlayoutTime;
    var (s, taken) := Take(y.sink, now);
    if !y.sink.stopRequested && taken.Some? {
      var k := taken.value.0;
      var h := HistoryOf(y, k);
      TakeKeeps(MapperOf(cfg, k), Bound(cfg, k), y.sink.anchor, k, LineOf(y.sink, k), h,
                Taken(taken.value.1, now, HeadOf(LineOf(y.sink, Other(k)))));
    }
  }

  lemma DeliverKeeps(cfg: MapperConfig, bound: nat, anchor: Option<Anchor>, k: Kind, l: Line, h: History)
    requires Kept(cfg, bound, anchor, k, l, h, 1)
    ensures Kept(cfg, bound, anchor, k, l.(delivered := l.delivered + 1), h, 0)
    ensures Kept(cfg, bound, anchor, k, l, h.(lost := h.lost + 1), 0)
  {
  }

  lemma HandOverKeeps(cfg: SinkConfig, y: System, ok: bool)
    requires Inv(cfg, y) && y.thread.Holding?
    ensures Inv(cfg, Next(cfg, y, HandOver(ok)))
  {
    hide Kept;
    var k := y.thread.kind;
    DeliverKeeps(MapperOf(cfg, k), Bound(cfg, k), y.sink.anchor, k, LineOf(y.sink, k), HistoryOf(y, k));
  }

  lemma EmptyKeeps(cfg: MapperConfig, bound: nat, anchor: Option<Anchor>, k: Kind, l: Line, h: History, hand: nat)
    requires Kept(cfg, bound, anchor, k, l, h, hand)
    ensures Kept(cfg, bound, None, k, l.(queue := []), Emptied(h, l.queue), hand)
  {
  }

  lemma ControlKeeps(cfg: SinkConfig, y: System, step: Step)
    requires Inv(cfg, y) && Enabled(y, step) && (step.Start? || step.AskStop? || step.FinishStop?)
    ensures Inv(cfg, Next(cfg, y, step))
  {
    hide Kept, Emptied;
    EmptyKeeps(cfg.videoMapper, cfg.maxVideo, y.sink.anchor, Video, y.sink.video, y.video, InHand(y, Video));
    EmptyKeeps(cfg.audioMapper, cfg.maxAudio, y.sink.anchor, Audio, y.sink.audio, y.audio, InHand(y, Audio));
  }

  lemma StepKeepsInv(cfg: SinkConfig, y: System, step: Step)
    requires Inv(cfg, y) && Enabled(y, step)
    ensures Inv(cfg, Next(cfg, y, step))
  {
    hide Inv, Next;
    match step
    case Arrive(k, frame, rtp, now) => ArriveKeeps(cfg, y, k, frame, rtp, now);
    case Look(now) => LookKeeps(cfg, y, now);
    case HandOver(ok) => HandOverKeeps(cfg, y, ok);
    case _ => ControlKeeps(cfg, y, step);
  }

  // ---- whole runs -------------------------------------------------------------------------

  predicate Possible(cfg: SinkConfig, steps: seq<Step>)
    decreases |steps|, 0
  {
    steps == [] || (var n := |steps| - 1;
      Possible(cfg, steps[..n]) && Enabled(After(cfg, steps[..n]), steps[n]))
  }

  function After(cfg: SinkConfig, steps: seq<Step>): System
    requires Possible(cfg, steps)
    decreases |steps|, 1
  {
    if steps == [] then INITIAL
    else Next(cfg, After(cfg, steps[..|steps| - 1]), steps[|steps| - 1])
  }

  lemma {:induction false} RunKeepsInv(cfg: SinkConfig, steps: seq<Step>)
    requires Possible(cfg, steps)
    ensures Inv(cfg, After(cfg, steps))
  {
    hide Inv, Next, Enabled;
    if steps == [] {
      InitialInv(cfg);
    } else {
      RunKeepsInv(cfg, steps[..|steps| - 1]);
      StepKeepsInv(cfg, After(cfg, steps[..|steps| - 1]), steps[|steps| - 1]);
    }
  }

  /** Those of the departed that were handed on. */
  function Deliveries(left: seq<Departure>): seq<Departure> {
    if left == [] then []
    else
      var d := left[|left| - 1];
      Deliveries(left[..|left| - 1]) + if d.Taken? then [d] else []
  }

  lemma {:induction false} DeliveriesAscend(left: seq<Departure>)
    requires Ascending(Items(left))
    ensures Ascending(Items(Deliveries(left)))
    ensures forall i :: 0 <= i < |Deliveries(left)| ==> Deliveries(left)[i] in left && Deliveries(left)[i].Taken?
  {
    if left != [] {
      var n := |left| - 1;
      assert Items(left)[..n] == Items(left[..n]);
      DeliveriesAscend(left[..n]);
      var before := Deliveries(left[..n]);
      forall i | 0 <= i < |before|
        ensures Items(before)[i].ns <= left[n].item.ns
      {
        assert before[i] in left[..n];
        var j :| 0 <= j < n && left[j] == before[i];
        assert Items(left)[j].ns <= Items(left)[n].ns;
      }
      if left[n].Taken? {
        assert Items(Deliveries(left)) == Items(before) + [left[n].item];
      } else {
        assert Deliveries(left) == before;
      }
    }
  }

  /** Between any start and the next, whatever the interleaving: of each kind the
      trimmed and the delivered, in the order they left, followed by the queue, are
      what was accepted, in arrival order and with times that never decrease. */
  lemma PlayoutKeepsOrder(cfg: SinkConfig, steps: seq<Step>, k: Kind)
    requires Possible(cfg, steps)
    ensures var y := After(cfg, steps);
            var h, queue := HistoryOf(y, k), LineOf(y.sink, k).queue;
            && Items(h.left) + queue == h.arrived
            && Ascending(h.arrived)
            && Ascending(Items(Deliveries(h.left)))
            && |queue| <= Bound(cfg, k)
  {
    RunKeepsInv(cfg, steps);
    var y := After(cfg, steps);
    var h := HistoryOf(y, k);
    KindKept(cfg, y, k);
    hide Inv, After, Standing, Possible;
    assert Items(h.left) == h.arrived[..|h.left|];
    DeliveriesAscend(h.left);
  }

  lemma KindKept(cfg: SinkConfig, y: System, k: Kind)
    requires Inv(cfg, y)
    ensures KindInv(cfg, y, k)
  {
  }

  /** No delivery comes before its playout time, and each takes the earlier head. */
  lemma PlayoutNeverEarly(cfg: SinkConfig, steps: seq<Step>, k: Kind, i: nat)
    requires Possible(cfg, steps)
    requires i < |HistoryOf(After(cfg, steps), k).left| && HistoryOf(After(cfg, steps), k).left[i].Taken?
    ensures var y := After(cfg, steps);
            var d := HistoryOf(y, k).left[i];
            && y.sink.anchor.Some?
            && PlayoutTime(y.sink.anchor, d.item.ns, d.at) <= d.at
            && (d.other.Some? ==> if k.Video? then d.item.ns <= d.other.value else d.item.ns < d.other.value)
  {
    RunKeepsInv(cfg, steps);
    var y := After(cfg, steps);
    KindKept(cfg, y, k);
    hide Inv, After, PlayoutTime, Possible;
    assert TakenRight(y.sink.anchor, k, HistoryOf(y, k).left[i]);
  }

  /** Over its whole life the sink accounts for everything offered to it, and a
      start that takes effect never finds a thread of an earlier one. */
  lemma PlayoutAccounts(cfg: SinkConfig, steps: seq<Step>, k: Kind)
    requires Possible(cfg, steps)
    ensures var y := After(cfg, steps);
            var l, h := LineOf(y.sink, k), HistoryOf(y, k);
            && l.accepted + l.dropped == h.offered + h.trimmed
            && l.accepted == l.delivered + InHand(y, k) + |l.queue| + h.trimmed + h.cleared + h.lost
            && (Enabled(y, Start) && !y.sink.running ==> y.thread.Absent?)
  {
    RunKeepsInv(cfg, steps);
    KindKept(cfg, After(cfg, steps), k);
  }

  /** The playout time is the anchor's plus the media time since, where that fits,
      and a later item never plays out earlier. */
  lemma PlayoutTimeShifts(a: Anchor, ns: u64, ns': u64, now: int)
    requires a.at <= MAX_TIME && ns <= ns'
    ensures PlayoutTime(Some(a), ns, now) <= PlayoutTime(Some(a), ns', now) <= MAX_TIME
    ensures a.ns <= ns && a.at + (ns - a.ns) <= MAX_TIME && ns - a.ns <= MAX_DURATION ==>
              PlayoutTime(Some(a), ns, now) == a.at + (ns - a.ns)
  {
  }

  // ---- the sink in place ---------------------------------------------------------------------

  class SynchronizedFrameSink {
    const cfg: SinkConfig
    const videoMapper: RtpTimestampMapper
    const audioMapper: RtpTimestampMapper
    var running: bool
    var stopRequested: bool
    var outputError: bool
    var videoQueue: seq<Queued>
    var audioQueue: seq<Queued>
    var playoutAnchor: Option<Anchor>
    var videoFramesAccepted: nat
    var audioBlocksAccepted: nat
    var videoFramesDelivered: nat
    var audioBlocksDelivered: nat
    var videoFramesDropped: nat
    var audioBlocksDropped: nat
    var timestampMappingErrors: nat
    var outputErrors: nat

    ghost predicate Valid()
      reads this, videoMapper, audioMapper
    {
      videoMapper != audioMapper && videoMapper.cfg == cfg.videoMapper && audioMapper.cfg == cfg.audioMapper
    }

    ghost function View(): Sink
      reads this, videoMapper, audioMapper
    {
      Sink(running, stopRequested, outputError, playoutAnchor,
           Line(videoMapper.State(), videoQueue, videoFramesAccepted, videoFramesDelivered, videoFramesDropped),
           Line(audioMapper.State(), audioQueue, audioBlocksAccepted, audioBlocksDelivered, audioBlocksDropped),
           timestampMappingErrors, outputErrors)
    }

    constructor (cfg: SinkConfig)
      ensures Valid() && this.cfg == cfg && fresh(videoMapper) && fresh(audioMapper)
      ensures View() == IDLE
    {
      this.cfg := cfg;
      running, stopRequested, outputError := false, false, false;
      videoQueue, audioQueue := [], [];
      playoutAnchor := None;
      videoFramesAccepted, audioBlocksAccepted := 0, 0;
      videoFramesDelivered, audioBlocksDelivered := 0, 0;
      videoFramesDropped, audioBlocksDropped := 0, 0;
      timestampMappingErrors, outputErrors := 0, 0;
      var video := new RtpTimestampMapper(cfg.videoMapper);
      var audio := new RtpTimestampMapper(cfg.audioMapper);
      videoMapper, audioMapper := video, audio;
    }

    method Start()
      requires Valid()
      modifies this
      ensures Valid() && View() == Begin(old(View()))
    {
      if running {
        return;
      }
      stopRequested := false;
      outputError := false;
      playoutAnchor := None;
      videoQueue, audioQueue := [], [];
      running := true;
    }

    method AskStop()
      requires Valid()
      modifies this
      ensures Valid() && View() == Halt(old(View()))
    {
      stopRequested := true;
      running := false;
    }

    method FinishStop()
      requires Valid()
      modifies this
      ensures Valid() && View() == Cleared(old(View()))
    {
      videoQueue, audioQueue := [], [];
      playoutAnchor := None;
    }

    static method InsertSorted(queue: seq<Queued>, item: Queued) returns (r: seq<Queued>)
      ensures r == Inserted(queue, item)
    {
      var it := 0;
      while it < |queue| && queue[it].ns <= item.ns
        invariant it <= |queue|
        invariant NotLater(queue, item.ns) == it + NotLater(queue[it..], item.ns)
      {
        assert queue[it..][1..] == queue[it + 1..];
        it := it + 1;
      }
      r := queue[..it] + [item] + queue[it..];
    }

    method TrimVideoQueue()
      modifies `videoQueue, `videoFramesDropped
      ensures videoQueue == old(videoQueue)[Excess(old(videoQueue), cfg.maxVideo)..]
      ensures videoFramesDropped == old(videoFramesDropped) + Excess(old(videoQueue), cfg.maxVideo)
    {
      ghost var gone := 0;
      while |videoQueue| > cfg.maxVideo
        invariant gone <= |old(videoQueue)| && videoQueue == old(videoQueue)[gone..]
        invariant gone <= Excess(old(videoQueue), cfg.maxVideo)
        invariant videoFramesDropped == old(videoFramesDropped) + gone
      {
        videoQueue := videoQueue[1..];
        videoFramesDropped := videoFramesDropped + 1;
        gone := gone + 1;
      }
    }

    method TrimAudioQueue()
      modifies `audioQueue, `audioBlocksDropped
      ensures audioQueue == old(audioQueue)[Excess(old(audioQueue), cfg.maxAudio)..]
      ensures audioBlocksDropped == old(audioBlocksDropped) + Excess(old(audioQueue), cfg.maxAudio)
    {
      ghost var gone := 0;
      while |audioQueue| > cfg.maxAudio
        invariant gone <= |old(audioQueue)| && audioQueue == old(audioQueue)[gone..]
        invariant gone <= Excess(old(audioQueue), cfg.maxAudio)
        invariant audioBlocksDropped == old(audioBlocksDropped) + gone
      {
        audioQueue := audioQueue[1..];
        audioBlocksDropped := audioBlocksDropped + 1;
        gone := gone + 1;
      }
    }

    method EnsurePlayoutAnchor(ns: u64, now: int)
      modifies `playoutAnchor
      ensures playoutAnchor ==
              if old(playoutAnchor).Some? then old(playoutAnchor) else Some(Anchor(ns, now + Clamp(cfg.delay)))
    {
      if playoutAnchor.Some? {
        return;
      }
      playoutAnchor := Some(Anchor(ns, now + Clamp(cfg.delay)));
    }

    method AcceptVideo(item: Queued, now: int)
      modifies `playoutAnchor, `videoQueue, `videoFramesAccepted, `videoFramesDropped
      ensures playoutAnchor ==
              if old(playoutAnchor).Some? then old(playoutAnchor) else Some(Anchor(item.ns, now + Clamp(cfg.delay)))
      ensures var l := Enqueued(cfg.maxVideo, Line(FRESH, old(videoQueue), old(videoFramesAccepted), 0, old(videoFramesDropped)), item);
              videoQueue == l.queue && videoFramesAccepted == l.accepted && videoFramesDropped == l.dropped
    {
      EnsurePlayoutAnchor(item.ns, now);
      videoQueue := InsertSorted(videoQueue, item);
      TrimVideoQueue();
      videoFramesAccepted := videoFramesAccepted + 1;
    }

    method OnVideoFrame(frame: nat, rtp: u32, now: int)
      requires Valid()
      modifies this, videoMapper
      ensures Valid() && View() == Receive(cfg, old(View()), Video, frame, rtp, now)
    {
      hide Map, Inserted, Clamp, Excess;
      if !cfg.enableVideo {
        return;
      }
      if !running || outputError {
        videoFramesDropped := videoFramesDropped + 1;
        return;
      }
      var mapped := videoMapper.MapTimestamp(rtp);
      if mapped.Err? {
        timestampMappingErrors := timestampMappingErrors + 1;
        videoFramesDropped := videoFramesDropped + 1;
        return;
      }
      AcceptVideo(Queued(frame, rtp, mapped.value), now);
    }

    method AcceptAudio(item: Queued, now: int)
      modifies `playoutAnchor, `audioQueue, `audioBlocksAccepted, `audioBlocksDropped
      ensures playoutAnchor ==
              if old(playoutAnchor).Some? then old(playoutAnchor) else Some(Anchor(item.ns, now + Clamp(cfg.delay)))
      ensures var l := Enqueued(cfg.maxAudio, Line(FRESH, old(audioQueue), old(audioBlocksAccepted), 0, old(audioBlocksDropped)), item);
              audioQueue == l.queue && audioBlocksAccepted == l.accepted && audioBlocksDropped == l.dropped
    {
      EnsurePlayoutAnchor(item.ns, now);
      audioQueue := InsertSorted(audioQueue, item);
      TrimAudioQueue();
      audioBlocksAccepted := audioBlocksAccepted + 1;
    }

    method OnAudioFrame(block: nat, rtp: u32, now: int)
      requires Valid()
      modifies this, audioMapper
      ensures Valid() && View() == Receive(cfg, old(View()), Audio, block, rtp, now)
    {
      hide Map, Inserted, Clamp, Excess;
      if !cfg.enableAudio {
        return;
      }
      if !running || outputError {
        audioBlocksDropped := audioBlocksDropped + 1;
        return;
      }
      var mapped := audioMapper.MapTimestamp(rtp);
      if mapped.Err? {
        timestampMappingErrors := timestampMappingErrors + 1;
        audioBlocksDropped := audioBlocksDropped + 1;
        return;
      }
      AcceptAudio(Queued(block, rtp, mapped.value), now);
    }

    /** One turn of the playout loop under the lock. */
    method TakeDue(now: int) returns (taken: Option<(Kind, Queued)>)
      requires Valid()
      modifies this
      ensures Valid() && (View(), taken) == Take(old(View()), now)
    {
      var pending: Kind;
      if |videoQueue| == 0 && |audioQueue| == 0 {
        return None;
      } else if |videoQueue| == 0 {
        pending := Audio;
      } else if |audioQueue| == 0 {
        pending := Video;
      } else if videoQueue[0].ns <= audioQueue[0].ns {
        pending := Video;
      } else {
        pending := Audio;
      }
      var ns := if pending.Video? then videoQueue[0].ns else audioQueue[0].ns;
      if PlayoutTime(playoutAnchor, ns, now) > now {
        return None;
      }
      if pending.Video? {
        taken := Some((Video, videoQueue[0]));
        videoQueue := videoQueue[1..];
      } else {
        taken := Some((Audio, audioQueue[0]));
        audioQueue := audioQueue[1..];
      }
    }

    /** What the thread records after handing an item on. */
    method FinishHandOver(kind: Kind, ok: bool)
      requires Valid()
      modifies this
      ensures Valid() && View() == HandedOver(old(View()), kind, ok)
    {
      if !ok {
        outputError := true;
        outputErrors := outputErrors + 1;
        stopRequested := true;
        running := false;
      } else if kind.Video? {
        videoFramesDelivered := videoFramesDelivered + 1;
      } else {
        audioBlocksDelivered := audioBlocksDelivered + 1;
      }
    }
  }
}
