/** Wrapping RTP timestamps turned into nanoseconds: an exact conversion in
    64-bit steps, and the refinement of a mapper over unbounded time. */
module RtpTimestamps {
  import opened Arithmetic
  import opened Basics
  import opened CheckedArithmetic

  const NANOSECONDS_PER_SECOND: int := 1_000_000_000
  const AMBIGUOUS_FORWARD_DELTA: int := 0x8000_0000

  datatype AnchorMode = ConfiguredReference | FirstObservedBecomesLocalZero

  datatype MapperConfig = MapperConfig(rate: u32, mode: AnchorMode, anchorRtp: u32, anchorNs: u64)

  datatype MapperState = MapperState(hasOrigin: bool, last: u32, ticks: u64)

  const FRESH := MapperState(false, 0, 0)

  function ForwardDelta(previous: u32, current: u32): Result<u32> {
    var delta: u32 := (current - previous) % TWO_32;
    if delta >= AMBIGUOUS_FORWARD_DELTA then Err(InvalidValue) else Ok(delta)
  }

  // ---- conversion ------------------------------------------------------------------

  /** The product wraps at 64 bits as written; see RestFits for why it never does. */
  function RestNs(rest: u32, rate: u32): u64
    requires rest < rate
  {
    (rest * NANOSECONDS_PER_SECOND % TWO_64) / rate
  }

  /** Whole seconds and the rest apart. */
  function TicksToNs(ticks: u64, rate: u32, anchor: u64): Result<u64> {
    if rate == 0 then Err(InvalidValue)
    else
      var whole := MulU64(ticks / rate, NANOSECONDS_PER_SECOND);
      if whole.None? then Err(InvalidValue)
      else
        var relative := AddU64(whole.value, RestNs(ticks % rate, rate));
        if relative.None? then Err(InvalidValue)
        else
          var absolute := AddU64(anchor, relative.value);
          if absolute.None? then Err(InvalidValue) else Ok(absolute.value)
  }

  /** The exact time of a tick count, rounded down once. */
  function Nanoseconds(ticks: nat, rate: u32): nat
    requires rate > 0
  {
    ticks * NANOSECONDS_PER_SECOND / rate
  }

  lemma QuotientOf(q: nat, width: nat, r: nat)
    requires r < width
    ensures (q * width + r) / width == q
  {
    InRow(q, q + 1, width, r);
    assert (q + 1) * width == q * width + width;
  }

  /** Splitting the seconds off loses nothing. */
  lemma SplitNanoseconds(ticks: nat, rate: u32)
    requires rate > 0
    ensures Nanoseconds(ticks, rate) ==
            ticks / rate * NANOSECONDS_PER_SECOND + ticks % rate * NANOSECONDS_PER_SECOND / rate
  {
    var s: nat, r: nat := ticks / rate, ticks % rate;
    var g: nat := r * NANOSECONDS_PER_SECOND;
    var h: nat, k: nat := g / rate, g % rate;
    var sg: nat := s * NANOSECONDS_PER_SECOND;
    assert ticks == s * rate + r;
    assert s * rate * NANOSECONDS_PER_SECOND == sg * rate;
    assert ticks * NANOSECONDS_PER_SECOND == sg * rate + g;
    assert g == h * rate + k;
    assert (sg + h) * rate == sg * rate + h * rate;
    QuotientOf(sg + h, rate, k);
  }

  /** The product of the rest stays within 64 bits for every 32-bit rate. */
  lemma RestFits(rest: u32, rate: u32)
    requires rest < rate
    ensures RestNs(rest, rate) == rest * NANOSECONDS_PER_SECOND / rate
  {
  }

  /** The conversion succeeds exactly when the true result fits in 64 bits. */
  lemma ConvertsExactly(ticks: u64, rate: u32, anchor: u64)
    requires rate > 0
    ensures TicksToNs(ticks, rate, anchor) ==
            if anchor + Nanoseconds(ticks, rate) < TWO_64 then Ok(anchor + Nanoseconds(ticks, rate))
            else Err(InvalidValue)
  {
    hide Nanoseconds, MulU64, RestNs;
    SplitNanoseconds(ticks, rate);
    MulU64Exactly(ticks / rate, NANOSECONDS_PER_SECOND);
    RestFits(ticks % rate, rate);
  }

  lemma NanosecondsGrow(a: nat, b: nat, rate: u32)
    requires rate > 0 && a <= b
    ensures Nanoseconds(a, rate) <= Nanoseconds(b, rate)
  {
    var x, y := a * NANOSECONDS_PER_SECOND, b * NANOSECONDS_PER_SECOND;
    var p: nat, q: nat := x / rate, y / rate;
    assert x == p * rate + x % rate && y == q * rate + y % rate;
    if q < p {
      Distinct(rate, q, y % rate, p, x % rate);
    }
  }

  // ---- the mapper on values ----------------------------------------------------------

  function EffectiveAnchor(cfg: MapperConfig): u64 {
    if cfg.mode.ConfiguredReference? then cfg.anchorNs else 0
  }

  function Map(cfg: MapperConfig, m: MapperState, t: u32): (MapperState, Result<u64>) {
    if cfg.rate == 0 then (m, Err(InvalidValue))
    else if cfg.mode.FirstObservedBecomesLocalZero? && !m.hasOrigin then (MapperState(true, t, 0), Ok(0))
    else
      var delta := ForwardDelta(if m.hasOrigin then m.last else cfg.anchorRtp, t);
      if delta.Err? then (m, Err(InvalidValue))
      else if m.ticks > TWO_64 - 1 - delta.value then (m, Err(InvalidValue))
      else
        var m' := MapperState(true, t, m.ticks + delta.value);
        (m', TicksToNs(m'.ticks, cfg.rate, EffectiveAnchor(cfg)))
  }

  /** No ticks are counted before there is an origin. */
  predicate MapperInv(m: MapperState) {
    !m.hasOrigin ==> m.ticks == 0
  }

  /** The time the mapper stands at. */
  function Standing(cfg: MapperConfig, m: MapperState): nat {
    if cfg.rate == 0 then 0 else EffectiveAnchor(cfg) + Nanoseconds(m.ticks, cfg.rate)
  }

  /** An accepted timestamp is exactly where the mapper then stands, and it only
      moves forward, whether or not the conversion fits. */
  lemma MapMovesForward(cfg: MapperConfig, m: MapperState, t: u32)
    requires MapperInv(m)
    ensures var (m', r) := Map(cfg, m, t);
            MapperInv(m') && Standing(cfg, m) <= Standing(cfg, m') &&
            (r.Ok? ==> cfg.rate > 0 && m'.hasOrigin && m'.last == t && r.value == Standing(cfg, m'))
  {
    hide Nanoseconds, TicksToNs;
    var (m', r) := Map(cfg, m, t);
    if cfg.rate > 0 {
      NanosecondsGrow(m.ticks, m'.ticks, cfg.rate);
      ConvertsExactly(m'.ticks, cfg.rate, EffectiveAnchor(cfg));
      assert Nanoseconds(0, cfg.rate) == 0 by { NothingIsZero(cfg.rate); }
    }
  }

  lemma NothingIsZero(rate: u32)
    requires rate > 0
    ensures Nanoseconds(0, rate) == 0
  {
    QuotientOf(0, rate, 0);
  }

  function MapRun(cfg: MapperConfig, m: MapperState, ts: seq<u32>): (r: (MapperState, seq<Result<u64>>))
    ensures |r.1| == |ts|
  {
    if ts == [] then (m, [])
    else
      var (m', rest) := MapRun(cfg, m, ts[..|ts| - 1]);
      var (m'', r) := Map(cfg, m', ts[|ts| - 1]);
      (m'', rest + [r])
  }

  lemma {:induction false} RunStands(cfg: MapperConfig, m: MapperState, ts: seq<u32>)
    requires MapperInv(m)
    ensures var (m', rs) := MapRun(cfg, m, ts);
            MapperInv(m') &&
            forall i :: 0 <= i < |rs| && rs[i].Ok? ==> rs[i].value <= Standing(cfg, m')
  {
    if ts != [] {
      RunStands(cfg, m, ts[..|ts| - 1]);
      MapMovesForward(cfg, MapRun(cfg, m, ts[..|ts| - 1]).0, ts[|ts| - 1]);
    }
  }

  /** Over any run, whatever arrives, the accepted times never decrease. */
  lemma {:induction false} TimesNeverDecrease(cfg: MapperConfig, m: MapperState, ts: seq<u32>, i: nat, j: nat)
    requires MapperInv(m) && i < j < |ts|
    ensures var rs := MapRun(cfg, m, ts).1;
            rs[i].Ok? && rs[j].Ok? ==> rs[i].value <= rs[j].value
  {
    var before := MapRun(cfg, m, ts[..|ts| - 1]);
    if j < |ts| - 1 {
      TimesNeverDecrease(cfg, m, ts[..|ts| - 1], i, j);
    } else {
      RunStands(cfg, m, ts[..|ts| - 1]);
      MapMovesForward(cfg, before.0, ts[|ts| - 1]);
    }
  }

  // ---- unbounded time -----------------------------------------------------------------

  /** Where the clock started and the latest time accepted, never wrapping. */
  datatype TrueClock = TrueClock(started: bool, origin: int, latest: int)

  /** True time rounded down once, refused when it moves backwards or the count
      or the result leaves 64 bits. */
  function TrueMap(cfg: MapperConfig, c: TrueClock, time: int): (TrueClock, Result<u64>)
    requires c.origin <= c.latest
  {
    if cfg.rate == 0 then (c, Err(InvalidValue))
    else if cfg.mode.FirstObservedBecomesLocalZero? && !c.started then (TrueClock(true, time, time), Ok(0))
    else if time < c.latest || time - c.origin >= TWO_64 then (c, Err(InvalidValue))
    else
      var ns := EffectiveAnchor(cfg) + Nanoseconds(time - c.origin, cfg.rate);
      (TrueClock(true, c.origin, time), if ns < TWO_64 then Ok(ns) else Err(InvalidValue))
  }

  /** Arrivals stay within half a turn of the latest time accepted. */
  predicate NearLatest(cfg: MapperConfig, c: TrueClock, time: int) {
    (cfg.mode.FirstObservedBecomesLocalZero? && !c.started) || -TWO_31 <= time - c.latest < TWO_31
  }

  /** The wrapping mapper has seen the same times. */
  predicate SameClock(cfg: MapperConfig, m: MapperState, c: TrueClock) {
    && c.origin <= c.latest
    && m.ticks == c.latest - c.origin
    && m.hasOrigin == c.started
    && (m.hasOrigin ==> m.last == c.latest % TWO_32)
    && (!m.hasOrigin ==> c.latest == c.origin && (cfg.mode.ConfiguredReference? ==> cfg.anchorRtp == c.latest % TWO_32))
  }

  /** Half a turn decides the direction. */
  lemma DeltaUnwraps(latest: int, time: int)
    requires -TWO_31 <= time - latest < TWO_31
    ensures ForwardDelta(latest % TWO_32, time % TWO_32) ==
            if time < latest then Err(InvalidValue) else Ok(time - latest)
  {
    var a, b := latest / TWO_32, time / TWO_32;
    var d := time % TWO_32 - latest % TWO_32;
    assert d == time - latest - (b - a) * TWO_32;
    assert -1 <= b - a <= 1;
  }

  lemma MapRefines(cfg: MapperConfig, m: MapperState, c: TrueClock, time: int)
    requires SameClock(cfg, m, c) && NearLatest(cfg, c, time)
    ensures var (m', r) := Map(cfg, m, time % TWO_32);
            var (c', r') := TrueMap(cfg, c, time);
            SameClock(cfg, m', c') && r == r'
  {
    hide Nanoseconds, TicksToNs, ForwardDelta;
    if cfg.rate > 0 && !(cfg.mode.FirstObservedBecomesLocalZero? && !m.hasOrigin) {
      DeltaUnwraps(c.latest, time);
      if c.latest <= time && time - c.origin < TWO_64 {
        ConvertsExactly(time - c.origin, cfg.rate, EffectiveAnchor(cfg));
      }
    }
  }

  function TrueRun(cfg: MapperConfig, c: TrueClock, times: seq<int>): (r: (TrueClock, seq<Result<u64>>))
    requires c.origin <= c.latest
    ensures |r.1| == |times| && r.0.origin <= r.0.latest
  {
    if times == [] then (c, [])
    else
      var (c', rest) := TrueRun(cfg, c, times[..|times| - 1]);
      var (c'', r) := TrueMap(cfg, c', times[|times| - 1]);
      (c'', rest + [r])
  }

  predicate StayNear(cfg: MapperConfig, c: TrueClock, times: seq<int>)
    requires c.origin <= c.latest
  {
    forall i :: 0 <= i < |times| ==> NearLatest(cfg, TrueRun(cfg, c, times[..i]).0, times[i])
  }

  function Wrapped(times: seq<int>): seq<u32> {
    seq(|times|, i requires 0 <= i < |times| => times[i] % TWO_32)
  }

  /** Over any run the wrapping mapper gives what unbounded time gives: the exact
      time for everything that does not move backwards, a refusal for the rest. */
  lemma {:induction false} RunUnwraps(cfg: MapperConfig, m: MapperState, c: TrueClock, times: seq<int>)
    requires SameClock(cfg, m, c) && StayNear(cfg, c, times)
    ensures SameClock(cfg, MapRun(cfg, m, Wrapped(times)).0, TrueRun(cfg, c, times).0)
    ensures MapRun(cfg, m, Wrapped(times)).1 == TrueRun(cfg, c, times).1
  {
    if times != [] {
      var n := |times| - 1;
      forall i | 0 <= i < n
        ensures NearLatest(cfg, TrueRun(cfg, c, times[..n][..i]).0, times[..n][i])
      {
        assert times[..n][..i] == times[..i];
      }
      RunUnwraps(cfg, m, c, times[..n]);
      assert Wrapped(times)[..n] == Wrapped(times[..n]);
      MapRefines(cfg, MapRun(cfg, m, Wrapped(times[..n])).0, TrueRun(cfg, c, times[..n]).0, times[n]);
    }
  }

  // ---- the mapper in place --------------------------------------------------------------

  class RtpTimestampMapper {
    var cfg: MapperConfig
    var hasRuntimeOrigin: bool
    var lastRawRtpTimestamp: u32
    var ticksSinceAnchor: u64

    ghost function State(): MapperState
      reads this
    {
      MapperState(hasRuntimeOrigin, lastRawRtpTimestamp, ticksSinceAnchor)
    }

    constructor (cfg: MapperConfig)
      ensures this.cfg == cfg && State() == FRESH
    {
      this.cfg := cfg;
      hasRuntimeOrigin := false;
      lastRawRtpTimestamp := 0;
      ticksSinceAnchor := 0;
    }

    method MapTimestamp(rtpTimestamp: u32) returns (r: Result<u64>)
      modifies this
      ensures cfg == old(cfg)
      ensures (State(), r) == Map(cfg, old(State()), rtpTimestamp)
    {
      if cfg.rate == 0 {
        return Err(InvalidValue);
      }
      if cfg.mode.FirstObservedBecomesLocalZero? && !hasRuntimeOrigin {
        hasRuntimeOrigin := true;
        lastRawRtpTimestamp := rtpTimestamp;
        ticksSinceAnchor := 0;
        return Ok(0);
      }
      var previous := if hasRuntimeOrigin then lastRawRtpTimestamp else cfg.anchorRtp;
      var delta := ForwardDelta(previous, rtpTimestamp);
      if delta.Err? {
        return Err(InvalidValue);
      }
      if ticksSinceAnchor > TWO_64 - 1 - delta.value {
        return Err(InvalidValue);
      }
      ticksSinceAnchor := ticksSinceAnchor + delta.value;
      lastRawRtpTimestamp := rtpTimestamp;
      hasRuntimeOrigin := true;
      r := TicksToNs(ticksSinceAnchor, cfg.rate, EffectiveAnchor(cfg));
    }

    method Reset(cfg: MapperConfig)
      modifies this
      ensures this.cfg == cfg && State() == FRESH
    {
      this.cfg := cfg;
      hasRuntimeOrigin := false;
      lastRawRtpTimestamp := 0;
      ticksSinceAnchor := 0;
    }
  }
}
