/** Unit grouping: whatever the packet stream, the units the depacketizer ends are
    those of a simple split, which cuts before each key change and, where markers
    terminate units, after each marker. */
module UnitGrouping {
  import opened Basics
  import opened Packets
  import opened VideoFrames
  import opened FrameAssembly
  import opened Depacketizing

  type Group = seq<VideoPacketView>

  /** A unit boundary lies between two consecutive packets. */
  predicate Cut(cfg: Config, a: VideoPacketView, b: VideoPacketView) {
    Terminates(cfg, a) || KeyOf(cfg.mode, a) != KeyOf(cfg.mode, b)
  }

  function Flatten(groups: seq<Group>): seq<VideoPacketView> {
    if groups == [] then [] else Flatten(groups[..|groups| - 1]) + groups[|groups| - 1]
  }

  function Last(g: Group): VideoPacketView
    requires g != []
  {
    g[|g| - 1]
  }

  ghost predicate Whole(cfg: Config, g: Group) {
    g != [] && forall i :: 0 <= i < |g| - 1 ==> !Cut(cfg, g[i], g[i + 1])
  }

  /** The groups in order are the stream, no group is cut inside, and consecutive
      groups are cut apart. */
  ghost predicate IsSplit(cfg: Config, ps: seq<VideoPacketView>, groups: seq<Group>) {
    && Flatten(groups) == ps
    && (forall i :: 0 <= i < |groups| ==> Whole(cfg, groups[i]))
    && (forall i :: 0 <= i < |groups| - 1 ==> Cut(cfg, Last(groups[i]), groups[i + 1][0]))
  }

  function Groups(cfg: Config, ps: seq<VideoPacketView>): (gs: seq<Group>)
    ensures ps != [] ==> gs != [] && gs[|gs| - 1] != [] && Last(gs[|gs| - 1]) == ps[|ps| - 1]
    ensures ps == [] ==> gs == []
  {
    if ps == [] then []
    else
      var n := |ps| - 1;
      var gs := Groups(cfg, ps[..n]);
      if n == 0 || Cut(cfg, ps[n - 1], ps[n]) then gs + [[ps[n]]]
      else gs[..|gs| - 1] + [gs[|gs| - 1] + [ps[n]]]
  }

  lemma StartsGroup(cfg: Config, ps: seq<VideoPacketView>, gs: seq<Group>, p: VideoPacketView)
    requires IsSplit(cfg, ps, gs)
    requires gs != [] ==> gs[|gs| - 1] != [] && Cut(cfg, Last(gs[|gs| - 1]), p)
    ensures IsSplit(cfg, ps + [p], gs + [[p]])
  {
    hide Cut;
    assert (gs + [[p]])[..|gs|] == gs;
  }

  lemma JoinsGroup(cfg: Config, ps: seq<VideoPacketView>, gs: seq<Group>, p: VideoPacketView)
    requires IsSplit(cfg, ps, gs) && gs != []
    requires gs[|gs| - 1] != [] && !Cut(cfg, Last(gs[|gs| - 1]), p)
    ensures IsSplit(cfg, ps + [p], gs[..|gs| - 1] + [gs[|gs| - 1] + [p]])
  {
    hide Cut;
    var m := |gs| - 1;
    assert (gs[..m] + [gs[m] + [p]])[..m] == gs[..m];
  }

  /** The greedy grouping is a split. */
  lemma {:induction false} GroupsSplit(cfg: Config, ps: seq<VideoPacketView>)
    ensures IsSplit(cfg, ps, Groups(cfg, ps))
  {
    if ps != [] {
      hide IsSplit, Flatten, Cut;
      var n := |ps| - 1;
      GroupsSplit(cfg, ps[..n]);
      var gs := Groups(cfg, ps[..n]);
      assert ps == ps[..n] + [ps[n]];
      if n == 0 || Cut(cfg, ps[n - 1], ps[n]) {
        StartsGroup(cfg, ps[..n], gs, ps[n]);
      } else {
        JoinsGroup(cfg, ps[..n], gs, ps[n]);
      }
    }
  }

  lemma LastGroupEndsStream(cfg: Config, ps: seq<VideoPacketView>, gs: seq<Group>)
    requires IsSplit(cfg, ps, gs) && gs != []
    ensures ps != [] && gs[|gs| - 1] != [] && Last(gs[|gs| - 1]) == ps[|ps| - 1]
    ensures Flatten(gs[..|gs| - 1]) + gs[|gs| - 1][..|gs[|gs| - 1]| - 1] == ps[..|ps| - 1]
  {
    hide Cut;
  }

  /** A last group of one packet follows a cut, and the rest splits the rest. */
  lemma SingleSplit(cfg: Config, ps: seq<VideoPacketView>, gs: seq<Group>)
    requires IsSplit(cfg, ps, gs) && gs != [] && |gs[|gs| - 1]| == 1
    ensures ps != [] && gs == gs[..|gs| - 1] + [[ps[|ps| - 1]]]
    ensures IsSplit(cfg, ps[..|ps| - 1], gs[..|gs| - 1])
    ensures |ps| == 1 || Cut(cfg, ps[|ps| - 2], ps[|ps| - 1])
  {
    hide Cut;
    LastGroupEndsStream(cfg, ps, gs);
    var m := |gs| - 1;
    assert gs[m] == [Last(gs[m])];
    if m > 0 {
      LastGroupEndsStream(cfg, ps[..|ps| - 1], gs[..m]);
      assert Cut(cfg, Last(gs[m - 1]), gs[m][0]);
    }
  }

  /** A longer last group goes on where there is no cut, and shortened still splits
      the rest. */
  lemma LongerSplit(cfg: Config, ps: seq<VideoPacketView>, gs: seq<Group>)
    requires IsSplit(cfg, ps, gs) && gs != [] && |gs[|gs| - 1]| > 1
    ensures |ps| > 1 && !Cut(cfg, ps[|ps| - 2], ps[|ps| - 1])
    ensures var m := |gs| - 1;
            var shorter := gs[m][..|gs[m]| - 1];
            && IsSplit(cfg, ps[..|ps| - 1], gs[..m] + [shorter])
            && gs == gs[..m] + [shorter + [ps[|ps| - 1]]]
  {
    hide Cut;
    LastGroupEndsStream(cfg, ps, gs);
    var g := gs[|gs| - 1];
    assert !Cut(cfg, g[|g| - 2], g[|g| - 1]);
    assert g == g[..|g| - 1] + [ps[|ps| - 1]];
    assert ps[|ps| - 2] == g[|g| - 2] by {
      assert ps[..|ps| - 1][|ps| - 2] == g[..|g| - 1][|g| - 2];
    }
  }

  /** There is only one such split. */
  lemma {:induction false} SplitUnique(cfg: Config, ps: seq<VideoPacketView>, gs: seq<Group>)
    requires IsSplit(cfg, ps, gs)
    ensures gs == Groups(cfg, ps)
    decreases |ps|
  {
    if gs == [] {
      assert ps == [];
    } else {
      LastGroupEndsStream(cfg, ps, gs);
      hide IsSplit, Cut, Flatten;
      var n, m := |ps| - 1, |gs| - 1;
      if |gs[m]| == 1 {
        SingleSplit(cfg, ps, gs);
        SplitUnique(cfg, ps[..n], gs[..m]);
      } else {
        LongerSplit(cfg, ps, gs);
        var shorter := gs[m][..|gs[m]| - 1];
        SplitUnique(cfg, ps[..n], gs[..m] + [shorter]);
        assert (gs[..m] + [shorter])[..m] == gs[..m];
      }
    }
  }

  // ---- what a group assembles to ------------------------------------------------

  ghost predicate GroupFits(cfg: Config, g: Group) {
    g != [] && forall i :: 0 <= i < |g| ==> PacketFits(cfg, g[i]) && KeyOf(cfg.mode, g[i]) == KeyOf(cfg.mode, g[0])
  }

  /** The unit of a group just before its last packet is written. */
  ghost function GroupBefore(cfg: Config, g: Group): (a: Assembler)
    requires GroupFits(cfg, g)
    ensures a.Valid() && Shaped(cfg, KeyOf(cfg.mode, g[0]), a)
    decreases |g|, 0
  {
    var n := |g| - 1;
    if n == 0 then FreshAssembler(cfg, KeyOf(cfg.mode, g[0]), g[0].receiveTimestamp) else GroupAssembler(cfg, g[..n])
  }

  /** The segments of a group written one after the other into a fresh unit. */
  ghost function GroupAssembler(cfg: Config, g: Group): (a: Assembler)
    requires GroupFits(cfg, g)
    ensures a.Valid() && Shaped(cfg, KeyOf(cfg.mode, g[0]), a)
    decreases |g|, 1
  {
    WriteAll(GroupBefore(cfg, g), OpsOf(cfg.format, g[|g| - 1].segments))
  }

  /** A group ended at a marker has seen it; one ended by a key change has not. */
  ghost function GroupEnd(cfg: Config, g: Group): (Option<AssembledUnit>, EndStatus)
    requires GroupFits(cfg, g)
  {
    var (_, unit, status) := EndUnit(GroupAssembler(cfg, g), Terminates(cfg, Last(g)), true);
    (unit, status)
  }

  ghost predicate AllGroupsFit(cfg: Config, gs: seq<Group>) {
    forall i :: 0 <= i < |gs| ==> GroupFits(cfg, gs[i])
  }

  ghost function Emitted(cfg: Config, gs: seq<Group>): seq<AssembledUnit>
    requires AllGroupsFit(cfg, gs)
  {
    if gs == [] then []
    else
      var n := |gs| - 1;
      Emitted(cfg, gs[..n]) + UnitsOf(GroupEnd(cfg, gs[n]).0, KeyOf(cfg.mode, gs[n][0]))
  }

  /** How many of the groups ended with a status. */
  ghost function Tally(cfg: Config, gs: seq<Group>, status: EndStatus): nat
    requires AllGroupsFit(cfg, gs)
  {
    if gs == [] then 0
    else
      var n := |gs| - 1;
      Tally(cfg, gs[..n], status) + if GroupEnd(cfg, gs[n]).1 == status then 1 else 0
  }

  /** The groups that have ended: the last one only if a marker terminated it. */
  function Ended(cfg: Config, gs: seq<Group>): seq<Group>
    requires gs != [] ==> gs[|gs| - 1] != []
  {
    if gs != [] && !Terminates(cfg, Last(gs[|gs| - 1])) then gs[..|gs| - 1] else gs
  }

  ghost predicate StreamFits(cfg: Config, ps: seq<VideoPacketView>) {
    forall i :: 0 <= i < |ps| ==> PacketFits(cfg, ps[i])
  }

  ghost function Run(cfg: Config, ps: seq<VideoPacketView>): (r: (Depack, seq<AssembledUnit>))
    requires Layout(cfg.width, cfg.height, cfg.format).Some? && StreamFits(cfg, ps)
    ensures r.0.Valid() && r.0.cfg == cfg
  {
    if ps == [] then (FreshDepack(cfg), [])
    else
      var n := |ps| - 1;
      var (s, out) := Run(cfg, ps[..n]);
      var (s1, more) := Push(s, ps[n]);
      (s1, out + more)
  }

  /** What was emitted and counted, in terms of the groups that have ended. */
  ghost predicate Accounts(cfg: Config, ended: seq<Group>, stats: Stats, out: seq<AssembledUnit>) {
    && AllGroupsFit(cfg, ended)
    && out == Emitted(cfg, ended)
    && stats.ok == Tally(cfg, ended, EmittedComplete)
    && stats.partial == Tally(cfg, ended, EmittedPartial)
    && stats.dropped == Tally(cfg, ended, DroppedPartial)
    && stats.Ended() == |ended|
  }

  /** The state of the depacketizer in terms of the split. */
  ghost predicate Follows(cfg: Config, gs: seq<Group>, s: Depack, out: seq<AssembledUnit>) {
    && AllGroupsFit(cfg, gs)
    && Accounts(cfg, Ended(cfg, gs), s.stats, out)
    && if |Ended(cfg, gs)| == |gs| then s.key.None?
       else s.key == Some(KeyOf(cfg.mode, gs[|gs| - 1][0])) && s.asm == GroupAssembler(cfg, gs[|gs| - 1])
  }

  lemma {:induction false} SplitFits(cfg: Config, ps: seq<VideoPacketView>, gs: seq<Group>)
    requires IsSplit(cfg, ps, gs) && StreamFits(cfg, ps)
    ensures AllGroupsFit(cfg, gs)
  {
    if gs != [] {
      var m := |gs| - 1;
      var init := Flatten(gs[..m]);
      assert ps == init + gs[m];
      assert init == ps[..|init|];
      SplitFits(cfg, init, gs[..m]);
      forall i | 0 <= i < |gs| ensures GroupFits(cfg, gs[i]) {
        if i == m {
          forall j | 0 <= j < |gs[m]| ensures PacketFits(cfg, gs[m][j]) {
            assert gs[m][j] == ps[|init| + j];
          }
          SameKey(cfg, gs[m], |gs[m]| - 1);
        } else {
          assert GroupFits(cfg, gs[..m][i]);
        }
      }
    }
  }

  lemma {:induction false} SameKey(cfg: Config, g: Group, n: nat)
    requires Whole(cfg, g) && n < |g|
    ensures forall i :: 0 <= i <= n ==> KeyOf(cfg.mode, g[i]) == KeyOf(cfg.mode, g[0])
  {
    if n > 0 {
      SameKey(cfg, g, n - 1);
      assert !Cut(cfg, g[n - 1], g[n]);
    }
  }

  // ---- one push ------------------------------------------------------------------

  lemma EndOutcome(cfg: Config, g: Group)
    requires GroupFits(cfg, g)
    ensures GroupEnd(cfg, g).1 != NotEmittable
  {
  }

  /** Ending the unit of a group accounts for one more group. */
  lemma CloseAccounts(cfg: Config, ended: seq<Group>, g: Group, s: Depack, out: seq<AssembledUnit>)
    requires AllGroupsFit(cfg, ended) && GroupFits(cfg, g) && s.Valid()
    requires s.key == Some(KeyOf(cfg.mode, g[0])) && s.asm == GroupAssembler(cfg, g)
    requires Accounts(cfg, ended, s.stats, out)
    ensures var (t, more) := CloseUnit(s, Terminates(cfg, Last(g)));
            Accounts(cfg, ended + [g], t.stats, out + more)
  {
    hide Layout;
    hide AllFit;
    hide GroupAssembler;
    var all := ended + [g];
    assert all[..|ended|] == ended;
    EndOutcome(cfg, g);
  }

  /** The stream seen so far, split, and the split once packet p has come. */
  ghost predicate Extends(cfg: Config, gs: seq<Group>, p: VideoPacketView, all: seq<Group>) {
    if gs == [] || gs[|gs| - 1] == [] || Cut(cfg, Last(gs[|gs| - 1]), p) then all == gs + [[p]]
    else all == gs[..|gs| - 1] + [gs[|gs| - 1] + [p]]
  }

  /** The unit of the last group is open for packet p, which is not yet written. */
  ghost predicate ReadyFor(cfg: Config, all: seq<Group>, s: Depack, out: seq<AssembledUnit>, p: VideoPacketView) {
    && all != [] && AllGroupsFit(cfg, all)
    && var m := |all| - 1;
       && all[m] != []
       && Accounts(cfg, all[..m], s.stats, out)
       && s.key == Some(KeyOf(cfg.mode, all[m][0])) && s.asm == GroupBefore(cfg, all[m])
       && Last(all[m]) == p
  }

  lemma StartFollows(cfg: Config, gs: seq<Group>, s: Depack, out: seq<AssembledUnit>, p: VideoPacketView)
    requires AllGroupsFit(cfg, gs) && AllGroupsFit(cfg, gs + [[p]])
    requires gs == [] || (gs[|gs| - 1] != [] && Cut(cfg, Last(gs[|gs| - 1]), p))
    requires s.Valid() && s.cfg == cfg && PacketFits(cfg, p) && Follows(cfg, gs, s, out)
    ensures ReadyFor(cfg, gs + [[p]], Prepare(s, p).0, out + Prepare(s, p).1, p)
  {
    hide Layout;
    hide AllFit;
    hide FreshAssembler;
    hide GroupAssembler;
    hide Accounts;
    hide CloseUnit;
    hide KeyOf;
    assert s.key.Some? ==> s.key.value != KeyOf(cfg.mode, p);
    hide Cut, GroupFits;
    var all := gs + [[p]];
    assert all[..|gs|] == gs && all[|gs|] == [p];
    var ended := Ended(cfg, gs);
    KeepAccounts(cfg, ended, s.stats, out);
    if s.key.Some? {
      var g := gs[|gs| - 1];
      assert ended + [g] == gs;
      CloseAccounts(cfg, ended, g, s.(stats := s.stats.(packetsIn := s.stats.packetsIn + 1)), out);
    }
  }

  lemma JoinFollows(cfg: Config, gs: seq<Group>, all: seq<Group>, s: Depack, out: seq<AssembledUnit>, p: VideoPacketView)
    requires gs != [] && gs[|gs| - 1] != [] && !Cut(cfg, Last(gs[|gs| - 1]), p)
    requires all == gs[..|gs| - 1] + [gs[|gs| - 1] + [p]]
    requires AllGroupsFit(cfg, gs) && AllGroupsFit(cfg, all)
    requires s.Valid() && s.cfg == cfg && PacketFits(cfg, p) && Follows(cfg, gs, s, out)
    ensures ReadyFor(cfg, all, Prepare(s, p).0, out + Prepare(s, p).1, p)
  {
    hide Layout;
    hide AllFit;
    hide FreshAssembler;
    hide GroupAssembler;
    hide Accounts;
    hide CloseUnit;
    hide KeyOf;
    var m := |gs| - 1;
    assert all[..m] == gs[..m] == Ended(cfg, gs) && all[m][..|all[m]| - 1] == gs[m];
    KeepAccounts(cfg, gs[..m], s.stats, out);
  }

  lemma PrepareFollows(cfg: Config, gs: seq<Group>, all: seq<Group>, s: Depack, out: seq<AssembledUnit>, p: VideoPacketView)
    requires AllGroupsFit(cfg, gs) && AllGroupsFit(cfg, all) && Extends(cfg, gs, p, all)
    requires s.Valid() && s.cfg == cfg && PacketFits(cfg, p) && Follows(cfg, gs, s, out)
    ensures ReadyFor(cfg, all, Prepare(s, p).0, out + Prepare(s, p).1, p)
  {
    hide Layout;
    hide AllFit;
    hide Prepare;
    hide GroupAssembler;
    hide Accounts;
    hide Cut;
    hide KeyOf;
    assert gs != [] ==> GroupFits(cfg, gs[|gs| - 1]);
    if gs == [] || Cut(cfg, Last(gs[|gs| - 1]), p) {
      StartFollows(cfg, gs, s, out, p);
    } else {
      JoinFollows(cfg, gs, all, s, out, p);
    }
  }

  /** The packet counters play no part. */
  lemma KeepAccounts(cfg: Config, ended: seq<Group>, stats: Stats, out: seq<AssembledUnit>)
    requires Accounts(cfg, ended, stats, out)
    ensures forall a: nat, b: nat :: Accounts(cfg, ended, stats.(packetsIn := a, packetsUsed := b), out)
    ensures forall a: nat :: Accounts(cfg, ended, stats.(packetsIn := a), out + [])
    ensures forall b: nat :: Accounts(cfg, ended, stats.(packetsUsed := b), out)
  {
  }

  lemma WriteFollows(cfg: Config, all: seq<Group>, s: Depack, out: seq<AssembledUnit>, p: VideoPacketView)
    requires PacketFits(cfg, p) && ReadyFor(cfg, all, s, out, p)
    requires s.Valid() && s.cfg == cfg && s.key == Some(KeyOf(cfg.mode, p))
    ensures var t := WritePacket(s, p);
            && t.key == s.key && t.cfg == cfg
            && t.asm == GroupAssembler(cfg, all[|all| - 1])
            && Accounts(cfg, all[..|all| - 1], t.stats, out)
  {
    hide Layout;
    hide AllFit;
    hide WriteAll;
    hide Accounts;
    hide GroupBefore;
    hide KeyOf;
    KeepAccounts(cfg, all[..|all| - 1], s.stats, out);
  }

  lemma FinishFollows(cfg: Config, all: seq<Group>, s: Depack, out: seq<AssembledUnit>, p: VideoPacketView)
    requires all != [] && AllGroupsFit(cfg, all) && Last(all[|all| - 1]) == p
    requires s.Valid() && s.cfg == cfg && s.key == Some(KeyOf(cfg.mode, all[|all| - 1][0]))
    requires s.asm == GroupAssembler(cfg, all[|all| - 1])
    requires Accounts(cfg, all[..|all| - 1], s.stats, out)
    ensures Follows(cfg, all, Finish(s, p).0, out + Finish(s, p).1)
  {
    hide Layout;
    hide AllFit;
    hide Accounts;
    hide GroupAssembler;
    var m := |all| - 1;
    assert all[..m] + [all[m]] == all;
    if Terminates(cfg, p) {
      CloseAccounts(cfg, all[..m], all[m], s, out);
    } else {
      assert out + [] == out;
    }
  }

  lemma PushFollows(cfg: Config, gs: seq<Group>, all: seq<Group>, s: Depack, out: seq<AssembledUnit>, p: VideoPacketView)
    requires AllGroupsFit(cfg, gs) && AllGroupsFit(cfg, all) && Extends(cfg, gs, p, all)
    requires s.Valid() && s.cfg == cfg && PacketFits(cfg, p) && Follows(cfg, gs, s, out)
    ensures Follows(cfg, all, Push(s, p).0, out + Push(s, p).1)
  {
    hide Layout;
    hide AllFit;
    hide Prepare;
    hide WritePacket;
    hide Finish;
    hide Accounts;
    hide Follows;
    hide GroupBefore;
    hide GroupAssembler;
    hide AllGroupsFit;
    hide PacketFits;
    hide KeyOf;
    hide Extends;
    PrepareFollows(cfg, gs, all, s, out, p);
    var (s1, more) := Prepare(s, p);
    WriteFollows(cfg, all, s1, out + more, p);
    var s2 := WritePacket(s1, p);
    FinishFollows(cfg, all, s2, out + more, p);
    assert out + (more + Finish(s2, p).1) == (out + more) + Finish(s2, p).1;
  }

  lemma CloseCounts(s: Depack, marker: bool)
    requires s.Valid() && s.key.Some?
    ensures var (t, out) := CloseUnit(s, marker);
            && |out| <= 1 && t.stats.Ended() == s.stats.Ended() + 1
            && t.stats.packetsIn == s.stats.packetsIn && t.stats.packetsUsed == s.stats.packetsUsed
  {
  }

  /** One push uses its packet and ends at most two units. */
  lemma AtMostTwo(s: Depack, p: VideoPacketView)
    requires s.Valid() && PacketFits(s.cfg, p)
    ensures var (t, out) := Push(s, p);
            && |out| <= t.stats.Ended() - s.stats.Ended() <= 2
            && t.stats.packetsIn == s.stats.packetsIn + 1 && t.stats.packetsUsed == s.stats.packetsUsed + 1
  {
    hide Layout;
    hide AllFit;
    hide CloseUnit;
    hide WriteAll;
    hide FreshAssembler;
    var s0 := s.(stats := s.stats.(packetsIn := s.stats.packetsIn + 1));
    if s.key.Some? {
      CloseCounts(s0, false);
    }
    CloseCounts(WritePacket(Prepare(s, p).0, p), true);
  }

  lemma GroupsExtend(cfg: Config, ps: seq<VideoPacketView>)
    requires ps != []
    ensures Extends(cfg, Groups(cfg, ps[..|ps| - 1]), ps[|ps| - 1], Groups(cfg, ps))
  {
  }

  /** Unit grouping: over any packet stream the units emitted are those of the
      groups of the split that have ended, in order; the open unit holds the last
      group; every ended group is counted once; and every packet is used. */
  lemma {:induction false} UnitsAreGroups(cfg: Config, ps: seq<VideoPacketView>)
    requires Layout(cfg.width, cfg.height, cfg.format).Some? && StreamFits(cfg, ps)
    ensures AllGroupsFit(cfg, Groups(cfg, ps))
    ensures Follows(cfg, Groups(cfg, ps), Run(cfg, ps).0, Run(cfg, ps).1)
    ensures Run(cfg, ps).0.stats.packetsIn == Run(cfg, ps).0.stats.packetsUsed == |ps|
  {
    GroupsSplit(cfg, ps);
    SplitFits(cfg, ps, Groups(cfg, ps));
    if ps != [] {
      hide Layout;
      hide Push;
      hide Follows;
      hide Groups;
      hide AllGroupsFit;
      hide PacketFits;
      var n := |ps| - 1;
      UnitsAreGroups(cfg, ps[..n]);
      GroupsExtend(cfg, ps);
      PushFollows(cfg, Groups(cfg, ps[..n]), Groups(cfg, ps), Run(cfg, ps[..n]).0, Run(cfg, ps[..n]).1, ps[n]);
      AtMostTwo(Run(cfg, ps[..n]).0, ps[n]);
    }
  }
}
