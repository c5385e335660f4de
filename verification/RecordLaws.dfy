/** What the memory of engagements records over runs of ticks: when each started, when it was last commanded, and how
    long its track has been of low confidence (src/decision/mission_behavior_tree.cpp:384-430, 512-520, 586-596). */
module RecordLaws {
  import opened Basics
  import opened Mission
  import opened MissionTick
  import opened MissionLaws
  import opened AllocationLaws
  import opened EngagementRules
  import ClosedLoop

  /** a is new at this time. */
  ghost predicate IsNew(a: Active, time: real) {
    a.startTime == time && a.lastCommandTime == time && a.missingTicks == 0 && a.lowConfidenceTicks == 0
  }

  /** a carries on what p recorded of the same track, whoever flies there now. */
  ghost predicate CarriesOn(p: Active, a: Active) {
    && a.trackId == p.trackId && a.startTime == p.startTime && a.lastCommandTime == p.lastCommandTime
    && a.missingTicks == p.missingTicks && a.lowConfidenceTicks == p.lowConfidenceTicks
  }

  ghost predicate Known(actives: seq<Active>, time: real, a: Active) {
    IsNew(a, time) || exists p :: p in actives && CarriesOn(p, a)
  }

  lemma {:induction false} RefreshedKnows(before: seq<Active>, actives: seq<Active>, track: nat, interceptor: nat,
                                          time: real)
    requires forall a | a in actives :: Known(before, time, a)
    ensures forall a | a in Refreshed(actives, track, interceptor, time) :: Known(before, time, a)
  {
    var r := Refreshed(actives, track, interceptor, time);
    forall a | a in r ensures Known(before, time, a) {
      var k :| 0 <= k < |r| && r[k] == a;
      if k < |actives| {
        assert actives[k] in actives;
        if p :| p in before && CarriesOn(p, actives[k]) {
          assert CarriesOn(p, a);
        }
      }
    }
  }

  lemma {:induction false} RefreshedAllKnows(before: seq<Active>, actives: seq<Active>,
                                             interceptors: seq<InterceptorFact>, time: real)
    requires forall a | a in actives :: Known(before, time, a)
    ensures forall a | a in RefreshedAll(actives, interceptors, time) :: Known(before, time, a)
  {
    if interceptors != [] {
      var n := |interceptors| - 1;
      RefreshedAllKnows(before, actives, interceptors[..n], time);
      hide Refreshed;
      RefreshedKnows(before, RefreshedAll(actives, interceptors[..n], time), interceptors[n].targetId,
                     interceptors[n].interceptorId, time);
    }
  }

  lemma {:induction false} MergedKnows(actives: seq<Active>, snap: Snapshot)
    ensures forall a | a in Merged(actives, snap) :: Known(actives, snap.time, a)
  {
    forall a | a in actives ensures Known(actives, snap.time, a) {
      assert CarriesOn(a, a);
    }
    var e := snap.board.engagement;
    hide Refreshed, RefreshedAll;
    RefreshedKnows(actives, actives, e.trackId, e.interceptorId, snap.time);
    RefreshedAllKnows(actives, if e.active then Refreshed(actives, e.trackId, e.interceptorId, snap.time) else actives,
                      snap.interceptors, snap.time);
  }

  /** a is what a tick makes of the entry m of a track it maintains. */
  ghost predicate Maintained(cfg: Config, snap: Snapshot, m: Active, a: Active) {
    && a.trackId == m.trackId && a.interceptorId == m.interceptorId && a.startTime == m.startTime
    && a.lastCommandTime == m.lastCommandTime && a.missingTicks == 0
    && (exists t :: t in snap.tracks && t.trackId == a.trackId && t.status != Deleted
                    && a.lowConfidenceTicks == if t.confidence < cfg.minConfidence then m.lowConfidenceTicks + 1 else 0)
    && (exists i :: i in snap.interceptors && i.interceptorId == a.interceptorId && i.engaged
                    && i.targetId == a.trackId)
  }

  lemma {:induction false} MaintainTells(cfg: Config, snap: Snapshot, actives: seq<Active>, a: Active)
    requires forall m | m in actives :: RemovalOf(snap, m).None?
    requires a in MaintainAll(cfg, snap, actives).actives
    ensures exists m :: m in actives && Maintained(cfg, snap, m, a)
  {
    var n := |actives| - 1;
    assert actives == actives[..n] + [actives[n]];
    SurvivorAgrees(snap, actives[n]);
    if a in MaintainAll(cfg, snap, actives[..n]).actives {
      MaintainTells(cfg, snap, actives[..n], a);
    } else {
      assert Maintained(cfg, snap, actives[n], a);
    }
  }

  /** A command of the tick sends the interceptor of a to its track. */
  ghost predicate IsCommanded(cfg: Config, mem: Memory, snap: Snapshot, a: Active) {
    exists c :: c in Tick(cfg, mem, snap).result.commands && c.trackId == a.trackId
                && c.interceptorId == a.interceptorId
  }

  lemma {:induction false} KeptTells(cfg: Config, mem: Memory, snap: Snapshot, a: Active)
    requires a in Kept(cfg, mem, snap)
    ensures exists m :: Known(mem.actives, snap.time, m) && Maintained(cfg, snap, m, a)
  {
    var survivors := Survivors(mem, snap);
    hide MaintainAll, Merged, Known, Maintained;
    MaintainTells(cfg, snap, survivors, a);
    var m :| m in survivors && Maintained(cfg, snap, m, a);
    MergedKnows(mem.actives, snap);
    assert m in Merged(mem.actives, snap);
  }

  /** What a tick adds to the engagements it kept, it commands. */
  lemma {:induction false} NewIsCommanded(cfg: Config, mem: Memory, snap: Snapshot, a: Active)
    requires WellFormed(snap) && a in Tick(cfg, mem, snap).memory.actives && a !in Kept(cfg, mem, snap)
    ensures IsNew(a, snap.time) && IsCommanded(cfg, mem, snap, a)
  {
    var kept, idle := Kept(cfg, mem, snap), IdleOnes(snap.interceptors);
    var alloc := Allocated(cfg, mem, snap);
    TickCommands(cfg, mem, snap);
    ClosedLoop.IdleIsDistinct(snap.interceptors);
    AllocateShape(SceneOf(cfg, mem, snap), idle, kept);
    hide Tick, Allocate, ChosenSwap, Kept, IdleOnes, WellFormed;
    var cmds := Tick(cfg, mem, snap).result.commands;
    if alloc.pairs != [] {
      var k :| 0 <= k < |alloc.pairs| && NewActives(alloc.pairs, snap.time)[k] == a;
      assert cmds[k] in cmds;
    } else {
      assert cmds[0] in cmds;
    }
  }

  /** Every engagement remembered after a tick was commanded in it and starts now, or was maintained in it: it keeps
      its times, and counts one more tick of low confidence or none. */
  lemma {:induction false} RecordTells(cfg: Config, mem: Memory, snap: Snapshot, a: Active)
    requires WellFormed(snap) && a in Tick(cfg, mem, snap).memory.actives
    ensures || (IsNew(a, snap.time) && IsCommanded(cfg, mem, snap, a))
            || exists m :: Known(mem.actives, snap.time, m) && Maintained(cfg, snap, m, a)
  {
    hide Known, Maintained, Tick, Kept, IsCommanded;
    if a in Kept(cfg, mem, snap) {
      KeptTells(cfg, mem, snap, a);
    } else {
      NewIsCommanded(cfg, mem, snap, a);
    }
  }

  // ---------------------------------------------------------------- runs

  /** The memory holds an engagement of this track that started then. */
  ghost predicate Holds(mem: Memory, track: nat, start: real) {
    exists b :: b in mem.actives && b.trackId == track && b.startTime == start
  }

  /** The engagement of a track that started then started with snapshot j, and has been remembered up to memory k. */
  ghost predicate StartedAt(snaps: seq<Snapshot>, mems: seq<Memory>, j: nat, k: nat, track: nat, start: real)
    requires j < k <= |snaps| < |mems|
  {
    snaps[j].time == start && forall m | j < m <= k :: Holds(mems[m], track, start)
  }

  lemma {:induction false} BeforeThat(cfg: Config, mem: Memory, snap: Snapshot, a: Active)
    requires WellFormed(snap) && a in Tick(cfg, mem, snap).memory.actives
    ensures a.startTime == snap.time || Holds(mem, a.trackId, a.startTime)
  {
    hide Tick, IsCommanded;
    RecordTells(cfg, mem, snap, a);
    if m :| Known(mem.actives, snap.time, m) && Maintained(cfg, snap, m, a) {
      if p :| p in mem.actives && CarriesOn(p, m) {
        assert Holds(mem, a.trackId, a.startTime);
      }
    }
  }

  /** The start time of an engagement is that of the snapshot it started with, and it has been remembered ever since. */
  lemma {:induction false} StartIsRecorded(cfg: Config, snaps: seq<Snapshot>, mems: seq<Memory>, k: nat, a: Active)
    returns (j: nat)
    requires IsRun(cfg, snaps, mems) && k <= |snaps| && a in mems[k].actives
    ensures j < k && StartedAt(snaps, mems, j, k, a.trackId, a.startTime)
  {
    hide Tick, WellFormed;
    j := k - 1;
    assert Holds(mems[k], a.trackId, a.startTime);
    BeforeThat(cfg, mems[k-1], snaps[k-1], a);
    if a.startTime != snaps[k-1].time {
      var b :| b in mems[k-1].actives && b.trackId == a.trackId && b.startTime == a.startTime;
      j := StartIsRecorded(cfg, snaps, mems, k - 1, b);
    }
  }

  // ---------------------------------------------------------------- the counts a tick reports

  lemma {:induction false} AllocateLeaves(sc: Scene, idle: seq<InterceptorFact>, actives: seq<Active>)
    ensures var a := Allocate(sc, idle, actives); |a.idle| + |a.pairs| == |idle|
    decreases |idle|
  {
    AllocateUnfolds(sc, idle, actives);
    hide Allocate, ScanAll;
    var c := ScanAll(sc, idle, actives, |idle|);
    if c.Some? {
      AllocateLeaves(sc, Removed(idle, c.value.interceptor), RestActives(sc, idle, actives, c.value));
    }
  }

  /** The idle interceptors reported are the ones there were but for those sent out, the engagements reported are the
      ones reconciliation left and those sent out, and every other one it looked at is reported as removed. */
  lemma {:induction false} CountsTell(cfg: Config, mem: Memory, snap: Snapshot)
    requires WellFormed(snap)
    ensures var out := Tick(cfg, mem, snap);
            var r := out.result;
            var sent := if r.assignmentReason == Some(IdleAssignment) then |r.commands| else 0;
            && r.idleCount + sent == |IdleOnes(snap.interceptors)|
            && r.activeCount == |out.memory.actives| && r.activeAfterReconcile + sent == r.activeCount
            && r.removals + r.activeAfterReconcile == |Merged(mem.actives, snap)|
  {
    var survivors := Survivors(mem, snap);
    SurvivorsAreMaintained(cfg, snap, survivors);
    var sc, kept, idle := SceneOf(cfg, mem, snap), MaintainAll(cfg, snap, survivors), IdleOnes(snap.interceptors);
    AllocateLeaves(sc, idle, kept.actives);
    AllocateGrows(sc, idle, kept.actives);
    if Allocated(cfg, mem, snap).pairs == [] && !kept.maintained {
      var merged := Merged(mem.actives, snap);
      FallbackIsSilent(cfg, mem, snap,
                       Blank(snap, Prepared(cfg, mem, snap), |merged|, |Allocated(cfg, mem, snap).idle|, kept.event),
                       BoardAfterReconcile(snap, merged));
    }
    hide Allocate, MaintainAll, Merged, Reconciled, IdleOnes, WellFormed, ScanSwaps, ChosenSwap, NextStables, TickNode;
    hide HighestPriority, BoardAfterReconcile, StableTicksFor;
  }
}
