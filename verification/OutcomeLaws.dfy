/** What a tick reports and leaves behind besides its commands: the event, the blackboard's engagement, and the counters
    of the memory (src/decision/mission_behavior_tree.cpp:340-629, 648-700). */
module OutcomeLaws {
  import opened Basics
  import opened Mission
  import opened MissionTick
  import opened MissionLaws
  import opened AllocationLaws
  import opened EngagementRules
  import RetaskLaws
  import opened ScoreLaws
  import opened RefusalLaws

  // ---------------------------------------------------------------- counters

  /** The count of ticks in mode Engage runs on in that mode and falls to zero in any other. */
  lemma {:induction false} EngageTicksTell(cfg: Config, mem: Memory, snap: Snapshot)
    requires WellFormed(snap)
    ensures var out := Tick(cfg, mem, snap);
            out.memory.consecutiveEngageTicks ==
            if out.result.mode == EngageMode then mem.consecutiveEngageTicks + 1 else 0
  {
    ModeIsMeaningful(cfg, mem, snap);
    TickCommands(cfg, mem, snap);
    SurvivorsAreMaintained(cfg, snap, Survivors(mem, snap));
    hide Allocate, MaintainAll, Merged, Reconciled, IdleOnes, WellFormed, ScanSwaps, ChosenSwap, NextStables, TickNode;
    hide HighestPriority, BoardAfterReconcile, StableTicksFor;
  }

  /** The memory names the foremost confirmed track and how many ticks in a row it has been confirmed. */
  lemma {:induction false} StableTrackTells(cfg: Config, mem: Memory, snap: Snapshot)
    requires WellFormed(snap)
    ensures var m := Tick(cfg, mem, snap).memory;
            && (forall t | IsForemost(snap.tracks, t, true) ::
                  m.stableTrackId == t.trackId && m.consecutiveTrackTicks == StableTicksFor(mem.stables, t.trackId) + 1)
            && ((forall t | t in snap.tracks :: t.status != Confirmed) ==>
                  m.stableTrackId == 0 && m.consecutiveTrackTicks == 0)
  {
    StableFields(cfg, mem, snap);
    hide Tick, StableTicksFor, NextStables;
    forall t | IsForemost(snap.tracks, t, true)
      ensures HighestPriority(snap.tracks, true) == Some(t)
      ensures StableTicksFor(NextStables(mem.stables, snap.tracks), t.trackId) ==
              StableTicksFor(mem.stables, t.trackId) + 1
    {
      ForemostIsFound(snap.tracks, t, true);
      NextStableTicks(mem.stables, snap.tracks, t.trackId);
    }
  }

  lemma {:induction false} StableFields(cfg: Config, mem: Memory, snap: Snapshot)
    ensures var m := Tick(cfg, mem, snap).memory;
            var best := HighestPriority(snap.tracks, true);
            && m.stableTrackId == (if best.Some? then best.value.trackId else 0)
            && m.consecutiveTrackTicks ==
               if best.Some? then StableTicksFor(NextStables(mem.stables, snap.tracks), best.value.trackId) else 0
  {
    hide Allocate, MaintainAll, Merged, Reconciled, IdleOnes, ScanSwaps, ChosenSwap, NextStables, TickNode;
    hide HighestPriority, BoardAfterReconcile, StableTicksFor;
  }

  /** The memory keeps the reason of the latest denial. */
  lemma {:induction false} DenialReasonTells(cfg: Config, mem: Memory, snap: Snapshot)
    ensures var out := Tick(cfg, mem, snap);
            out.memory.lastDenialReason ==
            if out.result.event.kind == DeniedEvent then out.result.event.reason else mem.lastDenialReason
  {
    MaintenanceNeverDenies(cfg, snap, Survivors(mem, snap));
    hide Allocate, MaintainAll, Merged, Reconciled, IdleOnes, ScanSwaps, NextStables, TickNode;
    hide HighestPriority, BoardAfterReconcile, StableTicksFor;
  }

  // ---------------------------------------------------------------- events

  /** When idle interceptors are sent out, the event and the blackboard name the last command, and the event tells
      whether it is the only engagement. */
  lemma {:induction false} AssignmentTells(cfg: Config, mem: Memory, snap: Snapshot)
    requires WellFormed(snap) && Sent(cfg, mem, snap) != [] && Sent(cfg, mem, snap)[0].reason == IdleAssignment
    ensures var out, sent := Tick(cfg, mem, snap), Sent(cfg, mem, snap);
            var last := sent[|sent|-1];
            && out.result.event == Event(last.trackId, EngageEvent,
                                         if |out.memory.actives| > 1 then IdleInterceptorEngage else EngageStart)
            && out.board == Board(Engagement(true, last.interceptorId, last.trackId), EngageMode)
            && out.result.assignmentReason == Some(IdleAssignment)
  {
    TickCommands(cfg, mem, snap);
    AllocateGrows(SceneOf(cfg, mem, snap), IdleOnes(snap.interceptors), Kept(cfg, mem, snap));
    hide Allocate, MaintainAll, Merged, Reconciled, IdleOnes, ScanSwaps, ChosenSwap, NextStables, TickNode, WellFormed;
    hide HighestPriority, BoardAfterReconcile, StableTicksFor;
  }

  /** After a retask the event and the blackboard name its command. */
  lemma {:induction false} RetaskEventTells(cfg: Config, mem: Memory, snap: Snapshot)
    requires WellFormed(snap) && Sent(cfg, mem, snap) != [] && Sent(cfg, mem, snap)[0].reason == RetaskAssignment
    ensures var out, c := Tick(cfg, mem, snap), Sent(cfg, mem, snap)[0];
            && out.result.event == Event(c.trackId, EngageEvent, RetaskApproved)
            && out.board == Board(Engagement(true, c.interceptorId, c.trackId), EngageMode)
            && out.result.assignmentReason == Some(RetaskAssignment)
  {
    RetaskCase(cfg, mem, snap);
    hide WellFormed, ChosenSwap, ScanSwaps, Allocate, MaintainAll, Reconciled, Merged, FallbackOutcome;
    hide AssignedOutcome, IdleOnes, NextStables, BoardAfterReconcile, HighestPriority;
  }

  lemma {:induction false} MaintenanceEvent(cfg: Config, snap: Snapshot, actives: seq<Active>)
    requires actives != [] && forall a | a in actives :: RemovalOf(snap, a).None?
    ensures MaintainAll(cfg, snap, actives).event ==
            Event(actives[|actives|-1].trackId, MaintainEvent, EngagementActive)
  {
    var n := |actives| - 1;
    assert actives[n] in actives;
    SurvivorAgrees(snap, actives[n]);
  }

  /** Any engagement kept can be swapped, so a swap is found exactly when some track is open. */
  lemma {:induction false} SwapIsFound(cfg: Config, mem: Memory, snap: Snapshot)
    requires WellFormed(snap) && IsSqrt(cfg.sqrt) && Kept(cfg, mem, snap) != []
    ensures var kept := Kept(cfg, mem, snap);
            var s := ScanSwaps(SceneOf(cfg, mem, snap), kept, |kept|);
            && (s.Some? <==> exists t :: MayBeEngaged(cfg, mem, snap, t))
            && (s.Some? ==> MayBeEngaged(cfg, mem, snap, s.value.track))
  {
    var sc, kept := SceneOf(cfg, mem, snap), Kept(cfg, mem, snap);
    FirstCanSwap(cfg, mem, snap);
    ScanSwapsLegal(sc, kept, |kept|);
    RetaskLaws.ScanSwapsIsBest(sc, kept, |kept|);
    hide MayBeEngaged, Open, Kept, WellFormed, IsSqrt, ScanSwaps, RetaskLaws.CanSwap;
    var s := ScanSwaps(sc, kept, |kept|);
    if s.Some? {
      OpenTells(cfg, mem, snap, s.value.track);
    }
    if t :| MayBeEngaged(cfg, mem, snap, t) {
      OpenIfAllowed(cfg, mem, snap, t);
      var k :| 0 <= k < |snap.tracks| && snap.tracks[k] == t;
      assert AllocationLaws.Before(0, k, |kept|, 0);
    }
  }

  lemma {:induction false} FirstCanSwap(cfg: Config, mem: Memory, snap: Snapshot)
    requires Kept(cfg, mem, snap) != []
    ensures RetaskLaws.CanSwap(SceneOf(cfg, mem, snap), Kept(cfg, mem, snap), 0)
  {
    var survivors := Survivors(mem, snap);
    SurvivorsAreMaintained(cfg, snap, survivors);
    hide MaintainAll, Reconciled, Merged, RemovalOf;
    assert survivors[0] in survivors;
    SurvivorAgrees(snap, survivors[0]);
  }

  lemma {:induction false} MaintenanceCase(cfg: Config, mem: Memory, snap: Snapshot)
    requires WellFormed(snap) && Sent(cfg, mem, snap) == [] && Tick(cfg, mem, snap).memory.actives != []
    ensures var kept := Kept(cfg, mem, snap);
            && Tick(cfg, mem, snap).memory.actives == kept && Allocated(cfg, mem, snap).pairs == []
            && MaintainAll(cfg, snap, Survivors(mem, snap)).maintained
            && MaintainAll(cfg, snap, Survivors(mem, snap)).event ==
               Event(kept[|kept|-1].trackId, MaintainEvent, EngagementActive)
            && (IdleOnes(snap.interceptors) == [] ==> ChosenSwap(SceneOf(cfg, mem, snap), kept).None?)
  {
    var survivors := Survivors(mem, snap);
    TickCommands(cfg, mem, snap);
    SurvivorsAreMaintained(cfg, snap, survivors);
    MaintenanceEvent(cfg, snap, survivors);
    hide Tick, Allocate, MaintainAll, Merged, Reconciled, IdleOnes, ScanSwaps, ChosenSwap, WellFormed;
  }

  /** When engagements are kept and nobody is sent, the event names the engagement last maintained; but with nobody idle
      and an open track it says that a retask was denied. */
  lemma {:induction false} MaintenanceTells(cfg: Config, mem: Memory, snap: Snapshot)
    requires WellFormed(snap) && IsSqrt(cfg.sqrt)
    requires Sent(cfg, mem, snap) == [] && Tick(cfg, mem, snap).memory.actives != []
    ensures var out := Tick(cfg, mem, snap);
            if (forall i | i in snap.interceptors :: !IsFree(snap, i))
               && exists t :: MayBeEngaged(cfg, mem, snap, t) then
              && out.result.event.kind == MaintainEvent && out.result.event.reason == RetaskDenied
              && exists t :: MayBeEngaged(cfg, mem, snap, t) && t.trackId == out.result.event.trackId
            else
              out.result.event ==
              Event(out.memory.actives[|out.memory.actives|-1].trackId, MaintainEvent, EngagementActive)
  {
    MaintenanceCase(cfg, mem, snap);
    SwapIsFound(cfg, mem, snap);
    NobodyIdle(snap);
    hide Allocate, MaintainAll, Merged, Reconciled, IdleOnes, ScanSwaps, ChosenSwap, NextStables, TickNode, WellFormed;
    hide HighestPriority, BoardAfterReconcile, StableTicksFor, MayBeEngaged, IsSqrt, FallbackOutcome, AssignedOutcome;
  }

  lemma {:induction false} NobodyIdle(snap: Snapshot)
    ensures IdleOnes(snap.interceptors) == [] <==> forall i | i in snap.interceptors :: !IsFree(snap, i)
  {
    if IdleOnes(snap.interceptors) != [] {
      IdleIsFree(snap);
    }
    if i :| i in snap.interceptors && IsFree(snap, i) {
      assert i in IdleOnes(snap.interceptors);
    }
  }

  // ---------------------------------------------------------------- removals

  ghost predicate IsFlying(snap: Snapshot, id: nat, track: nat) {
    exists i :: i in snap.interceptors && i.interceptorId == id && i.engaged && i.targetId == track
  }

  /** The interceptor is there and engaged on nothing. */
  ghost predicate IsBack(snap: Snapshot, id: nat) {
    exists i :: i in snap.interceptors && i.interceptorId == id && !i.engaged
  }

  /** Why an engagement is dropped: its track is gone, the interceptor being back or not, or its track is live and its
      interceptor is gone, engaged on nothing, or engaged on another. */
  lemma {:induction false} RemovalTells(snap: Snapshot, a: Active)
    requires WellFormed(snap)
    ensures var r := RemovalOf(snap, a);
            var live := IsLive(snap.tracks, a.trackId);
            var there := exists i :: i in snap.interceptors && i.interceptorId == a.interceptorId;
            && (r == None <==> live && a.trackId != 0 && IsFlying(snap, a.interceptorId, a.trackId))
            && (r == Some(CompletedOrKilled) <==> !live && IsBack(snap, a.interceptorId))
            && (r == Some(TrackMissing) <==>
                  !IsBack(snap, a.interceptorId) && forall t | t in snap.tracks :: t.trackId != a.trackId)
            && (r == Some(TrackDeleted) <==>
                  !live && !IsBack(snap, a.interceptorId) && exists t :: t in snap.tracks && t.trackId == a.trackId)
            && (r == Some(InterceptorMissing) <==> live && !there)
            && (r == Some(InterceptorIdle) <==>
                  live && (IsBack(snap, a.interceptorId) || IsFlying(snap, a.interceptorId, 0)))
  {
    var track := FindAnyStatus(snap.tracks, a.trackId);
    var interceptor := FindInterceptor(snap.interceptors, a.interceptorId);
    hide FindAnyStatus, FindInterceptor, DistinctTracks, DistinctInterceptors;
    forall i | i in snap.interceptors && i.interceptorId == a.interceptorId ensures interceptor == Some(i) {
      SameInterceptor(snap.interceptors, i, interceptor.value);
    }
    forall t | t in snap.tracks && t.trackId == a.trackId ensures track == Some(t) {
      SameTrack(snap.tracks, t, track.value);
    }
  }

  /** Reconciliation looks at the tracks remembered, the one on the blackboard, and the targets flown at. */
  lemma {:induction false} MergedTells(actives: seq<Active>, snap: Snapshot, track: nat)
    ensures var e := snap.board.engagement;
            IsEngaged(Merged(actives, snap), track) <==>
            || IsEngaged(actives, track) || (e.active && e.trackId == track)
            || (track != 0 && exists i :: i in snap.interceptors && i.engaged && i.targetId == track)
  {
    var e := snap.board.engagement;
    RefreshedOwner(actives, e.trackId, e.interceptorId, snap.time, track);
    RefreshedAllTells(if e.active then Refreshed(actives, e.trackId, e.interceptorId, snap.time) else actives,
                      snap.interceptors, snap.time, track);
  }

  lemma {:induction false} RefreshedAllTells(actives: seq<Active>, interceptors: seq<InterceptorFact>, time: real,
                                             track: nat)
    ensures IsEngaged(RefreshedAll(actives, interceptors, time), track) <==>
            || IsEngaged(actives, track)
            || (track != 0 && exists i :: i in interceptors && i.engaged && i.targetId == track)
  {
    if interceptors != [] {
      var n := |interceptors| - 1;
      assert interceptors == interceptors[..n] + [interceptors[n]];
      RefreshedAllTells(actives, interceptors[..n], time, track);
      RefreshedOwner(RefreshedAll(actives, interceptors[..n], time), interceptors[n].targetId,
                     interceptors[n].interceptorId, time, track);
    }
  }

  // ---------------------------------------------------------------- the blackboard's engagement

  /** Without commands, an engagement on the blackboard stays while its interceptor flies at its live track. */
  lemma {:induction false} BoardKeeps(cfg: Config, mem: Memory, snap: Snapshot)
    requires WellFormed(snap) && Sent(cfg, mem, snap) == []
    requires var e := snap.board.engagement;
             !e.active
             || (e.trackId != 0 && IsLive(snap.tracks, e.trackId) && IsFlying(snap, e.interceptorId, e.trackId))
    ensures Tick(cfg, mem, snap).board.engagement == snap.board.engagement
  {
    BoardFollows(cfg, mem, snap);
    var merged, e := Merged(mem.actives, snap), snap.board.engagement;
    hide Tick, Merged, WellFormed, IsFlying, IsLive, RemovalOf;
    forall a | a in merged && a.trackId == e.trackId && a.interceptorId == e.interceptorId && e.active
      ensures RemovalOf(snap, a).None?
    {
      RemovalTells(snap, a);
    }
  }

  /** Without commands, what is left on the blackboard is what reconciliation leaves there. */
  lemma {:induction false} BoardFollows(cfg: Config, mem: Memory, snap: Snapshot)
    requires WellFormed(snap) && Sent(cfg, mem, snap) == []
    ensures Tick(cfg, mem, snap).board.engagement == BoardAfterReconcile(snap, Merged(mem.actives, snap)).engagement
  {
    var survivors := Survivors(mem, snap);
    SurvivorsAreMaintained(cfg, snap, survivors);
    var kept := MaintainAll(cfg, snap, survivors);
    var alloc := Allocated(cfg, mem, snap);
    TickCommands(cfg, mem, snap);
    if alloc.pairs == [] && !kept.maintained {
      var merged := Merged(mem.actives, snap);
      FallbackIsSilent(cfg, mem, snap, Blank(snap, Prepared(cfg, mem, snap), |merged|, |alloc.idle|, kept.event),
                       BoardAfterReconcile(snap, merged));
    }
    hide Allocate, MaintainAll, Merged, Reconciled, IdleOnes, WellFormed, ScanSwaps, ChosenSwap, NextStables, TickNode;
    hide HighestPriority, BoardAfterReconcile, StableTicksFor, FallbackOutcome;
  }

  lemma {:induction false} OwnerStays(actives: seq<Active>, interceptors: seq<InterceptorFact>, time: real, track: nat)
    requires IsEngaged(actives, track) && forall i | i in interceptors :: !(i.engaged && i.targetId == track)
    ensures var r := RefreshedAll(actives, interceptors, time);
            IsEngaged(r, track)
            && r[ActiveIndex(r, track)].interceptorId == actives[ActiveIndex(actives, track)].interceptorId
  {
    if interceptors != [] {
      var n := |interceptors| - 1;
      assert interceptors[n] in interceptors;
      OwnerStays(actives, interceptors[..n], time, track);
      RefreshedOwner(RefreshedAll(actives, interceptors[..n], time), interceptors[n].targetId,
                     interceptors[n].interceptorId, time, track);
    }
  }

  /** Without commands, an engagement on the blackboard is cleared when nobody flies at its track. */
  lemma {:induction false} BoardClears(cfg: Config, mem: Memory, snap: Snapshot)
    requires WellFormed(snap) && Sent(cfg, mem, snap) == [] && snap.board.engagement.active
    requires forall i | i in snap.interceptors :: !(i.engaged && i.targetId == snap.board.engagement.trackId)
    ensures Tick(cfg, mem, snap).board.engagement == NO_ENGAGEMENT
  {
    BoardFollows(cfg, mem, snap);
    var merged, e := Merged(mem.actives, snap), snap.board.engagement;
    var start := Refreshed(mem.actives, e.trackId, e.interceptorId, snap.time);
    RefreshedOwner(mem.actives, e.trackId, e.interceptorId, snap.time, e.trackId);
    OwnerStays(start, snap.interceptors, snap.time, e.trackId);
    hide Tick, WellFormed, RefreshedAll, Refreshed;
    var a := merged[ActiveIndex(merged, e.trackId)];
    assert a in merged && a.trackId == e.trackId && a.interceptorId == e.interceptorId;
    RemovalTells(snap, a);
    assert RemovalOf(snap, a).Some?;
  }
}
