/** The rules of engagement over whole runs of ticks, whatever the snapshots are. */
module EngagementRules {
  import opened Basics
  import opened Mission
  import opened MissionTick
  import opened MissionLaws
  import opened AllocationLaws

  // ---------------------------------------------------------------- the commands of one tick

  /** The engagements the assignment loops start from. */
  ghost function Kept(cfg: Config, mem: Memory, snap: Snapshot): seq<Active> {
    MaintainAll(cfg, snap, Survivors(mem, snap)).actives
  }

  ghost function Allocated(cfg: Config, mem: Memory, snap: Snapshot): Allocation {
    Allocate(SceneOf(cfg, mem, snap), IdleOnes(snap.interceptors), Kept(cfg, mem, snap))
  }

  /** The three ways a tick ends, and the commands each emits. */
  lemma {:induction false} TickCommands(cfg: Config, mem: Memory, snap: Snapshot)
    requires WellFormed(snap)
    ensures var out := Tick(cfg, mem, snap);
            var sc := SceneOf(cfg, mem, snap);
            var kept := Kept(cfg, mem, snap);
            var alloc := Allocated(cfg, mem, snap);
            var swap := ChosenSwap(sc, kept);
            if alloc.pairs != [] then
              out.result.commands == CommandsOf(alloc.pairs) && out.memory.actives == alloc.actives
            else if kept != [] && IdleOnes(snap.interceptors) == [] && swap.Some? then
              && out.result.commands ==
                 [Command(kept[swap.value.active].interceptorId, swap.value.track.trackId, swap.value.track.position,
                          RetaskAssignment)]
              && out.memory.actives == Swapped(kept, swap.value, snap.time)
            else out.result.commands == [] && out.memory.actives == kept
  {
    var survivors := Survivors(mem, snap);
    SurvivorsAreMaintained(cfg, snap, survivors);
    var kept := MaintainAll(cfg, snap, survivors);
    var alloc := Allocated(cfg, mem, snap);
    if alloc.pairs == [] && !kept.maintained {
      var merged := Merged(mem.actives, snap);
      FallbackIsSilent(cfg, mem, snap, Blank(snap, Prepared(cfg, mem, snap), |merged|, |alloc.idle|, kept.event),
                       BoardAfterReconcile(snap, merged));
    }
  }

  /** Every command names a track of the snapshot that nobody has and that may be engaged now. */
  lemma {:induction false} CommandsAreLegal(cfg: Config, mem: Memory, snap: Snapshot, c: Command) returns (t: TrackFact)
    requires WellFormed(snap) && c in Tick(cfg, mem, snap).result.commands
    ensures t in snap.tracks && t.trackId == c.trackId && t.position == c.position
    ensures Open(SceneOf(cfg, mem, snap), Kept(cfg, mem, snap), t)
  {
    var sc := SceneOf(cfg, mem, snap);
    var kept := Kept(cfg, mem, snap);
    var alloc := Allocated(cfg, mem, snap);
    TickCommands(cfg, mem, snap);
    if alloc.pairs != [] {
      var k :| 0 <= k < |alloc.pairs| && CommandsOf(alloc.pairs)[k] == c;
      AllocatePairs(sc, IdleOnes(snap.interceptors), kept);
      t := alloc.pairs[k].track;
      assert alloc.pairs[k] in alloc.pairs;
    } else {
      ScanSwapsLegal(sc, kept, |kept|);
      t := ChosenSwap(sc, kept).value.track;
    }
  }

  // ---------------------------------------------------------------- runs

  /** mems[k] is the memory before snapshot k. */
  ghost predicate IsRun(cfg: Config, snaps: seq<Snapshot>, mems: seq<Memory>) {
    && |mems| == |snaps| + 1 && mems[0] == FRESH_MEMORY
    && (forall k | 0 <= k < |snaps| :: WellFormed(snaps[k]) && mems[k+1] == Tick(cfg, mems[k], snaps[k]).memory)
  }

  ghost predicate ConfirmedAmong(tracks: seq<TrackFact>, id: nat) {
    exists t :: t in tracks && t.trackId == id && t.status == Confirmed
  }

  ghost predicate ConfirmedIn(snap: Snapshot, id: nat) {
    ConfirmedAmong(snap.tracks, id)
  }

  /** How many snapshots in a row, counting back from the k-th, had the track confirmed. */
  ghost function Streak(snaps: seq<Snapshot>, id: nat, k: nat): nat
    requires k <= |snaps|
  {
    if k == 0 then 0 else if ConfirmedIn(snaps[k-1], id) then Streak(snaps, id, k - 1) + 1 else 0
  }

  lemma {:induction false} StreakMeans(snaps: seq<Snapshot>, id: nat, k: nat, n: nat)
    requires k <= |snaps| && n <= Streak(snaps, id, k)
    ensures n <= k && forall j | k - n <= j < k :: ConfirmedIn(snaps[j], id)
  {
    if n > 0 {
      StreakMeans(snaps, id, k - 1, n - 1);
    }
  }

  /** The first entry of each id decides, and all entries of one id agree. */
  lemma {:induction false} NextStableTicks(stables: seq<Stability>, tracks: seq<TrackFact>, id: nat)
    ensures StableTicksFor(NextStables(stables, tracks), id) ==
            if ConfirmedAmong(tracks, id) then StableTicksFor(stables, id) + 1 else 0
  {
    if tracks != [] {
      var n := |tracks| - 1;
      var t := tracks[n];
      assert tracks == tracks[..n] + [t];
      NextStableTicks(stables, tracks[..n], id);
      var before := NextStables(stables, tracks[..n]);
      if t.status == Confirmed {
        NextStablesPositive(stables, tracks[..n]);
        StableTicksAppend(before, Stability(t.trackId, StableTicksFor(stables, t.trackId) + 1), id);
      } else {
        assert before + [] == before;
      }
      if u :| u in tracks && u.trackId == id && u.status == Confirmed {
        assert u in tracks[..n] || u == t;
      }
    }
  }

  lemma {:induction false} StableTicksAppend(stables: seq<Stability>, s: Stability, id: nat)
    requires s.ticks > 0 && forall x | x in stables :: x.ticks > 0
    ensures StableTicksFor(stables + [s], id) ==
            if StableTicksFor(stables, id) > 0 then StableTicksFor(stables, id) else if s.trackId == id then s.ticks
               else 0
  {
    if stables != [] {
      assert (stables + [s])[1..] == stables[1..] + [s];
      assert stables[0] in stables;
      StableTicksAppend(stables[1..], s, id);
    }
  }

  lemma {:induction false} NextStablesPositive(stables: seq<Stability>, tracks: seq<TrackFact>)
    ensures forall x | x in NextStables(stables, tracks) :: x.ticks > 0
  {
    if tracks != [] {
      NextStablesPositive(stables, tracks[..|tracks|-1]);
    }
  }

  lemma {:induction false} TickStables(cfg: Config, mem: Memory, snap: Snapshot)
    ensures Tick(cfg, mem, snap).memory.stables == NextStables(mem.stables, snap.tracks)
  {
  }

  /** One tick lengthens the count of a confirmed track and forgets any other. */
  lemma {:induction false} TickCounts(cfg: Config, mem: Memory, snap: Snapshot, id: nat)
    ensures StableTicksFor(Tick(cfg, mem, snap).memory.stables, id) ==
            if ConfirmedAmong(snap.tracks, id) then StableTicksFor(mem.stables, id) + 1 else 0
  {
    hide *;
    TickStables(cfg, mem, snap);
    NextStableTicks(mem.stables, snap.tracks, id);
  }

  /** The stability count of a track is exactly its streak of confirmed snapshots. */
  lemma {:induction false} StabilityIsStreak(cfg: Config, snaps: seq<Snapshot>, mems: seq<Memory>, k: nat, id: nat)
    requires IsRun(cfg, snaps, mems) && k <= |snaps|
    ensures StableTicksFor(mems[k].stables, id) == Streak(snaps, id, k)
  {
    hide Tick, StableTicksFor, ConfirmedAmong, WellFormed;
    if k == 0 {
      NothingStable(id);
    } else {
      StabilityIsStreak(cfg, snaps, mems, k - 1, id);
      TickCounts(cfg, mems[k-1], snaps[k-1], id);
    }
  }

  lemma {:induction false} NothingStable(id: nat)
    ensures StableTicksFor(FRESH_MEMORY.stables, id) == 0
  {
  }

  // ---------------------------------------------------------------- denials

  datatype Denial = Denial(trackId: nat, until: real)

  ghost function ResultAt(cfg: Config, snaps: seq<Snapshot>, mems: seq<Memory>, k: nat): Result
    requires k < |snaps| < |mems|
  {
    Tick(cfg, mems[k], snaps[k]).result
  }

  /** The latest denial before snapshot k, and when its cooldown ends. */
  ghost function LastDenial(cfg: Config, snaps: seq<Snapshot>, mems: seq<Memory>, k: nat): Option<Denial>
    requires k <= |snaps| < |mems|
  {
    if k == 0 then None
    else
      var event := ResultAt(cfg, snaps, mems, k - 1).event;
      if event.kind == DeniedEvent then Some(Denial(event.trackId, snaps[k-1].time + MaxReal(0.0, cfg.denialCooldown)))
      else LastDenial(cfg, snaps, mems, k - 1)
  }

  lemma {:induction false} MaintenanceNeverDenies(cfg: Config, snap: Snapshot, actives: seq<Active>)
    ensures MaintainAll(cfg, snap, actives).event.kind != DeniedEvent
  {
    if actives != [] {
      MaintenanceNeverDenies(cfg, snap, actives[..|actives|-1]);
    }
  }

  lemma {:induction false} TickDenial(cfg: Config, mem: Memory, snap: Snapshot)
    ensures var out := Tick(cfg, mem, snap);
            if out.result.event.kind == DeniedEvent then
              && out.memory.lastDeniedTrackId == out.result.event.trackId
              && out.memory.denialCooldownUntil == snap.time + MaxReal(0.0, cfg.denialCooldown)
            else
              && out.memory.lastDeniedTrackId == mem.lastDeniedTrackId
              && out.memory.denialCooldownUntil == mem.denialCooldownUntil
  {
    MaintenanceNeverDenies(cfg, snap, Survivors(mem, snap));
  }

  /** The memory remembers exactly the latest denial. */
  lemma {:induction false} MemoryHoldsLastDenial(cfg: Config, snaps: seq<Snapshot>, mems: seq<Memory>, k: nat)
    requires IsRun(cfg, snaps, mems) && k <= |snaps|
    ensures var d := LastDenial(cfg, snaps, mems, k);
            && mems[k].lastDeniedTrackId == (if d.Some? then d.value.trackId else 0)
            && mems[k].denialCooldownUntil == (if d.Some? then d.value.until else 0.0)
  {
    if k > 0 {
      hide Tick, WellFormed;
      MemoryHoldsLastDenial(cfg, snaps, mems, k - 1);
      TickDenial(cfg, mems[k-1], snaps[k-1]);
    }
  }

  // ---------------------------------------------------------------- the rules

  /** What must be true of a track for a command to name it at snapshot k. */
  ghost predicate RulesHold(cfg: Config, snaps: seq<Snapshot>, mems: seq<Memory>, k: nat, t: TrackFact)
    requires k < |snaps| < |mems|
  {
    && cfg.stableTicks <= k + 1
    && (forall j | k + 1 - cfg.stableTicks <= j <= k :: ConfirmedIn(snaps[j], t.trackId))
    && t.status == Confirmed
    && t.score > cfg.engageScoreThreshold && t.confidence >= cfg.minConfidence
    && InRange(cfg, t.position)
    && (forall h | h in snaps[k].sensorHealth :: h.active && !h.stale)
    && (match LastDenial(cfg, snaps, mems, k)
        case None => true
        case Some(d) => d.trackId == t.trackId ==> snaps[k].time >= d.until)
  }

  /** Every command ever emitted obeys the rules of engagement. */
  lemma {:induction false} RulesOfEngagement(cfg: Config, snaps: seq<Snapshot>, mems: seq<Memory>, k: nat, c: Command)
    returns (t: TrackFact)
    requires IsRun(cfg, snaps, mems) && k < |snaps|
    requires c in ResultAt(cfg, snaps, mems, k).commands
    ensures t in snaps[k].tracks && t.trackId == c.trackId && t.position == c.position
    ensures RulesHold(cfg, snaps, mems, k, t)
  {
    t := CommandsAreLegal(cfg, mems[k], snaps[k], c);
    NextStableTicks(mems[k].stables, snaps[k].tracks, t.trackId);
    StabilityIsStreak(cfg, snaps, mems, k, t.trackId);
    StreakMeans(snaps, t.trackId, k + 1, cfg.stableTicks);
    MemoryHoldsLastDenial(cfg, snaps, mems, k);
  }
}
