/** Retasking (src/decision/mission_behavior_tree.cpp:534-628): it takes the best swap, each swap pays,
    and in a frozen scene it stops. */
module RetaskLaws {
  import opened Basics
  import opened Mission
  import opened MissionTick
  import opened MissionLaws
  import opened AllocationLaws
  import opened EngagementRules

  // ---------------------------------------------------------------- the swap taken is the best one

  /** Engagement a can be swapped: its track and its interceptor are both there. */
  predicate CanSwap(sc: Scene, actives: seq<Active>, a: nat)
    requires a < |actives|
  {
    && FindLive(sc.snap.tracks, actives[a].trackId).Some?
    && FindInterceptor(sc.snap.interceptors, actives[a].interceptorId).Some?
  }

  ghost function GainOf(sc: Scene, actives: seq<Active>, a: nat, t: TrackFact): real
    requires a < |actives| && CanSwap(sc, actives, a)
  {
    var i := FindInterceptor(sc.snap.interceptors, actives[a].interceptorId).value;
    PairScore(sc.cfg, t, i) - PairScore(sc.cfg, FindLive(sc.snap.tracks, actives[a].trackId).value, i)
  }

  /** r gains at least as much as any swap of the first a engagements, and of engagement a with the first k tracks. */
  ghost predicate BestSwapSoFar(sc: Scene, actives: seq<Active>, a: nat, k: nat, r: Option<Swap>) {
    forall b, t | 0 <= b < |actives| && 0 <= t < |sc.snap.tracks| && Before(b, t, a, k)
                  && CanSwap(sc, actives, b) && Open(sc, actives, sc.snap.tracks[t]) ::
      r.Some? && GainOf(sc, actives, b, sc.snap.tracks[t]) <= Gain(r.value)
  }

  lemma {:induction false} ScanSwapRowIsBest(sc: Scene, actives: seq<Active>, a: nat, k: nat, best: Option<Swap>)
    requires a < |actives| && k <= |sc.snap.tracks| && CanSwap(sc, actives, a)
    requires BestSwapSoFar(sc, actives, a, 0, best)
    ensures BestSwapSoFar(sc, actives, a, k,
              ScanSwapRow(sc, actives, a, FindLive(sc.snap.tracks, actives[a].trackId).value,
                          FindInterceptor(sc.snap.interceptors, actives[a].interceptorId).value, k, best))
  {
    if k > 0 {
      ScanSwapRowIsBest(sc, actives, a, k - 1, best);
      hide Engageable, PairScore, FindLive, FindInterceptor;
      forall b, t | 0 <= b < |actives| && 0 <= t < |sc.snap.tracks|
        ensures Before(b, t, a, k) <==> Before(b, t, a, k - 1) || (b == a && t == k - 1)
      {
      }
    }
  }

  /** A row whose engagement cannot be swapped holds no swap, and the end of one row is the start of the next. */
  lemma {:induction false} NextSwapRow(sc: Scene, actives: seq<Active>, a: nat, r: Option<Swap>)
    requires a < |actives|
    requires if CanSwap(sc, actives, a) then BestSwapSoFar(sc, actives, a, |sc.snap.tracks|, r)
             else BestSwapSoFar(sc, actives, a, 0, r)
    ensures BestSwapSoFar(sc, actives, a + 1, 0, r)
  {
    hide Open, GainOf;
    var k := if CanSwap(sc, actives, a) then |sc.snap.tracks| else 0;
    forall b, t | 0 <= b < |actives| && 0 <= t < |sc.snap.tracks| && Before(b, t, a + 1, 0) && CanSwap(sc, actives, b)
      ensures Before(b, t, a, k)
    {
    }
  }

  lemma {:induction false} ScanSwapsIsBest(sc: Scene, actives: seq<Active>, a: nat)
    requires a <= |actives|
    ensures BestSwapSoFar(sc, actives, a, 0, ScanSwaps(sc, actives, a))
  {
    if a > 0 {
      hide BestSwapSoFar;
      ScanSwapsIsBest(sc, actives, a - 1);
      var r := ScanSwaps(sc, actives, a - 1);
      if CanSwap(sc, actives, a - 1) {
        ScanSwapRowIsBest(sc, actives, a - 1, |sc.snap.tracks|, r);
      }
      var next := ScanSwaps(sc, actives, a);
      NextSwapRow(sc, actives, a - 1, next);
    }
  }

  /** A swap is taken exactly when some swap gains at least the margin, and it is then one of greatest gain. */
  lemma {:induction false} ChosenSwapIsBest(sc: Scene, actives: seq<Active>)
    ensures var s := ChosenSwap(sc, actives);
            if s.Some? then
              && IsSwap(sc, actives, s.value) && Gain(s.value) >= sc.cfg.retaskMargin
              && (forall a, t | 0 <= a < |actives| && t in sc.snap.tracks && CanSwap(sc, actives, a)
                  && Open(sc, actives, t) ::
                    GainOf(sc, actives, a, t) <= Gain(s.value))
            else
              forall a, t | 0 <= a < |actives| && t in sc.snap.tracks && CanSwap(sc, actives, a)
                && Open(sc, actives, t) ::
                GainOf(sc, actives, a, t) < sc.cfg.retaskMargin
  {
    ScanSwapsIsBest(sc, actives, |actives|);
    ScanSwapsLegal(sc, actives, |actives|);
    var r := ScanSwaps(sc, actives, |actives|);
    hide ScanSwaps, IsSwap, Open;
    forall a, t | 0 <= a < |actives| && t in sc.snap.tracks && CanSwap(sc, actives, a) && Open(sc, actives, t)
      ensures r.Some? && GainOf(sc, actives, a, t) <= Gain(r.value)
    {
      var k :| 0 <= k < |sc.snap.tracks| && sc.snap.tracks[k] == t;
      assert Before(a, k, |actives|, 0);
    }
  }

  /** At most one retask in a tick, and only when nobody is idle. */
  lemma {:induction false} RetaskIsAlone(cfg: Config, mem: Memory, snap: Snapshot, c: Command)
    requires WellFormed(snap) && c in Tick(cfg, mem, snap).result.commands && c.reason == RetaskAssignment
    ensures Tick(cfg, mem, snap).result.commands == [c]
    ensures IdleOnes(snap.interceptors) == []
  {
    TickCommands(cfg, mem, snap);
  }

  // ---------------------------------------------------------------- each retask pays

  /** The score of one interceptor's present engagement, if its target is live. */
  ghost function PostScore(cfg: Config, tracks: seq<TrackFact>, i: InterceptorFact): real {
    if i.engaged && FindLive(tracks, i.targetId).Some? then PairScore(cfg, FindLive(tracks, i.targetId).value, i)
       else 0.0
  }

  /** The total score of the engagements the interceptors are on. */
  ghost function FleetScore(cfg: Config, tracks: seq<TrackFact>, interceptors: seq<InterceptorFact>): real {
    if interceptors == [] then 0.0
    else
      var n := |interceptors| - 1;
      FleetScore(cfg, tracks, interceptors[..n]) + PostScore(cfg, tracks, interceptors[n])
  }

  lemma {:induction false} FleetScoreUpdate(cfg: Config, tracks: seq<TrackFact>, interceptors: seq<InterceptorFact>,
                                            k: nat, i: InterceptorFact)
    requires k < |interceptors|
    ensures FleetScore(cfg, tracks, interceptors[k := i]) ==
            FleetScore(cfg, tracks, interceptors) - PostScore(cfg, tracks, interceptors[k]) + PostScore(cfg, tracks, i)
  {
    var n := |interceptors| - 1;
    if k == n {
      assert interceptors[k := i][..n] == interceptors[..n];
    } else {
      assert interceptors[k := i][..n] == interceptors[..n][k := i];
      FleetScoreUpdate(cfg, tracks, interceptors[..n], k, i);
    }
  }

  /** The last command naming an interceptor. */
  ghost function OrderFor(commands: seq<Command>, id: nat): Option<nat> {
    if commands == [] then None
    else
      var n := |commands| - 1;
      if commands[n].interceptorId == id then Some(commands[n].trackId) else OrderFor(commands[..n], id)
  }

  /** The interceptor facts once the commands have been carried out and nothing else has changed. */
  ghost function Obeyed(interceptors: seq<InterceptorFact>, commands: seq<Command>): (r: seq<InterceptorFact>)
    ensures |r| == |interceptors|
  {
    seq(|interceptors|, k requires 0 <= k < |interceptors| =>
      var order := OrderFor(commands, interceptors[k].interceptorId);
      if order.Some? then interceptors[k].(available := false, engaged := true, targetId := order.value)
         else interceptors[k])
  }

  lemma {:induction false} ObeyedNothing(interceptors: seq<InterceptorFact>)
    ensures Obeyed(interceptors, []) == interceptors
  {
  }

  lemma {:induction false} ObeyedOne(interceptors: seq<InterceptorFact>, c: Command, k: nat)
    requires DistinctInterceptors(interceptors) && k < |interceptors|
             && interceptors[k].interceptorId == c.interceptorId
    ensures Obeyed(interceptors, [c]) ==
            interceptors[k := interceptors[k].(available := false, engaged := true, targetId := c.trackId)]
  {
    forall id ensures OrderFor([c], id) == if c.interceptorId == id then Some(c.trackId) else None {
      assert [c][..0] == [];
    }
    forall j | 0 <= j < |interceptors| && j != k ensures interceptors[j].interceptorId != c.interceptorId {
      assert if j < k then interceptors[j].interceptorId != interceptors[k].interceptorId
             else interceptors[k].interceptorId != interceptors[j].interceptorId;
    }
  }

  /** In a tick with nobody idle, a retask raises the total score by at least the margin; otherwise nothing moves. */
  lemma {:induction false} RetaskPays(cfg: Config, mem: Memory, snap: Snapshot)
    requires WellFormed(snap) && IdleOnes(snap.interceptors) == []
    ensures var commands := Tick(cfg, mem, snap).result.commands;
            var after := FleetScore(cfg, snap.tracks, Obeyed(snap.interceptors, commands));
            var before := FleetScore(cfg, snap.tracks, snap.interceptors);
            if commands == [] then after == before else after >= before + cfg.retaskMargin
  {
    var sc := SceneOf(cfg, mem, snap);
    var kept := Kept(cfg, mem, snap);
    TickCommands(cfg, mem, snap);
    assert Allocated(cfg, mem, snap).pairs == [];
    var commands := Tick(cfg, mem, snap).result.commands;
    hide Tick;
    if commands == [] {
      ObeyedNothing(snap.interceptors);
    } else {
      SwapPays(cfg, mem, snap, commands[0]);
    }
  }

  lemma {:induction false} SwapPays(cfg: Config, mem: Memory, snap: Snapshot, c: Command)
    requires WellFormed(snap)
    requires var kept := Kept(cfg, mem, snap);
             var swap := ChosenSwap(SceneOf(cfg, mem, snap), kept);
             swap.Some? && c == Command(kept[swap.value.active].interceptorId, swap.value.track.trackId,
                                        swap.value.track.position, RetaskAssignment)
    ensures FleetScore(cfg, snap.tracks, Obeyed(snap.interceptors, [c])) >=
            FleetScore(cfg, snap.tracks, snap.interceptors) + cfg.retaskMargin
  {
    var sc := SceneOf(cfg, mem, snap);
    var kept := Kept(cfg, mem, snap);
    var swap := ChosenSwap(sc, kept).value;
    ChosenSwapIsBest(sc, kept);
    var i, k := KeptInterceptor(cfg, mem, snap, swap.active);
    ObeyedOne(snap.interceptors, c, k);
    var i' := i.(available := false, engaged := true, targetId := c.trackId);
    FleetScoreUpdate(cfg, snap.tracks, snap.interceptors, k, i');
    SameTrack(snap.tracks, FindLive(snap.tracks, swap.track.trackId).value, swap.track);
    SameScore(cfg, swap.track, i', i);
  }

  /** Scores depend on where an interceptor is and how fast, not on what it is doing. */
  lemma {:induction false} SameScore(cfg: Config, t: TrackFact, a: InterceptorFact, b: InterceptorFact)
    requires a.position == b.position && a.speed == b.speed
    ensures PairScore(cfg, t, a) == PairScore(cfg, t, b)
  {
  }

  /** The interceptor of a kept engagement is in the snapshot, engaged on its live track. */
  lemma {:induction false} KeptInterceptor(cfg: Config, mem: Memory, snap: Snapshot, a: nat)
    returns (i: InterceptorFact, k: nat)
    requires WellFormed(snap) && a < |Kept(cfg, mem, snap)|
    ensures k < |snap.interceptors| && snap.interceptors[k] == i
    ensures var active := Kept(cfg, mem, snap)[a];
            && i.interceptorId == active.interceptorId && i.engaged && i.targetId == active.trackId
            && FindInterceptor(snap.interceptors, active.interceptorId) == Some(i)
            && FindLive(snap.tracks, active.trackId).Some?
  {
    var survivors := Survivors(mem, snap);
    SurvivorsAreMaintained(cfg, snap, survivors);
    var active := Kept(cfg, mem, snap)[a];
    SurvivorAgrees(snap, survivors[a]);
    i :| i in snap.interceptors && i.interceptorId == active.interceptorId && i.engaged && i.targetId == active.trackId;
    k :| 0 <= k < |snap.interceptors| && snap.interceptors[k] == i;
    SameInterceptor(snap.interceptors, FindInterceptor(snap.interceptors, active.interceptorId).value, i);
  }

  // ---------------------------------------------------------------- a frozen scene

  /** Ticks over a scene in which nothing changes but the interceptors obeying the commands. */
  ghost predicate IsFrozenRun(cfg: Config, snaps: seq<Snapshot>, mems: seq<Memory>) {
    && |snaps| > 0 && |mems| == |snaps|
    && (forall k | 0 <= k < |snaps| :: WellFormed(snaps[k]))
    && (forall k | 0 <= k < |snaps| - 1 :: FrozenStep(cfg, snaps, mems, k))
  }

  ghost predicate FrozenStep(cfg: Config, snaps: seq<Snapshot>, mems: seq<Memory>, k: nat)
    requires k + 1 < |snaps| <= |mems|
  {
    && mems[k+1] == Tick(cfg, mems[k], snaps[k]).memory
    && snaps[k+1].tracks == snaps[k].tracks
    && snaps[k+1].interceptors == ObeyedAt(cfg, snaps, mems, k)
  }

  /** The interceptors once the commands of tick k have been carried out. */
  ghost function ObeyedAt(cfg: Config, snaps: seq<Snapshot>, mems: seq<Memory>, k: nat): (r: seq<InterceptorFact>)
    requires k < |snaps| <= |mems|
    ensures |r| == |snaps[k].interceptors|
  {
    Obeyed(snaps[k].interceptors, Tick(cfg, mems[k], snaps[k]).result.commands)
  }

  predicate HoldsRetask(commands: seq<Command>) {
    exists c :: c in commands && c.reason == RetaskAssignment
  }

  /** Tick k commands a retask. */
  ghost predicate Retasks(cfg: Config, snaps: seq<Snapshot>, mems: seq<Memory>, k: nat)
    requires k < |snaps| <= |mems|
  {
    HoldsRetask(Tick(cfg, mems[k], snaps[k]).result.commands)
  }

  /** The ticks with a retask among those from `from` up to k. */
  ghost function RetaskCount(cfg: Config, snaps: seq<Snapshot>, mems: seq<Memory>, from: nat, k: nat): nat
    requires from <= k <= |snaps| <= |mems|
    decreases k - from
  {
    if k == from then 0
    else RetaskCount(cfg, snaps, mems, from, k - 1) + if Retasks(cfg, snaps, mems, k - 1) then 1 else 0
  }

  lemma {:induction false} ObeyedStaysBusy(interceptors: seq<InterceptorFact>, commands: seq<Command>)
    requires IdleOnes(interceptors) == []
    ensures IdleOnes(Obeyed(interceptors, commands)) == []
  {
    var r := Obeyed(interceptors, commands);
    forall k | 0 <= k < |r| ensures !IsIdle(r[k]) {
      assert interceptors[k] in interceptors;
    }
    NobodyIdle(r);
  }

  lemma {:induction false} NobodyIdle(interceptors: seq<InterceptorFact>)
    requires forall k | 0 <= k < |interceptors| :: !IsIdle(interceptors[k])
    ensures IdleOnes(interceptors) == []
  {
    if interceptors != [] {
      NobodyIdle(interceptors[..|interceptors|-1]);
    }
  }

  /** With nobody idle every command of a tick is a retask. */
  lemma {:induction false} BusyTickRetasks(cfg: Config, mem: Memory, snap: Snapshot)
    requires WellFormed(snap) && IdleOnes(snap.interceptors) == []
    ensures HoldsRetask(Tick(cfg, mem, snap).result.commands) <==> Tick(cfg, mem, snap).result.commands != []
  {
    TickCommands(cfg, mem, snap);
    assert Allocated(cfg, mem, snap).pairs == [];
    var commands := Tick(cfg, mem, snap).result.commands;
    hide Tick;
    if commands != [] {
      assert commands[0] in commands;
    }
  }

  /** A tick with nobody idle leaves nobody idle and adds the margin when it retasks. */
  lemma {:induction false} BusyTickPays(cfg: Config, snaps: seq<Snapshot>, mems: seq<Memory>, k: nat)
    requires k < |snaps| <= |mems| && WellFormed(snaps[k]) && IdleOnes(snaps[k].interceptors) == []
    ensures IdleOnes(ObeyedAt(cfg, snaps, mems, k)) == []
    ensures FleetScore(cfg, snaps[k].tracks, ObeyedAt(cfg, snaps, mems, k)) >=
            FleetScore(cfg, snaps[k].tracks, snaps[k].interceptors)
              + if Retasks(cfg, snaps, mems, k) then cfg.retaskMargin else 0.0
  {
    hide Tick, WellFormed, FleetScore, Obeyed, IdleOnes, HoldsRetask;
    RetaskPays(cfg, mems[k], snaps[k]);
    BusyTickRetasks(cfg, mems[k], snaps[k]);
    ObeyedStaysBusy(snaps[k].interceptors, Tick(cfg, mems[k], snaps[k]).result.commands);
  }

  /** Once nobody is idle in a frozen run nobody becomes idle, and each later retask adds the margin to the total
      score; the total is taken after tick k. */
  lemma {:induction false} FrozenRunGrows(cfg: Config, snaps: seq<Snapshot>, mems: seq<Memory>, from: nat, k: nat)
    requires IsFrozenRun(cfg, snaps, mems) && from <= k < |snaps| && IdleOnes(snaps[from].interceptors) == []
    ensures IdleOnes(snaps[k].interceptors) == [] && snaps[k].tracks == snaps[from].tracks
    ensures FleetScore(cfg, snaps[from].tracks, ObeyedAt(cfg, snaps, mems, k)) >=
            FleetScore(cfg, snaps[from].tracks, snaps[from].interceptors)
            + Multiple(RetaskCount(cfg, snaps, mems, from, k + 1), cfg.retaskMargin)
    decreases k - from
  {
    hide Multiple, Retasks, FleetScore, IdleOnes, WellFormed, Tick, ObeyedAt;
    MultipleStep(0, cfg.retaskMargin);
    if k > from {
      assert FrozenStep(cfg, snaps, mems, k - 1) && WellFormed(snaps[k-1]);
      FrozenRunGrows(cfg, snaps, mems, from, k - 1);
      BusyTickPays(cfg, snaps, mems, k - 1);
    } else {
      assert RetaskCount(cfg, snaps, mems, from, from) == 0;
    }
    BusyTickPays(cfg, snaps, mems, k);
    MultipleStep(RetaskCount(cfg, snaps, mems, from, k), cfg.retaskMargin);
  }

  /** While somebody is idle nothing is retasked. */
  lemma {:induction false} NoRetaskWhileIdle(cfg: Config, snaps: seq<Snapshot>, mems: seq<Memory>, k: nat)
    requires IsFrozenRun(cfg, snaps, mems) && k <= |snaps|
    requires forall j | 0 <= j < k :: IdleOnes(snaps[j].interceptors) != []
    ensures RetaskCount(cfg, snaps, mems, 0, k) == 0
  {
    hide Tick, WellFormed, IdleOnes, FrozenStep;
    if k > 0 {
      NoRetaskWhileIdle(cfg, snaps, mems, k - 1);
      if Retasks(cfg, snaps, mems, k - 1) {
        var c :| c in Tick(cfg, mems[k-1], snaps[k-1]).result.commands && c.reason == RetaskAssignment;
        RetaskIsAlone(cfg, mems[k-1], snaps[k-1], c);
      }
    }
  }

  lemma {:induction false} RetaskCountSplits(cfg: Config, snaps: seq<Snapshot>, mems: seq<Memory>, from: nat, k: nat)
    requires from <= k <= |snaps| <= |mems|
    ensures RetaskCount(cfg, snaps, mems, 0, k) ==
            RetaskCount(cfg, snaps, mems, 0, from) + RetaskCount(cfg, snaps, mems, from, k)
    decreases k - from
  {
    hide Retasks;
    if k > from {
      RetaskCountSplits(cfg, snaps, mems, from, k - 1);
    }
  }

  // ---------------------------------------------------------------- only finitely many retasks

  ghost function Magnitude(x: real): real {
    if x < 0.0 then -x else x
  }

  /** The largest magnitude of the scores of one interceptor. */
  ghost function RowCap(cfg: Config, tracks: seq<TrackFact>, i: InterceptorFact): (cap: real)
    ensures cap >= 0.0 && forall t | t in tracks :: -cap <= PairScore(cfg, t, i) <= cap
  {
    if tracks == [] then 0.0
    else
      var n := |tracks| - 1;
      assert tracks == tracks[..n] + [tracks[n]];
      MaxReal(RowCap(cfg, tracks[..n], i), Magnitude(PairScore(cfg, tracks[n], i)))
  }

  /** The largest magnitude of any pair score of the scene. */
  ghost function ScoreCap(cfg: Config, tracks: seq<TrackFact>, interceptors: seq<InterceptorFact>): (cap: real)
    ensures cap >= 0.0 && ScoresWithin(cfg, tracks, interceptors, cap)
  {
    if interceptors == [] then 0.0
    else
      var n := |interceptors| - 1;
      assert interceptors == interceptors[..n] + [interceptors[n]];
      MaxReal(ScoreCap(cfg, tracks, interceptors[..n]), RowCap(cfg, tracks, interceptors[n]))
  }

  ghost predicate ScoresWithin(cfg: Config, tracks: seq<TrackFact>, interceptors: seq<InterceptorFact>, cap: real) {
    forall i, t | i in interceptors && t in tracks :: -cap <= PairScore(cfg, t, i) <= cap
  }

  lemma {:induction false} FleetScoreBounds(cfg: Config, tracks: seq<TrackFact>, interceptors: seq<InterceptorFact>,
                                            cap: real)
    requires cap >= 0.0 && ScoresWithin(cfg, tracks, interceptors, cap)
    ensures -Multiple(|interceptors|, cap) <= FleetScore(cfg, tracks, interceptors) <= Multiple(|interceptors|, cap)
  {
    if interceptors != [] {
      var n := |interceptors| - 1;
      assert interceptors == interceptors[..n] + [interceptors[n]];
      FleetScoreBounds(cfg, tracks, interceptors[..n], cap);
      MultipleStep(n, cap);
      hide Multiple, PairScore;
    }
  }

  lemma {:induction false} ObeyedScoresWithin(cfg: Config, tracks: seq<TrackFact>, interceptors: seq<InterceptorFact>,
                                              commands: seq<Command>, cap: real)
    requires ScoresWithin(cfg, tracks, interceptors, cap)
    ensures ScoresWithin(cfg, tracks, Obeyed(interceptors, commands), cap)
  {
    var r := Obeyed(interceptors, commands);
    forall i, t | i in r && t in tracks ensures -cap <= PairScore(cfg, t, i) <= cap {
      var k :| 0 <= k < |r| && r[k] == i;
      SameScore(cfg, t, i, interceptors[k]);
      assert interceptors[k] in interceptors;
    }
  }

  lemma {:induction false} FrozenScoresWithin(cfg: Config, snaps: seq<Snapshot>, mems: seq<Memory>, k: nat, cap: real)
    requires IsFrozenRun(cfg, snaps, mems) && k < |snaps|
    requires ScoresWithin(cfg, snaps[0].tracks, snaps[0].interceptors, cap)
    ensures snaps[k].tracks == snaps[0].tracks && |snaps[k].interceptors| == |snaps[0].interceptors|
    ensures ScoresWithin(cfg, snaps[0].tracks, snaps[k].interceptors, cap)
  {
    hide Tick, WellFormed, ScoresWithin, Obeyed;
    if k > 0 {
      assert FrozenStep(cfg, snaps, mems, k - 1);
      FrozenScoresWithin(cfg, snaps, mems, k - 1, cap);
      ObeyedScoresWithin(cfg, snaps[0].tracks, snaps[k-1].interceptors,
                         Tick(cfg, mems[k-1], snaps[k-1]).result.commands, cap);
    }
  }

  /** In any frozen run the retasks, each worth the margin, fit in the range the scene leaves the total score. */
  lemma {:induction false} RetasksFit(cfg: Config, snaps: seq<Snapshot>, mems: seq<Memory>)
    requires IsFrozenRun(cfg, snaps, mems)
    ensures Multiple(RetaskCount(cfg, snaps, mems, 0, |snaps|), cfg.retaskMargin) <=
            2.0 * Multiple(|snaps[0].interceptors|, ScoreCap(cfg, snaps[0].tracks, snaps[0].interceptors))
  {
    hide Multiple, Tick, WellFormed, FrozenStep, FleetScore, Obeyed, IdleOnes, RetaskCount, ScoresWithin, ScoreCap;
    var cap := ScoreCap(cfg, snaps[0].tracks, snaps[0].interceptors);
    var last := |snaps| - 1;
    FleetScoreBounds(cfg, snaps[0].tracks, snaps[0].interceptors, cap);
    if j :| 0 <= j < |snaps| && IdleOnes(snaps[j].interceptors) == [] {
      var from := FirstBusy(snaps, j);
      NoRetaskWhileIdle(cfg, snaps, mems, from);
      RetaskCountSplits(cfg, snaps, mems, from, |snaps|);
      FrozenRunGrows(cfg, snaps, mems, from, last);
      FrozenScoresWithin(cfg, snaps, mems, from, cap);
      FrozenScoresWithin(cfg, snaps, mems, last, cap);
      ObeyedScoresWithin(cfg, snaps[0].tracks, snaps[last].interceptors,
                         Tick(cfg, mems[last], snaps[last]).result.commands, cap);
      FleetScoreBounds(cfg, snaps[0].tracks, snaps[from].interceptors, cap);
      FleetScoreBounds(cfg, snaps[0].tracks, ObeyedAt(cfg, snaps, mems, last), cap);
    } else {
      NoRetaskWhileIdle(cfg, snaps, mems, |snaps|);
      MultipleStep(0, cfg.retaskMargin);
    }
  }

  lemma {:induction false} FirstBusy(snaps: seq<Snapshot>, j: nat) returns (from: nat)
    requires j < |snaps| && IdleOnes(snaps[j].interceptors) == []
    ensures from <= j && IdleOnes(snaps[from].interceptors) == []
    ensures forall k | 0 <= k < from :: IdleOnes(snaps[k].interceptors) != []
  {
    hide IdleOnes;
    if i :| 0 <= i < j && IdleOnes(snaps[i].interceptors) == [] {
      from := FirstBusy(snaps, i);
    } else {
      from := j;
    }
  }

  /** A number the starting scene alone fixes. */
  ghost function RetaskLimit(cfg: Config, tracks: seq<TrackFact>, interceptors: seq<InterceptorFact>): int
    requires cfg.retaskMargin > 0.0
  {
    (2.0 * Multiple(|interceptors|, ScoreCap(cfg, tracks, interceptors)) / cfg.retaskMargin).Floor
  }

  /** With a positive margin a frozen scene sees only so many retasks, however long the run and whoever is idle
      when it starts: the number depends on the starting scene alone. */
  lemma {:induction false} RetaskingStops(cfg: Config, snaps: seq<Snapshot>, mems: seq<Memory>)
    requires IsFrozenRun(cfg, snaps, mems) && cfg.retaskMargin > 0.0
    ensures RetaskCount(cfg, snaps, mems, 0, |snaps|) <= RetaskLimit(cfg, snaps[0].tracks, snaps[0].interceptors)
  {
    hide FrozenStep, WellFormed, RetaskCount, ScoreCap;
    RetasksFit(cfg, snaps, mems);
    AtMostQuotient(RetaskCount(cfg, snaps, mems, 0, |snaps|), cfg.retaskMargin,
                   2.0 * Multiple(|snaps[0].interceptors|, ScoreCap(cfg, snaps[0].tracks, snaps[0].interceptors)));
  }

  lemma {:induction false} AtMostQuotient(n: nat, margin: real, range: real)
    requires margin > 0.0 && Multiple(n, margin) <= range
    ensures n <= (range / margin).Floor
  {
    var q := range / margin;
    assert q * margin == range;
    if q < n as real {
      MultipleExceeds(n, q, margin);
    }
  }

  lemma {:induction false} MultipleExceeds(n: nat, q: real, x: real)
    requires q < n as real && x > 0.0
    ensures Multiple(n, x) > q * x
  {
    assert (n as real - q) * x > 0.0;
  }
}
