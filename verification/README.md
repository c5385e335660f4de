# AegisTrack core: a verified model

A model of the decision and estimation core of AegisTrack, with proofs of what its parts promise. It covers optimal
assignment and its two callers, the track lifecycle, the mission behaviour tree in its loop with the interceptors, the
whole system from measurements to engaged interceptors, and four kernels: the measurement buffer, the ingest queue, the
covariance algebra and the JSONL measurement log.

Code that updates state in place is a class or a method over arrays, proved against functions on values; the laws are
lemmas about those functions, over every input or every run. The modules named for what they tell (AssignmentLaws,
BatchLaws, EstimateLaws, FlightLaws, ScoreLaws, RefusalLaws, RecordLaws, OutcomeLaws, TurnLaws) state results by
coordinates, distances, weights and counts, without the functions that compute them.

| files | what they hold |
|---|---|
| Matching, Hungarian | assignments as matchings; the primal-dual solver over arrays and its optimality proof |
| Association | the two association paths over a table of gate results |
| Tracks, TrackManager | one batch on values; the classes |
| TrackLaws, BatchLaws, WarningLaws | its conservation and lifecycle laws; a batch told by gates and numbers; the warnings of a run |
| Sorting | the stable sort that stands for std::sort and ordered insertion |
| Assignment, AssignmentLaws | interceptor assignment around the solver; its least plans told by distances and threats |
| Interceptors, InterceptorManager, FlightLaws | flight and engagement on values; the classes; where an interceptor flies |
| Mission, MissionTick, MissionBehaviorTree | the stages of a tick and the fallback tree on values; the blackboard and tree classes |
| MissionLaws, AllocationLaws, EngagementRules, RetaskLaws, ClosedLoop | maintenance and modes; the greedy matching; rules of engagement over runs; retasking; the closed loop |
| ScoreLaws, RefusalLaws, RecordLaws, OutcomeLaws | a tick told by distances, speeds and weights: whom it sends where, why it sends nobody, what it remembers and reports |
| EngagementClock | the engagement clock and the timeout over runs |
| WholeSystem, SimulationLoop, TurnLaws | the track manager in front of the closed loop; the loop on the objects, turn by turn; what a turn does to each interceptor |
| MeasurementBuffer | the buffer class and its runs |
| IngestPipeline | the pipeline's critical sections and every interleaving of them |
| Linear, EkfCv, CovarianceLaws, EstimateLaws | matrices; the filter class with its covariance checks; its laws over runs; its estimates told by dot products |
| Jsonl, JsonlLaws | printing and loading lines; the round trip |

What the model takes as parameters: the square root (any function with the square root's two properties), the filter
behind a track (gates and updates may answer anything), the Cholesky and LDLT outcomes (by what they mean in exact
arithmetic), the text of a number and what parsing makes of it, and every random draw. Doubles are exact reals and ids
and counters are unbounded; unsigned differences are proved not to go below zero where the source subtracts.

Findings about the code, each stated by a member below:

- The missing-ticks branch of the maintenance loop and the command branch of the fallback tree are dead when scores are
  finite (MissionLaws.SurvivorsAreMaintained, MissionLaws.FallbackIsSilent), and so is the track-used test of
  compute_assignments (Assignment.CollectPicks).
- The buffer's output is in send order exactly when no push is sent earlier than one a pop has already taken
  (MeasurementBuffering.OrderKeptExactly). The simulation's sensors meet this while targets exist; a radar false alarm
  sensed with no target at all is stamped with time 0 (src/sensors/radar/radar_sensor.cpp:105), and two of them can come
  out in the wrong order (MeasurementBuffering.AlarmsBreakOrder).
- The ingest worker drains its queue on shutdown only when at most one measurement is left for it
  (Ingest.ShutdownDrainsExactly, with a losing run in Ingest.ShutdownCanLose), and enqueueing answers false when it
  replaces the oldest entry although the new one is stored (Ingest.AnswerTellsStoredExactly).
- The covariance repair fails in all of its eight attempts exactly when a diagonal shift of 20 is too small
  (Ekf.RepairSucceedsExactly), and a filter can be initialised with such a matrix and then never predict or update
  again (CovarianceLaws.RepairCanFail).
- The diagonal test of the covariance check never decides (EstimateLaws.SaneTells).
- A fragmentation window of one batch never warns (WarningLaws.ShortWindowNeverWarns).
- With multi-engage, an interceptor that is filled in while engaged on another track is reported as assigned, not as
  retasked (Assignment.NameOfDecision, with an input in Assignment.RetaskCalledAssignment). With costs below 1e12 nobody
  is filled in exactly when there are no more eligible interceptors than tracks (Assignment.AllPickedExactly).
- A measurement of type Position3D is logged but never loaded, and snr is not logged (JsonlLaws.LineReadsBack).

Check the project with `dafny verify dfyconfig.toml`.

## Model

| member | source | states |
|---|---|---|
| Hungarian.HungarianSolve | src/fusion_core/association/hungarian.cpp:8-99 | for every matrix, ragged ones included, the result matches min(rows, cols) rows to distinct columns at the least total cost of any such assignment; empty inputs give the source's answers |
| Hungarian.SolvePadded | src/fusion_core/association/hungarian.cpp:32-98 | the whole row loop and read-out give an optimal assignment of the padded matrix restricted to the real cells |
| Hungarian.PaddedMatrix | src/fusion_core/association/hungarian.cpp:22-30 | cells outside the input cost 1e12, all others are copied |
| Hungarian.InsertRow | src/fusion_core/association/hungarian.cpp:37-81 | after row i, rows 1 to i are matched to distinct columns, every processed row satisfies a[r][j] >= u[r] + v[j], and matched pairs are tight |
| Hungarian.GrowTree | src/fusion_core/association/hungarian.cpp:43-74 | the tree loop terminates: every pass marks a new column, and it stops at an unmatched column reached through links |
| Hungarian.GrowPass | src/fusion_core/association/hungarian.cpp:43-74 | one pass keeps links, slacks and dual feasibility and moves to an unmarked column |
| Hungarian.ScanColumns | src/fusion_core/association/hungarian.cpp:49-63 | the scan lowers the slack of unmarked columns with its predecessor and finds the least slack |
| Hungarian.ShiftDuals | src/fusion_core/association/hungarian.cpp:65-72 | the shift moves exactly the duals of the marked columns and their rows, and lowers the other slacks |
| Hungarian.Augment | src/fusion_core/association/hungarian.cpp:76-80 | the walk back along the links ends at column 0 and leaves a matching that holds one row more |
| Hungarian.ReadAssignment | src/fusion_core/association/hungarian.cpp:83-96 | the result is the inverse of the matching with columns beyond the input dropped to -1 |
| Hungarian.ShiftKeepsCell | src/fusion_core/association/hungarian.cpp:65-72 | a dual shift by the least slack keeps every cell of the tree's invariant |
| Hungarian.ShiftKeepsGrowing | src/fusion_core/association/hungarian.cpp:65-72 | the shift keeps feasibility, tightness, links and slacks together |
| Hungarian.PassKeepsSwept | src/fusion_core/association/hungarian.cpp:43-74 | a pass only touches what a pass may touch, so the row's starting facts carry through |
| Hungarian.OpenColumn | src/fusion_core/association/hungarian.cpp:43-74 | while fewer than n rows are matched some column is unmatched, so a pass always finds a finite slack |
| Hungarian.AugmentStep | src/fusion_core/association/hungarian.cpp:76-80 | one step of the walk keeps the partial matching injective and tight and comes closer to the root |
| Hungarian.DualBound | src/fusion_core/association/hungarian.cpp:54-72 | feasible duals bound the cost of any permutation from below |
| Hungarian.DualAttained | src/fusion_core/association/hungarian.cpp:54-80 | the tight matching attains that bound |
| Hungarian.FoundIsOptimal | src/fusion_core/association/hungarian.cpp:37-81 | so no permutation of the padded matrix is cheaper than the one found |
| Hungarian.RestrictionIsOptimal | src/fusion_core/association/hungarian.cpp:22-30 | an optimal permutation of the padded matrix restricts to an optimal assignment of the input: the pad value has no influence |
| Matching.RestrictTotal | src/fusion_core/association/hungarian.cpp:22-30 | restricting a permutation changes its padded total by a constant that depends on the shape only |
| Matching.LargestIsRestriction | src/fusion_core/association/hungarian.cpp:22-30 | every assignment of min(rows, cols) rows is the restriction of some permutation |
| Association.NearestNeighbor | src/fusion_core/track_manager.cpp:416-459 | each track in turn takes its cheapest gated measurement among those earlier tracks left |
| Association.GreedyIsGated | src/fusion_core/track_manager.cpp:416-459 | the result is a gated matching |
| Association.GreedyIsMaximal | src/fusion_core/track_manager.cpp:416-459 | it is maximal: a passing pair always has its track matched or its measurement taken |
| Association.GreedyIsHalf | src/fusion_core/track_manager.cpp:416-459 | its size is at least half that of any gated matching |
| Association.FillCosts | src/fusion_core/track_manager.cpp:470-491 | the cost matrix holds the gate's cost where the gate passes and unassigned_cost elsewhere |
| Association.FilterAccepted | src/fusion_core/track_manager.cpp:493-513 | matches costing unassigned_cost or more are dropped, all others kept |
| Association.HungarianAssociation | src/fusion_core/track_manager.cpp:461-516 | the result is an optimal assignment of that matrix, filtered; nothing is matched when either side is empty |
| Association.HungarianIsGated | src/fusion_core/track_manager.cpp:505-507 | only passing pairs survive the filter |
| Association.HungarianPenalised | src/fusion_core/track_manager.cpp:470-513 | when no passing cost exceeds unassigned_cost, no gated matching has a lower cost less unassigned_cost per match |
| Association.HungarianIsMaximum | src/fusion_core/track_manager.cpp:470-513 | when unassigned_cost exceeds min(tracks, measurements) times the gate bound, the result has maximum cardinality and least cost among those |
| Association.PathsCompare | src/fusion_core/track_manager.cpp:150-158 | so the greedy path finds at least half, and never more, of what the Hungarian path finds |
| TrackManagement.Track.MarkRadarHit | src/fusion_core/track.cpp:30-44 | the counters, score, confidence and trace id after a radar hit |
| TrackManagement.Track.MarkEoirRefinementHit | src/fusion_core/track.cpp:46-53 | a refinement changes score, confidence and trace id and no counter |
| TrackManagement.Track.MarkMiss | src/fusion_core/track.cpp:59-64 | the counters after a miss |
| TrackManagement.TrackManager.PredictAll | src/fusion_core/track_manager.cpp:114-118 | every track's estimate is predicted, nothing else changes |
| TrackManagement.TrackManager.Associate | src/fusion_core/track_manager.cpp:150-158 | a matching of the kind the configured path computes, over the gates of the current tracks |
| TrackManagement.TrackManager.RadarUpdates | src/fusion_core/track_manager.cpp:160-190 | the matched tracks are updated in turn and the track and measurement flags record exactly the successes |
| TrackManagement.TrackManager.MarkMisses | src/fusion_core/track_manager.cpp:198-210 | exactly the unflagged tracks miss and are reported as coasted, in order |
| TrackManagement.TrackManager.RadarPhase | src/fusion_core/track_manager.cpp:160-210 | hits then misses leave each track as the radar stage prescribes, and neither unsigned difference reported at the end wraps |
| TrackManagement.TrackManager.CreateTracks | src/fusion_core/track_manager.cpp:212-235 | unused radar measurements with confidence at least 0.3 seed tracks with consecutive ids, and the flag vectors grow with the list |
| TrackManagement.TrackManager.RecordWarning | src/fusion_core/track_manager.cpp:385-414 | the first recently deleted confirmed track within range is reported, and none when the distance is not positive |
| TrackManagement.TrackManager.SelectTrack | src/fusion_core/track_manager.cpp:250-262 | -1 exactly when no angular gate passes; otherwise a passing track of least cost, every earlier passing one costing strictly more, told by the gate alone |
| TrackManagement.TrackManager.RefineTracks | src/fusion_core/track_manager.cpp:237-279 | angular measurements in turn refine the first track of least passing cost when its update is accepted, and raise its flag, in the list of all updates and in that of refinements |
| TrackManagement.TrackManager.CountMultisensor | src/fusion_core/track_manager.cpp:281-286 | the number of tracks both sensors updated |
| TrackManagement.TrackManager.AgeRecentlyDeleted | src/fusion_core/track_manager.cpp:371-383 | remaining ticks go down by one and expired entries go |
| TrackManagement.TrackManager.ApplyLifecycleRules | src/fusion_core/track_manager.cpp:518-554 | the list, the deltas and the recently deleted list after the rules, with deletion tested first |
| TrackManagement.TrackManager.UpdateWithMeasurements | src/fusion_core/track_manager.cpp:120-335 | one batch takes the whole state to the next state that BatchLaws.BatchIsTold describes, for either path and any filter, and leaves the three flag vectors and the multisensor count of that batch |
| TrackManagement.HitsThenMisses | src/fusion_core/track_manager.cpp:160-210 | updating in match order and then missing the rest is the same as deciding each track on its own |
| TrackManagement.FlagsAgree | src/fusion_core/track_manager.cpp:212-292 | the radar and the refinement flags are each as long as the list they are read with, created tracks included, and the updated flags are their element-wise disjunction |
| BatchLaws.BatchIsTold | src/fusion_core/track_manager.cpp:120-335 | the list before the lifecycle rules, the survivors, the reports and the flags of a batch, told by gates, updates, numbers and statuses: hits and misses with their scores and confidences, new tracks, refinements in turn, deletions and confirmations |
| BatchLaws.RefinementStep | src/fusion_core/track_manager.cpp:237-279 | an angular measurement changes the first track of least passing cost, when its update is accepted, and nothing else |
| BatchLaws.CreatedTells | src/fusion_core/track_manager.cpp:212-235 | the new tracks are those of the readable, unused measurements of confidence at least 0.3, in order |
| BatchLaws.PredictionTells | src/fusion_core/track_manager.cpp:114-118 | a prediction changes every estimate by the filter's prediction and nothing else |
| BatchLaws.MatchesPass | src/fusion_core/track_manager.cpp:150-158 | every match of either path joins a track and a readable radar measurement whose gate passes |
| BatchLaws.NearestTaken | src/fusion_core/track_manager.cpp:416-459 | on the greedy path a track takes a measurement that costs it no more than any earlier tracks left |
| BatchLaws.MostMatched | src/fusion_core/track_manager.cpp:461-516 | on the Hungarian path, when unassigned_cost exceeds the number of matches times the bound of the gates, no gated matching of the batch is larger, and none as large is cheaper |
| TrackLaws.UsesAreDistinct | src/fusion_core/track_manager.cpp:165-235 | each radar measurement updates at most one track or seeds at most one, never both |
| TrackLaws.CountsFit | src/fusion_core/track_manager.cpp:297-303 | hits plus coasts are the prior tracks, and hits plus created tracks are at most the radar measurements |
| TrackLaws.BatchTicks | src/fusion_core/track_manager.cpp:165-235 | every prior track gets exactly one hit or one miss and every new one its first hit and its own id |
| TrackLaws.ListConservation | src/fusion_core/track_manager.cpp:120-335 | the new id list is the old one plus created minus deleted, in order |
| TrackLaws.BatchKeepsInvariant | src/fusion_core/track_manager.cpp:518-554 | between batches tentative tracks are below both thresholds and confirmed ones at or above confirm_hits and below their own; ids increase strictly |
| TrackLaws.ConfirmedOnlyOnHit | src/fusion_core/track_manager.cpp:541-547 | a track is confirmed only on a hit, the one that reaches confirm_hits, or as a newborn with one hit |
| TrackLaws.DeletedOnThresholdMiss | src/fusion_core/track_manager.cpp:519-539 | a track is deleted exactly when it existed, was not hit, and this miss reaches its threshold |
| TrackLaws.RunInvariant | src/fusion_core/track_manager.cpp:518-554 | the invariant holds in every state of every run of predictions and batches |
| TrackLaws.RunIds | src/fusion_core/track_manager.cpp:366 | in every state of every run ids rise along the list and lie between 1 and the next id |
| TrackLaws.IdsNeverReused | src/fusion_core/track_manager.cpp:366 | every id created later is greater than every id present earlier in the run |
| TrackLaws.GoneStaysGone | src/fusion_core/track_manager.cpp:366-369 | an id once handed out and gone from the list never returns to it |
| TrackLaws.CountersTellHistory | src/fusion_core/track.cpp:30-64 | in every run a track's age is its hits plus every batch it coasted and its misses are its current streak of coasts |
| WarningLaws.RecentsTellHistory | src/fusion_core/track_manager.cpp:371-383 | in every run the recently deleted list holds exactly the deletions within the window, each with what is left of it |
| WarningLaws.WarningsAreFounded | src/fusion_core/track_manager.cpp:385-414 | every warning of every run joins a track the batch created to one deleted as confirmed fewer than the window's batches ago, at the stated distance within the limit |
| WarningLaws.ReappearanceIsWarned | src/fusion_core/track_manager.cpp:385-414 | and every created track with such a track nearby is warned of |
| WarningLaws.ShortWindowNeverWarns | src/fusion_core/track_manager.cpp:371-383 | a window of one batch never warns, as entries are aged before they are looked at |
| Assignment.FindEligible | src/decision/assignment.cpp:47-66 | exactly the idle interceptors, and with retasking those beyond the commit distance, in order |
| Assignment.BuildCosts | src/decision/assignment.cpp:72-84 | each cell is distance over threat, with threat at least 0.05; AssignmentLaws.CostOfDecision tells the cost of every decision by coordinates |
| Assignment.CollectPicks | src/decision/assignment.cpp:89-120 | the decisions are the solver's matches below 1e12; the track-used test never fires |
| Assignment.FillIn | src/decision/assignment.cpp:122-139 | eligible interceptors without a decision get the first sorted track at cost 0 |
| Assignment.TopTrack | src/decision/assignment.cpp:37-45 | the first sorted track is one of the tracks and none has a greater threat, or the same threat and a lower id |
| Assignment.ComputeAssignments | src/decision/assignment.cpp:24-146 | the answer is the sorted list built from an optimal assignment of the problem; AssignmentLaws.LeastPlan tells what is least |
| Assignment.CommittedUntouched | src/decision/assignment.cpp:47-66 | no decision ever names a committed interceptor |
| Assignment.AnswerIsSorted | src/decision/assignment.cpp:141-144 | decisions come in increasing interceptor id |
| Assignment.SingleEngage | src/decision/assignment.cpp:86-120 | without multi-engage and with costs below 1e12 there are min(eligible, tracks) decisions, distinct on both sides, at least total cost |
| Assignment.MultiEngage | src/decision/assignment.cpp:89-139 | with multi-engage every eligible interceptor gets exactly one decision: its cell of the optimal assignment when that costs less than 1e12, and otherwise the first sorted track at cost 0 |
| Assignment.NameOfDecision | src/decision/assignment.cpp:109-137 | with multi-engage a decision says retask exactly when its interceptor leaves another target, if and only if it is a pick, or its interceptor was idle or already on the first sorted track |
| Assignment.AllPickedExactly | src/decision/assignment.cpp:86-120 | with costs below 1e12 every eligible interceptor has a pick if and only if they are no more than the tracks |
| Assignment.RightNames | src/decision/assignment.cpp:109-137 | so without multi-engage, or with costs below 1e12 and no more eligible interceptors than tracks, every decision is rightly named |
| Assignment.NamesFailExactly | src/decision/assignment.cpp:109-137 | and when all eligible interceptors fly at other targets than the first sorted track, all decisions are rightly named if and only if there are no more of them than tracks |
| Assignment.RetaskCalledAssignment | src/decision/assignment.cpp:122-139 | an input where the interceptor sent from track 9 to track 7 is told so as an assignment, in every answer |
| AssignmentLaws.CostOfDecision | src/decision/assignment.cpp:72-120 | without multi-engage the cost of a decision times the threat of its track, at least 0.05, is the distance d from its interceptor: d is not negative and d squared is the squared distance by coordinates |
| AssignmentLaws.OnlySendable | src/decision/assignment.cpp:47-66 | every decision is for an interceptor that is idle, or, with retasking, farther from its present target than the commit distance |
| AssignmentLaws.LeastPlan | src/decision/assignment.cpp:68-120 | with flights cheaper than 1e12 no way to send distinct interceptors to distinct tracks has more flights than the answer, and none of as many flights has a lower sum of distance over threat |
| AssignmentLaws.LoneInterceptor | src/decision/assignment.cpp:68-120 | a lone interceptor gets a track of least distance over threat |
| AssignmentLaws.GreaterThreatFirst | src/decision/assignment.cpp:68-120 | of two tracks equally far the lone interceptor takes the one of greater threat |
| InterceptorManagement.Interceptor.AssignTarget | src/agents/interceptor/interceptor.cpp:20-29 | a new target restarts the clock, the same target keeps it |
| InterceptorManagement.Interceptor.Step | src/agents/interceptor/interceptor.cpp:31-73 | the state after steering, limiting and moving, which FlightLaws.FlownTells tells by coordinates; nothing changes when idle or for a step that is not positive |
| InterceptorManagement.Interceptor.ClearEngagement | src/agents/interceptor/interceptor.cpp:87-91 | target and clock are reset |
| Interceptors.LimitedSpeed | src/agents/interceptor/interceptor.cpp:60-68 | the limiter leaves a speed of at most max_speed in the same direction |
| Interceptors.FlownSpeed | src/agents/interceptor/interceptor.cpp:31-73 | so speed never exceeds max_speed over any step |
| FlightLaws.FlownTells | src/agents/interceptor/interceptor.cpp:31-73 | the new velocity is the old one turned by 2 dt towards full speed along the line to the target and shortened to max_speed, and the position moves by dt times it |
| FlightLaws.StraightVelocity | src/agents/interceptor/interceptor.cpp:31-73 | at rest, or flying straight at the target, the new velocity points straight at it, at a speed 2 dt of the way to max_speed and at most that |
| FlightLaws.TakesOff | src/agents/interceptor/interceptor.cpp:31-73 | from rest the velocity becomes a positive multiple of target minus position and the distance falls by that speed times dt |
| FlightLaws.ClosesIn | src/agents/interceptor/interceptor.cpp:31-73 | flying straight at the target the distance falls by exactly dt times the new speed, and the flight stays straight |
| FlightLaws.PursuitClosesIn | src/agents/interceptor/interceptor_manager.cpp:36-54 | so a pursuing interceptor closes in on the position held for its track |
| FlightLaws.StepEndsExactly | src/agents/interceptor/interceptor_manager.cpp:36-54 | a step ends an engagement exactly when the position is unknown or the clock passes the timeout |
| InterceptorManagement.InterceptorManager.Build | src/agents/interceptor/interceptor_manager.cpp:7-20 | one idle interceptor per configuration in id order, the first entry of an id owning it; None exactly when some speed is not positive |
| InterceptorManagement.InterceptorManager.SetEngagementTimeout | src/agents/interceptor/interceptor_manager.cpp:22-26 | only a positive timeout is taken |
| InterceptorManagement.InterceptorManager.UpdateTrackPositions | src/agents/interceptor/interceptor_manager.cpp:28-34 | the known positions are replaced, a later entry overriding an earlier one |
| InterceptorManagement.InterceptorManager.Step | src/agents/interceptor/interceptor_manager.cpp:36-54 | every interceptor follows its target's position, or gives up when it is unknown or the clock passes the timeout; FlightLaws.PursuitClosesIn tells where it flies |
| InterceptorManagement.InterceptorManager.Assign | src/agents/interceptor/interceptor_manager.cpp:56-70 | commands are carried out in order, unknown ids and positions skipped |
| InterceptorManagement.InterceptorManager.HandleIntercepts | src/agents/interceptor/interceptor_manager.cpp:81-94 | exactly the interceptors still engaged on the reported track are released |
| InterceptorManagement.InterceptorManager.States | src/agents/interceptor/interceptor_manager.cpp:72-79 | the states in entry order |
| MissionControl.MissionBlackboard.SetTracks | src/decision/blackboard.cpp:14-23 | the board holds exactly the given tracks, by falling priority and equal priorities by rising id, and nothing else of it changes |
| MissionControl.MissionBlackboard.SetInterceptors | src/decision/blackboard.cpp:25-32 | the board holds exactly the given interceptors by rising id |
| MissionControl.MissionBlackboard.SetInterceptorsFromStates | src/decision/blackboard.cpp:34-51 | the board holds exactly the facts of the states, by rising id |
| MissionControl.MissionBlackboard.SetSensorHealth | src/decision/blackboard.cpp:53-60 | the board holds exactly the given reports by rising sensor id |
| MissionControl.MissionBlackboard.SetEngagement | src/decision/blackboard.cpp:67-76 | the engagement is replaced and the mode becomes Engage |
| Mission.HighestPriority | src/decision/blackboard.cpp:88-106 | a non-deleted (or confirmed) track no other such track outranks, or None when there is none |
| Mission.AvailableInterceptor | src/decision/blackboard.cpp:108-116 | the first idle interceptor of the snapshot, or None exactly when there is none |
| MissionControl.MissionBehaviorTree.MergeEngagements | src/decision/mission_behavior_tree.cpp:149-198 | the memory takes in the engagements the blackboard and the interceptors show |
| MissionControl.MissionBehaviorTree.Reconcile | src/decision/mission_behavior_tree.cpp:225-258 | engagements with a removal reason go, the blackboard's own with them |
| MissionControl.MissionBehaviorTree.UpdateStability | src/decision/mission_behavior_tree.cpp:266-284 | confirmed tracks count one tick more, all others are forgotten |
| MissionControl.MissionBehaviorTree.Prepare | src/decision/mission_behavior_tree.cpp:190-348 | the memory before a branch is chosen |
| MissionControl.MissionBehaviorTree.MaintainEngagements | src/decision/mission_behavior_tree.cpp:395-433 | what the loop with its erase in place leaves, engagement by engagement |
| MissionControl.MissionBehaviorTree.SelectPair | src/decision/mission_behavior_tree.cpp:441-474 | the first pair of strictly greatest score; ScoreLaws.ScoreTells tells a score by distance, speed, priority and confidence |
| MissionControl.MissionBehaviorTree.AssignIdle | src/decision/mission_behavior_tree.cpp:435-527 | the greedy loop terminates with the specified commands, memory, blackboard and result |
| MissionControl.MissionBehaviorTree.SelectSwap | src/decision/mission_behavior_tree.cpp:542-585 | the first swap of strictly greatest gain |
| MissionControl.MissionBehaviorTree.MaintainOrRetask | src/decision/mission_behavior_tree.cpp:534-647 | at most one retask, and the result and blackboard either way |
| MissionControl.MissionBehaviorTree.Fallback | src/decision/mission_behavior_tree.cpp:653-958 | running the tree of selectors and sequences, then recording a denial |
| MissionControl.RunSequence | src/decision/sequence.h:17-25 | children run in order until one does not succeed |
| MissionControl.RunSelector | src/decision/selector.h:17-25 | children run in order until one does not fail |
| MissionControl.MissionBehaviorTree.Tick | src/decision/mission_behavior_tree.cpp:137-959 | one tick takes memory and blackboard to the outcome that ScoreLaws, RefusalLaws, RecordLaws and OutcomeLaws describe, and returns its mode, event, counts and commands |
| MissionLaws.MergedDistinct | src/decision/mission_behavior_tree.cpp:149-198 | the memory never holds two engagements of one track |
| MissionLaws.SurvivorAgrees | src/decision/mission_behavior_tree.cpp:227-258 | an engagement that survives reconciliation has a live track and an interceptor engaged on it |
| MissionLaws.EngagedIsRemembered | src/decision/mission_behavior_tree.cpp:190-258 | an interceptor engaged on a live track always leaves an engagement of that track in the memory |
| MissionLaws.SurvivorsAreMaintained | src/decision/mission_behavior_tree.cpp:395-433 | every survivor is maintained, so the missing-ticks branch never erases anything |
| MissionLaws.GateVerdict | src/decision/mission_behavior_tree.cpp:672-795 | each gate passes exactly when its condition holds and otherwise refuses without a command |
| MissionLaws.EngageRefuses | src/decision/mission_behavior_tree.cpp:653-886 | the engage sequence refuses whenever nothing is left to assign |
| MissionLaws.FallbackIsSilent | src/decision/mission_behavior_tree.cpp:653-958 | so the fallback tree never emits a command and chooses Track or Search by whether a non-deleted track exists |
| MissionLaws.ModeIsMeaningful | src/decision/mission_behavior_tree.cpp:529-958 | after any tick the mode is Engage exactly when an engagement is active, else Track or Search, and the blackboard agrees |
| AllocationLaws.RoundSelects | src/decision/mission_behavior_tree.cpp:441-474 | each round picks a pair of greatest score, and none only when nobody is idle or nothing is open |
| AllocationLaws.AllocateCount | src/decision/mission_behavior_tree.cpp:435-526 | exactly min(idle, engageable unengaged tracks) commands are issued |
| AllocationLaws.AllocatePairs | src/decision/mission_behavior_tree.cpp:435-526 | each pairs an idle interceptor with an open track at their score |
| AllocationLaws.AllocateOrder | src/decision/mission_behavior_tree.cpp:465-472 | scores never increase along the commands |
| AllocationLaws.AllocateShape | src/decision/mission_behavior_tree.cpp:479-511 | no interceptor or track is used twice, and the memory grows by exactly the pairs |
| AllocationLaws.AllocateStable | src/decision/mission_behavior_tree.cpp:435-526 | the matching is stable: for every open pair some chosen pair sharing a side scores at least as much |
| AllocationLaws.AllocateIsHalf | src/decision/mission_behavior_tree.cpp:435-526 | with non-negative scores the total is at least half that of any matching |
| EngagementRules.CommandsAreLegal | src/decision/mission_behavior_tree.cpp:303-324 | every command names a snapshot track that is engageable and not yet engaged |
| EngagementRules.StabilityIsStreak | src/decision/mission_behavior_tree.cpp:266-284 | in every run the stability counter is the number of consecutive snapshots in which the track was confirmed |
| EngagementRules.MemoryHoldsLastDenial | src/decision/mission_behavior_tree.cpp:947-952 | in every run the memory holds the last denial and the end of its cooldown |
| EngagementRules.RulesOfEngagement | src/decision/mission_behavior_tree.cpp:303-324 | every command ever emitted targets a track confirmed in each of the last N snapshots, above the thresholds, in range, with healthy sensors and out of cooldown |
| RetaskLaws.ChosenSwapIsBest | src/decision/mission_behavior_tree.cpp:542-589 | the swap made has the largest gain, at least the margin; none is made only when no gain reaches it |
| RetaskLaws.RetaskIsAlone | src/decision/mission_behavior_tree.cpp:534-628 | a retask is the only command of its tick and happens only with nobody idle |
| RetaskLaws.RetaskPays | src/decision/mission_behavior_tree.cpp:586-628 | each retask raises the fleet's total score by at least the margin |
| RetaskLaws.FrozenRunGrows | src/decision/mission_behavior_tree.cpp:534-628 | from the first tick of a frozen scene with nobody idle on, the total score has grown by the margin per retask |
| RetaskLaws.RetasksFit | src/decision/mission_behavior_tree.cpp:534-628 | over every run of a frozen scene, the number of ticks that retask times the margin is at most twice the number of interceptors times the greatest score any pair of the scene can have in size |
| RetaskLaws.RetaskingStops | src/decision/mission_behavior_tree.cpp:534-628 | so with a positive margin a bound computed from the starting scene limits the retasks of every run of it, of any length |
| ScoreLaws.ScoreTells | src/decision/engagement_scoring.h:34-60 | the score of a pair d apart: weighted priority and confidence, less the time weight times d over the reckoned speed, less the distance weight times d over the normalizer |
| ScoreLaws.OpenTells | src/decision/mission_behavior_tree.cpp:303-326 | a track is open exactly when it is confirmed, scored above the threshold, held with enough confidence, in range, stable, not cooling down, with no sensor stale and nobody engaged on it |
| ScoreLaws.CommandTells | src/decision/mission_behavior_tree.cpp:435-520 | each idle interceptor sent out makes a pair of greatest score, told by distances, among those the commands before it left, and the first one's score is the one reported |
| ScoreLaws.NearestIsSent | src/decision/mission_behavior_tree.cpp:435-474 | of idle interceptors of equal speed the one sent to a track is a nearest |
| ScoreLaws.FastestIsSent | src/decision/mission_behavior_tree.cpp:435-474 | of idle interceptors equally far the one sent is a fastest, one standing still being reckoned with the default speed |
| ScoreLaws.WorthiestIsChosen | src/decision/mission_behavior_tree.cpp:435-474 | of open tracks equally far an interceptor is sent to one of greatest weighted priority plus confidence |
| ScoreLaws.NearestIsChosen | src/decision/mission_behavior_tree.cpp:435-474 | of open tracks of equal priority and confidence an interceptor is sent to a nearest |
| ScoreLaws.NothingLeftOver | src/decision/mission_behavior_tree.cpp:435-526 | no tick leaves an idle interceptor and an open track both without a command |
| ScoreLaws.RetaskTells | src/decision/mission_behavior_tree.cpp:534-624 | a retask moves an engaged interceptor to an open track for a gain, told by distances, of at least the margin, and no other interceptor that flies alone would gain more |
| ScoreLaws.RetaskGoesNearer | src/decision/mission_behavior_tree.cpp:534-624 | with a positive margin a retask between tracks of equal priority and confidence goes to the nearer |
| ScoreLaws.RetaskDeclined | src/decision/mission_behavior_tree.cpp:534-640 | with nobody idle a tick without a command means no interceptor that flies alone would gain the margin |
| RefusalLaws.RefusalTells | src/decision/mission_behavior_tree.cpp:648-951 | a tick that ends with no engagement reports the first obstacle to engaging the foremost confirmed track - cooldown, confidence, sensors, range, nobody idle - or else how the foremost track is watched |
| RefusalLaws.WatchTells | src/decision/mission_behavior_tree.cpp:862-925 | with no confirmed track it reports how the foremost track is watched, or that it is searching |
| RecordLaws.RecordTells | src/decision/mission_behavior_tree.cpp:384-430 | every engagement remembered after a tick was commanded in it and starts now, or was maintained: it keeps its times and counts one more tick of low confidence or none |
| RecordLaws.StartIsRecorded | src/decision/mission_behavior_tree.cpp:162-172 | in every run the start time of an engagement is that of the snapshot it started with, and it has been remembered ever since |
| RecordLaws.CountsTell | src/decision/mission_behavior_tree.cpp:249-262 | the idle, active and removed counts reported add up with the commands and the engagements looked at |
| OutcomeLaws.AssignmentTells | src/decision/mission_behavior_tree.cpp:486-526 | after assigning idle interceptors the event and the blackboard name the last command, and the event tells whether it is the only engagement |
| OutcomeLaws.MaintenanceTells | src/decision/mission_behavior_tree.cpp:384-424 | when engagements are kept and nobody is sent the event names the one last maintained, or with nobody idle and an open track that a retask was denied |
| OutcomeLaws.RetaskEventTells | src/decision/mission_behavior_tree.cpp:588-626 | after a retask the event and the blackboard name its command |
| OutcomeLaws.RemovalTells | src/decision/mission_behavior_tree.cpp:227-258 | the reason an engagement is dropped for, each told exactly by its track and its interceptor |
| OutcomeLaws.MergedTells | src/decision/mission_behavior_tree.cpp:190-198 | reconciliation looks at exactly the tracks remembered, the one on the blackboard and the targets flown at |
| OutcomeLaws.BoardKeeps | src/decision/mission_behavior_tree.cpp:247-256 | without commands an engagement on the blackboard stays while its interceptor flies at its live track |
| OutcomeLaws.BoardClears | src/decision/mission_behavior_tree.cpp:247-256 | without commands it is cleared when nobody flies at its track |
| OutcomeLaws.EngageTicksTell | src/decision/mission_behavior_tree.cpp:529-532 | the count of ticks in mode Engage runs on in that mode and falls to zero in any other |
| OutcomeLaws.StableTrackTells | src/decision/mission_behavior_tree.cpp:341-349 | the memory names the foremost confirmed track and its ticks |
| OutcomeLaws.DenialReasonTells | src/decision/mission_behavior_tree.cpp:947-952 | the memory keeps the reason of the latest denial |
| ClosedLoop.KeptMirrorsFleet | src/decision/mission_behavior_tree.cpp:190-258 | after reconciliation the memory holds exactly the engagements interceptors have on live tracks |
| ClosedLoop.CommandsAreFresh | src/decision/mission_behavior_tree.cpp:435-526 | no command targets a track some interceptor is engaged on, and every command names a confirmed track |
| ClosedLoop.AssignAllEffect | src/agents/interceptor/interceptor_manager.cpp:56-70 | assignment engages exactly the named interceptors, each on the last track named for it |
| ClosedLoop.MemoryMirrorsFleet | src/tools/run_sim.cpp:633-677 | right after assign, an interceptor is engaged on a live track exactly when the memory says so |
| ClosedLoop.MemoryNamesFleet | src/tools/run_sim.cpp:633-677 | every engagement in the memory belongs to an interceptor of the fleet |
| ClosedLoop.MemoryStaysDistinct | src/tools/run_sim.cpp:633-677 | the memory keeps one engagement per track through a round |
| ClosedLoop.RoundOnlyReleases | src/agents/interceptor/interceptor_manager.cpp:36-94 | stepping and intercepts release engagements and never move one to another track |
| ClosedLoop.RoundKeepsSound | src/tools/run_sim.cpp:633-698 | a round of snapshot, tick, assign, step and intercepts keeps distinct targets |
| ClosedLoop.LoopIsSound | src/tools/run_sim.cpp:633-698 | no two interceptors are ever engaged on one track, in any run, for any reported hits |
| ClosedLoop.LoopAgrees | src/tools/run_sim.cpp:633-698 | in every round of every run memory and interceptors agree right after assign |
| EngagementClock.RoundClock | src/agents/interceptor/interceptor_manager.cpp:36-94 | a round keeps idle clocks at zero, and runs an engaged interceptor's clock on exactly when it stays on its target, from zero otherwise |
| EngagementClock.ClockTellsFlight | src/agents/interceptor/interceptor_manager.cpp:36-54 | in every run the engagement clock is the time flown at the present target, and never above the timeout |
| EngagementClock.EngagementsTimeOut | src/agents/interceptor/interceptor_manager.cpp:36-54 | so an engagement that lasts from round j to k has been flown for the sum of the steps between, which is within the timeout |
| WholeSystem.TracksAreInput | src/tools/run_sim.cpp:588-636 | every state of every tracking run is an input the loop may be given: distinct tracks with ids from 1 |
| WholeSystem.SimulationIsSound | src/tools/run_sim.cpp:588-698 | so with the track manager in front of the loop no two interceptors are ever engaged on one track |
| WholeSystem.EngagedIsConfirmed | src/tools/run_sim.cpp:588-698 | after any round an engaged interceptor's target is a track the tracker holds as confirmed |
| WholeSystem.EngagedIsWellTracked | src/tools/run_sim.cpp:588-698 | that track has at least confirm_hits hits and fewer than confirmed_delete_misses misses in a row |
| WholeSystem.GoneIsAbandoned | src/tools/run_sim.cpp:588-698 | once the tracker has dropped a track no interceptor is engaged on it, in that round or any later one |
| WholeSystem.CommandIsOnTrack | src/tools/run_sim.cpp:588-677 | every command of every round sends its interceptor to where the tracker estimates a confirmed track of its own, scored above the threshold and held with enough confidence |
| TurnLaws.ConfigTells | src/agents/interceptor/interceptor_manager.cpp:7-20 | every configuration gives one interceptor: idle at its start, at rest, with its own speed |
| TurnLaws.TablesTell | src/tools/run_sim.cpp:606-633 | both position tables of a turn hold exactly the confirmed tracks, each at its position |
| TurnLaws.HitsTell | src/tools/run_sim.cpp:680-690 | the hits are exactly the engaged interceptors less than 5 metres from their confirmed track, the distance told by coordinates |
| TurnLaws.HandledExactly | src/agents/interceptor/interceptor_manager.cpp:81-94 | a report of hits releases exactly the interceptors still engaged on the track reported for them |
| TurnLaws.CommandedOnce | src/decision/mission_behavior_tree.cpp:435-624 | no tick commands an interceptor twice |
| TurnLaws.EngagedAfterTurn | src/tools/run_sim.cpp:633-698 | an interceptor after a target stays engaged through a turn exactly when its clock stays within the timeout and the track is confirmed and 5 metres or more away once it has flown |
| TurnLaws.TurnClosesIn | src/tools/run_sim.cpp:633-698 | an interceptor at rest, or flying straight at its confirmed track, is closer by dt times its new speed after the turn |
| TurnLaws.IdleAfterTurn | src/tools/run_sim.cpp:633-698 | an idle interceptor nobody commands is left as it is |
| Simulation.ConfigsStart | src/agents/interceptor/interceptor_manager.cpp:7-20 | configurations with distinct ids give a fleet a run may start from: distinct interceptors, idle, with their clocks at zero |
| Simulation.SimulationLoop.Create | src/tools/run_sim.cpp:385-406 | the objects as set up meet the loop's starting condition, or the manager reports a speed that is not positive |
| Simulation.SimulationLoop.Track | src/tools/run_sim.cpp:512-604 | prediction and update take the track manager two steps of its run, and the blackboard is told of exactly its tracks |
| Simulation.SimulationLoop.FindHits | src/tools/run_sim.cpp:680-690 | the hits are the engaged interceptors less than 5 metres from the position of their target, in order |
| Simulation.SimulationLoop.ForgetIdle | src/tools/run_sim.cpp:720-737 | the engagements given up are forgotten, and the blackboard's is cleared if there are any |
| Simulation.SimulationLoop.Turn | src/tools/run_sim.cpp:631-737 | a turn on the objects is a round of the closed loop, for the hits within 5 metres and the clearing the code finds |
| Simulation.SimulationLoop.Tick | src/tools/run_sim.cpp:512-737 | a tick from a batch of measurements on keeps the objects sound: no two interceptors are engaged on one track, and every target is a track the manager then holds as confirmed |
| MeasurementBuffering.MeasurementBuffer.Push | src/fusion_core/measurement_buffer.cpp:5-13 | the measurement goes before the first one sent strictly later |
| MeasurementBuffering.MeasurementBuffer.PopReady | src/fusion_core/measurement_buffer.cpp:22-33 | the popped and the held measurements are the old buffer; the popped are due and the first held is not |
| MeasurementBuffering.PopTakesExactlyTheDue | src/fusion_core/measurement_buffer.cpp:22-33 | from a buffer in send order a pop takes all that is due and nothing else |
| MeasurementBuffering.BufferConserves | src/fusion_core/measurement_buffer.cpp:5-33 | over every run what was pushed is what was popped plus what is held, and the held stay in send order |
| MeasurementBuffering.PopsThenHeld | src/fusion_core/measurement_buffer.cpp:5-33 | in a timely run pops followed by the held measurements are the stable sort of all pushed, split by the clock |
| MeasurementBuffering.PopsAreSortedDue | src/fusion_core/measurement_buffer.cpp:5-33 | in a timely run the concatenated pops are the stable sort by send time of everything due so far |
| MeasurementBuffering.PoppedExactly | src/fusion_core/measurement_buffer.cpp:5-33 | a measurement has been popped exactly when some pop after its push reached its send time |
| MeasurementBuffering.OrderKeptExactly | src/fusion_core/measurement_buffer.cpp:5-33 | in any run the order is kept if and only if no push is sent earlier than an earlier push that a pop in between has reached |
| MeasurementBuffering.AlarmsBreakOrder | src/sensors/radar/radar_sensor.cpp:100-107 | two false alarms without a target, with latencies 0.5 and 0.1, come out against their send order |
| MeasurementBuffering.SensorRunsAreTimely | src/sensors/radar/radar_sensor.cpp:37-46 | measurements stamped with the tick's time plus a latency clamped at zero make every run timely |
| Ingest.IngestPipeline.EnqueueMeasurement | src/services/telemetry_ingest/ingest_pipeline.cpp:113-159 | queue, drop count and answer for every fault, policy and bound; the call is the machine's begin and commit of a producer |
| Ingest.IngestPipeline.IngestBatch | src/services/telemetry_ingest/ingest_pipeline.cpp:39-75 | the counters, the last sequence numbers and the queue after a batch on its own |
| Ingest.IngestPipeline.TakeFront | src/services/telemetry_ingest/ingest_pipeline.cpp:176-186 | the front is taken, or nothing when stopped with an empty queue |
| Ingest.IngestPipeline.Publish | src/services/telemetry_ingest/ingest_pipeline.cpp:189-194 | the topic receives the measurement and the count follows: the worker's two steps of the state machine |
| Ingest.IngestPipeline.WorkerTurn | src/services/telemetry_ingest/ingest_pipeline.cpp:161-195 | one turn of the worker on its own takes the object through four worker steps of the state machine, and goes on exactly when the worker has not ended |
| Ingest.IngestPipeline.Shutdown | src/services/telemetry_ingest/ingest_pipeline.cpp:28-30 | setting the stop flag is the machine's stop step |
| Ingest.OfferAllKeeps | src/services/telemetry_ingest/ingest_pipeline.cpp:132-158 | a batch leaves the newest (or oldest) arrivals the bound allows, and drops plus queue length account for every detection |
| Ingest.NoneLateExactly | src/services/telemetry_ingest/ingest_pipeline.cpp:54-64 | nothing is counted out of order if and only if each sensor's sequence numbers strictly increase |
| Ingest.EveryInterleaving | src/services/telemetry_ingest/ingest_pipeline.cpp:113-195 | under every interleaving the queue is within its bound, attempts are drops plus published, queued and in flight, the published are a subsequence of what was stored, and dropping the newest loses nothing stored |
| Ingest.AnswerTellsStoredExactly | src/services/telemetry_ingest/ingest_pipeline.cpp:129-158 | the answer is that the measurement was stored, except exactly when the oldest entry was dropped for it |
| Ingest.StopPublishesAtMostOne | src/services/telemetry_ingest/ingest_pipeline.cpp:163-189 | under any interleaving at most one more measurement is published after shutdown |
| Ingest.ShutdownDrainsExactly | src/services/telemetry_ingest/ingest_pipeline.cpp:163-189 | left alone after shutdown the worker ends within four steps, and drains the queue if and only if it was empty or held one measurement while the worker was waiting |
| Ingest.ExitIsFinal | src/services/telemetry_ingest/ingest_pipeline.cpp:163-189 | an exited worker publishes nothing more, whatever happens |
| Ingest.ShutdownCanLose | src/services/telemetry_ingest/ingest_pipeline.cpp:163-189 | a run whose shutdown leaves a stored measurement unpublished |
| Ingest.WorkerDrains | src/services/telemetry_ingest/ingest_pipeline.cpp:161-195 | left alone, the worker publishes the whole queue in order |
| Ingest.ArrivalsTell | src/services/telemetry_ingest/ingest_pipeline.cpp:121-141 | what reaches the queue of a batch is what the faults do not drop, in order, changed only in a send time later by the size of the delay |
| Ekf.CovarianceSane | src/common/covariance_checks.cpp:16-50 | the tolerance, diagonal and factorisation tests of the source |
| Ekf.StabilizeCovariance | src/common/covariance_checks.cpp:52-88 | the first of eight growing jitters that is sane, or the symmetrised, floored matrix |
| Ekf.CovarianceIsSane | src/common/covariance_checks.cpp:16-50 | every symmetric positive semidefinite matrix passes the test, so nothing sound is repaired |
| EstimateLaws.SaneTells | src/common/covariance_checks.cpp:16-50 | a matrix that is symmetric enough passes exactly when the jitter makes it positive definite: the test of the diagonal never decides for a jitter of at most 1e-6 |
| EstimateLaws.NearlySymmetricTells | src/common/covariance_checks.cpp:24-28 | symmetric enough for two states, told by the four entries |
| Ekf.RepairSucceedsExactly | src/common/covariance_checks.cpp:52-88 | the repair succeeds if and only if adding 20 to the diagonal of the symmetrised, floored matrix makes it positive definite |
| CovarianceLaws.RepairCanFail | src/common/covariance_checks.cpp:52-88 | with 100 between two states and no variance every attempt fails, the filter keeps that matrix, and every prediction and update is skipped from then on |
| EstimateLaws.RepairTells | src/common/covariance_checks.cpp:52-88 | the repair makes the matrix symmetric, raises negative diagonal entries to zero and adds the least of 1e-6, 1e-5 up to 10 to the diagonal whose double makes it positive definite |
| Ekf.EkfCv.Initialize | src/fusion_core/ekf_cv.cpp:24-41 | wrong shapes are refused; otherwise state and checked covariance are taken |
| Ekf.EkfCv.PredictBy | src/fusion_core/ekf_cv.cpp:47-99 | the filter after a prediction, with every skip and repair; EstimateLaws.PredictionTells tells its state and every variance |
| Ekf.EkfCv.ApplyMeasurementUpdate | src/fusion_core/ekf_cv.cpp:197-266 | the filter after an update, with every skip and repair |
| CovarianceLaws.PredictKeepsCovariance | src/fusion_core/ekf_cv.cpp:69-98 | from a covariance a step of dt >= 0 is carried out unrepaired and gives a covariance again |
| CovarianceLaws.InnovationIsCovariance | src/fusion_core/ekf_cv.cpp:217-224 | H P H' + R is symmetric positive semidefinite again |
| CovarianceLaws.JosephIsCovariance | src/fusion_core/ekf_cv.cpp:245-247 | the Joseph form keeps a covariance for any gain |
| CovarianceLaws.UpdateKeepsCovariance | src/fusion_core/ekf_cv.cpp:197-266 | an update from a covariance is always carried out and gives a covariance |
| CovarianceLaws.EveryRunKeepsCovariance | src/fusion_core/ekf_cv.cpp:47-266 | over every run the covariance stays symmetric positive semidefinite, no repair happens and only negative steps are skipped |
| CovarianceLaws.TransitionsCompose | src/fusion_core/ekf_cv.cpp:71-80 | two predictions move the state as one over the whole time does |
| CovarianceLaws.ExactGainIsBest | src/fusion_core/ekf_cv.cpp:232-247 | an exact gain never raises the variance in any direction and no gain leaves less |
| CovarianceLaws.GainSolves | src/fusion_core/ekf_cv.cpp:226-233 | the solved gain is exact when R is positive definite |
| CovarianceLaws.UpdateIsBest | src/fusion_core/ekf_cv.cpp:197-266 | so the filter's update never raises a variance and is at least as good as any gain's |
| EstimateLaws.PredictionTells | src/fusion_core/ekf_cv.cpp:69-98 | a prediction from a covariance moves positions by dt times velocities; the variance in any direction x is the prior's in the direction x with dt times each position entry added to its velocity entry, plus dt times the square of x |
| EstimateLaws.UpdatedVariance | src/fusion_core/ekf_cv.cpp:217-259 | for a sound R, and z the vector that H P H' + R takes to H P x, an update lowers the variance in direction x by the dot product of z and H P x |
| EstimateLaws.UpdatedState | src/fusion_core/ekf_cv.cpp:226-243 | for a sound R, and z the vector that H P H' + R takes to the innovation, an update moves the state by P H' z |
| EstimateLaws.PredictOrSkip | src/fusion_core/ekf_cv.cpp:47-99 | from any covariance a prediction is skipped and changes no estimate, or moves the state; negative steps are always skipped |
| EstimateLaws.UpdateOrSkip | src/fusion_core/ekf_cv.cpp:197-266 | an update is reported as done exactly when it is not skipped, and a skipped one changes no estimate |
| Jsonl.SerializeMeasurement | src/observability/jsonl_logger.cpp:244-269 | the line is the twelve fields in order, under the caller's ids or else the measurement's own |
| Jsonl.WriteNumberVector | src/observability/jsonl_logger.cpp:77-86 | the printed numbers between brackets, separated by commas |
| Jsonl.FindKeyValueStart | src/observability/jsonl_logger.cpp:99-114 | the position of the value after the first occurrence of the token and white space, or the matching error |
| Jsonl.ScanString | src/observability/jsonl_logger.cpp:116-127 | the text up to the next quote, or the matching error |
| Jsonl.ScanNumber | src/observability/jsonl_logger.cpp:129-136 | the number in the text up to a comma or brace, or an error |
| Jsonl.ScanNumberArray | src/observability/jsonl_logger.cpp:148-174 | the non-empty items up to the bracket, or the first error |
| Jsonl.LoadMeasurements | src/observability/jsonl_logger.cpp:486-533 | the measurements of the lines in order, or the first error |
| JsonlLaws.FindIsFirst | src/observability/jsonl_logger.cpp:101 | the search gives the first occurrence, or none exactly when there is none |
| JsonlLaws.OnlyOwnToken | src/observability/jsonl_logger.cpp:99-101 | within a field's text no key token occurs but the field's own at its start |
| JsonlLaws.FindsField | src/observability/jsonl_logger.cpp:99-114 | so in a rendered line a key's first token is at its own field |
| JsonlLaws.LineReadsBack | src/observability/jsonl_logger.cpp:504-530 | a printed measurement loads with every field but snr, or as nothing when it is a 3D position |
| JsonlLaws.LogReadsBack | src/observability/jsonl_logger.cpp:486-533 | loading a log of measurements, other events and empty lines returns exactly its planar and angular measurements, in order |
| JsonlLaws.LineTells | src/observability/jsonl_logger.cpp:244-256 | the start of a printed line, literally |
| JsonlLaws.MiddleTells | src/observability/jsonl_logger.cpp:250-262 | its names, dimension and measured vector, literally |
| JsonlLaws.EndTells | src/observability/jsonl_logger.cpp:258-269 | its remaining numbers and trace fields, literally |
| JsonlLaws.LoadTells | src/observability/jsonl_logger.cpp:486-533 | loading fails exactly when some line is malformed, with the error of the first one; otherwise it returns the measurements of all lines in order |
| JsonlLaws.GarbageStopsLoad | src/observability/jsonl_logger.cpp:486-533 | a non-empty line without a type makes any log fail, whatever follows it |

## Left out

- Floating point: rounding, infinities and NaN, with the isfinite branches they lead to; all reals here are exact and finite.
- Time stamps: they are exact seconds; the truncation to nanoseconds when a time stamp is made from seconds is not modelled.
- 64-bit and 32-bit wrap-around of ids, counters and z_dim, except that no unsigned difference goes below zero.
- std::sort: any order of equal elements is allowed there; here it is the stable one. All the sorted keys are distinct for distinct ids.
- JsonlLaws.LogReadsBack: asks that ids are exact as doubles, as the loader reads them through one; std::stod reading a prefix of a text, and a negative number cast to an id, are left to the number parameter.
- ClosedLoop.LoopIsSound: asks for distinct interceptor ids and distinct non-zero track ids; Simulation.ConfigsStart and WholeSystem.TracksAreInput give them. The reported hits and the clearing of the blackboard are arbitrary there, and those of the code in Simulation.SimulationLoop.Turn.
- Association.HungarianIsMaximum: takes gate results as a table, so the Mahalanobis computation and its thresholds are not modelled.
- TrackManagement.TrackManager.UpdateWithMeasurements: does not model metrics; cosine and sine in the first estimate are part of the filter parameter.
- MissionControl.MissionBehaviorTree.Tick: does not model the trace, event and metric records of a tick or the estimated intercept time reported with a command.
- Ekf.EkfCv.ApplyMeasurementUpdate: is given innovation, H and R; the range-bearing and bearing-elevation formulas that produce them, with arc tangent and angle wrapping, are not modelled.
- Ingest.EveryInterleaving: steps are the mutex-protected sections and single atomic operations; thread start, waiting and the stale-sensor monitor are not modelled.
- InterceptorManagement.InterceptorManager.Build: reports by None what the source reports by an exception.
- Threat scoring, sensors, fault injection and truth generation: their outputs are arbitrary inputs here.
- Simulation.SimulationLoop.Tick: takes the batch of measurements as given; sensors, buffers, logs and metrics around it are not part of the tick, nor is the choice to run without interceptors.
- The remaining log events, CSV and incident files, gRPC services, command-line tools, visualisation, the Python service and the web application.
- DecisionEngine::decide, MessageBus, profilers and stores, which hold only easy properties.
