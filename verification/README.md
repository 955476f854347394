# A verified model of the NimbusNet healing loop

NimbusNet watches the traffic between cloud regions, scores it, and moves traffic away from regions in
trouble and back again. This project models that closed loop in Dafny and proves what holds of it in every
run:

- the probe's per-flow state in 32-bit arithmetic (`XdpProbe`), the windowed aggregator (`Telemetry`, `Jitter`) and
  the consistent hash ring that decides which agent owns a flow (`HashRing`);
- the scoring pipeline with its per-flow windows (`Lstm`, `ScoringPipeline`) and the routing bandit (`Bandit`);
- one healing state machine per region (`Statemachine`), the traffic shaper (`Trafficshaper`), and the
  controller that wires them together (`Controlplane`), with the invariants of all three together in
  `HealingLoop`, `Steering`, `AntiFlapping` and `OutsideCalls`;
- the route-table manager (`Apportionment`, `Routetable`) and the lease lock around DNS changes (`LeaseLock`);
- the runbook executor (`Runbooks`), the incident store (`Incidents`) and the training-sample store (`Flywheel`);
- what the parts promise together (`Composition`).

Each component comes as a value, functions that say what one locked call does to it, a class with the
source's fields whose methods are proved to do exactly that, and lemmas about whole runs of those functions.
`Sorting`, `Listings`, `MapSums`, `RealArithmetic`, `Decimals`, `Nanoseconds` and `Options` are helpers. `dafny verify dfyconfig.toml` checks the
whole project.

Floating-point numbers are reals. Hash function, machine-learning models, AWS calls, clocks and the order in
which maps are iterated are parameters or nondeterministic choices. A controller call is one step, although
the source holds a lock through parts of it only. `HealingLoop.JointUnderInterleaving` drops that where a
transition commits before its action runs, `HealingLoop.LateMetricKeepsInv` where a metric acts on a state it
has read earlier, and `HealingLoop.LatePublicationIsFair` where the shaper's tick lets go between moving the
weights and normalising them.

## Where the code and its documentation part

The model follows the code. Each point below is a theorem here.

- Clearing FAILED by hand makes a region HEALTHY but leaves it at the minimum weight, because the restoring
  action is guarded by `from == RECOVERED` (`HealingLoop.ClearedRegionStaysHeldDown`), and never asks to
  restore its DNS records (`OutsideCalls.DnsFollowsHealth`).
- Draining and restoring a region in DNS write the same record, so the records never tell one from the other,
  and traffic stops only because the health check itself fails (`OutsideCalls.RecordsDoNotTell`,
  `LeaseLock.HistoriesLeaveOneRecord`).  Without a configured health check a drain is an error while a restore
  writes an empty one (`LeaseLock.UncheckedRegionsOnlyRestore`).
- HEALING is said to run at minimum weight; entering it does nothing, and the weight is whatever the decay
  has reached, up to full weight (`Steering.HealingStartsWhereDecayGot`, `Steering.HealingAtFullWeight`).
- Traffic is said to ramp back before a region is HEALTHY; by default the time limit of RECOVERED cuts the
  ramp short after a fifth of it, and the weight jumps (`Steering.DefaultRampIsCutShort`).
- Bandit advice is said to steer the weights of healthy regions; a region that has followed advice once takes
  no more until its state changes (`Steering.FirstAdviceIsFinal`).
- A hard failover is said to take effect at once; the weight it sets is published only when a tick moves some
  weight (`HealingLoop.RestIsNotPublished`, `HealingLoop.TickPublishesIff`).
- The target of a manual override is never looked at (`HealingLoop.OverrideReachesTarget`).
- No metric ever fails a region: the critical signal of the "hard failover" branch leads to DEGRADED at most
  (`HealingLoop.MetricsNeverFailARegion`), its signals need not be consecutive
  (`AntiFlapping.CriticalSignalsNeedNotBeConsecutive`), and while they are counted they hold back the failover
  that a lower severity would start (`Composition.MetricDegradesIff`).
- With the pipeline's metrics and a positive confidence floor, the branch that clears the counter on a
  healthy signal and verifies recovery is dead: RECOVERED ends by time limit only, however bad the metrics
  are (`Composition.RecoveryIsNeverVerified`, `Composition.HealthVerifiedNeedsNoFloor`).
- The tick stores only changes above 0.001, so slow decays never move at all, one of them reachable with the
  default settings (`Trafficshaper.ComesToRestUnlessStalled`, `Trafficshaper.DefaultDecayCanStall`).
- A route failover redistributes no weight, because the failed region's weight is zeroed before it is read
  (`Routetable.FailoverRedistributesNothing`); it rewrites only the region's own pairs, so chained failovers
  strand routes (`Routetable.FailoverMissesEarlierMoves`); and the control plane never restores a route
  (`Routetable.FailedOverRoutesNeverComeHome`).  The next published weights give a FAILED region weight and
  subnets again, and it can become the next hop of a later failover
  (`Composition.PublishedWeightsReviveFailed`, `Composition.FailedRegionIsNextHopIff`).
- An association that fails half-way leaves its subnet without a route table (`Routetable.AssignmentFails`).
- The lock does not keep a drain and a restore of the same region apart (`LeaseLock.DrainAndRestoreOverlap`).
- The 5% floor is applied before normalising and is no bound on the result (`Bandit.FloorHoldsIffIdle`); a
  reward can exceed one, and 21 slight improvements can make an arm impossible to sample
  (`Bandit.RewardRange`, `Bandit.SamplingIsSafeUpToTwenty`).
- The pipeline's documentation says the thresholds are strict; the code compares with `>=`. More evidence can
  lower the ensemble's confidence (`ScoringPipeline.MoreEvidenceLowersConfidence`), and a flow's first vector
  needs no confirmation from the LSTM (`ScoringPipeline.FirstVectorNeedsNoConfirmation`).
- The probe reports running totals, which the aggregator adds up again (`Telemetry.RunningTotalsAreOvercounted`).
  Its jitter, called a standard deviation, is measured from the last sample instead of the average and can only
  be too large (`Jitter.SpreadExceedsVariance`).
- A runbook whose last step timed out can report success, the end of a run can be reported twice, and if no
  report gets through its region is left in HEALING until the time limit (`Runbooks.LastStepMayTimeOut`,
  `Runbooks.FinishedOnceOrTwice`, `Runbooks.RunDrivesTheMachine`).
- Incident identifiers of neighbouring regions clash, and an incident opened over a mitigated one leaves an
  unresolved file behind that a restart may bring back (`Incidents.NeighboursClash`,
  `Incidents.ReplacingLeavesPhantom`, `Incidents.PhantomsStay`).
- The minimum of 100 samples before a retraining never decides anything (`Flywheel.RetrainingDueIff`).
- The sample statistics drift for good when a crash interrupts a flush (`Flywheel.DriftStays`).

## Model

| member | source | states |
|---|---|---|
| HealingLoop.JointAlways | control-plane-04/controlplane/controller.go:150-231 | In every reachable state of every run of controller calls, every region satisfies the joint invariant of state machine and weight: weight and target in range, a rate that points at the target, FAILED pinned at the minimum whatever the bandit says, DEGRADED and HEALING falling, HEALTHY held down exactly when its last transition came from FAILED; and its history is a chain of table links |
| HealingLoop.JointUnderInterleaving | control-plane-04/controlplane/statemachine/fsm.go:305-358 | The joint invariant holds under any interleaving of state commits, enter actions, bandit advice and ticks, whenever the region is not in the middle of a transition |
| HealingLoop.ActKeepsSiteInv | control-plane-04/controlplane/statemachine/fsm.go:337-355 | Each atomic action keeps the interleaving invariant, including in the window after the state has changed and before the enter action ran |
| HealingLoop.StepKeepsInv | control-plane-04/controlplane/controller.go:250-276 | Each controller call keeps the joint invariant of all regions |
| HealingLoop.RegionsRunIndependently | control-plane-04/controlplane/controller.go:265-271 | In a controller run each region's machine does what its own inputs alone make it do |
| HealingLoop.NoRegionLingers | control-plane-04/controlplane/statemachine/fsm.go:204-235 | With timeout checks at most delta apart, no region has been out of HEALTHY in its present state for the time limit plus delta, nor ever was in an earlier one |
| HealingLoop.WeightOnlyFallsWhileUnhealthy | control-plane-04/controlplane/trafficshaper/shaper.go:138-165 | While a region stays in DEGRADED or HEALING no call raises its weight |
| HealingLoop.ClearedRegionStaysHeldDown | control-plane-04/controlplane/controller.go:196-208 | After FAILED is cleared by an operator the region is HEALTHY but stays at the minimum weight through every call that leaves its state machine alone |
| HealingLoop.OverrideReachesTarget | control-plane-04/controlplane/controller.go:421-432 | An override ends in the state asked for if and only if that is the table's one override link from the present state (or RECOVERED staying RECOVERED) |
| HealingLoop.MetricsNeverFailARegion | control-plane-04/controlplane/controller.go:312-376 | No metric moves any region other than its own, nor its own anywhere but HEALTHY to DEGRADED or RECOVERED to HEALTHY |
| HealingLoop.PublishedWeightsAreFair | control-plane-04/controlplane/trafficshaper/shaper.go:342-371 | Everything any run publishes to the route tables sums to one and gives each of n regions at least minimum / (minimum + (n - 1) full) |
| HealingLoop.ForcedKeepsJointIff | control-plane-04/controlplane/trafficshaper/shaper.go:262-280 | The exact weights under which a manual weight override keeps range and joint invariant, by state: none in FAILED or after it was cleared by hand |
| HealingLoop.LateMetricKeepsInv | control-plane-04/controlplane/controller.go:310-376 | The joint invariant holds however many other calls come between a metric reading the state and its event being sent |
| HealingLoop.LateMetricReaches | control-plane-04/controlplane/controller.go:310-376 | A late event moves at most its own region, and only from HEALTHY to DEGRADED, from RECOVERED to HEALTHY if read in RECOVERED, or from RECOVERED to DEGRADED if read in HEALTHY |
| HealingLoop.LateMetricRollsBack | control-plane-04/controlplane/controller.go:342-356 | The last of these happens, from every state of the plane: a confident metric reads HEALTHY, an override, a runbook start and its success come first, and the event takes RECOVERED back to DEGRADED |
| HealingLoop.WeightOnlyFallsThroughout | control-plane-04/controlplane/trafficshaper/shaper.go:138-165 | Over any stretch of calls through which a region stays in DEGRADED or HEALING, its weight ends no higher than it began |
| HealingLoop.LatePublicationIsFair | control-plane-04/controlplane/trafficshaper/shaper.go:340-371 | The weights published are as fair when any other calls come between the tick moving them and normalising them |
| HealingLoop.LateMetricWithoutDelay | control-plane-04/controlplane/controller.go:294-376 | Without calls in between it is the atomic metric call |
| HealingLoop.TickPublishesIff | control-plane-04/controlplane/trafficshaper/shaper.go:309-347 | A tick publishes the normalised weights if and only if some weight is on its way, further than 0.001 from its target, and not stalled |
| HealingLoop.RestIsNotPublished | control-plane-04/controlplane/trafficshaper/shaper.go:169-187 | While every weight is at rest ticks change and publish nothing; so the weight a hard failover sets is not published until some weight moves |
| HealingLoop.MetricMovesIff | control-plane-04/controlplane/controller.go:305-376 | The exact metrics that move a machine: confident enough, and a full count of critical signals in HEALTHY, another call for failover in HEALTHY, or a calm one in RECOVERED |
| Steering.EntrySteersWeight | control-plane-04/controlplane/controller.go:150-231 | Whatever call moves a region on, the weight goes where the state entered sends it: DEGRADED to the minimum over the decay period, RECOVERED to full weight over the ramp period, each from the weight it has; FAILED to the minimum at once; HEALTHY to full weight at once, but only from RECOVERED; HEALING leaves it |
| Steering.EnterWeightSteers | control-plane-04/controlplane/controller.go:150-231 | The same of the enter actions themselves |
| Steering.StayKeepsCourse | control-plane-04/controlplane/trafficshaper/shaper.go:243-258 | A call that leaves a region in its state, and does not advise it below 0.8, moves its weight only if it is a tick |
| Steering.WeightIsTicked | control-plane-04/controlplane/trafficshaper/shaper.go:304-340 | Through any calls that leave a region in its state, and do not advise it or find it deaf to advice, its weight is moved by the ticks alone, and as often as there are ticks |
| Steering.DegradedReachesMinimumIff | control-plane-04/controlplane/trafficshaper/shaper.go:138-165 | After the decay period in ticks a region that entered DEGRADED and stays there is within 0.001 of the minimum if and only if it was there on entering or its decay does not stall |
| Steering.RecoveredReachesFullIff | control-plane-04/controlplane/trafficshaper/shaper.go:191-217 | After the ramp period in ticks a region that entered RECOVERED, stays there and is not advised below 0.8 is within 0.001 of full weight if and only if it was there on entering or its ramp does not stall |
| Steering.RecoveringOnTheWay | control-plane-04/controlplane/trafficshaper/shaper.go:200-204 | On the way up the share of the way covered is the share of the ramp period gone by |
| Steering.HealthyIsAtFullWeight | control-plane-04/controlplane/controller.go:196-208 | Every entry into HEALTHY from RECOVERED leaves the region at full weight, at rest and not failed over |
| Steering.FirstAdviceIsFinal | control-plane-04/controlplane/trafficshaper/shaper.go:250-255 | The advice a region follows is the last it takes in its state: after 30 seconds in ticks it is within 0.001 of it if and only if it was there before or its course does not stall |
| Steering.AdviceFollowed | control-plane-04/controlplane/trafficshaper/shaper.go:250-255 | A region at full weight, not failed over, aims at advice below 0.8 within 30 seconds, never below the minimum |
| Steering.HealingStartsWhereDecayGot | control-plane-04/controlplane/controller.go:171-182 | A region enters HEALING under the weight to which the ticks since it was degraded have brought it |
| Steering.HealingAtMinimumIff | control-plane-04/controlplane/controller.go:171-182 | Once the decay period has passed in ticks, that is within 0.001 of the minimum if and only if the decay had nothing to do or does not stall |
| Steering.HealingAtFullWeight | control-plane-04/controlplane/controller.go:171-182 | Two calls take a fresh region to HEALING at full weight |
| Steering.DefaultRampIsCutShort | control-plane-04/controlplane/trafficshaper/shaper.go:82-85 | With the default settings RECOVERED ends after 60 seconds of a 300 second ramp: a region that entered it at 0.05 is at 0.24 after twelve ticks and then jumps to full weight |
| OutsideCalls.CallsFollowHistory | control-plane-04/controlplane/controller.go:150-231 | In every run the outside calls about a region are exactly those due by its transition records, in order: a route failover for every record to FAILED, a drain for every one to DEGRADED, a restore for every one from RECOVERED to HEALTHY |
| OutsideCalls.DnsFollowsHealth | control-plane-04/controlplane/controller.go:196-208 | In every run the last DNS change asked for a region is a drain if and only if the region is not HEALTHY or was made HEALTHY by an operator clearing FAILED |
| OutsideCalls.RecordsDoNotTell | control-plane-04/controlplane/route53/client.go:127-150 | In every run, with any locks held, requests lost and other agents at work, a region's DNS record is as it was or the one fixed record whatever the region's state, although the last change asked for follows that state; and once it is that record it never changes |
| OutsideCalls.FirstDrainTakesEffectIff | control-plane-04/controlplane/route53/client.go:99-118 | The drain that a first override asks for takes effect if and only if its lock is free by the agent's clock and the answer comes back, the health check is configured, and the change is accepted |
| OutsideCalls.StepInStep | control-plane-04/controlplane/controller.go:250-276 | Each controller call keeps calls and history in step |
| OutsideCalls.ExpiryAbout | control-plane-04/controlplane/controller.go:265-271 | Whatever the order of the map iteration, a region sees only its own timeout check's calls |
| OutsideCalls.DrainedByHistory | control-plane-04/controlplane/statemachine/fsm.go:271-297 | In any chain of table links the last DNS call due is a drain exactly if the last record says so |
| OutsideCalls.CallsInNumbers | control-plane-04/controlplane/controller.go:150-231 | So the calls about a region are as many failovers as records to FAILED, as many drains as records to DEGRADED, as many restores as records from RECOVERED to HEALTHY, and no others |
| OutsideCalls.FailedByHand | control-plane-04/controlplane/controller.go:212-229 | Failing a fresh region by two overrides drains it and then fails its routes over |
| OutsideCalls.EntryMakesDue | control-plane-04/controlplane/controller.go:150-231 | The calls an enter action makes are those due for the record of its transition |
| AntiFlapping.SignalsAreAccountedFor | control-plane-04/controlplane/controller.go:305-363 | In every run the counter is exactly the number of qualifying signals since the last reset, below the threshold; signals seen = threshold times full counts + those forgotten by resets + those since; and critical events times the threshold never exceed them |
| AntiFlapping.StepBalances | control-plane-04/controlplane/controller.go:314-338 | Each call keeps counter and history in agreement |
| AntiFlapping.CriticalOnlyWhenFull | control-plane-04/controlplane/controller.go:312-336 | In every run a critical event is sent exactly by the threshold-th qualifying signal since the last reset that finds its region HEALTHY or DEGRADED, and changes the region exactly if it was HEALTHY |
| AntiFlapping.CriticalSignalsNeedNotBeConsecutive | control-plane-04/controlplane/controller.go:103-104 | Calm metrics below the confidence floor between them do not keep three critical signals from triggering |
| Composition.PipelineMakesMetrics | ml-intelligence-03/ml/pipeline/scoring_pipeline.py:81-148 | With models in their ranges and floored bandit weights, whatever the pipeline scores is a metric of the kind assumed below; no region weight is ever zero |
| Composition.FlooredWeightInRange | ml-intelligence-03/ml/models/bandit.py:295-297 | Every recommended weight is above zero and at most one |
| Composition.QuietMeansNoConfidence | ml-intelligence-03/ml/pipeline/scoring_pipeline.py:210-218 | For a pipeline metric a failover is asked for exactly when its confidence is above zero |
| Composition.QuietMetricsAreIgnored | control-plane-04/controlplane/controller.go:305-308 | With a positive confidence floor a metric that asks for no failover neither resets the counter nor sends any event |
| Composition.HealthVerifiedNeedsNoFloor | control-plane-04/controlplane/controller.go:360-373 | Some pipeline metric can verify health if and only if the confidence floor is not positive |
| Composition.MetricDegradesIff | control-plane-04/controlplane/controller.go:312-357 | A pipeline metric degrades a HEALTHY region exactly when it is confident enough and is not a CRITICAL signal still being counted |
| Composition.RecoveryIsNeverVerified | control-plane-04/controlplane/statemachine/fsm.go:288-292 | In every run of the composed system a region leaves RECOVERED only for HEALTHY, only by its time limit, after at least all of it |
| Composition.StepRunsOut | control-plane-04/controlplane/controller.go:250-276 | Each call of the composed system keeps that true of the whole history |
| Composition.PublishedWeightsDivideFairly | control-plane-04/controlplane/routetable/manager.go:166-174 | Whatever a run publishes passes the route-table manager's check and divides any number of subnets so that each region gets at least its fair share less max(i, 1/2), at most half a subnet per region being left over |
| Composition.SharesDivideFairly | control-plane-04/controlplane/routetable/manager.go:203-228 | Weights that sum to one and are all above a share divide subnets that fairly |
| Composition.PublishedWeightsReviveFailed | control-plane-04/controlplane/routetable/manager.go:142-144 | The next published update gives every region a positive weight again, one that a failover had set to zero included, and a subnet while there are any left |
| Composition.FailedRegionIsNextHopIff | control-plane-04/controlplane/routetable/manager.go:360-374 | With weights published from any reachable state, a FAILED region is a next hop for b if and only if every other region but b is at the minimum weight too |
| Composition.EvidenceDegradesIff | control-plane-04/controlplane/controller.go:305-357 | From the models' numbers to the state machine: evidence degrades a HEALTHY region if and only if some path is taken, its points reach the confidence floor times its parts, and it is not a sure CRITICAL signal still being counted |
| Composition.NamesDiffer | control-plane-04/controlplane/controller.go:312-313 | The controller takes a severity for CRITICAL if and only if the pipeline meant it |
| Controlplane.Controller.constructor | control-plane-04/controlplane/controller.go:109-143 | Starts with every region HEALTHY at full weight |
| Controlplane.Controller.ProcessScoredMetric | control-plane-04/controlplane/controller.go:294-376 | Takes the whole plane (machines, weights, counters, outbound calls) to the next state of the step relation the invariants are proved about; reports unknown regions |
| Controlplane.Controller.NoteSignal | control-plane-04/controlplane/controller.go:312-373 | Updates the critical counter and picks the event exactly as the verdict function does |
| Controlplane.Controller.Deliver | control-plane-04/controlplane/statemachine/fsm.go:185-200 | Sends one event and runs the enter action of the state entered, leaving all other regions alone |
| Controlplane.Controller.OnEnter | control-plane-04/controlplane/controller.go:150-231 | The wired actions: what each entered state does to the shaper and which outside calls it makes, in order |
| Controlplane.Controller.NotifyRunbookStarted | control-plane-04/controlplane/controller.go:382-392 | Refines the notice step; unknown regions are reported and change nothing |
| Controlplane.Controller.NotifyRunbookSucceeded | control-plane-04/controlplane/controller.go:395-405 | Refines the notice step; unknown regions are reported and change nothing |
| Controlplane.Controller.NotifyRunbookFailed | control-plane-04/controlplane/controller.go:408-418 | Refines the notice step; unknown regions are reported and change nothing |
| Controlplane.Controller.RequestOverride | control-plane-04/controlplane/controller.go:421-432 | Refines the notice step whatever the target state |
| Controlplane.Controller.CheckTimeouts | control-plane-04/controlplane/controller.go:263-272 | Visits every region exactly once in some order; the result is the simultaneous check of all regions, with outside calls in the order visited |
| Controlplane.Controller.CheckAndEnter | control-plane-04/controlplane/statemachine/fsm.go:204-235 | One time-limit check with its enter action |
| Controlplane.Controller.TickShaper | control-plane-04/controlplane/trafficshaper/shaper.go:304-347 | One turn of the shaper loop as one step: weights advance, and normalised weights go out exactly when one was stored |
| Controlplane.CheckedOneMore | control-plane-04/controlplane/controller.go:265-271 | Checking regions one at a time composes to the simultaneous check |
| Statemachine.HistoryIsChained | control-plane-04/controlplane/statemachine/fsm.go:305-344 | In every run the records form a chain of table links from HEALTHY to the current state, the failover count is the number of entries into DEGRADED or FAILED, and the time of the last failover that of the last of them |
| Statemachine.SendKeepsRecord | control-plane-04/controlplane/statemachine/fsm.go:185-200 | Each event keeps that |
| Statemachine.HealthyNeedsRunbookOrOperator | control-plane-04/controlplane/statemachine/fsm.go:271-297 | An entry into HEALTHY is an operator clearing FAILED, or comes from RECOVERED right after a runbook success that ended a HEALING |
| Statemachine.DegradedToHealthyPasses | control-plane-04/controlplane/statemachine/fsm.go:271-297 | Every stretch from DEGRADED to a later HEALTHY passes FAILED, or RECOVERED by a runbook success |
| Statemachine.RepeatedEventIsIgnored | control-plane-04/controlplane/statemachine/fsm.go:262-263 | Repeating an event changes something if and only if it is an override outside RECOVERED or a time limit outside HEALTHY and RECOVERED |
| Statemachine.StaysAreBounded | control-plane-04/controlplane/statemachine/fsm.go:202-215 | With checks at most delta apart no state but HEALTHY lasts its limit plus delta |
| Statemachine.StaysCoverTheRun | control-plane-04/controlplane/statemachine/fsm.go:307-335 | Recorded stays and the present one add up to the length of the run, and every escalation by time limit follows a stay of at least that limit |
| Statemachine.RegionFSM.constructor | control-plane-04/controlplane/statemachine/fsm.go:150-165 | Starts HEALTHY with an empty history |
| Statemachine.RegionFSM.Send | control-plane-04/controlplane/statemachine/fsm.go:185-200 | Ignores a pair outside the table, otherwise records the link taken; reports which |
| Statemachine.RegionFSM.CheckTimeouts | control-plane-04/controlplane/statemachine/fsm.go:204-235 | Escalates exactly when the state has a limit and has reached it, along the link that the lemmas above pin down |
| Statemachine.RegionFSM.Transition | control-plane-04/controlplane/statemachine/fsm.go:305-344 | Appends the record with the time spent, enters the state and counts failovers |
| Statemachine.RecordsLeadRight | control-plane-04/controlplane/statemachine/fsm.go:271-297 | In every run every record leads where its state and event say: HEALING to RECOVERED exactly by a runbook success and to FAILED by anything else it answers to, DEGRADED to FAILED exactly by an override, FAILED to HEALTHY exactly by an override, RECOVERED to HEALTHY exactly by verification or its time limit |
| Statemachine.EventsAnsweredIff | control-plane-04/controlplane/statemachine/fsm.go:185-200 | An event adds one such record if the state answers to it, with the right times, and changes nothing otherwise |
| Statemachine.LimitsAreOwn | control-plane-04/controlplane/statemachine/fsm.go:204-235 | A check moves a state if and only if it is not HEALTHY and has lasted its own limit |
| Statemachine.HungRegionFails | control-plane-04/controlplane/statemachine/fsm.go:202-235 | With checks at most delta apart, a region left to its time limits from DEGRADED on goes to HEALING and from there to FAILED, within both limits and twice delta |
| Statemachine.HungRegionEscalates | control-plane-04/controlplane/statemachine/fsm.go:202-235 | How far it has got at every check on the way |
| Statemachine.HungRegionFailsByDefault | control-plane-04/controlplane/statemachine/fsm.go:139-147 | With the default limits and a check every ten seconds that is within 920 seconds |
| Trafficshaper.TickInFull | control-plane-04/controlplane/trafficshaper/shaper.go:309-339 | What one tick does to a moving weight, in all three cases: snap within reach, one stride out of reach, nothing for strides of at most 0.001 |
| Trafficshaper.TickStaysOnCourse | control-plane-04/controlplane/trafficshaper/shaper.go:314-332 | A tick keeps the weight in range, never overshoots or moves away from the target, and keeps a falling weight falling |
| Trafficshaper.EntryActionsStayOnCourse | control-plane-04/controlplane/trafficshaper/shaper.go:138-239 | All four enter actions lead to a course in range whose rate points at the target; a soft decay never raises the weight |
| Trafficshaper.AdviceStaysOnCourse | control-plane-04/controlplane/trafficshaper/shaper.go:243-258 | Advice never moves the weight itself, and changes the course only of a region at target full weight that is not hard-failed |
| Trafficshaper.TicksConverge | control-plane-04/controlplane/trafficshaper/shaper.go:314-332 | A stride above 0.001 brings the weight to rest within 0.001 of its target in as many ticks as strides fit the distance |
| Trafficshaper.SmallStridesStall | control-plane-04/controlplane/trafficshaper/shaper.go:334 | A stride of at most 0.001 out of reach of the target never moves the weight |
| Trafficshaper.ComesToRestUnlessStalled | control-plane-04/controlplane/trafficshaper/shaper.go:304-340 | Ticking ever brings a moving weight to rest if and only if it is not stalled in that sense |
| Trafficshaper.SoftDecayEndsOnSchedule | control-plane-04/controlplane/trafficshaper/shaper.go:147-157 | A soft decay is over after the decay period if and only if it has nothing to do or does not stall |
| Trafficshaper.AdviceLeadsDown | control-plane-04/controlplane/trafficshaper/shaper.go:250-255 | With the default settings the advice 0.06 takes a healthy region there in six ticks |
| Trafficshaper.DefaultDecayCanStall | control-plane-04/controlplane/trafficshaper/shaper.go:334 | From there a default soft decay never moves, for ever |
| Trafficshaper.ShareIsFair | control-plane-04/controlplane/trafficshaper/shaper.go:353-371 | Of n regions on course no normalised weight is below minimum / (minimum + (n - 1) full) |
| Trafficshaper.SharesAddUp | control-plane-04/controlplane/trafficshaper/shaper.go:357-370 | Normalised weights sum to one |
| Trafficshaper.AdaptiveTrafficShaper.constructor | control-plane-04/controlplane/trafficshaper/shaper.go:109-127 | Every region starts at full weight |
| Trafficshaper.AdaptiveTrafficShaper.OnDegraded | control-plane-04/controlplane/trafficshaper/shaper.go:138-165 | Starts the soft decay of one region and leaves the others |
| Trafficshaper.AdaptiveTrafficShaper.OnFailed | control-plane-04/controlplane/trafficshaper/shaper.go:169-187 | Pins one region to the minimum and leaves the others |
| Trafficshaper.AdaptiveTrafficShaper.OnRecovering | control-plane-04/controlplane/trafficshaper/shaper.go:191-217 | Starts the ramp of one region, to full weight as the ramp lemmas say, and leaves the others |
| Trafficshaper.AdaptiveTrafficShaper.OnHealthy | control-plane-04/controlplane/trafficshaper/shaper.go:221-239 | Restores one region and leaves the others |
| Trafficshaper.AdaptiveTrafficShaper.UpdateBanditWeights | control-plane-04/controlplane/trafficshaper/shaper.go:243-258 | Applies advice to every region that is both advised and known |
| Trafficshaper.AdaptiveTrafficShaper.ForceWeight | control-plane-04/controlplane/trafficshaper/shaper.go:262-280 | Sets weight and target of one region directly, never below zero, and marks it failed at zero; other regions keep |
| Trafficshaper.AdaptiveTrafficShaper.Tick | control-plane-04/controlplane/trafficshaper/shaper.go:304-347 | Ticks every region once; the normalised weights are handed out exactly when some stored weight changed |
| Trafficshaper.AdaptiveTrafficShaper.NormalisedWeights | control-plane-04/controlplane/trafficshaper/shaper.go:353-371 | Returns the normalised weights |
| Trafficshaper.RampEndsOnSchedule | control-plane-04/controlplane/trafficshaper/shaper.go:191-217 | After the ramp period in ticks a recovering weight is within 0.001 of full weight if and only if it was there at first or the ramp does not stall |
| Trafficshaper.CourseEndsOnSchedule | control-plane-04/controlplane/trafficshaper/shaper.go:304-340 | Any course on a schedule is over after its period, counted in ticks, if and only if it has nothing to do or does not stall |
| Trafficshaper.CourseIsLinear | control-plane-04/controlplane/trafficshaper/shaper.go:311-312 | Until the target is in reach, the share of the way covered is the share of the period gone by |
| Trafficshaper.StallsIff | control-plane-04/controlplane/trafficshaper/shaper.go:334 | In terms of the way to go: a course stalls if and only if its way per tick is at most 0.001 and it is further than that from reach |
| Trafficshaper.SoftDecayAims | control-plane-04/controlplane/trafficshaper/shaper.go:147-157 | A soft decay aims at the minimum over the decay period, from the weight there is; without a period it is there at once |
| Trafficshaper.RampAims | control-plane-04/controlplane/trafficshaper/shaper.go:200-208 | A ramp aims at full weight over the ramp period; without a period, or from a forced weight above, it is there at once |
| Trafficshaper.AdviceAims | control-plane-04/controlplane/trafficshaper/shaper.go:250-255 | Advice below 0.8 is followed exactly by a region aimed at full weight and not failed over, within 30 seconds and never below the minimum |
| Trafficshaper.TickMovesIff | control-plane-04/controlplane/trafficshaper/shaper.go:334-337 | A tick moves a weight if and only if it is on its way, not within 0.001 of its target, and does not stall |
| Trafficshaper.SharesAreProportional | control-plane-04/controlplane/trafficshaper/shaper.go:353-371 | Normalised weights stand to each other as the weights do, and each of n is 1/n where there is no weight at all |
| Trafficshaper.ForcedRests | control-plane-04/controlplane/trafficshaper/shaper.go:262-280 | A forced weight is kept at rest, never below zero, and takes the region out of rotation if and only if it is not positive |
| HashRing.LeavingMovesOnlyOwnKeys | ebpf-detection-02/agent/internal/ring/ring.go:55-68 | When a peer leaves, every place it did not own keeps its owner, for every hash function, collisions and wrap-around included |
| HashRing.JoiningMovesKeysOnlyToNewcomer | ebpf-detection-02/agent/internal/ring/ring.go:120-126 | When a peer joins, every place is owned by its old owner or by the newcomer |
| HashRing.LeavingUndoesJoining | ebpf-detection-02/agent/internal/ring/ring.go:57-68 | Leaving undoes joining if and only if the peer was no member and none of its virtual nodes was taken |
| HashRing.HistoryGivesRingOfMembers | ebpf-detection-02/agent/internal/ring/ring.go:120-126 | Without collisions any history of joins and leaves ends in exactly the virtual nodes of its members |
| HashRing.OrderDoesNotMatter | ebpf-detection-02/agent/internal/ring/ring.go:120-126 | Without collisions two histories with the same members give the same ring |
| HashRing.JoinsCommuteIffNoClash | ebpf-detection-02/agent/internal/ring/ring.go:124 | Two joins commute if and only if the peers share no virtual node |
| HashRing.ExactlyOneOwner | ebpf-detection-02/agent/internal/ring/ring.go:70-92 | Among agents with the same members every place has one owner, a member, the same for all of them |
| HashRing.SuccessorIsUnique | ebpf-detection-02/agent/internal/ring/ring.go:86-91 | The circular successor of a place is unique |
| HashRing.Ring.constructor | ebpf-detection-02/agent/internal/ring/ring.go:32-45 | Builds the ring of the peers joined in order, with a sorted index of exactly its keys |
| HashRing.Ring.AddPeer | ebpf-detection-02/agent/internal/ring/ring.go:48-53 | Joins a peer; the index lists exactly the keys, strictly ascending |
| HashRing.Ring.RemovePeer | ebpf-detection-02/agent/internal/ring/ring.go:57-68 | Removes exactly the virtual nodes the peer holds; the index follows |
| HashRing.Ring.Owner | ebpf-detection-02/agent/internal/ring/ring.go:72-92 | The binary search with wrap-around returns the node at the circular successor of the key's hash |
| HashRing.Ring.Search | ebpf-detection-02/agent/internal/ring/ring.go:82-84 | The first position whose hash is not below the one sought |
| HashRing.Ring.ClaimNodes | ebpf-detection-02/agent/internal/ring/ring.go:120-126 | Claims all virtual nodes of a peer, the last claim winning |
| HashRing.Ring.Rebuild | ebpf-detection-02/agent/internal/ring/ring.go:128-136 | Sorts the keys into a strictly increasing index of exactly the map's keys |
| HashRing.VirtualKeysDiffer | ebpf-detection-02/agent/internal/ring/ring.go:120-126 | Different virtual nodes have different names, so only the hash function can make them clash |
| HashRing.SuccessorComesNext | ebpf-detection-02/agent/internal/ring/ring.go:82-91 | The circular successor of a place is the first key at or after it, and the first of all if there is none |
| Telemetry.WindowsAreFaithful | ebpf-detection-02/agent/internal/telemetry/aggregator.go:156-232 | In every window, whatever arrives and is evicted, each accumulator is the fold of its own key's events since it was inserted, and for every total kept per flow, held plus evicted equals ingested |
| Telemetry.ThreeTotalsAreConserved | ebpf-detection-02/agent/internal/telemetry/aggregator.go:180-182 | In particular bytes, packets and retransmits, those reported by TCP events included |
| Telemetry.WatchingConserves | ebpf-detection-02/agent/internal/telemetry/aggregator.go:163-194 | Each event, evicting or not, conserves any such total |
| Telemetry.WatchingStaysFaithful | ebpf-detection-02/agent/internal/telemetry/aggregator.go:180-193 | Each event keeps that |
| Telemetry.FlowEventsRespectTheLimit | ebpf-detection-02/agent/internal/telemetry/aggregator.go:163-171 | A flow event never makes a full table larger |
| Telemetry.AnomaliesAreBounded | ebpf-detection-02/agent/internal/telemetry/aggregator.go:189-193 | The anomaly sum is at most the count times the maximum |
| Telemetry.AverageNeverExceedsMaximum | ebpf-detection-02/agent/internal/telemetry/aggregator.go:58-61 | The reported average anomaly score never exceeds the reported maximum |
| Telemetry.RunningTotalsAreOvercounted | ebpf-detection-02/agent/internal/telemetry/aggregator.go:180-182 | Events carry running totals, so the summed bytes equal the flow's last total if and only if the window saw a single event of it |
| Telemetry.ExactlyOneAgentIsLocal | ebpf-detection-02/agent/internal/telemetry/aggregator.go:242-246 | Of agents that share a membership view, however each came by it, exactly one marks a given flow as its own |
| Telemetry.Aggregator.constructor | ebpf-detection-02/agent/internal/telemetry/aggregator.go:108-121 | Starts with an empty table and the default limit when none is given |
| Telemetry.Aggregator.IngestFlow | ebpf-detection-02/agent/internal/telemetry/aggregator.go:156-194 | One flow event, with some victim evicted when a new key finds the table full |
| Telemetry.Aggregator.IngestTcp | ebpf-detection-02/agent/internal/telemetry/aggregator.go:197-232 | One TCP event; it may grow a full table |
| Telemetry.Aggregator.Flush | ebpf-detection-02/agent/internal/telemetry/aggregator.go:235-265 | Empties the table and gives each flow exactly one metric, owner and locality by the ring's successor rule; published are exactly those the channel had room for, in order |
| Telemetry.Aggregator.Publish | ebpf-detection-02/agent/internal/telemetry/aggregator.go:242-256 | Measures one flow and sends it if there is room |
| Telemetry.JitterOfWindow | ebpf-detection-02/agent/internal/telemetry/aggregator.go:63-74 | The jitter reported for a window of 32-bit samples fits 32 bits and is never below the true deviation; before rounding they agree exactly when the last sample is the average |
| Telemetry.EwmaIsLastSample | ebpf-detection-02/agent/internal/telemetry/aggregator.go:184-187 | The value the jitter is measured from is the last sample, whichever kind of event brought it |
| Telemetry.Aggregator.ToMetric | ebpf-detection-02/agent/internal/telemetry/aggregator.go:52-95 | Rates, averages and jitter, with their zero cases |
| Telemetry.Aggregator.MeasureJitter | ebpf-detection-02/agent/internal/telemetry/aggregator.go:63-74 | The loop ends with the whole square root of the mean squared deviation from the last sample |
| Telemetry.FlowKeysDiffer | ebpf-detection-02/agent/internal/telemetry/aggregator.go:269-271 | Flows that differ in an address or a port have different keys |
| Telemetry.CountsAreConserved | ebpf-detection-02/agent/internal/telemetry/aggregator.go:189-232 | Sums and counts of anomaly scores, connects, closes and retransmits are conserved too |
| Telemetry.FlowTotals | ebpf-detection-02/agent/internal/telemetry/aggregator.go:180-193 | A flow's own total is that of its events, for every such measure |
| Telemetry.SamplesAreRttsSeen | ebpf-detection-02/agent/internal/telemetry/aggregator.go:184-187 | A flow's samples are exactly the round-trip times seen that are not zero, of both kinds of events, in order |
| Telemetry.MaximumIsLargestSeen | ebpf-detection-02/agent/internal/telemetry/aggregator.go:189-191 | The maximum reported is the largest score seen, or zero |
| Telemetry.MetricTellsEvents | ebpf-detection-02/agent/internal/telemetry/aggregator.go:52-95 | A metric told from the events of its flow alone: totals and counts, retransmits per packet, anomaly score per flow event, the last round-trip time, and the addresses of the first event |
| Jitter.SpreadExceedsVariance | ebpf-detection-02/agent/internal/telemetry/aggregator.go:66-72 | The mean squared deviation from any value is the variance plus the squared distance of that value from the average: at least the variance, and equal to it exactly at the average |
| Jitter.JitterNeverUnderstates | ebpf-detection-02/agent/internal/telemetry/aggregator.go:66-73 | The jitter reported is never below the rounded standard deviation |
| Jitter.JitterFits | ebpf-detection-02/agent/internal/telemetry/aggregator.go:73 | Jitter never exceeds the largest sample, so cutting it to 32 bits changes nothing |
| Jitter.FloorSqrt | ebpf-detection-02/agent/internal/telemetry/aggregator.go:73 | The largest whole number whose square does not exceed the value |
| XdpProbe.EwmaLiesBetween | ebpf-detection-02/bpf/xdp_probe.c:210-214 | Up to gaps of 42,949,672 microseconds the 32-bit update does not wrap and lies between the old value and the gap |
| XdpProbe.EwmaStaysInRange | ebpf-detection-02/bpf/xdp_probe.c:208-214 | Over any number of packets the value stays within the range of the starting value and the gaps |
| XdpProbe.EwmaFixedPoints | ebpf-detection-02/bpf/xdp_probe.c:213 | The update leaves a value alone exactly from six below the gap up to the gap, and moves every other value towards it |
| XdpProbe.EwmaSettles | ebpf-detection-02/bpf/xdp_probe.c:213 | Under a constant gap g the value is within [g - 6, g] after as many packets as it was apart |
| XdpProbe.EwmaRests | ebpf-detection-02/bpf/xdp_probe.c:213 | ... and stays what it is from then on |
| XdpProbe.EwmaExactUpToLimit | ebpf-detection-02/bpf/xdp_probe.c:213 | A value equal to a constant gap survives the update if and only if the gap is at most 42,949,672; one more drops it to zero |
| XdpProbe.PacketsAreCounted | ebpf-detection-02/bpf/xdp_probe.c:200 | The packet counter is the number of packets modulo 2^32 |
| XdpProbe.HeartbeatEveryThousand | ebpf-detection-02/bpf/xdp_probe.c:222-223 | Of any 1000 packets in a row of a known flow at least one is reported, counter wrap-around included |
| XdpProbe.HeartbeatIn | ebpf-detection-02/bpf/xdp_probe.c:222 | A count of 1 to 1000 packets after which the wrapped counter is a multiple of 1000 |
| XdpProbe.RetriesAreFewer | ebpf-detection-02/bpf/xdp_probe.c:203-206 | Until the packet counter wraps a flow has fewer retransmits than packets |
| XdpProbe.RetryRatioIsAPercentage | ebpf-detection-02/bpf/xdp_probe.c:115-119 | In a flow of at most 42,949,672 packets the 32-bit retransmit ratio is a true percentage |
| XdpProbe.Score | ebpf-detection-02/bpf/xdp_probe.c:106-131 | The score never exceeds 100 and is the sum of its parts: the cut at 100 is idle |
| XdpProbe.FlowEntry.constructor | ebpf-detection-02/bpf/xdp_probe.c:184-195 | A flow's first packet starts its entry and is not reported |
| XdpProbe.FlowEntry.OnPacket | ebpf-detection-02/bpf/xdp_probe.c:198-248 | One packet of a known flow: the new state, and an event exactly when the score is above 30 or the count a multiple of 1000 |
| XdpProbe.FlowEntry.CountPacket | ebpf-detection-02/bpf/xdp_probe.c:198-206 | Volume, flags and retransmit counters with their wrap-around |
| XdpProbe.FlowEntry.SmoothGap | ebpf-detection-02/bpf/xdp_probe.c:208-215 | The inter-packet gap, cut to 32 bits, smoothed in place |
| XdpProbe.FlowEntry.ComputeAnomalyScore | ebpf-detection-02/bpf/xdp_probe.c:106-131 | Accumulating the score part by part gives the specified sum |
| XdpProbe.AnomalousIff | ebpf-detection-02/bpf/xdp_probe.c:105-131 | The exact packets reported as anomalies, and their score: retransmits above 30 percent, or above 10 with a smoothed gap over 100 ms or a SYN without ACK, or a gap over 200 ms with such a SYN or a reset, or one over 100 ms with such a SYN |
| XdpProbe.EwmaWeighs | ebpf-detection-02/bpf/xdp_probe.c:213 | Up to the limit the new value is 85 parts of the old and 15 of the gap, rounded down |
| XdpProbe.BytesAreCounted | ebpf-detection-02/bpf/xdp_probe.c:199 | A flow's bytes are those of its packets, modulo 2^64 |
| XdpProbe.RetransmitsAreCounted | ebpf-detection-02/bpf/xdp_probe.c:203-206 | A flow's retransmits are its packets with SYN and ACK from the fourth on, modulo 2^32 |
| XdpProbe.FlagsAreCollected | ebpf-detection-02/bpf/xdp_probe.c:201 | The flags seen are those of all its packets together |
| XdpProbe.FlowSmoothsGaps | ebpf-detection-02/bpf/xdp_probe.c:208-216 | The smoothed gap is the smoothing of the gaps between its packets, one after the other |
| XdpProbe.FlowFromFirstPacket | ebpf-detection-02/bpf/xdp_probe.c:184-216 | A flow told from its first packet and those after it: bytes, packets, retransmits, flags, smoothed gap and times, each from its packets alone |
| Apportionment.SharesAreProportional | control-plane-04/controlplane/routetable/manager.go:203-228 | For weights that sum to one the region at sorted position i gets a_i with w_i N - max(i, 1/2) <= a_i < w_i N + 1 |
| Apportionment.ShareNearQuota | control-plane-04/controlplane/routetable/manager.go:209-212 | For any asks close to nonnegative quotas: a share is less than one above its quota, and at most max(i, 1/2) and the excess of all quotas over the subnets below |
| Apportionment.SharesWithinTolerance | control-plane-04/controlplane/routetable/manager.go:172-174 | For weights that pass the manager's own check the bounds are off by at most a twentieth of the subnets |
| Apportionment.FewAreLeftOver | control-plane-04/controlplane/routetable/manager.go:220 | At most half as many subnets as there are regions stay unassigned |
| Apportionment.WantedNearQuota | control-plane-04/controlplane/routetable/manager.go:209-212 | A region asks for less than one more, and at most half less, than its quota |
| Apportionment.QuotasAddUp | control-plane-04/controlplane/routetable/manager.go:207-209 | The quotas of all regions sum to the quota of the summed weights |
| Apportionment.TakenNearQuotas | control-plane-04/controlplane/routetable/manager.go:220-227 | The same for the first i regions together, until the subnets run out |
| Apportionment.WantedIsNearest | control-plane-04/controlplane/routetable/manager.go:205-208 | A region asks for the whole number nearest to its quota, halves upwards, lifted to one exactly if that is zero and its weight is not; it asks for nothing exactly without weight |
| Apportionment.ShareIsAskedOrRest | control-plane-04/controlplane/routetable/manager.go:216-223 | A region gets what it asks for, or all that is left if that is less |
| Apportionment.RoundIsSymmetric | control-plane-04/controlplane/routetable/manager.go:205 | Rounding goes to the nearest whole number, halves away from zero, for negative values too |
| Routetable.BlocksAreContiguous | control-plane-04/controlplane/routetable/manager.go:205-228 | Subnet index k is assigned by assignment k alone, to the region whose contiguous block it falls in |
| Routetable.AssignmentTakesEffect | control-plane-04/controlplane/routetable/manager.go:231-243 | An assignment whose calls succeed and that no later one overrides is in force at the end, whatever else fails |
| Routetable.OtherSubnetsKeep | control-plane-04/controlplane/routetable/manager.go:231-243 | A subnet not assigned keeps its association |
| Routetable.TotalIsSum | control-plane-04/controlplane/routetable/manager.go:168-171 | The sum over the map equals the sum in sorted order |
| Routetable.RebalancingConserves | control-plane-04/controlplane/routetable/manager.go:377-399 | Rebalancing alone conserves the total weight if and only if nothing was lost or another region is positive |
| Routetable.FailoverRedistributesNothing | control-plane-04/controlplane/routetable/manager.go:142-144 | In a failover nothing is redistributed and the total drops by the failed region's weight |
| Routetable.RestoreUndoesFailoverFromHome | control-plane-04/controlplane/routetable/manager.go:258-278 | A restore undoes a failover if and only if the region's routes were all at home before it |
| Routetable.FailoverMissesEarlierMoves | control-plane-04/controlplane/routetable/manager.go:89-92 | A failover clears the failed attachment from the tables if and only if only the region's own pairs pointed at it |
| Routetable.ChainedFailoverStrandsRoutes | control-plane-04/controlplane/routetable/manager.go:127-140 | Two failovers in a row leave the first region's pairs on the attachment that failed second |
| Routetable.FailedOverRoutesNeverComeHome | control-plane-04/controlplane/controller.go:220-225 | With pairs and attachments of their own for all regions, in every run of failovers with any calls failing: a region's pair points home if and only if it did at the start and no failover of the region ever got through to it |
| Routetable.Manager.constructor | control-plane-04/controlplane/routetable/manager.go:73-85 | Starts with equal weights |
| Routetable.Manager.UpdateWeights | control-plane-04/controlplane/routetable/manager.go:166-254 | Rejects weights whose sum is off by more than 0.05; otherwise assigns contiguous blocks by sorted region, applies them, and remembers the weights, except that without subnets nothing is remembered |
| Routetable.Manager.Assign | control-plane-04/controlplane/routetable/manager.go:203-228 | The nested counting loops produce exactly the blocks |
| Routetable.Manager.CountSubnets | control-plane-04/controlplane/routetable/manager.go:208-212 | Rounded quota, at least one for a positive weight |
| Routetable.Manager.AssignBlock | control-plane-04/controlplane/routetable/manager.go:220-227 | Assigns up to the count from the next free subnet on, as long as there are any |
| Routetable.Manager.CollectSubnets | control-plane-04/controlplane/routetable/manager.go:190-197 | All subnets, by sorted region |
| Routetable.Manager.AssociateSubnet | control-plane-04/controlplane/routetable/manager.go:315-355 | Leaves a right association alone, otherwise replaces it, with the half-done state when the second call fails |
| Routetable.Manager.FailoverRegion | control-plane-04/controlplane/routetable/manager.go:102-153 | Fails without effect for an unknown region or without another one; otherwise points exactly the failed region's own pairs at a next hop of maximal weight and zeroes its weight |
| Routetable.Manager.RestoreRegion | control-plane-04/controlplane/routetable/manager.go:258-278 | Points the region's pairs at its own attachment and gives it an equal weight; without configured regions no route changes |
| Routetable.Manager.ReplaceRoutes | control-plane-04/controlplane/routetable/manager.go:128-140 | The nested loops reroute exactly the pairs whose call works |
| Routetable.Manager.SelectNextHop | control-plane-04/controlplane/routetable/manager.go:360-374 | A region of maximal weight other than the failed one, if there is any |
| Routetable.Manager.RebalanceWeights | control-plane-04/controlplane/routetable/manager.go:377-399 | Splits the lost weight equally among the other positive regions |
| Routetable.SubnetsInPlace | control-plane-04/controlplane/routetable/manager.go:186-192 | The subnets divided are those configured for the weighted regions, region after region |
| Routetable.SubnetsListedIff | control-plane-04/controlplane/routetable/manager.go:186-192 | ... so a subnet is among them if and only if it is configured for one of those regions |
| Routetable.AssignmentFails | control-plane-04/controlplane/routetable/manager.go:226-239 | A refused assignment leaves the association as it was; one that fails half-way leaves its subnet with none |
| Routetable.RebalancingIsEven | control-plane-04/controlplane/routetable/manager.go:377-400 | Rebalancing clears the failed region and gives every other region of positive weight the same |
| Routetable.NextHopIsHeaviest | control-plane-04/controlplane/routetable/manager.go:360-374 | A next hop is a region of the greatest weight but the failed one, if that is above minus one |
| Routetable.BlocksUseFirstTable | control-plane-04/controlplane/routetable/manager.go:210-221 | Each subnet assigned goes to the first route table of its region, and to none if that has none |
| LeaseLock.ExclusionNeedsTwiceTheSkew | control-plane-04/controlplane/route53/client.go:99-113 | For any number of agents, every run with message loss and crashes, and every lock key: at most one agent is at work in the critical section if and only if agents stop at least twice the clock skew before their lease ends; with exact clocks no margin is needed |
| LeaseLock.WideMarginIsSafe | control-plane-04/controlplane/route53/client.go:257-279 | The safe half, for a given run |
| LeaseLock.NarrowMarginFails | control-plane-04/controlplane/route53/client.go:258-279 | The unsafe half: a takeover with a fast clock while a slow one is still at work |
| LeaseLock.AlwaysGuarded | control-plane-04/controlplane/route53/client.go:270-305 | In every run whoever is inside has its item in the table, or its lease may have been seen expired |
| LeaseLock.WorkersHoldTheLock | control-plane-04/controlplane/route53/client.go:270-279 | Whoever is still at work within the margin owns the item |
| LeaseLock.StaleReleaseIsHarmless | control-plane-04/controlplane/route53/client.go:297-308 | A late release never removes or changes another owner's lock nor affects who is inside |
| LeaseLock.DrainAndRestoreOverlap | control-plane-04/controlplane/route53/client.go:171 | A drain and a restore of one region take different locks and can overlap under valid leases |
| LeaseLock.LockTable.PutItem | control-plane-04/controlplane/route53/client.go:260-279 | The conditional put: stores if and only if there is no such lock or it has expired by the caller's clock, for as long as LeaseLastsItsTime says |
| LeaseLock.LockTable.DeleteItem | control-plane-04/controlplane/route53/client.go:298-308 | The conditional delete: removes only the caller's own lock |
| LeaseLock.Client.constructor | control-plane-04/controlplane/route53/client.go:65-85 | A zero lock time means 60 seconds, a zero record time to live 30 |
| LeaseLock.Client.AcquireLock | control-plane-04/controlplane/route53/client.go:257-295 | Held, held elsewhere or unknown, by how the request fared; a lost answer may leave the lock taken; the lease is the configured number of seconds |
| LeaseLock.Client.ReleaseLock | control-plane-04/controlplane/route53/client.go:297-315 | Deletes the own lock unless the request is lost |
| LeaseLock.RecordIsUntouchedOrFixed | control-plane-04/controlplane/route53/client.go:127-209 | For any number of agents and any sequence of drains and restores with any losses, a region's record is untouched if none took effect and otherwise the one fixed record: the two cannot be told apart in it |
| LeaseLock.HistoriesLeaveOneRecord | control-plane-04/controlplane/route53/client.go:188-209 | Any two histories of requests that took effect leave a region the same record, whatever was asked last in each |
| LeaseLock.UncheckedRegionsOnlyRestore | control-plane-04/controlplane/route53/client.go:115-118 | Without a configured health check a drain never takes effect, while a restore writes a record with an empty health check |
| LeaseLock.HostedZone.ChangeRecord | control-plane-04/controlplane/route53/client.go:152-155 | Writes the record unless the change is lost or refused; reports success only if the answer comes back |
| LeaseLock.Client.DrainRegion | control-plane-04/controlplane/route53/client.go:99-163 | Takes lock table and zone to the state of the request relation above; succeeds exactly with the lock free, a health check configured and the change accepted and answered; gives the lock back on every path on which it got it, unless the release is lost; touches no other lock |
| LeaseLock.Client.RestoreRegion | control-plane-04/controlplane/route53/client.go:170-222 | The same with a lock of its own and no health check |
| LeaseLock.LeaseLastsItsTime | control-plane-04/controlplane/route53/client.go:257-279 | A lock put at reading l for T seconds is taken at every reading below l + T seconds and free at every reading from l + T + 1 seconds on |
| LeaseLock.PutTouchesOneFreeLock | control-plane-04/controlplane/route53/client.go:260-279 | A put that finds the lock taken changes nothing, and no put touches another lock |
| LeaseLock.LeaseHolds | control-plane-04/controlplane/route53/client.go:250-279 | In every run, from any state, after an agent got a lock no other agent gets it, and its item stays, until someone reads l + T seconds or the holder gives it back; lost messages and crashes included |
| LeaseLock.LeaseHoldsInTime | control-plane-04/controlplane/route53/client.go:250-279 | ... and so until the length of the lease less twice the skew has passed in true time |
| LeaseLock.LeaseEnds | control-plane-04/controlplane/route53/client.go:270-279 | A lock never given back goes to whoever asks for it at l + T + 1 seconds or later |
| LeaseLock.OneLockPerKindAndRegion | control-plane-04/controlplane/route53/client.go:100-103 | Two requests compete for one lock if and only if they are of one kind and about one region |
| LeaseLock.RequestWritesIff | control-plane-04/controlplane/route53/client.go:99-222 | A request writes its region's record if and only if its lock is free, the answer arrives, the change does too, and a drain has a health check; it touches no other record and no other lock |
| LeaseLock.RequestGivesBackIff | control-plane-04/controlplane/route53/client.go:113-222 | A request gives its lock back if and only if it got it and the release is not lost, whatever became of the change; a put whose answer is lost leaves the lock taken |
| Runbooks.StepIsBounded | sre-operations-05/sre/runbooks/executor.py:201-259 | With n retries a step makes at most n + 1 attempts, waits at most 2^n - 1 seconds, and ends in SUCCESS, FAILED or TIMEOUT if and only if it may be attempted at all |
| Runbooks.StepSucceedsIff | sre-operations-05/sre/runbooks/executor.py:201-245 | A step succeeds if and only if some attempt passes after all before it failed, none of them late |
| Runbooks.StepFailsIff | sre-operations-05/sre/runbooks/executor.py:201-259 | A step fails if and only if every attempt was in time and none passed |
| Runbooks.SuccessfulRunsDidEverything | sre-operations-05/sre/runbooks/executor.py:141-170 | With a clock that never runs back, a SUCCESS run went through all its steps, every one SUCCESS but possibly the last, which may be TIMEOUT |
| Runbooks.LastStepMayTimeOut | sre-operations-05/sre/runbooks/executor.py:159-169 | A run whose only step timed out can report SUCCESS |
| Runbooks.FinishedOnceOrTwice | sre-operations-05/sre/runbooks/executor.py:135-189 | The finish hook runs once or twice in every run of steps, twice if and only if a time limit or a failed step that could be reported cut it short |
| Runbooks.RunDrivesTheMachine | sre-operations-05/sre/runbooks/executor.py:349-380 | From DEGRADED a run takes its region through HEALING to RECOVERED or FAILED in two transitions, however often the end is reported, if and only if some report gets through; if none does the region is left in HEALING |
| Runbooks.RunbookStep.constructor | sre-operations-05/sre/runbooks/executor.py:198-199 | A step starts pending |
| Runbooks.RunbookExecutor.ExecuteStep | sre-operations-05/sre/runbooks/executor.py:191-276 | The retry loop ends with the status, attempts and waiting time of the step function; rollback exactly after failure outside a dry run |
| Runbooks.RunbookExecutor.Run | sre-operations-05/sre/runbooks/executor.py:108-189 | The whole run, exceptions in the start notice and in the reports between steps included: final status, step reports, notices to the state machine and postmortems, one per call of finish |
| Runbooks.RunbookExecutor.RunSteps | sre-operations-05/sre/runbooks/executor.py:141-181 | The step loop with its early exits |
| Runbooks.RunbookExecutor.Finish | sre-operations-05/sre/runbooks/executor.py:349-380 | Reports the end if the notice gets through, fires the postmortem hook either way and clears the registration |
| Runbooks.RunbookExecutor.RunToEnd | sre-operations-05/sre/runbooks/executor.py:122-186 | Status and step reports of the run up to its end, with every early exit and exception, and the start notice |
| Runbooks.StepInFull | sre-operations-05/sre/runbooks/executor.py:201-259 | A step in full: all attempts up to the last one looked at were in time and failed, each followed by a wait of 2^n seconds unless it raised an exception, and that last one decides by being late, passing, or being the last there is |
| Runbooks.RunEndsAs | sre-operations-05/sre/runbooks/executor.py:122-186 | A run is SKIPPED if and only if it got under way and its preconditions fail, with no step attempted; SUCCESS if and only if every step began in time, did not fail and was noted, and the final gate holds; TIMEOUT if and only if some step would begin too late after all before it passed |
| Runbooks.StepsReported | sre-operations-05/sre/runbooks/executor.py:141-170 | The reports of a run are those of the steps begun, in order; all but the last passed, and a step not begun was too late or came after one that did not pass |
| Runbooks.EarlyEnds | sre-operations-05/sre/runbooks/executor.py:108-139 | A run that did not get under way has failed, with no step and one end; a skipped one has two |
| Runbooks.WaitsDouble | sre-operations-05/sre/runbooks/executor.py:225-241 | Each wait is twice the one before |
| ScoringPipeline.EnsembleMeaning | ml-intelligence-03/ml/pipeline/scoring_pipeline.py:193-218 | A failover is triggered if and only if one of the three paths is taken; confidence is zero exactly when none is, and never above one |
| ScoringPipeline.ConfidenceIsConvex | ml-intelligence-03/ml/pipeline/scoring_pipeline.py:214-218 | The confidence lies between the lowest and the highest score on the paths taken |
| ScoringPipeline.MeanIsConvex | ml-intelligence-03/ml/pipeline/scoring_pipeline.py:214-216 | The weighted mean of any positively weighted signals lies between their bounds |
| ScoringPipeline.SignalScores | ml-intelligence-03/ml/pipeline/scoring_pipeline.py:195-208 | Every path score is above zero and at most one |
| ScoringPipeline.AnotherSignal | ml-intelligence-03/ml/pipeline/scoring_pipeline.py:214-216 | One more signal raises the confidence if and only if its own score is above it |
| ScoringPipeline.MoreEvidenceLowersConfidence | ml-intelligence-03/ml/pipeline/scoring_pipeline.py:204-216 | A higher anomaly score can pull the confidence from 0.9 below the control plane's floor of 0.65 |
| ScoringPipeline.WindowsAreHistory | ml-intelligence-03/ml/pipeline/scoring_pipeline.py:222-244 | After any run the table holds exactly the latest 10,000 flows created, in order, and each window is exactly that flow's latest seq_len vectors since it was created or reset |
| ScoringPipeline.EventKeepsFaith | ml-intelligence-03/ml/pipeline/scoring_pipeline.py:97-99 | Each scored metric or reset keeps that |
| ScoringPipeline.FlowsDoNotMix | ml-intelligence-03/ml/pipeline/scoring_pipeline.py:74-76 | While at most 10,000 flows have shown up, a window is a function of its own flow's events alone |
| ScoringPipeline.SinceIsOwn | ml-intelligence-03/ml/pipeline/scoring_pipeline.py:74-76 | ... because the vectors since creation are those since the flow's own last reset |
| ScoringPipeline.NothingEvicted | ml-intelligence-03/ml/pipeline/scoring_pipeline.py:237-241 | ... because nothing was evicted: the flows created are the flows seen, each once |
| ScoringPipeline.ArmsLearnConsecutivePairs | ml-intelligence-03/ml/pipeline/scoring_pipeline.py:109-117 | A region's arm has learned exactly the consecutive pairs of positive round-trip times read for the region, whatever flows they came from |
| ScoringPipeline.FirstVectorNeedsNoConfirmation | ml-intelligence-03/ml/pipeline/scoring_pipeline.py:201-202 | On a flow's first vector the LSTM half of the second path is always met, so the classifier alone triggers |
| ScoringPipeline.ScoringPipeline.constructor | ml-intelligence-03/ml/pipeline/scoring_pipeline.py:62-79 | Starts with no flows and no readings |
| ScoringPipeline.ScoringPipeline.Score | ml-intelligence-03/ml/pipeline/scoring_pipeline.py:81-148 | Pushes the vector into its flow's window only, scores that window, and lets the bandit observe the region's previous reading |
| ScoringPipeline.ScoringPipeline.Decide | ml-intelligence-03/ml/pipeline/scoring_pipeline.py:93-126 | The models' answers and the ensemble decision for one window, with the confidence that DecisionInNumbers gives in numbers |
| ScoringPipeline.ScoringPipeline.ObserveReading | ml-intelligence-03/ml/pipeline/scoring_pipeline.py:109-117 | Observes against the previous positive reading of the region, and remembers positive readings only |
| ScoringPipeline.ScoringPipeline.PushToFlow | ml-intelligence-03/ml/pipeline/scoring_pipeline.py:97-99 | Changes one window; all other flows' windows and the bandit are untouched |
| ScoringPipeline.ScoringPipeline.GetFlowLstm | ml-intelligence-03/ml/pipeline/scoring_pipeline.py:222-244 | Makes a fresh window on first use at the cost of the oldest entry when the table is full |
| ScoringPipeline.ScoringPipeline.EvictOldest | ml-intelligence-03/ml/pipeline/scoring_pipeline.py:237-241 | Drops exactly the first entry inserted |
| ScoringPipeline.ScoringPipeline.ResetFlow | ml-intelligence-03/ml/pipeline/scoring_pipeline.py:168-171 | Empties one window in place and leaves the table order alone |
| ScoringPipeline.DecisionInNumbers | ml-intelligence-03/ml/pipeline/scoring_pipeline.py:193-218 | A failover is triggered if and only if the anomaly score is at least 0.70, or the class is DEGRADED or CRITICAL with the sequence model at 0.60 or more, or the weight is below 0.20 with an anomaly score of 0.50 or more; the confidence is the mean of the scores of the paths taken, the first two counted twice and the third once, for every set of paths |
| ScoringPipeline.AnomalyInWeakRegion | ml-intelligence-03/ml/pipeline/scoring_pipeline.py:195-216 | An anomaly score of 0.9 in a region of weight 0.1 gives the confidence 0.75 |
| Lstm.InputIsLatestVectors | ml-intelligence-03/ml/models/lstm.py:151-156 | The network sees seq_len vectors, the j-th from the end being the j-th latest, or zero before the first |
| Lstm.SuffixOfAppend | ml-intelligence-03/ml/models/lstm.py:120 | Keeping a suffix while appending keeps the suffix of the whole history |
| Lstm.NimbusLSTM.constructor | ml-intelligence-03/ml/models/lstm.py:101-120 | An empty window |
| Lstm.NimbusLSTM.Push | ml-intelligence-03/ml/models/lstm.py:129-131 | Appends, and drops the oldest vector when the window is full |
| Lstm.NimbusLSTM.Predict | ml-intelligence-03/ml/models/lstm.py:133-176 | UNKNOWN with full confidence below two vectors, otherwise the network on the padded window |
| Lstm.NimbusLSTM.Reset | ml-intelligence-03/ml/models/lstm.py:178-180 | Empties the window |
| Lstm.AnswersFromTheSecond | ml-intelligence-03/ml/models/lstm.py:133-176 | From a flow's second vector on the answer is the network's on the latest seq_len vectors, padded with zeros in front; before that it is UNKNOWN with confidence one |
| Bandit.RewardRange | ml-intelligence-03/ml/models/bandit.py:214-223 | Rewards lie in [0, 1.05) and exceed 1 if and only if the round-trip time improved by less than the success threshold |
| Bandit.ArmBooks | ml-intelligence-03/ml/models/bandit.py:80-83 | In every run alpha + beta = 2 + decisions, alpha - 1 is the sum of rewards, and beta falls by less than 0.05 an observation |
| Bandit.SamplingIsSafeUpToTwenty | ml-intelligence-03/ml/models/bandit.py:86-88 | Beta sampling stays possible after every run of n observations if and only if n is at most 20 |
| Bandit.ParametersStayAboveOne | ml-intelligence-03/ml/models/bandit.py:72-84 | Without slight improvements both parameters stay at least one |
| Bandit.FlooredAddUp | ml-intelligence-03/ml/models/bandit.py:290-297 | Floored weights sum to one |
| Bandit.FloorKeepsOrder | ml-intelligence-03/ml/models/bandit.py:290-297 | ... and keep their order |
| Bandit.FloorBound | ml-intelligence-03/ml/models/bandit.py:290-297 | ... and none of n is below 0.05 / (1 + 0.05 (n - 1)) |
| Bandit.FloorBoundIsTight | ml-intelligence-03/ml/models/bandit.py:290-297 | ... which is met by a region without weight beside one that has it all |
| Bandit.FloorHoldsIffIdle | ml-intelligence-03/ml/models/bandit.py:291-294 | No output is below 0.05 if and only if no input was, and then the floor changes nothing |
| Bandit.ClippedGrows | ml-intelligence-03/ml/models/bandit.py:295-296 | Clipping adds at most 0.05 for every region but one |
| Bandit.RegionArm.constructor | ml-intelligence-03/ml/models/bandit.py:55-70 | Beta(1, 1) |
| Bandit.RegionArm.Update | ml-intelligence-03/ml/models/bandit.py:72-84 | Adds the reward to alpha and its complement to beta |
| Bandit.NimbusMultiArmedBandit.AddRegion | ml-intelligence-03/ml/models/bandit.py:147-151 | Adds a fresh arm unless there is one |
| Bandit.NimbusMultiArmedBandit.RemoveRegion | ml-intelligence-03/ml/models/bandit.py:153-157 | Drops one arm |
| Bandit.NimbusMultiArmedBandit.Observe | ml-intelligence-03/ml/models/bandit.py:193-226 | Changes the observed region's arm only; unknown regions are ignored |
| Bandit.NimbusMultiArmedBandit.ApplyMinimumWeight | ml-intelligence-03/ml/models/bandit.py:290-297 | Computes the floored weights the lemmas are about |
| Bandit.RewardInFull | ml-intelligence-03/ml/models/bandit.py:214-223 | The reward is one from a five percent improvement on, a half without an old value, zero if and only if the new value is more than ten percent worse, and in between short of one by the relative deterioration |
| Bandit.RewardNeverRises | ml-intelligence-03/ml/models/bandit.py:218-223 | From the old value on the reward never rises with the new one |
| Bandit.FlooredInProportion | ml-intelligence-03/ml/models/bandit.py:290-297 | Floored weights stand to each other as the weights do once raised to 0.05 |
| Incidents.NoIncidentIsLost | sre-operations-05/sre/runbooks/incident_manager.py:307-334 | In every run with any number of crashes and restarts, provided each opening is admissible, a region has an active incident if and only if it was opened since it was last resolved |
| Incidents.ReloadIsExactIff | sre-operations-05/sre/runbooks/incident_manager.py:307-334 | A reload brings back exactly the active incidents, in whatever order the files are listed, each once, if and only if unresolved files and active incidents agree |
| Incidents.LastFileWins | sre-operations-05/sre/runbooks/incident_manager.py:309-328 | Any unresolved file can be the one that is reloaded: the last listed wins its region |
| Incidents.OpeningStaysCleanIff | sre-operations-05/sre/runbooks/incident_manager.py:99-129 | Opening keeps them in agreement if and only if it replaces no mitigated incident and writes over no unresolved file |
| Incidents.ReportKeepsClean | sre-operations-05/sre/runbooks/incident_manager.py:149-228 | Every report and every resolution keeps them in agreement |
| Incidents.RestartKeepsClean | sre-operations-05/sre/runbooks/incident_manager.py:313-328 | So does a reload, although it forgets the progress of an incident |
| Incidents.ReplacingLeavesPhantom | sre-operations-05/sre/runbooks/incident_manager.py:101-108 | Replacing a mitigated incident strands its file, and some listing order reloads the old incident |
| Incidents.PhantomsStay | sre-operations-05/sre/runbooks/incident_manager.py:127-129 | Short of a restart, or of a new incident under the same identifier, nothing done later resolves a stranded file |
| Incidents.IdsClashIff | sre-operations-05/sre/runbooks/incident_manager.py:34-38 | Two incidents get one identifier if and only if they are opened in the same second in regions whose names agree in six letters |
| Incidents.NeighboursClash | sre-operations-05/sre/runbooks/incident_manager.py:37 | us-east-1 and us-east-2 do |
| Incidents.IncidentManager.constructor | sre-operations-05/sre/runbooks/incident_manager.py:59-80 | Starts from the files there are |
| Incidents.IncidentManager.LoadActive | sre-operations-05/sre/runbooks/incident_manager.py:307-334 | Reloads unresolved records, later files winning, without their progress |
| Incidents.IncidentManager.Open | sre-operations-05/sre/runbooks/incident_manager.py:84-147 | Returns the open incident if there is one, otherwise opens, files and returns a new one |
| Incidents.IncidentManager.RecordRunbookStarted | sre-operations-05/sre/runbooks/incident_manager.py:149-156 | Updates and files the active incident of the region, if any |
| Incidents.IncidentManager.RecordRunbookProgress | sre-operations-05/sre/runbooks/incident_manager.py:158-164 | Updates and files the active incident of the region, if any |
| Incidents.IncidentManager.RecordRunbookResult | sre-operations-05/sre/runbooks/incident_manager.py:166-182 | Updates and files it; only success mitigates |
| Incidents.IncidentManager.RecordEscalation | sre-operations-05/sre/runbooks/incident_manager.py:184-191 | Updates and files the active incident of the region, if any |
| Incidents.IncidentManager.RecordSreAck | sre-operations-05/sre/runbooks/incident_manager.py:199-206 | Updates and files the active incident of the region, if any |
| Incidents.IncidentManager.Resolve | sre-operations-05/sre/runbooks/incident_manager.py:208-247 | Resolves, files and removes the active incident, and returns it |
| Incidents.RecordTellsReports | sre-operations-05/sre/runbooks/incident_manager.py:149-206 | From an opening on, whatever happens elsewhere, the record of an incident and its file tell the latest report of each kind about its region; it is mitigated exactly if some runbook end reported success |
| Incidents.ResolvingCloses | sre-operations-05/sre/runbooks/incident_manager.py:208-247 | A resolution takes the incident out and leaves its file resolved, with the time, and else as it was |
| Incidents.SeverityMeaning | sre-operations-05/sre/runbooks/incident_manager.py:41-51 | The exact signs for each severity |
| Flywheel.BooksAlwaysBalance | ml-intelligence-03/ml/flywheel/flywheel.py:282-304 | In every run whose crashes interrupt no write, total = stored + buffered, and likewise for each source and fault type |
| Flywheel.CrashBalancesIff | ml-intelligence-03/ml/flywheel/flywheel.py:297-304 | After a crash and a restart the books balance if and only if no line of a flush had got out before the statistics were saved |
| Flywheel.CrashIsHarmlessIff | ml-intelligence-03/ml/flywheel/flywheel.py:297-304 | ... and they go on balancing if and only if no part of a line had |
| Flywheel.CrashDrifts | ml-intelligence-03/ml/flywheel/flywheel.py:334-346 | A crash after k lines leaves the statistics k short; one while saving them leaves everything stored uncounted |
| Flywheel.DriftStays | ml-intelligence-03/ml/flywheel/flywheel.py:282-304 | No append, flush or idle crash ever makes up for it |
| Flywheel.NothingIsLost | ml-intelligence-03/ml/flywheel/flywheel.py:282-304 | A run without crashes keeps every sample, in order |
| Flywheel.FewAreLost | ml-intelligence-03/ml/flywheel/flywheel.py:294-295 | Each crash that interrupts no write costs at most a hundred samples, the one of an append cut short included |
| Flywheel.TornEndSwallowsNext | ml-intelligence-03/ml/flywheel/flywheel.py:323-330 | A torn last line swallows the first sample of the next flush, which is counted and never read again |
| Flywheel.ReadableAppends | ml-intelligence-03/ml/flywheel/flywheel.py:300-302 | What can be read after appending lines, with and without a torn end before them |
| Flywheel.DataFlywheel.constructor | ml-intelligence-03/ml/flywheel/flywheel.py:105-113 | Starts from the files that are there |
| Flywheel.DataFlywheel.Append | ml-intelligence-03/ml/flywheel/flywheel.py:282-295 | Buffers and counts a sample; flushes at a hundred |
| Flywheel.DataFlywheel.FlushBuffer | ml-intelligence-03/ml/flywheel/flywheel.py:297-304 | Appends all buffered lines in order, then saves the statistics |
| Flywheel.DataFlywheel.LoadTrainingSamples | ml-intelligence-03/ml/flywheel/flywheel.py:214-241 | Every wanted sample stored or buffered, in order |
| Flywheel.DataFlywheel.ReadStore | ml-intelligence-03/ml/flywheel/flywheel.py:306-332 | Reads back exactly the whole lines not run into by a torn one, filtered |
| Flywheel.RetrainingDueIff | ml-intelligence-03/ml/flywheel/flywheel.py:264-270 | In every run, whatever crashes there are, retraining is due if and only if 500 samples were appended since the last retraining or restart: the minimum of 100 in all never decides |
| Flywheel.RecentAreCounted | ml-intelligence-03/ml/flywheel/flywheel.py:284-286 | The counter behind that is the number of appends since the last retraining or restart, and never above the total |
| Flywheel.DataFlywheel.NoteRetrained | ml-intelligence-03/ml/flywheel/retrainer.py:238 | Clears that counter and nothing else of the store |
| Flywheel.TallyInFull | ml-intelligence-03/ml/flywheel/flywheel.py:284-292 | The statistics are the number of samples in all, from each source and of each fault |
| Flywheel.FlushedByTheHundred | ml-intelligence-03/ml/flywheel/flywheel.py:294-295 | A store only ever appended to flushes at every hundredth sample and not before |
| Flywheel.SelectedAreWanted | ml-intelligence-03/ml/flywheel/flywheel.py:214-241 | What is loaded is exactly the samples of enough confidence from the sources asked for, each as often as it is there |
| Flywheel.SelectedInOrder | ml-intelligence-03/ml/flywheel/flywheel.py:214-241 | ... in the order in which they are there |

## Left out

- AWS, HTTP, Slack and PagerDuty calls, logging and Prometheus metrics: only the maps they read and write, with success as a parameter. Errors from DNS and route calls are logged by the source and change nothing here.
- eBPF loading, perf buffers, the per-CPU scratch lookup, packet parsing, and the eviction policy of the kernel's flow map: the probe starts from a parsed packet of a known flow or from its first packet.
- FNV-1a: any hash function. Float rounding: reals, and integers for the aggregator's 32- and 64-bit counters, which are not made to wrap.
- Isolation forest, XGBoost, LSTM arithmetic, softmax and Beta sampling: arbitrary functions or values in their ranges.
- Region inference in the aggregator is the constant "unknown" it is in the source.
- `Statemachine.RegionFSM.CheckTimeouts`: reads the clock once per locked call; the source reads it several times in a row. Exit actions are never registered and are left out, as are the `LastUpdatedAt` stamps.
- `Trafficshaper.AdaptiveTrafficShaper.ForceWeight`: not a step of the controller's runs, because nothing in the control plane calls it; what it does to the joint invariant is `HealingLoop.ForcedKeepsJointIff`.
- `Controlplane.Controller.ProcessScoredMetric`: one atomic call, and so a step of the runs; other calls between its reading of the state and its sending of the event are in `HealingLoop.LateMetric` only. The bounded metrics channel is not modelled.
- `Routetable.Manager.RestoreRegion`: with no regions configured at all the source divides by zero and stores infinity as the weight; infinity is no real number, and the weight stored then is left open.
- `Controlplane.Controller.TickShaper`: one step; other calls between moving and normalising the weights are in `HealingLoop.LatePublicationIsFair` only.
- `Routetable.Manager.FailoverRegion`: the manager has no lock, though the shaper's callback and the enter actions both call it; its calls are modelled one after the other.
- `Routetable.Manager.AssociateSubnet`: a subnet has at most one association, and associations without an identifier do not occur.
- `LeaseLock.ExclusionNeedsTwiceTheSkew`: agents have distinct owner names (the source uses the local region), a request takes effect at one moment, and a delete delayed past the same owner's next acquisition is not modelled.
- `Runbooks.RunbookExecutor.Run`: recording the result inside finish raises no exception, as the incident store catches its own write errors. The second call of finish may clear the registration of a run started in between; registrations are a set of regions here. The source's preconditions and final gate are stubs that hold; here they are parameters.
- Runbook lookup, shell commands, thread handling and the `verify` expressions of the executor: an attempt's outcome is a parameter.
- `Incidents.IncidentManager.Open`: identifiers are an argument, characterised by `Incidents.IdsClashIff`; callbacks, the error-budget figure, the lookup by identifier and failed or torn writes of an incident file are left out. The acknowledgement time is not stored by the source either.
- `Flywheel.CrashIsHarmlessIff`: a line cut exactly before its newline, which could still be read until the next append, counts as torn here. Feature extraction and the conversion to arrays are left out; a sample's features are an opaque payload. The retrainer's own statistics (time, trigger, count) are left out.
- `Bandit.FloorBoundIsTight`: its witness has regions of weight zero, which a softmax approaches and does not reach.
- `OutsideCalls.RecordsDoNotTell`: record name, type and set identifier are constants of the zone and of the region and are left out; the agents share one configuration. Whether Route 53 accepts a change is a parameter.
- The retrainer's training, the HTTP servers, the budget enforcer, the chaos framework, the postmortem text and the infrastructure configuration: separate programs with no part in the properties here.
