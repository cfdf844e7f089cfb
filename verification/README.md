# DVhub in Dafny

DVhub is a home-energy controller: it imports meter history, plans when a battery feeds into the
grid, answers a direct marketer over Modbus and settles feed-in under the EEG. This project models
the parts of it that carry laws of their own and proves those laws. `dafny verify dfyconfig.toml`
checks everything.

The model follows the code branch by branch. What the program updates in place (slot buckets, the
demand book of the allocator, the import log, command client and queue, limit controller, Modbus
connection, configuration draft, tariff cache, write buffer) is a class; each of its methods is
proved against a function of the old state, and the laws are lemmas about that function, over every
input or every run. Everything that comes from outside (clock, network, solver, string parsing,
date conversion) is a parameter.

How the modules fit together:

- **History import.** `SlotCutting` cuts samples into 15-minute slots and proves that nothing gets
  lost or counted twice. `Allocation` is the capped proportional allocator, `AllocationShares` says
  who gets how much of a total, `EnergyFlows` fits seven flows to four meter anchors with it, and `SlotReconstruction` is the whole pass over one slot.
  `Backfill` plans the windows to fetch again, against the set of instants that are imported;
  `DayWindows` groups days for price requests and is proved minimal.
- **Discharge planning.** `MilpModel`, `MilpConstraints`, `MilpPlan`, `MilpSelections`,
  `MilpAssembly`, `MilpPayment`, `MilpValue` and `MilpChoice`: enumeration of placements, the emitted
  0/1 model, the plan read off a solution, what it is paid slot by slot, and what it is worth against
  any other choice.
  The solver is any function that returns a feasible vector. The emitted constraints are proved
  equivalent to conditions on placements, times and budgets. `MilpBudgets` says exactly when the
  constraints keep a budget, `MilpCap` exactly when the repetition cap forbids a plan.
- **Commands.** `CommandProtocol` and `CommandRuns`: client, channel and worker as one step system.
  `CommandDelivery` says what becomes of each command, and that all are answered if nothing is lost.
- **Direct marketing.** `ModbusFraming`, `ModbusServer`, `ModbusSession`, `ModbusRequests` (byte
  stream, requests, answers), `ModbusControl` (what a session does to feed-in and registers) and
  `LuoxControl`, `LuoxRuns`, `LuoxRegisters` (register codec, limit controller). The
  controller is proved to refine a three-field lease: a share, until when it holds, the last watchdog.
- **Configuration.** `Secrets` (which stored secrets survive a changed address), `ScheduleRules` and
  `ScheduleReload` (reloading rules keeps their runtime marks), `TariffPeriods` (dated tariffs and
  the price cache), `BatteryStages` (dated capacities).
- **Settlement and storage.** `EegExtension` (section 51a (2) EEG 2023), `TierTariff` (section 48
  EEG), `WriteBuffer` (batched telemetry writes).
- **Helpers.** `Wrappers`, `Integers` and `Reals` (in `Numbers.dfy`), `Sorting`, `Words`.

## What the proofs brought to light

- The allocator's cap of six rounds never binds for up to six candidates, and its fallback branch is
  never taken in exact arithmetic (`Allocation.RoundEffect`, `Allocation.AllocatorLaw`).
- Two samples of one series with the same timestamp: the first one is lost without a trace
  (`SlotCutting.RepeatedTimestampLosesSample`; `SlotCutting.ValueKeptIffWhole` says exactly when a
  sample's energy is kept).
- Budgets of zero or less emit no energy constraint, and a constraint is skipped if it looks like
  the one before, whether or not that one was emitted. Budgets of at least one unit are kept all the
  same (`MilpConstraints.BudgetKept`). A smaller one is kept if and only if it is in force (positive,
  and not a repetition of one that is not in force) or each placement that could spend something by
  its time exceeds some budget in force on its own (`MilpBudgets.RowsKeepIffBinding`; with all other
  constraints too, `MilpBudgets.ModelKeepsIffBinding`). So a zero budget alone limits nothing
  (`MilpBudgets.ZeroBudgetDoesNotLimit`), a tiny positive one does unless it repeats a zero one
  (`MilpBudgets.TinyBudgetLimitsUnlessSkipped`), and a later budget can still rule out what a zero
  one should have (`MilpBudgets.LaterBudgetCanBind`).
- The repetition cap can forbid a plan that is within every budget (`MilpCap.RepetitionCapCanForbid`).
  It forbids none if and only if no block has one disjoint placement more than the cap that together
  are within the budgets (`MilpCap.CapIsRedundantIff`, `MilpCap.OneBudgetCapIsRedundantIff`). Blocks of
  the largest energy are never restricted under one budget in whole units
  (`MilpCap.LargestBlockStaysBelow`).
- The objective counts revenue in whole hundredths of a cent, so an optimal plan need not earn most
  (`MilpChoice.RoundingCanCost`: 0.0102 cents where 0.02 are to be had). What another choice can earn
  more is at most half a hundredth of a cent for each placement of the two
  (`MilpChoice.UnbeatenPlanEarnsNearlyMost`). The objective ranks choices as revenue does if and only
  if revenues are in proportion to their rounded units (`MilpValue.RanksAsRevenueIffProportional`), for
  instance all in whole hundredths; then no choice earns more (`MilpValue.RankedUnbeatenEarnsMost`).
- The comment in `dvhub/dv-interface-luox.js` (lines 118-120) says that without a watchdog write the lease counts from
  the setpoint. The code counts from the last watchdog write whenever there was one, even an old one:
  a setpoint that arrives after a long silence is dropped by the next expiry check
  (`LuoxRuns.StaleWatchdogDropsSetpoint`; the exact condition is `LuoxRuns.SetpointLasts`).
- An echo of a single-register write states its own length if and only if the request's length field
  is 6 (`ModbusSession.AnswersAreWellFramed`; `ModbusSession.LongRequestIsMisechoed` is a frame for
  which it does not), and the joined answers of a session split back into
  those answers if and only if all echoes do (`ModbusSession.SessionAnswersSplitBack`).

## Model

| member | source | states |
|---|---|---|
| Allocation.DrawRound | dvhub/history-import.js:775-790 | one round's in-place updates of allocations and demands, with the fallback draw, equal the specified pass over the quotas |
| Allocation.AllocateSourceTotal | dvhub/history-import.js:762-795 | the loop over at most six rounds equals the recursive specification in its allocations and in the demands it leaves |
| Allocation.DistributeAt | dvhub/history-import.js:777-783 | in a pass a candidate gains exactly the capped quota of its own demand, whatever the others draw |
| Allocation.QuotaFacts | dvhub/history-import.js:765-780 | a round's quotas are nonnegative, one per active candidate, and add up to the whole remaining total |
| Allocation.RoundEffect | dvhub/history-import.js:766-792 | each round moves more than the cutoff (so the fallback is never taken), conserves energy, and either finishes or saturates a demand |
| Allocation.RoundsEffect | dvhub/history-import.js:766-792 | any number of rounds conserves energy and turns demand into allocation one for one; as many rounds as open demands always finish |
| Allocation.RoundsFrame | dvhub/history-import.js:766-792 | a demand no candidate draws from is never touched |
| Allocation.AllocatorLaw | dvhub/history-import.js:762-795 | with distinct keys and up to six candidates: conservation, no demand exceeded, and at the end the total or every demand is used up to the cutoff, so the round cap never binds |
| Allocation.DeliversTheMinimum | dvhub/history-import.js:762-795 | what is delivered is the lesser of total and sum of demands, up to the stated cutoff slack |
| AllocationShares.AllocationIsProportional | dvhub/history-import.js:762-795 | there is one level per unit of weight that no weighted candidate gets more than and that each gets in full whose demand stays open: an allocator that fills demands in order does not meet this |
| AllocationShares.ExactlyTheLesser | dvhub/history-import.js:762-795 | without a cutoff each weighted candidate gets exactly the lesser of its demand and its weight times the level |
| AllocationShares.OpenDemandsShareByWeight | dvhub/history-import.js:762-795 | two weighted candidates whose demands stay open get amounts in the ratio of their weights |
| AllocationShares.UnweightedShareByDemand | dvhub/history-import.js:762-795 | if no candidate has a weight, each gets the same share of its demand, at most all of it, for every cutoff that leaves the demands open or cutoff 0 |
| AllocationShares.UnweightedInRatioOfDemands | dvhub/history-import.js:768-773 | two of them get amounts in the ratio of their demands, in the whole allocation |
| AllocationShares.OpenDemandStandsForWeight | dvhub/history-import.js:768-780 | in a round with both kinds the quota of an unweighted candidate stands to that of a weighted one as its open demand to the weight |
| AllocationShares.FittingWeightsAreGiven | dvhub/history-import.js:762-795 | weights that add up to the total and fit the demands are given one by one, and taken off the demands |
| EnergyFlows.NormalizeFlowValuesToVrmAnchors | dvhub/history-import.js:797-827 | the three-stage in-place fit through one shared demand book equals its specification |
| EnergyFlows.NumbersFit | dvhub/history-import.js:797-827 | whatever the three allocations yield within their laws, the flows fit the meters; the only mismatch is unplaced import against unmet export |
| EnergyFlows.FittedFlowsFit | dvhub/history-import.js:797-827 | for all nonnegative anchors and any prior flows the fitted flows place solar and battery, meet load and charge, and leave import unplaced by the export left unmet, up to cutoffs |
| EnergyFlows.ExactFit | dvhub/history-import.js:797-827 | for cutoff 0 all of this is exact: load + export + charge = pv + import + discharge, and never charge and discharge at once |
| EnergyFlows.FittingFlowsAreKept | dvhub/history-import.js:797-827 | prior flows that already add up to the anchors are kept one by one, so each flow weighs its own candidate and no other |
| SlotReconstruction.DerivesExactlyTheLast | dvhub/history-import.js:829-871 | a field is derived if and only if it is the only one missing, and then the slot's energy balance holds |
| SlotReconstruction.SlotBucket.DeriveMissing | dvhub/history-import.js:1103-1127 | the derivation loop settles the slot: one missing field is filled so that the balance holds, none or several are left alone |
| SlotReconstruction.SlotBucket.ReconstructSlotBucket | dvhub/history-import.js:873-1154 | without reference readings each missing value ends as the sum of its own named flows if that is positive (load and self-consumption with at least two direct uses), else only by the balance, and what was there stays; with them meters, battery and self-consumption are read off the readings and the stored flows; incomplete means a field is still missing |
| SlotReconstruction.AnchoredPreparation | dvhub/history-import.js:891-1000 | an anchored slot stores the fitted flows and reads meters and battery off anchors and flows, overriding what was there |
| SlotReconstruction.AnchoredSlotBalances | dvhub/history-import.js:873-1154 | after the pass an anchored slot's stored flows fit its anchors, its load is the anchor, charge and discharge are never both positive, and the energy balance is off by at most four cutoffs |
| SlotReconstruction.UnanchoredSlotSettles | dvhub/history-import.js:1002-1146 | a slot without anchors keeps every value it had, stays incomplete exactly if two or more fields miss, and balances if one was derived |
| SlotReconstruction.UnanchoredLaw | dvhub/history-import.js:1002-1146 | the same without reference readings, for every slot: field by field on the imported values |
| SlotReconstruction.AnchoredLaw | dvhub/history-import.js:873-1146 | the same with reference readings: all six values and self-consumption are there, and flows and meters agree up to cutoffs |
| SlotReconstruction.AllFromFlowsBalance | dvhub/history-import.js:1002-1101 | a slot whose six values all come from flows balances exactly |
| SlotReconstruction.FillingKeeps | dvhub/history-import.js:1002-1101 | filling gaps from flows never changes a value that is there |
| SlotCutting.SlotBuckets.AddSample | dvhub/history-import.js:435-468 | the cursor loop terminates and adds to each slot exactly the part of the sample inside it, and touches no other series |
| SlotCutting.SlotBuckets.AddVrmValuesToSlotBuckets | dvhub/history-import.js:423-470 | the sorted samples are added one after the other, each slot ending with what the per-slot specification says |
| SlotCutting.PartsAddUp | dvhub/history-import.js:448-468 | the parts of a sample over a row of slots add up to the part inside their union |
| SlotCutting.SlotsConserveSamples | dvhub/history-import.js:402-470 | for any samples and any range of slots that holds them, the slots' totals gain the sum of the samples' kept shares |
| SlotCutting.FullShareIffUnclipped | dvhub/history-import.js:436-446 | with rising timestamps a sample keeps its full value if and only if the range end does not clip it |
| SlotCutting.ValueKeptIffWhole | dvhub/history-import.js:436-466 | for sorted samples: the slots get a sample's energy in full if and only if it is zero, or the next timestamp is strictly later and the range does not end before the sample does |
| SlotCutting.UnclippedEnergyIsConserved | dvhub/history-import.js:402-470 | if no sample that carries energy is repeated or clipped, the shares sum to the plain sum of the sample values |
| SlotCutting.RepeatedTimestampLosesSample | dvhub/history-import.js:436-446 | a sample followed by one with the same timestamp adds nothing |
| SlotCutting.SampleEnds | dvhub/history-import.js:435-450 | a sample lasts its resolution, of at least a second, or to an earlier next sample; a daily one also to a next sample up to an hour late |
| SlotCutting.CountsAndCovers | dvhub/history-import.js:402-470 | a slot counts exactly the samples that reach into it and covers exactly their time there; without any it has no entry |
| SlotCutting.ModeOfSeries | dvhub/history-import.js:378-382 | which series are averaged over time, which are added up, and which are not cut at all |
| SlotCutting.CoverageBelow | dvhub/history-import.js:436-468 | samples up to an instant never cover more of a slot than the part of it before that instant |
| SlotCutting.CoverageWithinSlot | dvhub/history-import.js:402-470 | no slot's coverage for a series exceeds the slot length |
| Backfill.MergeCoverageRanges | dvhub/history-import.js:164-178 | merging keeps the set of covered instants and leaves nonempty ranges with a strict gap between them |
| Backfill.BuildBackfillWindows | dvhub/history-import.js:180-195 | the cursor loop yields the specified windows |
| Backfill.WindowsTile | dvhub/history-import.js:180-195 | the windows follow each other without gap, cover exactly the range, and only the last may be shorter |
| Backfill.CoveredIffEveryInstantIs | dvhub/history-import.js:197-199 | on merged ranges the one-range test is exact: covered if and only if every instant of the window is |
| Backfill.JobRangesCover | dvhub/telemetry-store.js:916-960 | the overlapping completed jobs of the account cover exactly the imported instants of the asked range |
| Backfill.ImportStore.CollectGapWindows | dvhub/history-import.js:1405-1447 | the plan is the list of windows, in order, with an instant that no import covers |
| Backfill.PlannedIffSomethingMissing | dvhub/history-import.js:1422-1447 | a window is planned if and only if some instant in it is not imported |
| Backfill.PlanReachesEveryGap | dvhub/history-import.js:1422-1447 | every instant of the look-back that is not imported lies in a planned window |
| Backfill.ImportStore.RunVrmGapBackfill | dvhub/history-import.js:1740-1841 | when a run does nothing, fails or finishes; every window is either imported or empty, the rows are those of all windows, and the one job it logs is completed, or with gaps if a window came back empty |
| Backfill.SecondPlan | dvhub/history-import.js:1740-1841 | after a run without empty windows a second plan for the same time is empty; after one with empty windows it is the same plan again |
| DayWindows.BuildPriceBackfillDayWindows | dvhub/history-import.js:306-336 | sorting and the grouping loop yield the greedy grouping |
| DayWindows.FrontRunIsRun | dvhub/history-import.js:317-333 | the first window takes the longest run of consecutive days within the limit |
| DayWindows.GreedyPartitions | dvhub/history-import.js:306-336 | the windows concatenate to the days; each is a run within the limit and its half-open range holds exactly its days |
| DayWindows.FewerDaysFewerWindows | dvhub/history-import.js:306-336 | dropping days from the front never needs more windows |
| DayWindows.GreedyIsMinimal | dvhub/history-import.js:306-336 | no partition into such runs has fewer windows |
| MilpPlan.SplitIntoContiguousSegments | dvhub/small-market-automation.js:454-467 | the segments are the maximal runs of slots one slot length apart, in order, covering all slots |
| MilpPlan.EnumeratePlacements | dvhub/milp-optimizer.js:76-100 | exactly the placements of a block on consecutive slots with positive revenue, each found although only segments are searched |
| MilpPlan.PlacementInTime | dvhub/milp-optimizer.js:81-97 | a placement's timestamps rise, its slot indices stand for them and are distinct |
| MilpConstraints.OverlapConstraints | dvhub/milp-optimizer.js:111-126 | a 0/1 vector satisfies the emitted constraints if and only if no two chosen placements share a slot; slots with one candidate need no constraint |
| MilpConstraints.EnergyConstraints | dvhub/milp-optimizer.js:140-165 | the loop emits exactly the specified rows; a 0/1 vector satisfies them if and only if it keeps every budget in force |
| MilpConstraints.RowsMeanLiveBudgets | dvhub/milp-optimizer.js:140-165 | the emitted rows hold of a 0/1 vector if and only if it keeps every budget in force, for every vector and number of times |
| MilpConstraints.SkippedIsImplied | dvhub/milp-optimizer.js:152-160 | a row is skipped exactly when no placement finishes in between and the units are equal, and it would say what the one before says |
| MilpConstraints.WholeUnitsAreLive | dvhub/milp-optimizer.js:143-164 | a budget of at least one unit is in force at every time by which some placement ends |
| MilpConstraints.BudgetKept | dvhub/milp-optimizer.js:140-165 | a feasible vector keeps each cumulative budget of at least one unit, emitted or not |
| MilpBudgets.RowsKeepIffBinding | dvhub/milp-optimizer.js:140-165 | for every budget of any size and sign: all vectors the rows admit keep it if and only if it is not negative and it is at least one unit, in force, or every placement that spends anything by its time exceeds a budget in force |
| MilpBudgets.ModelKeepsIffBinding | dvhub/milp-optimizer.js:111-186 | the same with overlap and repetition constraints added: they make no other budget binding; under a negative budget nothing may be spent |
| MilpBudgets.ZeroBudgetDoesNotLimit | dvhub/milp-optimizer.js:143-146 | concrete input: a zero budget alone emits no constraint and is not kept |
| MilpBudgets.TinyBudgetLimitsUnlessSkipped | dvhub/milp-optimizer.js:146-160 | concrete inputs: a positive budget below half a unit limits, but is skipped after a zero budget |
| MilpBudgets.LaterBudgetCanBind | dvhub/milp-optimizer.js:146-165 | concrete input: a zero budget is kept because a later one rules the discharge out |
| MilpBudgets.DischargeIsReal | dvhub/milp-optimizer.js:60-100 | the placement of the concrete budgets is the one the code enumerates for one slot |
| MilpConstraints.EnergyIsWeight | dvhub/milp-optimizer.js:161-171 | with energies in whole 0.0001 kWh the integer weights are the energies |
| MilpConstraints.BudgetKeptInKwh | dvhub/milp-optimizer.js:161-171 | for any energies a kept budget is kept in kWh up to half a unit for each chosen placement and the bound |
| MilpPlan.RepetitionConstraints | dvhub/milp-optimizer.js:181-186 | a vector satisfies them if and only if no stage is used more often than the cap |
| MilpPlan.LimitConstraints | dvhub/milp-optimizer.js:133-172 | per-slot budgets take precedence over the global one; the constraints mean the limits in force |
| MilpPlan.BuildModel | dvhub/milp-optimizer.js:104-189 | the emitted model is feasible exactly for the admissible selections, with the revenues as its objective |
| MilpCap.CapUsesUpTheBudget | dvhub/milp-optimizer.js:175-180 | the repetition cap is the least positive number of runs of the largest block that use up the largest budget |
| MilpCap.CapWithoutBudget | dvhub/milp-optimizer.js:175-180 | without any budget the cap is twenty |
| MilpCap.CapIsRedundantIff | dvhub/milp-optimizer.js:174-186 | for any blocks and limits: the cap forbids no selection within slots and budgets if and only if no block has cap + 1 disjoint placements within the budgets by themselves |
| MilpCap.OneBudgetCapIsRedundantIff | dvhub/milp-optimizer.js:166-186 | with the global budget: if and only if each block with cap + 1 disjoint placements would exceed the budget with them |
| MilpCap.LargestBlockStaysBelow | dvhub/milp-optimizer.js:174-186 | a block of the largest energy can never be paid for cap + 1 times |
| MilpCap.EqualBlocksAreFree | dvhub/milp-optimizer.js:174-186 | if all blocks have the same energy the cap is redundant |
| MilpCap.OptimumBeatsSelections | dvhub/milp-optimizer.js:104-209 | where the cap is redundant an optimum has at least the objective of every selection within slots and budgets, for any blocks and limits |
| MilpCap.OneStageModelIsExact | dvhub/milp-optimizer.js:111-186 | one stage, global budget, whole units: admissible if and only if no slot is shared and the energy is within the budget |
| MilpCap.OptimumBeatsEveryPlan | dvhub/milp-optimizer.js:104-209 | the one-stage case in kWh: an optimum has at least the objective of every selection without a shared slot within the budget |
| MilpCap.RepetitionCapCanForbid | dvhub/milp-optimizer.js:174-186 | concrete slots and two blocks as the code forms them, with all their placements, for which the cap forbids a selection within all limits |
| MilpAssembly.AssemblePlan | dvhub/milp-optimizer.js:211-252 | the gathered chain, timestamps, revenue and peak are those of the chosen placements by start time; the peak is an attained maximum |
| MilpAssembly.InOrderIncreases | dvhub/milp-optimizer.js:217-236 | placements one after the other give strictly increasing timestamps |
| MilpAssembly.ChainFollowsTimestamps | dvhub/small-market-automation.js:6-16 | the combined chain expands to the placements' powers, one for each timestamp |
| MilpPayment.OneMoreSlotEarns | dvhub/milp-optimizer.js:82-83 | one more slot and power at the end of a run add exactly their own product |
| MilpPayment.SelectionPaid | dvhub/milp-optimizer.js:217-236 | the revenue of any chosen placements is the sum over their powers, each for a quarter of an hour at the price of the slot of its own timestamp |
| MilpPayment.EnergyIsDischarged | dvhub/milp-optimizer.js:63-64 | the energy of a block is the sum of its powers, each for the length of a slot |
| MilpPayment.EntryHoldsItsPower | dvhub/small-market-automation.js:6-16 | an expanded chain holds each entry's power for its number of slots, after those of the entries before it |
| MilpChoice.EveryStageHasItsBlock | dvhub/milp-optimizer.js:60-68 | the blocks are exactly those of the stages whose chain takes a slot, with the energy it discharges |
| MilpChoice.LastEntryCounts | dvhub/milp-optimizer.js:133-138 | of several budgets for one time the last one counts |
| MilpValue.ListIsSelection | dvhub/milp-optimizer.js:104-126 | any list of pairwise disjoint placements is a 0/1 vector of the same energy by every time and the same objective |
| MilpChoice.AdmissibleMakesGoodPlan | dvhub/milp-optimizer.js:211-252 | any admissible vector makes a plan with strictly rising timestamps taken from the slots, one power each, paid power by power at the price of the slot of its timestamp, every budget of at least one unit kept by the blocks that end by its time, and the global budget kept where it is the one that counts |
| MilpValue.OptimalPlanIsUnbeaten | dvhub/milp-optimizer.js:104-252 | where the cap is redundant the plan assembled from an optimal answer has at least the objective of any list of pairwise disjoint enumerated placements within the limits |
| MilpValue.RevenueNearGain | dvhub/milp-optimizer.js:107-108 | the objective of any placements is their revenue up to half a hundredth of a cent for each |
| MilpValue.RanksAsRevenueIffProportional | dvhub/milp-optimizer.js:82-108 | the rounded objective ranks all lists of profitable placements as their revenue does if and only if each revenue is the same positive multiple of its rounded units |
| MilpValue.RankedUnbeatenEarnsMost | dvhub/milp-optimizer.js:82-108 | then no choice, profitable or not, earns more than an unbeaten one |
| MilpChoice.UnbeatenPlanEarnsNearlyMost | dvhub/milp-optimizer.js:42-253 | against every choice of runs in consecutive slots, profitable or not, within slots and budgets: none has a larger objective, and none earns more than the plan plus half a hundredth of a cent for each placement of the two |
| MilpChoice.RoundingCanCost | dvhub/milp-optimizer.js:107-108 | concrete prices for which an optimal answer earns less than another choice within the budget |
| MilpChoice.OneStagePlanIsBest | dvhub/milp-optimizer.js:104-252 | one stage, global budget in whole units: any disjoint runs within the budget in kWh, profitable or not, have no larger objective than the plan and earn at most the rounding of both more |
| MilpChoice.PickMilpPlan | dvhub/milp-optimizer.js:42-253 | for any solver that returns feasible vectors the plan is good (order, powers, revenue slot by slot, peak, budgets), each block runs its own chain on consecutive slots, and every binding budget is kept; if the answer is optimal and the cap redundant, no other choice of runs within slots and budgets has a larger objective, nor earns more than the rounding allows; it is empty where the code returns none |
| CommandProtocol.RuntimeCommandClient.Send | dvhub/runtime-worker-protocol.js:109-129 | a command gets a fresh id and is pending once sent; refused or failed sends settle it at once |
| CommandProtocol.RuntimeCommandClient.OnTimer | dvhub/runtime-worker-protocol.js:118-120 | a timeout settles a pending command and remembers it as timed out |
| CommandProtocol.RuntimeCommandClient.HandleMessage | dvhub/runtime-worker-protocol.js:131-141 | a result settles its pending command, or is reported as late once if that had timed out, or is not ours |
| CommandProtocol.RuntimeCommandClient.FailAll | dvhub/runtime-worker-protocol.js:143-146 | every pending command fails exactly once, and late answers are no longer awaited |
| CommandProtocol.RuntimeCommandQueue.Enqueue | dvhub/runtime-worker-protocol.js:65-69 | a request joins the end of the line and is started if nothing runs |
| CommandProtocol.RuntimeCommandQueue.Finish | dvhub/runtime-worker-protocol.js:38-63 | the running request is answered with its own id and the next one is started |
| CommandRuns.StepKeepsInvariant | dvhub/runtime-worker-protocol.js:34-148 | every step of client, channel and worker keeps the invariant |
| CommandRuns.RunsKeepInvariant | dvhub/runtime-worker-protocol.js:34-148 | so does every interleaving of sends, deliveries, results, losses, timeouts and exits |
| CommandRuns.OrderKeeps | dvhub/runtime-worker-protocol.js:34-77 | answered, running and waiting requests together stay the enqueue order, at most one runs, and commands run in the order sent |
| CommandRuns.ExecutedOnce | dvhub/runtime-worker-protocol.js:34-77 | no request is executed twice |
| CommandRuns.SuccessIsTheHandlersResult | dvhub/runtime-worker-protocol.js:91-148 | a success carries the result of the one execution of that same command, and stays settled so for the rest of the run |
| CommandRuns.RunsAreSafe | dvhub/runtime-worker-protocol.js:91-148 | in every run each promise is settled at most once, pending and timed-out ids are disjoint, no id is forgotten, and a late answer is reported at most once and only after a timeout |
| CommandRuns.LogsOnlyGrow | dvhub/runtime-worker-protocol.js:91-148 | what is settled or reported is never taken back |
| CommandDelivery.ResultSettlesItsCommand | dvhub/runtime-worker-protocol.js:131-141 | in every run a result for a pending command settles that command with that result and no other; one for a timed-out command is reported once; any other changes nothing |
| CommandDelivery.TimeoutFailsItsCommand | dvhub/runtime-worker-protocol.js:118-120 | in every run a timeout fails its command only, and remembers it with its kind |
| CommandDelivery.ExitFailsEveryCommand | dvhub/runtime-worker-protocol.js:142-146 | in every run the end of the worker fails each pending command once, and nothing stays pending or awaited |
| CommandDelivery.SendIsPendingOrFailed | dvhub/runtime-worker-protocol.js:109-129 | in every run a sent command is on its way and pending; one that cannot be sent has failed with its reason |
| CommandDelivery.LosslessRunsLoseNothing | dvhub/runtime-worker-protocol.js:34-148 | as long as no message is lost, no timeout fires and the worker stays, each pending command is with the worker, on its way there or answered, in one of these places only |
| CommandDelivery.EveryCommandIsAnswered | dvhub/runtime-worker-protocol.js:34-148 | in such a run, once all is quiet nothing is pending, and each command sent has been executed and settled with the outcome of that execution |
| LuoxControl.LuoxApplyWrite | dvhub/dv-interface-luox.js:89-120 | the loop over a local copy accepts or rejects a register write as a whole, as specified register by register |
| LuoxControl.DvLimitController.SetDvLimitPct | dvhub/dv-interface-luox.js:149-190 | the three-way setpoint (release, block, partial limit) on the controller's fields, with the limiter's failure path |
| LuoxControl.DvLimitController.ExpireIfNeeded | dvhub/server.js:1262-1280 | a lapsed lease is released |
| LuoxControl.DvLimitController.WriteRegisters | dvhub/modbus-server.js:268-282 | an accepted write applies watchdog and setpoint in the code's order, a rejected one changes nothing |
| LuoxRuns.CapWithinShare | dvhub/dv-interface-luox.js:149-190 | below 100 % the effective export cap exists and is at most the commanded share, half a watt up; a partial limit is that share to the nearest watt |
| LuoxRuns.SetRefines | dvhub/dv-interface-luox.js:149-190 | setting a share keeps the invariant and acts on the lease as a plain new share, whether or not the limiter succeeds |
| LuoxRuns.WatchdogRefines | dvhub/dv-interface-luox.js:133-138 | a watchdog write only renews the lease |
| LuoxRuns.ExpireRefines | dvhub/server.js:1262-1280 | the first expiry check after the deadline restores 100 % with no limit and no block; earlier checks change nothing |
| LuoxRuns.ChangeRefines | dvhub/modbus-server.js:268-282 | an accepted register write acts on the lease as its parts do |
| LuoxRuns.RunRefinesLease | dvhub/dv-interface-luox.js:122-199 | every run of writes, watchdogs, ticks and limiter outcomes refines the three-field lease |
| LuoxRuns.RunNeverExceedsTheCommand | dvhub/dv-interface-luox.js:122-199 | in every run the share is within 0..100 and is the one commanded, a hundred times the cap is at most percentage times reference power and fifty, and the limiter holds just that share to the nearest watt while a partial limit is active, which never meets a block |
| LuoxRuns.FullFeedInIsUncapped | dvhub/dv-interface-luox.js:140-199 | if no limiter write fails, a run leaves feed-in uncapped if and only if 100 % is commanded |
| LuoxRuns.LimitIfPossible | dvhub/dv-interface-luox.js:149-190 | a setpoint becomes a limit if and only if it is partial, a limiter and a reference power are there and the write succeeds; any other below 100 % is a block |
| LuoxRuns.RejectedWriteChangesNothing | dvhub/modbus-server.js:268-282 | a multi-register write with a setpoint above 100 changes no register, only time passes |
| LuoxRuns.SetpointLasts | dvhub/dv-interface-luox.js:128-131 | a setpoint below 100 % is in force at a later check if and only if the time since the last watchdog write, or since the setpoint (or the limiter failure that blocked instead) if there was none, is within the limit |
| LuoxRuns.StaleWatchdogDropsSetpoint | dvhub/dv-interface-luox.js:128-131 | concrete run in which an old watchdog write makes a new setpoint lapse at once |
| LuoxRegisters.U32RoundTrip | dvhub/dv-interface-luox.js:34-43 | decoding the two words gives the rounded value clamped to 32 bits unsigned |
| LuoxRegisters.I32RoundTrip | dvhub/dv-interface-luox.js:28-43 | decoding the two words as two's complement gives the rounded value clamped to 32 bits signed |
| LuoxRegisters.ReadWindow | dvhub/dv-interface-luox.js:78-87 | a read of any window yields the registers inside and zero outside |
| ModbusFraming.FramesExtend | dvhub/modbus-server.js:304-318 | more bytes never change the frames already cut, only continue from the leftover |
| ModbusFraming.ChunkingDoesNotMatter | dvhub/modbus-server.js:304-318 | every chunking of a byte stream yields the same frames and the same leftover |
| ModbusFraming.FramesMakeUpTheStream | dvhub/modbus-server.js:304-318 | frames and leftover concatenate to the stream |
| ModbusFraming.WellFramedSplitsBack | dvhub/modbus-server.js:304-318 | messages whose header states their length are cut apart again exactly |
| ModbusFraming.SplitsBackIffWellFramed | dvhub/modbus-server.js:304-318 | messages with a full header are cut apart again exactly if and only if each states its length |
| ModbusSession.AnswersAreWellFramed | dvhub/modbus-server.js:138-287 | a frame is answered if and only if it is readable; an answer carries the request's ids and function, and is well framed except for an echo of a request whose length field is not 6 |
| ModbusSession.LongRequestIsMisechoed | dvhub/modbus-server.js:173-181 | concrete frame with length field 7 that is answered by an echo whose header does not state its length |
| ModbusSession.ExceptionChangesNothing | dvhub/modbus-server.js:138-287 | a request answered by an exception leaves the server as the passing of time alone would |
| ModbusSession.SetThenGet | dvhub/modbus-server.js:41-42 | written registers read back, all others as before |
| ModbusSession.PlexlogReadsBack | dvhub/modbus-server.js:73-85 | the written window reads back, whatever the signal handler does besides |
| ModbusSession.LuoxReadsBack | dvhub/modbus-server.js:240-287 | after an accepted write the holding registers read back the written values in the writable window and the old ones elsewhere |
| ModbusSession.RequestsKeepControl | dvhub/modbus-server.js:138-287 | no frame of any bytes breaks the control invariant of the profile: the limit controller's for LUOX, full or blocked without any limit for Plexlog |
| ModbusSession.SessionKeepsControl | dvhub/modbus-server.js:294-318 | no session of frames of any bytes breaks the control invariant of the profile |
| ModbusSession.ProcessKeepsValid | dvhub/modbus-server.js:138-287 | handling a frame never leaves the register ranges |
| ModbusSession.ModbusConnection.OnData | dvhub/modbus-server.js:304-318 | the receive loop handles exactly the complete frames of old buffer and chunk, in order, keeps the rest and writes the answers |
| ModbusSession.ServeInParts | dvhub/modbus-server.js:306-318 | serving frames in two parts is serving them at once: same server state, same answers |
| ModbusSession.ChunkingDoesNotMatterToServer | dvhub/modbus-server.js:306-318 | for every chunking of a byte stream the server ends in the same state, having given the same answers, with the same bytes left |
| ModbusSession.SessionAnswersSplitBack | dvhub/modbus-server.js:306-318 | the answers written for any frames are cut back into exactly those answers by the same framing if and only if every echoed request has length field 6 |
| ModbusRequests.TwoWordRequestsParse | dvhub/modbus-server.js:138-181 | requests for reading and for writing one register are read as they were written, byte for byte |
| ModbusRequests.WriteManyRequestsParse | dvhub/modbus-server.js:184-197 | so are requests for writing several registers, as many as their byte count can state |
| ModbusRequests.ReadIsAnswered | dvhub/modbus-server.js:153-171 | a read of 1 to 125 registers is answered with exactly the words of those registers, high byte first, and any other with exception 3; it changes nothing but a lapsed lease |
| ModbusRequests.WriteOneIsEchoed | dvhub/modbus-server.js:173-181 | an accepted write of one register is answered by the request itself |
| ModbusRequests.WriteManyIsAcknowledged | dvhub/modbus-server.js:199-208 | an accepted write of several registers is answered with its address and their number |
| ModbusRequests.ExceptionsTellWhy | dvhub/modbus-server.js:138-287 | exception 1 for unsupported functions; exception 3 if and only if a request is malformed, asks for no or too many registers, or sets the LUOX setpoint above 100 |
| ModbusRequests.InputRegistersDecode | dvhub/dv-interface-luox.js:65-76 | the seven input registers decode, low word first, to signed feed-in, production, the full share and the reference power |
| ModbusControl.FrameSwitches | dvhub/modbus-server.js:73-85 | in the Plexlog profile one frame of any bytes frees a block past its deadline, then blocks, frees, or leaves the block alone, by the words it writes |
| ModbusControl.SessionFollowsBlock | dvhub/modbus-server.js:73-85 | over any session block and deadline are those of the run of its frames |
| ModbusControl.BlockedIffLastSwitchBlocks | dvhub/modbus-server.js:73-85 | after any session feed-in is blocked if and only if the last switching frame wrote 0, 0 at address 0 or 1 at address 3 (or none switched and it was blocked before) and no later readable frame came after the deadline |
| ModbusControl.RegisterHoldsLastWord | dvhub/modbus-server.js:173-197 | after any session each Plexlog register holds the word of the last frame that wrote it, or what it held before |
| ModbusControl.SessionFollowsLease | dvhub/modbus-server.js:210-287 | in the LUOX profile any session is a run of the three-field lease: same share, deadline and watchdog, and the cap never exceeds the share |
| Secrets.Draft.DropSecretsForChangedTargets | dvhub/config-redaction.js:166-182 | the loop terminates, reports each cleared secret once, and clears exactly the least fixpoint |
| Secrets.MoreClearedMoreMustGo | dvhub/config-redaction.js:91-182 | clearing is monotone, including fallback addresses that other clearings open |
| Secrets.OrderDoesNotMatter | dvhub/config-redaction.js:166-182 | the cleared set does not depend on the order of the kept paths |
| Secrets.RemainingSecretsStayHome | dvhub/config-redaction.js:154-182 | each secret that remains only goes to a service it went to before: same host, not less secure, same port or both standard ports of a listed upgrade to TLS |
| Secrets.PermitsTheSameService | dvhub/config-redaction.js:149-159 | the test for a new target is exactly that: host, security, port or listed upgrade |
| Secrets.ClearedIffItsHomeChanges | dvhub/config-redaction.js:91-105 | a secret with one address is cleared if and only if it was kept, is there, and its new address is not the same service |
| Secrets.GeneralIsClearedIff | dvhub/config-redaction.js:106-182 | a general MQTT or Victron credential is cleared if and only if it was kept, is there, and goes to a service it never went to, be it its own or, where the weather or cross-check credential is empty or itself cleared, that one's |
| Secrets.UnchangedClearsNothing | dvhub/config-redaction.js:166-182 | an unchanged configuration loses no secret |
| ScheduleRules.MergeLoadedScheduleRules | dvhub/schedule-runtime.js:36-57 | the merge with its shrinking list of marks equals its specification |
| ScheduleRules.AutoDisableExpiredScheduleRules | dvhub/schedule-runtime.js:68-82 | each rule whose window has passed is switched off; changed means there was one |
| ScheduleReload.MergeKeepsPlans | dvhub/schedule-runtime.js:36-57 | a reload keeps the plan rules, in order, whatever the configuration holds |
| ScheduleReload.MergeKeepsMarks | dvhub/schedule-runtime.js:36-57 | per content a reload gives as many marks as there were, as far as there are rules |
| ScheduleReload.MergeShape | dvhub/schedule-runtime.js:36-57 | the configuration's rules stand where the first entry that is no plan rule stood, or at the end, between the plan rules in their order |
| ScheduleReload.MarkAt | dvhub/schedule-runtime.js:36-57 | marking changes nothing but marks, and gives them to the first rules with a content |
| ScheduleReload.PersistedRules | dvhub/schedule-runtime.js:59-66 | what is persisted is the rules made by hand, in order, without mark, days and one-time flag |
| ScheduleReload.ReloadKeepsMarks | dvhub/schedule-runtime.js:36-66 | reloading what was persisted keeps every mark |
| ScheduleReload.ReloadIsIdempotent | dvhub/schedule-runtime.js:36-66 | reloading twice is reloading once |
| ScheduleReload.ReloadSwitchesOffTheSame | dvhub/schedule-runtime.js:36-82 | at every minute the same multiset of rules is switched off with and without the reload |
| ScheduleReload.AutoDisableFinishes | dvhub/schedule-runtime.js:68-82 | after a check nothing is left to switch off, and only expired rules changed |
| ScheduleReload.OffIffOver | dvhub/schedule-runtime.js:68-82 | after a check a rule is off if and only if it was, or carried the mark outside its window; then only switch and mark have changed |
| ScheduleReload.MatchesOnTheClock | dvhub/schedule-runtime.js:11-18 | a rule matches if and only if it is not off and less time has passed since its start than lies between start and end, over midnight too |
| EegExtension.VollastViertelstunden | dvhub/eeg-extension.js:33-36 | half the negative quarter-hours, rounded up; none for none |
| EegExtension.ExtensionFromVollast | dvhub/eeg-extension.js:61-99 | for every integer budget the year-skipping loop meets the month-by-month specification, and the return after the loop is unreachable |
| EegExtension.YearsLater | dvhub/eeg-extension.js:66-72 | whole years can be taken off at once |
| EegExtension.LeastAndGreatest | dvhub/eeg-extension.js:61-99 | the legal extension is the least number of months whose sum reaches the budget, full months the greatest that fit |
| EegExtension.ExtensionIsUnique | dvhub/eeg-extension.js:61-99 | the result is determined by the budget |
| EegExtension.MoreQuartersNeverShorten | dvhub/eeg-extension.js:33-99 | more negative quarter-hours never shorten the extension |
| TariffPeriods.AcceptPeriods | dvhub/config-model.js:5716-5727 | sorting by start and end and the acceptance loop keep the specified periods |
| TariffPeriods.AcceptedAreDisjoint | dvhub/config-model.js:5716-5727 | accepted periods are ascending and share no day |
| TariffPeriods.LeftOutOnlyForOverlap | dvhub/config-model.js:5719-5726 | a period is left out only where it shares a day with an accepted one |
| TariffPeriods.OnlyPeriodOfTheDay | dvhub/config-model.js:6302-6309 | at most one accepted period applies on a day, so the first found is the only one |
| TariffPeriods.PricingCache.EffectivePricing | dvhub/config-model.js:6328-6343 | the cached tariff of a day is the base or the base merged with the matching period |
| TariffPeriods.PricingCache.Module3Windows | dvhub/config-model.js:6345-6353 | the cached windows are those of the tariff they are asked for |
| TariffPeriods.PricingCache.SlotPrice | dvhub/config-model.js:6355-6388 | for any sequence of lookups the price is that of the base tariff if no period applies, else of the base tariff merged with the first period that does, with that tariff's windows |
| TierTariff.SelectApplicableValueCtKwh | dvhub/bundesnetzagentur-applicable-values.js:190-222 | no value without tiers or size; otherwise the average times the size is the sum of the step rate over the size |
| TierTariff.GrowsWithTheRate | dvhub/bundesnetzagentur-applicable-values.js:203-217 | between two limits the sum grows by the step rate there: it is the rate's integral |
| TierTariff.AverageWithinRates | dvhub/bundesnetzagentur-applicable-values.js:190-222 | the average lies between the smallest and the largest rate |
| TierTariff.LargerPlantNoHigherAverage | dvhub/bundesnetzagentur-applicable-values.js:190-222 | for falling rates the average never rises with the size |
| TierTariff.LargerPlantNoLowerSum | dvhub/bundesnetzagentur-applicable-values.js:190-222 | for nonnegative rates size times average never falls with the size |
| BatteryStages.SanitizeBatteryStages | dvhub/battery-stages.js:71-110 | sorting and the loop keep the first stage of each date, strictly increasing |
| BatteryStages.ResolveBatteryCapacityWhForDate | dvhub/battery-stages.js:121-138 | the lookup loop returns the capacity of the stage nothing beats on that day, with the fallbacks |
| BatteryStages.SanitizingKeepsTheAnswer | dvhub/battery-stages.js:71-138 | sorting and dropping duplicates never change what a lookup finds: it is the best of the configured stages in any order |
| BatteryStages.ExpansionKeepsOtherDays | dvhub/battery-stages.js:71-138 | an expansion later than the oldest stage counts from its date until the next stage's; every other day keeps its capacity |
| WriteBuffer.TelemetryWriteBuffer.Flush | dvhub/runtime-performance.js:76-113 | a flush builds, queues, drops and writes as the row-numbering specification says |
| WriteBuffer.TelemetryWriteBuffer.WriteQueued | dvhub/runtime-performance.js:57-66 | the block write with its batch time and its first arming |
| WriteBuffer.FlushWritesIffDue | dvhub/runtime-performance.js:44-116 | exactly when a flush takes captured data, when it writes a block and which rows are in it |
| WriteBuffer.StepKeepsInvariant | dvhub/runtime-performance.js:44-116 | captures and flushes keep the order of blocks, the queue limit and the batch distance |
| WriteBuffer.RunsWriteInOrder | dvhub/runtime-performance.js:44-116 | in every run rows are written in build order, never twice, and unforced blocks come at least the batch time after the one before |
| WriteBuffer.ForcedFlushEmpties | dvhub/runtime-performance.js:76-113 | a forced flush leaves the queue empty |
| WriteBuffer.OnlyOverflowLoses | dvhub/runtime-performance.js:76-113 | one step loses only the oldest rows beyond the queue limit |
| WriteBuffer.OnlyOverflowLosesInRuns | dvhub/runtime-performance.js:44-116 | over whole runs: a row that left the queue but is in no block was dropped in some flush as one of the oldest beyond the queue limit |

## Left out

- Floating point: energies, powers, prices and capacities are `real`; the code's cutoff of 1e-9 is the parameter `eps`.
- EnergyFlows.ExactFit: speaks of cutoff 0; `FittedFlowsFit` has the statement for every cutoff.
- `battery_power_w` in anchored slots: an earlier mapped sample is kept there, so nothing is claimed about it.
- Mapping of VRM codes to canonical series, sample metadata and row building in the history import.
- Null and non-finite numbers where the code coerces them: anchors, budgets and capacities are numbers or absent.
- MilpChoice.PickMilpPlan: the plan is best in the objective; in cents only up to the rounding of the placements (`RoundingCanCost`).
- Network, database, retries, timers, full backfill and automatic start: the import log is a sequence of jobs and a fetch is a function of its window.
- The solver, the text of its input, constraint names and their order: a solver is any function that returns feasible vectors.
- Forming chains from stages (`buildAutomationRuleChain`): chains are given.
- MilpCap.OptimumBeatsSelections: says nothing where the cap forbids a selection (`CapIsRedundantIff` says when it does); the solver cannot find what the model forbids.
- MilpConstraints.BudgetKept: for budgets of at least one unit; `RowsKeepIffBinding` covers every budget.
- The queue's `sendMessage` throwing, and validation of commands and payloads.
- Overlapping limiter writes and configuration changes while a limit is active: each limiter write ends before the next command.
- Modbus allow-list, listening and fallback port, query log and request warnings.
- Normalising an address to a target and building host and port strings: `Secrets` takes both as functions, with a permitted TLS upgrade as a relation.
- Redaction and restoring of placeholders in the configuration.
- `autoDisableStopSocScheduleRules` and the parsing of times of day: `parse` is any function.
- Counting negative quarter-hours in price rows, legacy day counting and the displayed rounded month fraction in the EEG extension.
- TierTariff.SelectApplicableValueCtKwh: before rounding to two digits, for tiers in ascending order with limits of at least 0; negative limits are not modelled.
- Parsing of published tariff tables.
- Field-by-field validation of tariff periods and battery stages: both start from entries that are valid one by one, with dates as day numbers.
- What a period merges into a tariff, a tariff's special windows and the price formulas: `TariffPeriods` takes them as functions.
- TariffPeriods.PricingCache.SlotPrice: for a pricing object that is not modified while it is in use.
- The serial task runner of the runtime loop.
- Small closed-form functions (sun times, setpoint formulas, EOS mapping): each says no more than its body.
