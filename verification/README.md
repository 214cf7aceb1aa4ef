# Rubedo: a verified model of the incremental engine

Rubedo runs pipelines of steps over lanes of data and keeps every output at an address that
names the code and the content of its inputs. Later runs reuse what is live and compute the
rest. This project models that engine in Dafny and proves what its documentation promises
about it: that reuse never changes results, that the schedule never changes results, that a
crash costs recomputation and nothing else, and that garbage collection deletes bytes but no
live output.

`dafny verify dfyconfig.toml` checks the whole project.

## How it is laid out

The run model, from the bottom up:

- `Model`, `Meaning`: values, hashes, addresses, cells; what an address determines.
- `Ledger`, `History`, `Determined`: the durable state (liveness, lane files and buffers,
  anchors, objects), every event that changes it, and what holds after any history of events.
- `Planning`, `Clean`, `SingleCoords`: the plan phase of every step shape, and the run as a
  function of the user's code alone.
- `Topology`, `Segments`: ordering the steps and cutting the order into segments.
- `Script`, `Progress`, `Books`, `Scheduler`: the segment executor as a class whose
  completions arrive in any order, with its invariant and its counts.
- `Semantics`, `Adequacy`: what a step's cells are, said from its declaration and its parents'
  cells alone, without a plan; and that every run's cells are these.
- `Durability`: what a run has executed, and what of it is on disk.
- `Incremental`, `Reruns`, `Addresses`: the theorems about whole runs; a run, a crash and the run
  again; which step an address names, and what is reused when a step has changed.
- `Scopes`, `DryRun`, `PlanSound`, `PlannedRuns`, `PlanLimits`: partial runs; `plan()`, why its
  reuse is reuse, that the executor decides it so, and the inputs on which it does not.

The parts around it: `Lanes` (the lane store and its caches, refining `Ledger`), `Lease` (the
writer lease of a cloud store, as a protocol), `Compaction`, `Retention` (garbage collection,
producing legal events of `Ledger`), `Lineage` (tracing and invalidation), `Memo` (never-stored
steps under concurrency), `Join`, `Expand`, `RateLimiter` and `Preimage`.

User functions are a parameter `World` of total deterministic functions that return a value,
decline the lane, or fail. `History`, `DryRun`, `PlanSound` and `PlanLimits` do without
determinism.
Pools of workers are a nondeterministic choice of the next completion; the clock is a counter
of events, or a step of the protocol.

## What turned out not to hold as stated

- The cached index of a table survives the eviction of the table (`lane_store.py:370-371`), and
  the next lookup raises `KeyError` (`lane_store.py:155`). `Lanes.LaneStore.RowsByAddress` has the exact
  condition, `Lanes.EvictionBreaksLookup` an instance.
- A crash between a commit and its flush is harmless for deterministic steps
  (`Determined.StoreInvKept`). For others it can revive an invalidated row, or leave a live row
  whose object was swept (`Determined.CrashRevivesFlushedRow`, `Determined.CrashStrandsSweptObject`).
- A displaced cloud writer learns of it at its next renewal, not at the takeover
  (`Lease.DisplacedRunsLearnIt`, `Lease.TwoUnfencedWriters`).
- The check before every cloud write reads the one registry entry its home has for the pipeline
  (`cloud_lane_store.py:417-422`), which the latest run on that home has overwritten
  (`cloud_lane_store.py:431`). So a takeover on the same home lets the displaced run pass again
  (`Lease.TakeoverLiftsTheFence`); `Lease.LostRunsFailTheCheck` has the exact condition.
- A lane of an expand step that yields the very value it is fed is not replayed: the child's lane row
  is at the anchor's address (`Expand.YieldingTheInputShadows` says exactly when), the lookup serves it
  before any anchor (`lane_store.py:827-841`), and planning takes its value for the list of children
  (`planning.py:1097-1111`). For 0, false, null or an empty value nothing is planned, so the child is
  missing from every later run; for another number or true planning raises
  (`Expand.LaneRowAtAnchor`, `Expand.EchoedLane`). `Expand.ReplayedRightWhen` has the exact condition
  for a right replay.
- A run need not reach every step of which `plan()` announced reuse: planning can raise on the
  output of a lane the dry run had pending (`PlanLimits.AnnouncedButNeverPlanned`). Soundness holds
  for every step the run gets to plan (`PlanSound.PlannedReuseIsReuse`).
- A scope anchored at a step with one broadcast lane (a map of an aggregate, say) can be carried into
  maps whose lanes come from elsewhere, and `plan()` then announces reuse the run does not decide
  (`PlanLimits.SingleAnchorLosesLanes`). Where every map that carries the cohort is broadcast, and for
  every anchor of many lanes, the placeholders are enough (`DryRun.ScopedNoExtras`).
- Where an expand mints a lane called like one it is fed, `plan()` can announce an aggregate over lanes
  the run adds to (`PlanLimits.RemintedNamesLoseLanes`).
- Inside a deep segment, an expand fed by other lanes that is replayed advances none of its
  consumers (`Expand.ReplayedLanesAreNotAdvanced`), so their lanes go unplanned there; the schedule
  theorems keep such steps in segments of their own, as the docstring of `_deep_eligible` has it.
- Before a flush, an anchor on disk overrides a newer one in the buffer
  (`Lanes.FlushChangesAnchor`).
- `notes/invariants.md:215-219` says a pruned lane whose input reappears reuses its old row for free. The
  code demotes the address (`gc.py:428-438`), so the lane is recomputed and a new row is written
  (`History.PrunedLaneIsRecomputed`). The model follows the code.

## Model

| member | source | states |
|---|---|---|
| Meaning.ChildHashes | src/rubedo/execution.py:646-680 | the lanes of a fan-out: exactly one hash per distinct payload, no hash twice |
| Meaning.CellReadsItsIdentity | src/rubedo/planning.py:98-116 | the value read back for a parent, through the lane store, the object store or a fused step, is the value its identity hash stands for |
| Meaning.ReadMatches | src/rubedo/execution.py:488-630 | executing on values read back sees exactly the arguments the output address was computed from, for every step shape |
| Ledger.Last | src/rubedo/lane_store.py:773-826 | the row a lookup serves exists exactly when some row has the address, and is one of them |
| Ledger.FlushKeepsRows | src/rubedo/lane_store.py:897-939 | a flush changes no lane lookup of any table |
| History.EveryRowWasCommitted | src/rubedo/ledger.py:492-507 | after every legal history, crashes included, each stored row was written by the commit at its timestamp |
| History.ReuseGate | src/rubedo/lane_store.py:743-771 | in every reachable state a lane served for reuse is at an address some commit fulfilled and nothing has flipped since, and its row was committed by an execution at that address |
| History.AnchorGate | src/rubedo/lane_store.py:828-841 | the same for a replay: its anchor is at an address fulfilled and not flipped since, written by an anchor commit at that address with those very children |
| History.EveryAnchorWasCommitted | src/rubedo/ledger.py:419-450 | after every history each stored anchor is the one of the anchor commit at its timestamp |
| History.FreshAfterFlip | src/rubedo/invalidation.py:87-105 | with no row lost since and no anchor committed there, any reuse after a flip serves a lane row committed after the flip |
| History.AnchorFreshAfterFlip | src/rubedo/lane_store.py:828-841 | with no anchor lost since, the newest anchor after a flip was committed after it; a replay is given one that is exactly unless an older one is left on disk, and always once the step is flushed |
| History.LatestUnchanged | src/rubedo/lane_store.py:773-843 | only a commit at the address itself, or a loss, changes what a lookup of it returns |
| History.LatestAfterCommit | src/rubedo/ledger.py:475-507 | a commit makes the lookup serve the new row, or the old one when the same output was already live |
| History.PrunedLaneIsRecomputed | src/rubedo/gc.py:428-438 | a pruned lane is no reuse hit, and committing it again writes a new row even for the same bytes |
| History.SweepNeverStrands | src/rubedo/gc.py:300-318 | over any crash-free history of commits, flips and sweeps, a live address whose latest row refers to an object still has it |
| Determined.StoreInvKept | src/rubedo/ledger.py:357-519 | every stored row holds the output its address determines, every anchor the children its generator yields, and live references stay readable, through crashes, lost files, invalidations and collections in any order |
| Determined.ReuseIsExecution | src/rubedo/planning.py:1077-1211 | after any such history a reuse hit, lane or anchor, is what executing at the address would commit, and can be read |
| Determined.CrashRevivesFlushedRow | src/rubedo/ledger.py:509-519 | with a step that is not deterministic, invalidating, recomputing and crashing before the flush makes reuse serve the old flushed row again |
| Determined.CrashStrandsSweptObject | src/rubedo/gc.py:445-456 | and if a collection swept the old object in between, the live row's object is gone: exactly the case in which the recomputation returned something else |
| Clean.CleanIsRun | src/rubedo/scheduler.py:140-166 | the store-free run satisfies every step's own plan equation |
| Clean.PrefixAgrees | src/rubedo/planning.py:787-822 | what any prefix of the steps has resolved is what the whole run resolves |
| Clean.SinglesUniform | src/rubedo/planning.py:940-948 | a broadcast dependency never has two different cells, so taking the first one met cannot matter |
| Clean.CleanNeverPends | src/rubedo/runner.py:322-328 | "pending" exists in dry runs only |
| SingleCoords.SinglesHaveOneCoordinate | src/rubedo/planning.py:190-216 | each step named singleton has one coordinate, when no all-singleton map mixes a root lane with a collective one |
| Topology.TopologicalSort | src/rubedo/planning.py:153-187 | succeeds exactly when names are unique, dependencies known and the graph acyclic; the result is a permutation with every step after its dependencies; reports duplicates exactly, and a really unknown dependency |
| Topology.Sorter.Visit | src/rubedo/planning.py:171-181 | a visited step is placed after its dependencies, marks are restored, and failure means there is a cycle |
| Topology.OrderedIsAcyclic | src/rubedo/planning.py:153-187 | an order with dependencies first exists only for acyclic graphs |
| Topology.SortedIsOrdered | src/rubedo/runner.py:259-263 | a sorted pipeline is what the run model takes |
| Topology.SingletonSteps | src/rubedo/planning.py:209-216 | the loop computes the broadcast steps the planner is specified with |
| Segments.Partition | src/rubedo/scheduler.py:113-137 | the segments concatenate to the order; broad has one step each; deep has maximal runs of lane-wise steps and single barriers |
| Segments.PartitionUnique | src/rubedo/scheduler.py:113-137 | these conditions determine the partition |
| Segments.DeepSegmentIsForest | src/rubedo/scheduler.py:101-137 | inside a multi-step segment every step has at most one parent, and it comes earlier |
| Script.PlanOk | src/rubedo/planning.py:787-1211 | every executable target of a plan carries readable parents and the address its arguments stand for |
| Script.ScriptHolds | src/rubedo/scheduler.py:273-340 | in the finished run, every lane of a segment's inner steps has exactly the plan a per-lane advance gives it |
| Script.RootsAreApart | src/rubedo/scheduler.py:88-98 | root sources always meet the side conditions on expand steps |
| Progress.DispatchKeeps | src/rubedo/scheduler.py:312-314 | dispatching a job keeps the scheduler's invariant |
| Progress.SettleKeeps | src/rubedo/scheduler.py:352-376 | settling any open slot, in any order, keeps the invariant that every cell is the final one and every slot is known, in flight or still owed |
| Progress.SegmentDone | src/rubedo/scheduler.py:348-378 | when nothing is in flight the segment's cells are complete |
| Books.CountCell | src/rubedo/ledger.py:143-146 | counting one outcome keeps the per-step counts equal to the cardinalities of the cells they count |
| Books.CreatedIsNew | src/rubedo/ledger.py:475-490 | a commit counts as created exactly when its address was no reuse hit at the start of the run and no earlier cell of this run has it |
| Scheduler.Run.constructor | src/rubedo/runner.py:465-560 | a run starts with no cells, zero counts and a sound store |
| Scheduler.Run.CommitLane | src/rubedo/ledger.py:357-596 | a commit sets exactly one cell, to the outcome its address determines, extends the legal history and keeps the counts right |
| Scheduler.Run.Reuse | src/rubedo/ledger.py:199-290 | a reuse hit leaves the same cell an execution would |
| Scheduler.Run.CommitChildren | src/rubedo/execution.py:700-719 | the children of an executed fan-out, in order, leave exactly the cells of the fan-out |
| Scheduler.Run.ReuseChildren | src/rubedo/planning.py:1117-1163 | so do replayed children |
| Scheduler.Run.Record | src/rubedo/ledger.py:199-302 | acting on one planned target settles its slot with its final cells, or puts it in flight, and notes the one decision the gate gives at that moment |
| Scheduler.Run.Complete | src/rubedo/scheduler.py:352-376 | committing one completion settles its slot with its final cells, whichever job it is |
| Scheduler.Run.Advance | src/rubedo/scheduler.py:337-340 | a resolved lane plans its consumers in the segment, each exactly once |
| Scheduler.Run.PlanLane | src/rubedo/scheduler.py:273-308 | planning one lane of a step gives the target the whole-step plan gives it |
| Scheduler.Run.RunSegment | src/rubedo/scheduler.py:140-390 | for every order of completions the segment ends with exactly the cells of the clean run; its decisions are one for each slot of its steps, none twice and no others, on the clean run's targets; what was not reused has been executed, once; its steps' buffers are empty; it raises exactly when the clean run does, before anything is planned |
| Scheduler.Run.RunAll | src/rubedo/runner.py:590-660 | for both schedules and every order of completions: it succeeds exactly when the clean run does, and has the clean run's cells, and the counts they determine, of every step before the one that raises; each slot of these steps is planned exactly once; what the gate would have reused at the start is reused, and what is not reused is executed, once; the cells are what the steps' declarations mean, and at the step that raises the cells before it call for that; every output and every fan-out is on disk, to be reused after a crash; the store continues the legal history |
| Scheduler.Run.FlushStep | src/rubedo/lane_store.py:897-969 | a flush empties the step's buffers, fills no other, and leaves every lookup as it was |
| Scheduler.Run.FlushSegment | src/rubedo/scheduler.py:381-385 | a finished segment leaves nothing of its steps, or of any earlier step, in a buffer |
| Scheduler.DeepNeverRaises | src/rubedo/planning.py:972-977 | a segment of lane-wise steps never raises in planning |
| Scheduler.ExecuteWork | src/rubedo/execution.py:746-790 | executing a target on what the store serves yields the outcome its address determines |
| Scheduler.ExecuteMint | src/rubedo/execution.py:632-719 | executing a generator yields the children its anchor address determines |
| Scheduler.CountsAreDetermined | src/rubedo/ledger.py:143-146 | cells and starting store determine a step's counts |
| Scheduler.RootSourcesOnly | src/rubedo/scheduler.py:101-110 | pipelines whose expands are all root sources meet the theorems' side conditions, from any store |
| Adequacy.MapAdequate | src/rubedo/planning.py:922-1074 | a map has a cell at exactly the lanes its parents call for: blocked exactly if the lane sees a blocked or failed parent cell, else skipped exactly if it sees a filtered one, else what the function returns for the parents' values, kept under the step's own name, version, parameters and source, or a fused cell of them |
| Adequacy.ExpandAdequate | src/rubedo/planning.py:922-1163 | the same for expands: a lane that does not fan out is blocked, skipped or failed, one that does gives way to one lane per payload |
| Adequacy.AggregateAdequate | src/rubedo/planning.py:832-905 | an aggregate is one blocked cell exactly if some parent cell is bad and it blocks or nothing survives; else its one call is given every lane that survives, or each group's call the lanes of the group |
| Adequacy.GroupIsCollected | src/rubedo/planning.py:345-373 | a group's call is given exactly the surviving lanes whose field has its value among its texts |
| Adequacy.JoinAdequate | src/rubedo/planning.py:600-725 | a join is one blocked cell exactly if some parent cell is bad and it blocks or no tuple is left; else there is one call for each joined tuple, given the sides' values |
| Adequacy.TuplesAreJoined | src/rubedo/planning.py:666-697 | the tuples are the choices of one surviving lane per side that share a value, a side without it padded in a union |
| Adequacy.RunMeans | src/rubedo/planning.py:787-905 | so in every finished run each step's cells are what its declaration and its parents' cells mean |
| Adequacy.RaisesWhen | src/rubedo/planning.py:345-373 | planning raises at a step exactly if the cells before it show a map without a parent cell at some lane, a surviving lane without a group or join value where it is needed, or a lane named like the sentinel |
| Incremental.RunAfter | notes/invariants.md:11-21 | incremental equals from scratch: whatever history of whole, partial, forced or interrupted runs, crashes, lost files, invalidations and collections came before, a run's cells are the clean run's and mean what their steps declare, each planned exactly once and executed exactly if not reused, all of it survives a crash, and its own commits continue that history |
| Incremental.BothSchedules | src/rubedo/scheduler.py:157-166 | broad and deep end with the same verdict and the same cells, each plans every cell exactly once, and they count the same for every step whose lanes do not share children; if planning raises, both stop at the same step and agree on all steps before it |
| Incremental.StopsAlike | src/rubedo/scheduler.py:157-166 | the step at which planning raises is the same for every run that gets that far |
| Incremental.HistoryContinues | src/rubedo/ledger.py:357-519 | histories of successive runs compose |
| Incremental.CutShort | src/rubedo/runner.py:640-679 | a run interrupted anywhere, between the two files of a flush included, with or without a crash, leaves a history the theorem covers |
| Durability.CrashKeepsFlushed | src/rubedo/lane_store.py:897-939 | what a flushed step's lookups serve they serve after a crash |
| Durability.LeavesDurable | src/rubedo/runner.py:640 | with its buffers empty, everything a run computed is served after a crash: each output, and each fan-out from its anchor, with no lane row in the way |
| Reruns.RunTwice | notes/invariants.md:11-21 | a run, a crash, and the run again under either schedule, unforced: the second has the first's cells, decides reuse for every slot that left an output or children, and calls only the functions that failed |
| Reruns.OpenAfterCrash | src/rubedo/lane_store.py:743-771 | after a run and a crash the gate is open for everything the run has left |
| Reruns.AdmissibleAgain | src/rubedo/runner.py:640-679 | what a run leaves in the store is nowhere in the way of running it again |
| Reruns.OnlyFailuresRun | src/rubedo/scheduler.py:312-314 | what a run executes in which everything else is reused are its failed lanes |
| Reruns.PlanAfterRun | src/rubedo/runner.py:281-335 | plan() after a run none of whose lanes failed knows all the run's cells and announces reuse everywhere |
| Addresses.CellsNameTheirStep | src/rubedo/planning.py:1059-1067 | every output of a run is at an address that names its step's own name, version, parameters and source |
| Addresses.DecisionsNameTheirStep | src/rubedo/planning.py:1059-1126 | so is every address looked up, and every anchor |
| Addresses.OneAddressOneStep | src/rubedo/hashing.py:34-57 | two runs never look up one address for steps that differ in name, version, parameters or source, whatever their shapes |
| Addresses.OtherCodeIsNotReused | src/rubedo/hashing.py:51-54 | after a history in which a step's name was run with another version, other parameters or other source only, a slot is reused only at an address the run itself committed before |
| Addresses.MapNames | src/rubedo/planning.py:1051-1067 | a map's address names the hash of each parent cell its lane sees |
| Addresses.AggregateNames | src/rubedo/planning.py:893-905 | an aggregate's address names the hash of each lane it is given |
| Addresses.JoinNames | src/rubedo/planning.py:691-703 | a join's address names the hash of each side's lane |
| Addresses.FusedParentsAgree | src/rubedo/planning.py:98-116 | the hash of a never-stored parent names its code and its own parents |
| Addresses.ReusedWhen | src/rubedo/planning.py:1077-1211 | a slot is reused exactly if nothing is forced and its address is live with a row, or an anchor is served and each child it lists is live with a row |
| Addresses.TallyMeans | src/rubedo/ledger.py:143-146 | the counts of a run, spelled out over its cells: created are the distinct addresses not live with a row when it started, reused all other outputs |
| DryRun.KnownLane | src/rubedo/planning.py:957-1074 | a lane all of whose parents the dry run knows is planned identically by the run |
| DryRun.FilteredSeen | src/rubedo/planning.py:940-1000 | a parent that a lane of the dry run sees filtered, a broadcast one among placeholders included, has no output for that lane in the run |
| DryRun.MapStep | src/rubedo/planning.py:922-1074 | planning a map is monotone: known outputs are right, filtered lanes stay without output, and outputs without a dry lane replace a pending one |
| DryRun.ScopedNoExtras | src/rubedo/runner.py:296-319 | at every step that carries the cohort of a partial plan, broadcast or of many lanes, the dry run has a lane for every output of the run: the anchor's placeholders see to it |
| DryRun.ExpandStep | src/rubedo/planning.py:1081-1163 | the same for expands, replayed or executed |
| DryRun.CollectiveStep | src/rubedo/planning.py:832-905 | the same for aggregates and joins; with nothing pending they are planned identically |
| PlanSound.SiblingsKeepTheGate | src/rubedo/scheduler.py:337-376 | whatever a run commits and flushes for other steps, and commits for lanes of the same step whose own lookups missed, every row and every replay a lookup of this step would have served it still serves |
| PlanSound.NotedKept | src/rubedo/runner.py:296-319 | what the dry run notes for a broadcast step is at its one coordinate, or else the step carries the cohort and the dry run knows no output of it |
| PlanSound.RanAtOnce | src/rubedo/scheduler.py:273-308 | so a step whose lanes were looked up at moments of their own might as well have been planned whole against the store the dry run saw |
| PlanSound.DryRunBelowRun | src/rubedo/runner.py:281-328 | after every step that a run got through, whole or partial, what the dry run knows is what the run found |
| PlanSound.PlannedReuseIsReuse | src/rubedo/runner.py:281-335 | every lane plan() marks reuse at a step the run gets to plan is decided reuse, at the same address, whichever moment it is looked up at and whatever the executed lanes return, as long as none of them fails; for whole and partial plans |
| PlanSound.DeterministicRunStep | src/rubedo/scheduler.py:273-376 | the steps of a deterministic run over any sound store are among the runs that theorem speaks about |
| PlannedRuns.RunAsPlanned | src/rubedo/runner.py:228-335 | plan() followed by the executor, under either schedule and any order of completions: if no lane fails, each announced reuse of a step the run reaches is decided exactly once, at that address, as reuse |
| PlanLimits.AggregateRaises | src/rubedo/planning.py:345-373 | a run raises at an aggregate the dry run could plan exactly if a lane has come up without a group, and only where the dry run had a parent pending |
| PlanLimits.AnnouncedButNeverPlanned | src/rubedo/runner.py:281-335 | the input: a later step announced as reuse that the run never plans, because an aggregate in between raises |
| PlanLimits.SingleAnchorLosesLanes | src/rubedo/scope.py:288-315 | the input a scope goes wrong on whose broadcast anchor is carried into a map of many lanes: a whole pipeline, its dry run and a run of it; the dry run drops a lane the run mints, and announces an aggregate at an address the run does not plan |
| PlanLimits.RemintedNamesLoseLanes | src/rubedo/runner.py:281-335 | the input the dry run goes wrong on where expands mint lanes called like the ones they are fed: an aggregate is announced over no lanes and run over a minted one |
| PlanLimits.DryRaisesWhen | src/rubedo/planning.py:1087-1111 | plan() gets past a step exactly if it can be planned over what is known so far and, unless the step is forced, no live lane row whose value is true or a number other than zero is where a fan-out has its anchor |
| Scopes.CarrierStepsOf | src/rubedo/scope.py:288-315 | the walk from the anchor finds exactly the steps that carry the cohort |
| Scopes.CarrierSteps | src/rubedo/scope.py:288-315 | which are the anchor and every map fed by such a step |
| Scopes.CarriersAreMany | src/rubedo/scope.py:288-315 | none of them is broadcast if the anchor is not |
| Lanes.BuildIndex | src/rubedo/lane_store.py:160-168 | the index maps exactly the addresses that occur to their last rows |
| Lanes.LaneStore.ReadDiskTable | src/rubedo/lane_store.py:345-372 | the table cache returns what the file holds; the exact new cache, with eviction; it keeps every index paired with its table while there is room |
| Lanes.LaneStore.GetAddressIndex | src/rubedo/lane_store.py:147-172 | an index of the table on disk, or the KeyError, which is raised exactly when the index is cached and its table is not |
| Lanes.LaneStore.RowsByAddress | src/rubedo/lane_store.py:773-843 | for every address asked the last row of file then buffer, and failing that the anchor, whatever the caches hold; raises exactly in that case |
| Lanes.LaneStore.BatchLookup | src/rubedo/lane_store.py:743-771 | finds exactly the live addresses with a row or an anchor, and serves what the ledger's reuse gate serves; raises exactly if something asked is live and the cached index of the table has outlived it |
| Lanes.LaneStore.FlushStep | src/rubedo/lane_store.py:897-969 | empties the step's buffers and leaves the lane history of every table as it was |
| Lanes.LaneStore.MarkFulfilled | src/rubedo/lane_store.py:730-735 | a loaded live set stays the database's after a commit |
| Lanes.LaneStore.MarkUnfulfilled | src/rubedo/lane_store.py:737-741 | and after an invalidation or demotion |
| Lanes.LaneStore.GetFulfilled | src/rubedo/lane_store.py:714-728 | the cached live set is the database's |
| Lanes.LaneStore.ClearReadCaches | src/rubedo/lane_store.py:188-195 | afterwards every cache agrees with whatever the files and the database hold |
| Lanes.AnswersAreHits | src/rubedo/lane_store.py:743-843 | answers over live addresses are the hits of the ledger model |
| Lanes.EvictionBreaksLookup | src/rubedo/lane_store.py:370-371 | a concrete run into the KeyError: with room for one table, reading another step's anchors between two lookups |
| Lanes.FlushChangesAnchor | src/rubedo/lane_store.py:828-841 | a flush changes the children a replay is given exactly when the address has an anchor on disk and another one, with other children, last in the buffer |
| Lanes.CacheKeepsTheMostRecent | src/rubedo/lane_store.py:345-372 | a cache through which everything is read keeps exactly the keys asked for last, as many as fit, in the order of their last uses |
| Lease.Reachable | src/rubedo/cloud_lane_store.py:392-466 | in every interleaving each run only ever writes leases naming itself, and takes over only what it found expired |
| Lease.AtMostOneHolder | src/rubedo/cloud_lane_store.py:392-415 | at most one run holds the stored object's tag |
| Lease.OnlyExpiredLeasesAreTaken | src/rubedo/cloud_lane_store.py:400-415 | a stored lease changes hands only by a takeover at or after its expiry on the taker's clock; every other change is its owner's |
| Lease.TimelyHolderIsNeverDisplaced | src/rubedo/cloud_lane_store.py:433-450 | a holder is never displaced and never loses its lease as long as, at every moment and on the clock of every other run, less than a lease duration has passed since it prepared a lease (its first, a takeover's or a renewal) that it has delivered in the meantime |
| Lease.DisplacedRunsLearnIt | src/rubedo/cloud_lane_store.py:433-450 | a displaced run never holds the lease again, and knows it exactly from its first renewal attempt on |
| Lease.EntryIsOwn | src/rubedo/cloud_lane_store.py:431-466 | the registry entry the check reads is a working run's own exactly until another run of the same home registers |
| Lease.LostRunsFailTheCheck | src/rubedo/cloud_lane_store.py:417-422 | a run that lost its lease fails the check exactly as long as no other run of its home has registered since, and beyond that only while the run that registered last has lost its own |
| Lease.LostRunsWriteNothing | src/rubedo/cloud_lane_store.py:417-422 | until another run of its home registers, such a run commits, flushes and compacts nothing but the one write it had cleared before |
| Lease.AloneOnItsHome | src/rubedo/cloud_lane_store.py:417-431 | with a home to itself, a run passes the check exactly as long as it has not lost its lease |
| Lease.TakeoverLiftsTheFence | src/rubedo/cloud_lane_store.py:417-466 | the input: on one home, a run that failed the check passes it again and commits once its successor has registered, and flushes after the successor has ended |
| Lease.ReleaseDeletesOwnLease | src/rubedo/cloud_lane_store.py:455-463 | only the owner's release ever deletes a stored lease |
| Lease.TwoUnfencedWriters | src/rubedo/ledger.py:361-363 | a reachable state in which a displaced run and its successor both pass the check, on one home or on two |
| Lease.LandedLeases | src/rubedo/cloud_lane_store.py:383-450 | a lease that lands, by creating the object, taking it over or renewing it, is stored, and held, with the expiry the run's clock gave when it was prepared, whatever happened in between; only if the reply is lost does the run take its lease for lost |
| Lease.DeliveredIsFloor | src/rubedo/cloud_lane_store.py:433-450 | once a run has delivered a lease it holds or prepares none that expires earlier, unless it has lost it |
| Lease.DeadRunsWriteNothing | src/rubedo/cloud_lane_store.py:424-466 | when the process of a home dies its runs write nothing more, and its registry has no entry until a run registers there again |
| Compaction.Dedupe | src/rubedo/cloud_lane_store.py:218-230 | the loop keeps the newest version of every row id, sorted stably by time |
| Compaction.DedupedMeans | src/rubedo/cloud_lane_store.py:218-230 | the result has every row id once, with its newest version, oldest first |
| Compaction.DedupedIdempotent | src/rubedo/cloud_lane_store.py:218-230 | deduplicating twice is deduplicating once, row for row |
| Compaction.SegmentOrderDoesNotMatter | src/rubedo/cloud_lane_store.py:192-206 | listings of the same rows give the same rows and the same newest row at every address with distinct timestamps |
| Compaction.CloudTable.Compact | src/rubedo/cloud_lane_store.py:333-362 | wherever compaction stops, the step's rows are the ones it had; it is stopped by a lost lease or by a base that exists exactly if either is so, before the first write; it finishes exactly if it is allowed all its writes, leaving one base segment, and otherwise has made exactly the writes it was allowed |
| Compaction.MidwayKeepsRows | src/rubedo/cloud_lane_store.py:347-355 | after the base write and any prefix of the deletes every row is still there and none is new |
| Compaction.MidwayReadsAlike | src/rubedo/cloud_lane_store.py:192-230 | and a reader of the whole step gets the same rows, with the same row served at every address with distinct timestamps |
| Compaction.RacingReaderSeesTrueRows | src/rubedo/cloud_lane_store.py:192-206 | a reader racing the deletes sees a subset of the true rows, and all of them if it listed after the base write or fetched before the first delete |
| Compaction.LateReaderMayMissRows | src/rubedo/cloud_lane_store.py:192-197 | a reader that listed before the base write and fetched after the deletes sees nothing |
| Lineage.Bfs | src/rubedo/trace.py:93-124 | ends on any edge table; reaches exactly the ends of walks from the seeds, along edges from parent to child or back, that are no seeds, each with the length of a shortest one; reports every edge row leaving them exactly as often as stored |
| Lineage.LayerStep | src/rubedo/trace.py:109-123 | each round adds exactly the next distance layer |
| Lineage.Liveness.Invalidate | src/rubedo/invalidation.py:68-118 | flips exactly the live members of the selection and the live ends of chains of edges, parent to child, from its live members; the counts equal the flips whatever repeats |
| Lineage.Liveness.FlipAll | src/rubedo/invalidation.py:107-117 | flipping a list with repetitions flips and counts each live address once |
| Lineage.DoomedParts | src/rubedo/invalidation.py:72-117 | selection and descendants, flipped one after the other, cover the doomed addresses without overlap |
| Lineage.ChildrenAreDoomed | src/rubedo/invalidation.py:72-103 | a live child of a live selected address is flipped, and so is every live child of whatever derives from one |
| Lineage.WithinMeans | src/rubedo/trace.py:109-123 | what the rounds reach at depth n are the ends of the walks of n edges |
| Retention.RetentionDemote | src/rubedo/gc.py:243-263 | an address is demoted exactly if its pipeline has a policy n, it is live with a row, some run refers to it, every terminal execution of the pipeline that refers to it has at least n later ones by (started, id), and the terminal full run with the greatest (started, id) does not refer to it |
| Retention.RetentionRespectsProtection | src/rubedo/gc.py:243-263 | no retention policy demotes an anchor or anything a pipeline's latest full run refers to |
| Retention.CollectRefs | src/rubedo/gc.py:266-297 | for every object, its references in row order, each with its address's liveness |
| Retention.ReclaimMonotone | src/rubedo/gc.py:300-318 | demoting more never reclaims fewer objects or bytes, however objects are shared |
| Retention.ReclaimableObjects | src/rubedo/gc.py:300-318 | exactly the objects on disk with no reference left live, and their bytes |
| Retention.LastReferences | src/rubedo/gc.py:351-362 | the latest start among the runs referring to each address |
| Retention.Sorted | src/rubedo/gc.py:369-378 | the candidates, each once, oldest last reference first, ties by address |
| Retention.BudgetDemote | src/rubedo/gc.py:321-390 | gives up unprotected live addresses, oldest last reference first; on exit the store fits or every candidate is given up; giving up any fewer in that order would not have fitted |
| Retention.FewerNeverFit | src/rubedo/gc.py:380-390 | nor would any part of a set that does not fit, however objects are shared |
| Retention.FewerIsShorter | src/rubedo/gc.py:369-390 | any set given up oldest first is a prefix of the sorted candidates |
| Retention.BudgetRespectsProtection | src/rubedo/gc.py:337-378 | the budget demotes no anchor and nothing a pipeline's latest full run refers to |
| Retention.PlannedSweepIsLegal | src/rubedo/gc.py:300-318 | what a plan sweeps is a legal event of the store's histories, so it strands no live output |
| Retention.FewerDeletesAreLegal | src/rubedo/gc.py:445-456 | a collection that dies after any number of its deletes is a legal event, too |
| Retention.Home.Perform | src/rubedo/gc.py:428-456 | the flips are committed first, then the objects go one by one; wherever it stops, the store is that of a collection of the objects deleted so far |
| Retention.Home.Plan | src/rubedo/gc.py:398-411 | what the policies demote, by start times and run ids; with a budget, further addresses oldest last reference first, as few as bring the remaining objects within it, or all it may give up; none protected; the objects reclaimed are exactly the ones thereby free |
| Retention.Home.Gc | src/rubedo/gc.py:464-526 | refuses while a run is in flight or the store may not delete; demotes and reclaims what a plan is to; writes nothing in a dry run; otherwise applies that as a legal collection, wherever the process dies among the deletes, and protected addresses stay live |
| Retention.Home.AutoPrune | src/rubedo/gc.py:529-557 | the same for the end-of-run hook: what one pipeline's policy gives up, no budget, and objects only where the store may delete |
| Retention.ExpiredMeans | src/rubedo/gc.py:243-263 | the same for one pipeline's policy |
| Retention.CandidatesMean | src/rubedo/gc.py:337-378 | the budget may give up exactly the live addresses, not demoted yet, that some run refers to, but neither the execution with the greatest (started, id) of a pipeline nor the full run with the greatest |
| Retention.ReclaimableMeans | src/rubedo/gc.py:300-318 | an object is reclaimed exactly if it is on disk, some row refers to it, and every row that does is at an address not live or demoted |
| Retention.FitsMeans | src/rubedo/gc.py:331-390 | the store counts as within budget exactly if the objects that would remain weigh no more than it |
| Memo.Reachable | src/rubedo/execution.py:119-163 | the invariant of the memo's table and the threads' stacks in every interleaving |
| Memo.ProducedAtMostOnce | src/rubedo/execution.py:130-144 | each key's producer is started at most once |
| Memo.OneResultForAll | src/rubedo/execution.py:135-163 | every call for a key returns the one value or raises the one exception |
| Memo.AnswersAreProduced | src/rubedo/execution.py:119-163 | which is the value its producer finished with, after it was given the values of all its parents, or an exception, its own or one that a parent's call returned |
| Memo.NoDeadlock | src/rubedo/execution.py:283-314 | with producers nested along an acyclic parent graph, whenever a thread is inside a call some such thread can move |
| Join.BuildBuckets | src/rubedo/planning.py:652-664 | the buckets of a side: its lanes by join value, in order |
| Join.PlanTuples | src/rubedo/planning.py:652-697 | the plan's loops emit the products of the buckets over the key universe; they raise exactly when a lane has no value |
| Join.IntersectIsTheJoin | src/rubedo/planning.py:666-697 | with scalar fields intersect emits each tuple of lanes agreeing on a value exactly once and nothing else; their number is the sum of the products of the bucket sizes |
| Join.UnionExtendsTheJoin | src/rubedo/planning.py:666-697 | union contains the intersect tuples, adds only padded ones, emits each once and covers every surviving lane |
| Join.TupleInputsDiffer | src/rubedo/planning.py:241-261 | tuples share a cache identity exactly when they are padded alike and agree on every lane's content; the mode does not enter |
| Join.TuplesAgree | src/rubedo/planning.py:682-690 | for each join value these are, coordinate for coordinate, the tuples the run model plans |
| Join.UniverseAgrees | src/rubedo/planning.py:682-688 | and the join values the loops go through are those of the run model, in both modes |
| Join.JoinPlanIsEmitted | src/rubedo/planning.py:682-725 | so a join is planned exactly at the coordinates of the emitted tuples, each at the address of its own tuple |
| Join.InputsAgree | src/rubedo/planning.py:691-703 | at the same addresses |
| Join.ProductMembers | src/rubedo/planning.py:687 | the product holds exactly the tuples with each entry in its list |
| Expand.FanOutByContent | src/rubedo/execution.py:646-680 | one child per distinct payload, in the order of first yield |
| Expand.FanOutByKey | src/rubedo/execution.py:655-671 | with a key field: one child per payload, named by its key; fails exactly on a missing or repeated key |
| Planning.AnchorIsListed | src/rubedo/planning.py:1087-1111 | where no lane row is at the anchor's address, the lookup raises nothing, and replays the anchor's own children exactly if each of them is a hit |
| Expand.PlanLane | src/rubedo/planning.py:1087-1163 | replays every child listed at the anchor's address, in order, or plans a single execution, or raises; never a part |
| Expand.LaneRowAtAnchor | src/rubedo/planning.py:1097-1111 | with a lane row at the anchor's address, its value decides: nothing is planned exactly for the values Python takes for false, planning raises exactly for the other numbers and true, and the lane is executed exactly if some item or key of the rest spells no live child |
| Expand.ReplayAfterExecution | src/rubedo/planning.py:1081-1163 | once a fan-out is committed and flushed, planning replays exactly its children at the addresses and lanes the execution minted, each serving its payload, unless a child has the anchor's own address: then that child's payload is taken for the list of children |
| Expand.ReplayedRightWhen | src/rubedo/planning.py:1087-1163 | the fan-out is replayed right exactly if no child has the anchor's address, or that child's payload lists the very hashes of the fan-out |
| Expand.ReplayedRightByContent | src/rubedo/planning.py:1087-1163 | so for lanes named by content, and no value spelling its own hash, exactly if no child has the anchor's address |
| Expand.EchoedLane | src/rubedo/planning.py:1097-1111 | the input: a lane that yields just the value it is fed, run in an empty home; fed 0, the next plan has nothing for it, neither execution nor replay; fed 5, it raises |
| Expand.FlippedChildForcesExecution | src/rubedo/planning.py:1127-1160 | flipping the anchor or any child sends the lane back to execution |
| Expand.ReplayedLanesAreNotAdvanced | src/rubedo/scheduler.py:323-335 | planned for one lane, a replayed fan-out advances no consumer, exactly unless a child is called like that lane |
| Expand.YieldingTheInputShadows | src/rubedo/execution.py:669-694 | a child has the anchor's address exactly when the lane yields the very value it is fed, and that value is neither spilled nor a string; never for a root source |
| RateLimiter.Limiter.Acquire | src/rubedo/execution.py:87-94 | reserves the earliest slot that keeps the spacing and is not before the caller's arrival |
| RateLimiter.Apart | src/rubedo/execution.py:83-94 | reservations k apart get slots at least k intervals apart |
| RateLimiter.WindowBound | src/rubedo/execution.py:72-94 | every half-open window as long as the period holds at most count slots, for any arrivals |
| RateLimiter.ExactSpacing | src/rubedo/execution.py:87-94 | consecutive slots are exactly one interval apart just when the later caller is already waiting |
| Preimage.UniquelyReadable | src/rubedo/hashing.py:34-57 | the hashed text decodes to exactly the segments it was built from, whichever optional ones are present, b-prefixed child hashes included |
| Preimage.CombinedInjective | src/rubedo/hashing.py:42-50 | equal texts have equal segments, the pipeline among them |
| Preimage.ColonsCollide | src/rubedo/hashing.py:51 | a step and version share their text with another pair exactly when one of them contains a colon |
| Preimage.MissingIsNoHash | src/rubedo/planning.py:146-150 | the sentinel for an absent join side is no hash |
| Preimage.AddressTextsDiffer | src/rubedo/hashing.py:34-57 | two addresses of the model have the same text exactly when they are equal, absent a collision of their own parts |

## Left out

Assumptions of the model:

- SHA-256 is a perfect hash, twelve-character lane prefixes do not collide, and a string and a
  JSON value with the same text (`ledger.py:313-317`) do not both arise as outputs.
- Step names and versions contain no colon (`Preimage.ColonsCollide` says why this matters).
- Numbers are integers; a zero of another type is false in Python all the same.
- Lane coordinates contain no `|`, and no lane is called like another step's joined lanes.
- Object-store reads and writes of one object are atomic, and a deleted segment's key is not
  used again.

Side conditions of the theorems:

- Expand steps fed by other lanes: no payload such a step yields in the run may be the value a lane
  of it is fed in the run, no lane row may be left in the store where one of its anchors goes
  (planning would take its value for the list of children, `Expand.LaneRowAtAnchor`), and lanes that do not fan out may not be called
  like the minted ones. Under the deep schedule such a step must not share its segment: the code
  does put it there (`scheduler.py:108`), and then does not advance reused children
  (`scheduler.py:333`); the theorems treat these steps as barriers, and under the broad schedule,
  where every step is one, ask nothing. Their counts are not compared between schedules.
- Maps of singleton parents that mix a root lane with a collective one (`planning.py:923-940`) are
  excluded where one coordinate per singleton is needed.
- Dry-run soundness assumes that lanes minted by an expand are not called like the lanes it is fed
  (`PlanLimits.RemintedNamesLoseLanes`), and that a partial run anchored at a broadcast step has its
  cohort carried by broadcast maps only (`PlanLimits.SingleAnchorLosesLanes`). It leaves out
  declarative unions and runs in which an executed lane fails.
- PlanSound.SiblingsKeepTheGate: the objects of the step's own live rows are there
  (`Determined.StoreInvKept`), since planning reads a spilled value at an anchor's address.
- Compaction: a row id never names two different rows, in whatever segments it occurs; a row is
  written once and only copied from then on (`Consistent`).
- Join.IntersectIsTheJoin, Join.UnionExtendsTheJoin: scalar join fields only; with list-valued
  fields the same tuple can be emitted twice.
- Lease: one true time and a fixed skew per run's clock; each home is a process of its own; the
  fallback delete of old client libraries (`cloud_lane_store.py:141-149`) is not atomic and not
  modelled.
- Retention.Home.Gc: runs while nothing is buffered, and the objects of anchors, which are stored
  inline, are not counted.

Not modelled:

- `stale_after` and the "refreshed" outcome: decisions that depend on the wall clock.
- `row_key` expands and byte payloads inside the run model (`Expand` and `Preimage` cover them on
  their own).
- `join_table`, table inputs, Arrow batches and type inference, `compact_step`, payload references.
- Retries, heartbeats, progress callbacks, warnings and events.
- Exceptions after an address was marked live inside a commit (`ledger.py:509-519`, rolled back at
  `ledger.py:597-609`); failures are modelled before the append.
- The order of decisions within one step, and which broadcast cell is met first; plans are maps.
- Sampling a cohort and validating a partial invocation (`scope.py`), and targets: a partial run
  enters as an anchor, the steps that carry its cohort, and the cohort.
- SQLAlchemy sessions, the HTTP server, the command line, rendering, and the read models.
- Selections are lists of addresses; matching coordinates and version ranges is not modelled.
