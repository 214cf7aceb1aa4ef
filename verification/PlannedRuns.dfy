/**
 A dry run and then the run itself: every reuse that plan() announced is decided as reuse by
 the segment executor, once, at the announced address, under either schedule and in any order
 of completions.
 */
module PlannedRuns {
  import opened Model
  import opened Meaning
  import opened Ledger
  import opened Determined
  import opened Planning
  import opened Clean
  import opened Script
  import opened SingleCoords
  import opened Progress
  import opened Books
  import opened Durability
  import opened Semantics
  import opened Scheduler
  import opened Incremental
  import opened DryRun
  import opened PlanSound

  ghost function CellsAfter(w: World, p: Planner, steps: seq<Step>, n: nat): Cells
    requires n <= |steps|
  {
    var cells := CleanRun(w, p, steps[..n]);
    if cells.Some? then cells.value else map[]
  }

  /** The clean run, step by step, each lane looked up in the store the run started from. */
  ghost function CleanExecution(w: World, st: Store, p: Planner, steps: seq<Step>, n: nat): Execution
    requires n <= |steps|
  {
    Execution(seq(n + 1, i => (c: Coord) => st), seq(n + 1, i requires 0 <= i <= n => CellsAfter(w, p, steps, i)))
  }

  /** The minted lanes of one fan-out are not called like a lane its step is fed. */
  ghost predicate LanesNamedApart(w: World, st: Store, p: Planner, steps: seq<Step>, force: bool, i: nat)
    requires i < |steps|
  {
    var before := CleanRun(w, p, steps[..i]);
    before.Some? && Plan(p, steps[i], before.value).Some? ==>
      var ts, dry := Plan(p, steps[i], before.value).value, Dry(st, p, steps[..i], force);
      && NamedApart(w, ts)
      && (dry.Some? ==> forall h, d :: h in AllChildren(w, ts) && d in steps[i].deps ==> (Row(h), d) !in dry.value)
  }

  ghost predicate NamesApart(w: World, st: Store, p: Planner, steps: seq<Step>, force: bool) {
    forall i :: 0 <= i < |steps| && steps[i].DependentExpand() ==> LanesNamedApart(w, st, p, steps, force, i)
  }

  /** A root source's lanes are fed nothing, and other steps mint nothing. */
  lemma OthersNamedApart(w: World, st: Store, p: Planner, steps: seq<Step>, force: bool, i: nat)
    requires i < |steps| && !steps[i].DependentExpand()
    ensures LanesNamedApart(w, st, p, steps, force, i)
  {
    hide PlanOn, CleanRun, Dry, AnchorOf;
    var before := CleanRun(w, p, steps[..i]);
    if before.Some? && Plan(p, steps[i], before.value).Some? {
      if steps[i].shape.Expand? {
        RootCoords(p, steps[i], before.value);
      } else {
        NoMinting(p, steps[i], before.value);
        assert AllChildren(w, Plan(p, steps[i], before.value).value) == {};
      }
    }
  }

  lemma AllApart(w: World, st: Store, p: Planner, steps: seq<Step>, i: nat)
    requires Ordered(steps) && ApartAlways(w, st, p, steps) && i < |steps| && CleanRun(w, p, steps[..i + 1]).Some?
    ensures CleanRun(w, p, steps[..i]).Some?
    ensures var before := CleanRun(w, p, steps[..i]).value;
            Plan(p, steps[i], before).Some? && Apart(w, Plan(p, steps[i], before).value)
            && Vacant(st, Plan(p, steps[i], before).value)
            && CleanRun(w, p, steps[..i + 1]).value == before + StepCells(w, p.pipe, steps[i], Plan(p, steps[i], before).value)
  {
    hide PlanOn, Apart, Vacant, StepCells, Ordered, ApartAlways;
    assert steps[..i + 1][..i] == steps[..i] && steps[..i + 1][i] == steps[i];
    var before := CleanRun(w, p, steps[..i]).value;
    if steps[i].DependentExpand() {
      ApartSoFar(w, st, p, steps, i + 1);
      PlansInPlace(w, p, steps, i);
    } else if steps[i].shape.Expand? {
      RootsAreApart(w, p, steps[i], before);
      OthersAreVacant(st, p, steps[i], before);
    } else {
      NoMinting(p, steps[i], before);
      OtherShapesAreApart(w, Plan(p, steps[i], before).value);
      OthersAreVacant(st, p, steps[i], before);
    }
  }

  /** A root source's anchor has no lane row, and no other fan-out of the run may have one. */
  lemma AnchorsAreFree(w: World, st: Store, p: Planner, step: Step, cells: Cells)
    requires StoreInv(w, st) && Plan(p, step, cells).Some? && Vacant(st, Plan(p, step, cells).value)
    requires step.shape.Expand? ==> w.mints(p.pipe, step.Identity())
    ensures AnchorsFree(st, Plan(p, step, cells).value)
  {
    hide PlanOn, StoreInv, LatestRow, Expected;
    var ts := Plan(p, step, cells).value;
    PlansOwnAddresses(p, step, cells);
    forall c | c in ts && ts[c].ToMint? ensures LatestRow(st, ts[c].anchor).None? {
      assert Addressed(p, step, ts[c]);
      RowHasOutcome(w, st, ts[c].anchor);
      if ts[c].anchor.input == RootLane {
        RootHasNoOutcome(w, ts[c].anchor);
      }
    }
  }

  lemma RootHasNoOutcome(w: World, a: Address)
    requires w.mints(a.pipeline, a.code) && a.input == RootLane
    ensures Expected(w, a).Fail?
  {
  }

  /** A step is planned alike from the cells before it and from those after it. */
  lemma PlansInPlace(w: World, p: Planner, steps: seq<Step>, i: nat)
    requires Ordered(steps) && i < |steps| && CleanRun(w, p, steps[..i + 1]).Some?
    ensures CleanRun(w, p, steps[..i]).Some?
    ensures Plan(p, steps[i], CleanRun(w, p, steps[..i + 1]).value) == Plan(p, steps[i], CleanRun(w, p, steps[..i]).value)
  {
    hide PlanOn, StepCells;
    var longer := steps[..i + 1];
    assert longer[..i] == steps[..i] && longer[i] == steps[i];
    var before := CleanRun(w, p, steps[..i]).value;
    PrefixOrdered(steps, i + 1);
    SameParents(longer, i, i, before, StepCells(w, p.pipe, steps[i], Plan(p, steps[i], before).value));
  }

  lemma AtOneMoment(st: Store, p: Planner, step: Step, force: bool, before: Cells, after: Cells)
    requires RunStep(st, p, step, force, before, after)
    ensures RunStepAt((c: Coord) => st, p, step, force, before, after)
  {
    hide PlanOn, LaneRan, LaneCame, LaneCameAt;
    var ts := Plan(p, step, before).value;
    forall c | (c, step.name) in after ensures LaneCameAt((c: Coord) => st, p, step, force, ts, c, after) {
      CameAtOneMoment(st, p, step, force, before, after, c);
    }
  }

  lemma CameAtOneMoment(st: Store, p: Planner, step: Step, force: bool, before: Cells, after: Cells, c: Coord)
    requires RunStep(st, p, step, force, before, after) && (c, step.name) in after
    ensures LaneCameAt((e: Coord) => st, p, step, force, Plan(p, step, before).value, c, after)
  {
    hide PlanOn, Reuses, ReusedChildren, ReusedCell;
    var ts := Plan(p, step, before).value;
    assert LaneCame(st, p, step, force, ts, c, after);
    if h :| c == Row(h) && h in DryChildren(st, p, step, force, ts) {
      var e :| e in ts && FansOut(st, p, step, force, ts[e]) && h in ReusedChildren(st, p, step, ts[e]);
      assert LaneRan(st, p, step, force, e, ts[e], after);
    }
  }

  lemma CleanStep(w: World, st: Store, p: Planner, steps: seq<Step>, force: bool, i: nat)
    requires StoreInv(w, st) && Ordered(steps) && Fits(w, p.pipe, steps)
    requires ApartAlways(w, st, p, steps) && NamesApart(w, st, p, steps, force)
    requires i < |steps| && CleanRun(w, p, steps[..i + 1]).Some?
    ensures CleanRun(w, p, steps[..i]).Some?
    ensures RunStepAt((c: Coord) => st, p, steps[i], force, CleanRun(w, p, steps[..i]).value, CleanRun(w, p, steps[..i + 1]).value)
    ensures LanesNamedApart(w, st, p, steps, force, i)
  {
    hide PlanOn, CleanRun, StoreInv, Ordered, ApartAlways, Apart, Vacant, AnchorsFree, StepCells, RunStep, RunStepAt, LanesNamedApart, AnyPending;
    AllApart(w, st, p, steps, i);
    var before := CleanRun(w, p, steps[..i]).value;
    if !steps[i].DependentExpand() {
      OthersNamedApart(w, st, p, steps, force, i);
    }
    NamedApartHere(w, st, p, steps, force, i);
    CleanNeverPends(w, p, steps[..i]);
    NotYet(w, p, steps, i);
    AnchorsAreFree(w, st, p, steps[i], before);
    DeterministicRunStep(w, st, p, steps[i], force, before);
    AtOneMoment(st, p, steps[i], force, before, CleanRun(w, p, steps[..i + 1]).value);
  }

  lemma NamedApartHere(w: World, st: Store, p: Planner, steps: seq<Step>, force: bool, i: nat)
    requires i < |steps| && LanesNamedApart(w, st, p, steps, force, i)
    requires CleanRun(w, p, steps[..i]).Some? && Plan(p, steps[i], CleanRun(w, p, steps[..i]).value).Some?
    ensures NamedApart(w, Plan(p, steps[i], CleanRun(w, p, steps[..i]).value).value)
  {
    hide PlanOn, CleanRun, Dry;
  }

  /** The clean run is one of the executions the dry run speaks about. */
  lemma CleanRan(w: World, st: Store, p: Planner, steps: seq<Step>, force: bool, n: nat)
    requires StoreInv(w, st) && Ordered(steps) && Fits(w, p.pipe, steps)
    requires ApartAlways(w, st, p, steps) && NamesApart(w, st, p, steps, force)
    requires n <= |steps| && CleanRun(w, p, steps[..n]).Some?
    ensures Ran(p, steps, force, CleanExecution(w, st, p, steps, n))
    ensures NamesFresh(st, p, steps, force, CleanExecution(w, st, p, steps, n))
  {
    hide PlanOn, CleanRun, StoreInv, Ordered, ApartAlways, RunStepAt, NamesApart, FreshNames, Dry;
    var x := CleanExecution(w, st, p, steps, n);
    NothingRun(w, p, steps);
    forall i | 0 <= i < n
      ensures RunStepAt(x.stores[i], p, steps[i], force, x.cells[i], x.cells[i + 1])
      ensures Dry(st, p, steps[..i], force).Some? && Plan(p, steps[i], x.cells[i]).Some? ==>
                FreshNames(steps[i], Dry(st, p, steps[..i], force).value, Plan(p, steps[i], x.cells[i]).value, x.cells[i + 1])
    {
      CleanPrefix(w, p, steps, n, i + 1);
      CleanStep(w, st, p, steps, force, i);
      if Dry(st, p, steps[..i], force).Some? {
        NamesFreshHere(w, st, p, steps, force, i);
      }
    }
  }

  lemma NamesFreshHere(w: World, st: Store, p: Planner, steps: seq<Step>, force: bool, i: nat)
    requires i < |steps| && Ordered(steps) && ApartAlways(w, st, p, steps) && LanesNamedApart(w, st, p, steps, force, i)
    requires CleanRun(w, p, steps[..i + 1]).Some? && CleanRun(w, p, steps[..i]).Some?
    requires Dry(st, p, steps[..i], force).Some?
    ensures var before := CleanRun(w, p, steps[..i]).value;
            Plan(p, steps[i], before).Some?
            && FreshNames(steps[i], Dry(st, p, steps[..i], force).value, Plan(p, steps[i], before).value,
                          CleanRun(w, p, steps[..i + 1]).value)
  {
    hide PlanOn, CleanRun, Ordered, ApartAlways, Dry, StepCells, AnchorOf;
    AllApart(w, st, p, steps, i);
    NotYet(w, p, steps, i);
    var before, after := CleanRun(w, p, steps[..i]).value, CleanRun(w, p, steps[..i + 1]).value;
    var ts := Plan(p, steps[i], before).value;
    forall c, d | (c, steps[i].name) in after && c !in ts && d in steps[i].deps
      ensures (c, d) !in Dry(st, p, steps[..i], force).value
    {
      var e := StepIsProduced(w, p.pipe, steps[i], ts, (c, steps[i].name));
      assert Minting(w, ts[e]).Some? && c.h in AllChildren(w, ts);
    }
    forall c | c in ts && ts[c].ToMint? && (c, steps[i].name) in after ensures after[(c, steps[i].name)].Failed? {
      OnlyFailuresStay(w, p.pipe, steps[i], ts, c);
    }
  }

  lemma OnlyFailuresStay(w: World, pipe: string, step: Step, ts: map<Coord, Target>, c: Coord)
    requires NamedApart(w, ts) && c in ts && ts[c].ToMint? && (c, step.name) in StepCells(w, pipe, step, ts)
    ensures StepCells(w, pipe, step, ts)[(c, step.name)].Failed?
  {
    hide AnchorOf, ChildCell;
  }

  lemma NoneBadBefore(w: World, p: Planner, steps: seq<Step>, n: nat, i: nat)
    requires Ordered(steps) && i <= n <= |steps| && CleanRun(w, p, steps[..n]).Some?
    requires !AnyBad(CleanRun(w, p, steps[..n]).value)
    ensures CleanRun(w, p, steps[..i]).Some? && !AnyBad(CleanRun(w, p, steps[..i]).value)
  {
    hide CleanRun, Ordered;
    PrefixOrdered(steps, n);
    PrefixAgrees(w, p, steps[..n], i);
    assert steps[..n][..i] == steps[..i];
  }

  /** What plan() announces at step i, lane c. */
  ghost predicate Announced(st: Store, p: Planner, steps: seq<Step>, force: bool, i: nat, c: Coord, t: Target) {
    && i < |steps| && Dry(st, p, steps[..i], force).Some? && Dry(st, p, steps[..i + 1], force).Some?
    && (var planned := Plan(p, steps[i], Dry(st, p, steps[..i], force).value);
        planned.Some? && c in planned.value && planned.value[c] == t && Reuses(st, p, steps[i], force, t))
  }

  lemma AnnouncedIsPlanned(w: World, st: Store, p: Planner, steps: seq<Step>, force: bool, n: nat, i: nat, c: Coord, t: Target)
    requires StoreInv(w, st) && Plannable(p, steps) && Fits(w, p.pipe, steps)
    requires ApartAlways(w, st, p, steps) && NamesApart(w, st, p, steps, force)
    requires i < n <= |steps| && CleanRun(w, p, steps[..n]).Some? && !AnyBad(CleanRun(w, p, steps[..n]).value)
    requires Announced(st, p, steps, force, i, c, t)
    ensures var goal := CleanRun(w, p, steps[..n]).value;
            Plan(p, steps[i], goal).Some? && c in Plan(p, steps[i], goal).value && Plan(p, steps[i], goal).value[c] == t
  {
    hide PlanOn, CleanRun, StoreInv, Ordered, ApartAlways, NamesApart, Dry, AnyBad, Reuses, Plannable, Comparing, NamesFresh;
    assert Ordered(steps) by { PlannableIsOrdered(p, steps); }
    CleanPrefix(w, p, steps, n, i + 1);
    CleanComparing(w, st, p, steps, force, n, i);
    AllApart(w, st, p, steps, i);
    PlannedIsReuse(st, p, steps, force, CleanExecution(w, st, p, steps, i), i, c);
    PlannedAt(w, p, steps, n, i);
  }

  lemma PlannableIsOrdered(p: Planner, steps: seq<Step>)
    requires Plannable(p, steps)
    ensures Ordered(steps)
  {
  }

  /** A step is planned alike from the cells before it and from those of any later point. */
  lemma PlannedAt(w: World, p: Planner, steps: seq<Step>, n: nat, i: nat)
    requires Ordered(steps) && i < n <= |steps| && CleanRun(w, p, steps[..n]).Some?
    ensures CleanRun(w, p, steps[..i]).Some?
    ensures Plan(p, steps[i], CleanRun(w, p, steps[..n]).value) == Plan(p, steps[i], CleanRun(w, p, steps[..i]).value)
  {
    hide PlanOn, CleanRun, Ordered;
    PrefixOrdered(steps, n);
    SamePlans(w, p, steps[..n], i + 1);
    assert steps[..n][..i + 1] == steps[..i + 1] && steps[..n][i] == steps[i];
    PlansInPlace(w, p, steps, i);
  }

  lemma CleanComparing(w: World, st: Store, p: Planner, steps: seq<Step>, force: bool, n: nat, i: nat)
    requires StoreInv(w, st) && Ordered(steps) && Fits(w, p.pipe, steps)
    requires ApartAlways(w, st, p, steps) && NamesApart(w, st, p, steps, force)
    requires i < n <= |steps| && CleanRun(w, p, steps[..n]).Some? && !AnyBad(CleanRun(w, p, steps[..n]).value)
    ensures CleanRun(w, p, steps[..i]).Some?
    ensures Comparing(st, p, steps, force, CleanExecution(w, st, p, steps, i))
    ensures NamesFresh(st, p, steps, force, CleanExecution(w, st, p, steps, i))
  {
    hide PlanOn, CleanRun, StoreInv, Ordered, ApartAlways, NamesApart, KeepsGate, AnyBad, Ran, NamesFresh;
    CleanPrefix(w, p, steps, n, i);
    CleanRan(w, st, p, steps, force, i);
    var x := CleanExecution(w, st, p, steps, i);
    forall m: nat | m <= i ensures KeepsGate(st, st, p, steps[m]) && !AnyBad(x.cells[m]) {
      SameStoreKeeps(st, p, steps[m]);
      NoneBadBefore(w, p, steps, n, m);
    }
  }

  lemma PlannedIsReuse(st: Store, p: Planner, steps: seq<Step>, force: bool, x: Execution, n: nat, c: Coord)
    requires Plannable(p, steps) && Comparing(st, p, steps, force, x) && NamesFresh(st, p, steps, force, x)
    requires n < |x.cells| && n < |steps| && Plan(p, steps[n], x.cells[n]).Some?
    requires Dry(st, p, steps[..n], force).Some? && Dry(st, p, steps[..n + 1], force).Some?
    ensures var planned := Plan(p, steps[n], Dry(st, p, steps[..n], force).value);
            planned.Some? && c in planned.value && Reuses(st, p, steps[n], force, planned.value[c]) ==>
              c in Plan(p, steps[n], x.cells[n]).value && Plan(p, steps[n], x.cells[n]).value[c] == planned.value[c]
  {
    hide PlanOn, Dry, Reuses, Comparing, NamesFresh, Plannable;
    PlannedReuseIsReuse(st, p, steps, force, x, n, c);
  }

  lemma AnnouncedIsDecided(w: World, st: Store, p: Planner, steps: seq<Step>, force: bool, upTo: nat, cells: Cells,
                           log: seq<Event>, decided: seq<Decision>, i: nat, c: Coord, t: Target)
    requires i < upTo <= |steps| && PlannedOnce(p, steps, 0, upTo, cells, decided)
    requires DecisionsBooked(w.spills, st, log, p, steps, force, decided)
    requires Announced(st, p, steps, force, i, c, t)
    requires Plan(p, steps[i], cells).Some? && c in Plan(p, steps[i], cells).value && Plan(p, steps[i], cells).value[c] == t
    ensures DecidedReuse(decided, (i, c), t)
  {
    hide PlanOn, Dry, Reuses, Replay;
    var n :| 0 <= n < |decided| && decided[n].slot == (i, c);
    assert DecidedAs(p, steps, 0, upTo, cells, decided[n]);
    assert DecisionOk(w.spills, st, log, p, steps, force, decided[n]);
  }

  /** Every announced reuse of the planned steps is among the decisions. */
  ghost predicate AllReused(st: Store, p: Planner, steps: seq<Step>, force: bool, upTo: nat, decided: seq<Decision>) {
    forall i: nat, c, t :: i < upTo && Announced(st, p, steps, force, i, c, t) ==> DecidedReuse(decided, (i, c), t)
  }

  predicate DecidedReuse(decided: seq<Decision>, s: Slot, t: Target) {
    exists n :: 0 <= n < |decided| && decided[n].slot == s && decided[n].target == t && decided[n].reused
  }

  lemma AnnouncedAreReused(w: World, st: Store, p: Planner, steps: seq<Step>, force: bool, upTo: nat, cells: Cells,
                           log: seq<Event>, decided: seq<Decision>)
    requires StoreInv(w, st) && Admissible(w, st, p, steps) && Plannable(p, steps) && NamesApart(w, st, p, steps, force)
    requires upTo <= |steps| && CleanRun(w, p, steps[..upTo]) == Some(cells) && !AnyBad(cells)
    requires PlannedOnce(p, steps, 0, upTo, cells, decided)
    requires DecisionsBooked(w.spills, st, log, p, steps, force, decided)
    ensures AllReused(st, p, steps, force, upTo, decided)
  {
    hide CleanRun, StoreInv, ApartAlways, PlanOn, AnyBad, NamesApart, Announced, Plannable, PlannedOnce, DecisionsBooked,
         DecidedReuse;
    forall i: nat, c, t | i < upTo && Announced(st, p, steps, force, i, c, t)
      ensures DecidedReuse(decided, (i, c), t)
    {
      AnnouncedIsPlanned(w, st, p, steps, force, upTo, i, c, t);
      AnnouncedIsDecided(w, st, p, steps, force, upTo, cells, log, decided, i, c, t);
    }
  }

  lemma PlannedOnceIsOnce(p: Planner, steps: seq<Step>, hi: nat, cells: Cells, decided: seq<Decision>)
    requires hi <= |steps| && PlannedOnce(p, steps, 0, hi, cells, decided)
    ensures NoRepeats(decided)
  {
    hide PlanOn;
  }

  /**
   plan() and then run(), under either schedule.  If no lane fails, every lane of which plan()
   said "reuse", at a step the run gets to, is planned exactly once, at that address, and reused.
   */
  method RunAsPlanned(w: World, p: Planner, steps: seq<Step>, force: bool, deep: bool, store: Store, ghost h: seq<Event>)
    returns (ok: bool, cells: Cells, ghost decided: seq<Decision>, ghost upTo: nat)
    requires Admissible(w, store, p, steps) && (deep ==> ExpandsAlone(steps))
    requires FaithfulHistory(w, EMPTY, h) && store == Replay(w.spills, EMPTY, h)
    requires Plannable(p, steps) && NamesApart(w, store, p, steps, force)
    ensures upTo <= |steps| && CleanRun(w, p, steps[..upTo]) == Some(cells)
    ensures if ok then upTo == |steps| else upTo < |steps| && CleanRun(w, p, steps[..upTo + 1]).None?
    ensures !AnyBad(cells) ==> AllReused(store, p, steps, force, upTo, decided)
    ensures NoRepeats(decided)
  {
    hide CleanRun, FaithfulHistory, StoreInv, Admissible, AnyBad, NamesApart, Plannable, ExpandsAlone, PlannedOnce,
         DecisionsBooked, AllReused, NoRepeats, AllTallied, AllGrow, Replay, AllMeant, Raises, Durable, Executed;
    EmptyStoreInv(w);
    StoreInvKept(w, EMPTY, h);
    var tally, after;
    ghost var log, ran;
    ok, cells, tally, after, log, decided, ran, upTo := RunAfter(w, p, steps, force, deep, store, h);
    PlannedOnceIsOnce(p, steps, upTo, cells, decided);
    if !AnyBad(cells) {
      AnnouncedAreReused(w, store, p, steps, force, upTo, cells, log, decided);
    }
  }
}
