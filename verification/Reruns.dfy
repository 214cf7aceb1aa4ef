/**
 What one run is worth to the next: everything it committed is reused, a plan announces nothing else,
 and nothing is reused that other code computed.
 */
module Reruns {
  import opened Model
  import opened Meaning
  import opened Ledger
  import opened History
  import opened Determined
  import opened Planning
  import opened Clean
  import opened Script
  import opened Progress
  import opened Books
  import opened Durability
  import opened Semantics
  import opened Scheduler
  import opened Incremental
  import opened DryRun
  import opened PlanSound
  import opened PlannedRuns

  // ---------------------------------------------------------------------------
  // a run, a crash, and the run again
  // ---------------------------------------------------------------------------

  /** The cells a planned slot stands for are there, and so is the plan. */
  lemma PlannedCells(w: World, st: Store, p: Planner, steps: seq<Step>, n: nat, i: nat, c: Coord)
    requires Admissible(w, st, p, steps) && i < n <= |steps| && CleanRun(w, p, steps[..n]).Some?
    requires var goal := CleanRun(w, p, steps[..n]).value;
             Plan(p, steps[i], goal).Some? && c in Plan(p, steps[i], goal).value
    ensures var goal := CleanRun(w, p, steps[..n]).value;
            var own := Produced(w, p.pipe, steps[i], c, Plan(p, steps[i], goal).value[c]);
            forall k :: k in own ==> k in goal && goal[k] == own[k]
  {
    hide PlanOn, CleanRun, Ordered, ApartAlways, Apart, Vacant, StepCells, Produced, Fits;
    var goal := CleanRun(w, p, steps[..n]).value;
    CleanPrefix(w, p, steps, n, i + 1);
    AllApart(w, st, p, steps, i);
    PlannedAt(w, p, steps, n, i);
    PrefixOrdered(steps, n);
    CleanIsRun(w, p, steps[..n]);
    assert StepHolds(w, p, steps[..n][i], goal) && steps[..n][i] == steps[i];
    var ts := Plan(p, steps[i], goal).value;
    forall k | k in Produced(w, p.pipe, steps[i], c, ts[c])
      ensures k in goal && goal[k] == Produced(w, p.pipe, steps[i], c, ts[c])[k]
    {
      ProducedInStep(w, p.pipe, steps[i], ts, c, k);
      assert k in CellsAt(goal, steps[i].name) && goal[k] == CellsAt(goal, steps[i].name)[k];
    }
  }

  lemma PlansAddresses(p: Planner, steps: seq<Step>, n: nat, goal: Cells, decided: seq<Decision>, d: Decision)
    requires n <= |steps| && PlannedOnce(p, steps, 0, n, goal, decided) && d in decided
    ensures DecidedAs(p, steps, 0, n, goal, d) && Addressed(p, steps[d.slot.0], d.target)
  {
    hide PlanOn, Addressed;
    var m :| 0 <= m < |decided| && decided[m] == d;
    assert DecidedAs(p, steps, 0, n, goal, decided[m]);
    PlansOwnAddresses(p, steps[d.slot.0], goal);
  }

  /** A slot left something to reuse: an output, or the children of a fan-out. */
  predicate LeftOutput(w: World, t: Target) {
    (t.ToWork? && !Expected(w, t.address).Fail?) || (t.ToMint? && Minting(w, t).Some?)
  }

  /** After the crash, the gate is open for everything a run has left. */
  lemma OpenAfterCrash(w: World, st: Store, after: Store, p: Planner, steps: seq<Step>, n: nat, cells: Cells, decided: seq<Decision>, d: Decision)
    requires Admissible(w, st, p, steps) && n <= |steps| && CleanRun(w, p, steps[..n]) == Some(cells)
    requires PlannedOnce(p, steps, 0, n, cells, decided) && Durable(w, after, p.pipe, steps, n, cells, decided)
    requires d in decided && LeftOutput(w, d.target) && !steps[d.slot.0].force
    ensures Reuses(Apply(w.spills, after, Crash), p, steps[d.slot.0], false, d.target)
  {
    hide PlanOn, CleanRun, Admissible, Hit, LatestRow, AnchorHit, AnchorOf, Expected, ReplayedChildren, PlannedOnce, Addressed, Apply;
    var next, i, c, t := Apply(w.spills, after, Crash), d.slot.0, d.slot.1, d.target;
    PlansAddresses(p, steps, n, cells, decided, d);
    PlannedCells(w, st, p, steps, n, i, c);
    if t.ToWork? {
      var k := (c, steps[i].name);
      WorkProduced(w, p.pipe, steps[i], c, t);
      assert k in cells && cells[k].Mat? && cells[k].address == t.address;
    } else {
      AnchorIsListed(next, p, steps[i].Identity(), t.anchor);
      forall h | h in Minting(w, t).value ensures Hit(next, ChildAddress(p.pipe, steps[i].Identity(), h)).Some? {
        var k := (Row(h), steps[i].name);
        ChildProduced(w, st, p, steps, n, i, c, t, h);
        assert k in cells && cells[k].Mat? && cells[k].address == ChildAddress(p.pipe, steps[i].Identity(), h);
      }
    }
  }

  lemma WorkProduced(w: World, pipe: string, step: Step, c: Coord, t: Target)
    requires t.ToWork?
    ensures var own, k := Produced(w, pipe, step, c, t), (c, step.name);
            k in own && own[k] == OutcomeCell(w, t.address, Expected(w, t.address))
            && (!Expected(w, t.address).Fail? ==> own[k].Mat? && own[k].address == t.address)
            && (Expected(w, t.address).Fail? ==> own[k] == Failed)
  {
    hide Expected;
  }

  lemma ChildProduced(w: World, st: Store, p: Planner, steps: seq<Step>, n: nat, i: nat, c: Coord, t: Target, h: Hash)
    requires Admissible(w, st, p, steps) && i < n <= |steps| && Addressed(p, steps[i], t)
    requires t.ToMint? && Minting(w, t).Some? && h in Minting(w, t).value
    ensures var own, k := Produced(w, p.pipe, steps[i], c, t), (Row(h), steps[i].name);
            k in own && own[k].Mat? && own[k].address == ChildAddress(p.pipe, steps[i].Identity(), h)
  {
    hide Ordered, ApartAlways, Singles;
    assert w.mints(p.pipe, steps[i].Identity());
  }

  lemma FanOutFailed(w: World, pipe: string, step: Step, c: Coord, t: Target)
    ensures t.ToMint? && Minting(w, t).None? ==>
              (c, step.name) in Produced(w, pipe, step, c, t) && Produced(w, pipe, step, c, t)[(c, step.name)] == Failed
  {
    hide AnchorOf;
  }

  /** What a run left in the store is nowhere in the way of running it again. */
  lemma AdmissibleAgain(w: World, st: Store, after: Store, p: Planner, steps: seq<Step>, n: nat, cells: Cells, decided: seq<Decision>)
    requires Admissible(w, st, p, steps) && n <= |steps| && CleanRun(w, p, steps[..n]) == Some(cells)
    requires n < |steps| ==> CleanRun(w, p, steps[..n + 1]).None?
    requires PlannedOnce(p, steps, 0, n, cells, decided) && Durable(w, after, p.pipe, steps, n, cells, decided)
    ensures Admissible(w, Apply(w.spills, after, Crash), p, steps)
  {
    hide PlanOn, CleanRun, Ordered, Fits, Singles, Hit, LatestRow, AnchorHit, AnchorOf, Apart, Durable, PlannedOnce, Apply;
    var next := Apply(w.spills, after, Crash);
    forall m | 0 <= m <= |steps| && CleanRun(w, p, steps[..m]).Some?
      ensures ApartRun(w, next, p, steps[..m], CleanRun(w, p, steps[..m]).value)
    {
      if m > n {
        CleanPrefix(w, p, steps, m, n + 1);
        assert false;
      }
      var goal := CleanRun(w, p, steps[..m]).value;
      ApartSoFar(w, st, p, steps, m);
      forall i | 0 <= i < m && steps[..m][i].DependentExpand() && Plan(p, steps[..m][i], goal).Some?
        ensures Apart(w, Plan(p, steps[..m][i], goal).value) && Vacant(next, Plan(p, steps[..m][i], goal).value)
      {
        assert steps[..m][i] == steps[i];
        PlannedAt(w, p, steps, n, i);
        PlannedAt(w, p, steps, m, i);
        AloneNext(w, after, p, steps, n, cells, decided, i);
      }
    }
  }

  lemma AloneNext(w: World, after: Store, p: Planner, steps: seq<Step>, n: nat, cells: Cells, decided: seq<Decision>, i: nat)
    requires i < n <= |steps| && Plan(p, steps[i], cells).Some?
    requires PlannedOnce(p, steps, 0, n, cells, decided) && Durable(w, after, p.pipe, steps, n, cells, decided)
    ensures AnchorsFree(Apply(w.spills, after, Crash), Plan(p, steps[i], cells).value)
  {
    hide PlanOn, LatestRow, Hit, AnchorHit, AnchorOf, Apply;
    var ts := Plan(p, steps[i], cells).value;
    forall c | c in ts && ts[c].ToMint? ensures LatestRow(Apply(w.spills, after, Crash), ts[c].anchor).None? {
      var m :| 0 <= m < |decided| && decided[m].slot == (i, c);
      assert DecidedAs(p, steps, 0, n, cells, decided[m]);
      assert decided[m] in decided;
    }
  }

  /** Everything that was not a failure is reused. */
  ghost predicate ReusesAll(w: World, steps: seq<Step>, decided: seq<Decision>) {
    forall d :: d in decided && d.slot.0 < |steps| && !steps[d.slot.0].force && LeftOutput(w, d.target) ==> d.reused
  }

  lemma DecidedReused(spills: Json -> bool, origin: Store, log: seq<Event>, p: Planner, steps: seq<Step>, decided: seq<Decision>, d: Decision)
    requires DecisionsBooked(spills, origin, log, p, steps, false, decided) && d in decided
    ensures d.slot.0 < |steps| && (Reuses(origin, p, steps[d.slot.0], false, d.target) ==> d.reused)
  {
    hide Reuses;
    var n :| 0 <= n < |decided| && decided[n] == d;
    assert DecisionOk(spills, origin, log, p, steps, false, decided[n]);
  }

  /** Two runs of the same plan decide the same targets. */
  lemma SameDecisions(p: Planner, steps: seq<Step>, n: nat, cells: Cells, first: seq<Decision>, second: seq<Decision>, d: Decision)
    requires n <= |steps| && PlannedOnce(p, steps, 0, n, cells, first) && PlannedOnce(p, steps, 0, n, cells, second) && d in second
    ensures exists e :: e in first && e.slot == d.slot && e.target == d.target
  {
    hide PlanOn;
    var m :| 0 <= m < |second| && second[m] == d;
    assert DecidedAs(p, steps, 0, n, cells, second[m]);
    var k :| 0 <= k < |first| && first[k].slot == (d.slot.0, d.slot.1);
    assert DecidedAs(p, steps, 0, n, cells, first[k]);
    assert first[k] in first;
  }

  /** The only functions a second run calls are those that failed. */
  lemma OnlyFailuresRun(w: World, st: Store, p: Planner, steps: seq<Step>, n: nat, cells: Cells, decided: seq<Decision>, ran: seq<Job>, j: Job)
    requires Admissible(w, st, p, steps) && n <= |steps| && CleanRun(w, p, steps[..n]) == Some(cells)
    requires PlannedOnce(p, steps, 0, n, cells, decided) && Executed(decided, ran) && ReusesAll(w, steps, decided)
    requires j in ran && j.step < |steps| && !steps[j.step].force
    ensures (j.coord, steps[j.step].name) in cells && cells[(j.coord, steps[j.step].name)] == Failed
  {
    hide PlanOn, CleanRun, Admissible, PlannedOnce, Produced, Expected, Minting, Addressed;
    var d :| d in decided && !d.reused && (d.target.ToWork? || d.target.ToMint?) && j == Job(d.slot.0, d.slot.1, d.target);
    PlansAddresses(p, steps, n, cells, decided, d);
    PlannedCells(w, st, p, steps, n, d.slot.0, d.slot.1);
    assert !LeftOutput(w, d.target);
    if d.target.ToWork? {
      WorkProduced(w, p.pipe, steps[j.step], j.coord, d.target);
    } else {
      FanOutFailed(w, p.pipe, steps[j.step], j.coord, d.target);
    }
  }

  /**
   Run a pipeline, whatever came before; let the process die; and run it again, unforced, under either
   schedule.  The second run has the cells of the first, decides reuse for every slot that left an
   output or children (except at steps that are always forced), and calls no function but those that
   failed.
   */
  method RunTwice(w: World, p: Planner, steps: seq<Step>, force: bool, deep: bool, deepAgain: bool, store: Store, ghost h: seq<Event>)
    returns (ok: bool, first: Cells, second: Cells, ghost decided: seq<Decision>, ghost ran: seq<Job>, ghost upTo: nat)
    requires Admissible(w, store, p, steps) && (deep || deepAgain ==> ExpandsAlone(steps))
    requires FaithfulHistory(w, EMPTY, h) && store == Replay(w.spills, EMPTY, h)
    ensures ok <==> CleanRun(w, p, steps).Some?
    ensures upTo <= |steps| && CleanRun(w, p, steps[..upTo]) == Some(first) && second == first
    ensures PlannedOnce(p, steps, 0, upTo, second, decided) && Executed(decided, ran)
    ensures ReusesAll(w, steps, decided)
    ensures forall j :: j in ran && j.step < |steps| && !steps[j.step].force ==>
              (j.coord, steps[j.step].name) in second && second[(j.coord, steps[j.step].name)] == Failed
  {
    hide CleanRun, FaithfulHistory, Admissible, PlannedOnce, DecisionsBooked, ExpandsAlone, AllMeant, Raises, Durable, Executed, AllTallied,
         ReusesAll, Replay, Apply;
    ghost var earlier, log, log2, ran1, upTo1;
    var after, last, tally, ok1;
    ok1, first, tally, after, log, earlier, ran1, upTo1 := RunAfter(w, p, steps, force, deep, store, h);
    CrashNext(w, h + log);
    AdmissibleAgain(w, store, after, p, steps, upTo1, first, earlier);
    ok, second, tally, last, log2, decided, ran, upTo :=
      RunAfter(w, p, steps, false, deepAgain, Apply(w.spills, after, Crash), h + log + [Crash]);
    StopsAlike(w, p, steps, upTo, upTo1);
    SecondReuses(w, store, after, p, steps, upTo, first, earlier, decided, log2);
    forall j | j in ran && j.step < |steps| && !steps[j.step].force
      ensures (j.coord, steps[j.step].name) in second && second[(j.coord, steps[j.step].name)] == Failed
    {
      OnlyFailuresRun(w, store, p, steps, upTo, second, decided, ran, j);
    }
  }

  lemma SecondReuses(w: World, st: Store, after: Store, p: Planner, steps: seq<Step>, n: nat, cells: Cells,
                     earlier: seq<Decision>, decided: seq<Decision>, log: seq<Event>)
    requires Admissible(w, st, p, steps) && n <= |steps| && CleanRun(w, p, steps[..n]) == Some(cells)
    requires PlannedOnce(p, steps, 0, n, cells, earlier) && Durable(w, after, p.pipe, steps, n, cells, earlier)
    requires PlannedOnce(p, steps, 0, n, cells, decided)
    requires DecisionsBooked(w.spills, Apply(w.spills, after, Crash), log, p, steps, false, decided)
    ensures ReusesAll(w, steps, decided)
  {
    hide CleanRun, Admissible, PlannedOnce, DecisionsBooked, Durable, Reuses, Apply, LeftOutput;
    forall d | d in decided && d.slot.0 < |steps| && !steps[d.slot.0].force && LeftOutput(w, d.target) ensures d.reused {
      SameDecisions(p, steps, n, cells, earlier, decided, d);
      var e :| e in earlier && e.slot == d.slot && e.target == d.target;
      OpenAfterCrash(w, st, after, p, steps, n, cells, earlier, e);
      DecidedReused(w.spills, Apply(w.spills, after, Crash), log, p, steps, decided, d);
    }
  }

  lemma CrashNext(w: World, h: seq<Event>)
    requires FaithfulHistory(w, EMPTY, h)
    ensures FaithfulHistory(w, EMPTY, h + [Crash])
    ensures Replay(w.spills, EMPTY, h + [Crash]) == Apply(w.spills, Replay(w.spills, EMPTY, h), Crash)
  {
    hide FaithfulHistory, Apply;
    CutShort(w, h, |h|);
    assert h[..|h|] == h;
    ReplayAppend(w.spills, EMPTY, h, Crash);
  }

  // ---------------------------------------------------------------------------
  // plan() after a run
  // ---------------------------------------------------------------------------

  ghost predicate NoFailure(cells: Cells) {
    forall k :: k in cells ==> !cells[k].Failed? && !cells[k].Blocked?
  }

  lemma NoFailureIsGood(cells: Cells)
    requires NoFailure(cells)
    ensures !AnyBad(cells)
  {
  }

  /** A step whose targets are all reused is noted as the run has it. */
  lemma NotedAsRun(w: World, st: Store, p: Planner, step: Step, before: Cells)
    requires StoreInv(w, st) && Plan(p, step, before).Some? && !AnyPending(before)
    requires AnchorsFree(st, Plan(p, step, before).value)
    requires forall c :: c in Plan(p, step, before).value ==>
               var t := Plan(p, step, before).value[c];
               !t.ToBlocked? && ((t.ToWork? || t.ToMint?) ==> Reuses(st, p, step, false, t))
    ensures Noted(st, p, step, false, before) == StepCells(w, p.pipe, step, Plan(p, step, before).value)
    ensures !Stumbles(st, p, step, false, Plan(p, step, before).value)
  {
    hide PlanOn, StoreInv, AnyPending, LatestRow, Reuses, DryCells, StepCells, Placeholders, ListingAt, ReplayedChildren;
    var ts := Plan(p, step, before).value;
    PlanNeverPends(p, step, before);
    NonePending(step, before);
    NoPlaceholders(p, step, before, ts);
    forall c | c in ts && ts[c].ToMint? ensures !ListingAt(st, p, ts[c].anchor).Unlistable? {
      AnchorIsListed(st, p, step.Identity(), ts[c].anchor);
    }
    DryAsRun(w, st, p, step, ts);
  }

  lemma NoPlaceholders(p: Planner, step: Step, before: Cells, ts: map<Coord, Target>)
    requires !AnyPending(ParentCells(step, before))
    ensures Placeholders(p, step, before, ts) == map[]
  {
    hide AnyPending, ParentCells;
  }

  lemma ReplayedHashes(w: World, st: Store, p: Planner, step: Step, t: Target)
    requires StoreInv(w, st) && FansOut(st, p, step, false, t) && LatestRow(st, t.anchor).None?
    ensures Minting(w, t).Some? && ReusedChildren(st, p, step, t) == set h | h in Minting(w, t).value
  {
    hide StoreInv, AnchorOf, LatestRow, ReusedChildren;
    PlanSound.ReplayIsMinting(w, st, p, step, false, t);
  }

  lemma DryAsRun(w: World, st: Store, p: Planner, step: Step, ts: map<Coord, Target>)
    requires StoreInv(w, st) && AnchorsFree(st, ts)
    requires forall c :: c in ts ==> !ts[c].ToBlocked? && !ts[c].ToPending?
    requires forall c :: c in ts && (ts[c].ToWork? || ts[c].ToMint?) ==> Reuses(st, p, step, false, ts[c])
    ensures DryCells(st, p, step, false, ts) == StepCells(w, p.pipe, step, ts)
  {
    hide StoreInv, AnchorOf, LatestRow, Reuses, ReusedCell, ReusedChildren, Expected, OutcomeCell, ChildCell, DryCells, StepCells,
         DryChildren, AllChildren, LaneCell, DryCell, Minting;
    forall c | c in ts
      ensures FansOut(st, p, step, false, ts[c]) <==> Minting(w, ts[c]).Some?
      ensures FansOut(st, p, step, false, ts[c]) ==> ReusedChildren(st, p, step, ts[c]) == set h | h in Minting(w, ts[c]).value
      ensures !FansOut(st, p, step, false, ts[c]) ==> DryCell(st, p, step, false, ts[c]) == LaneCell(w, ts[c])
    {
      LaneAsRun(w, st, p, step, ts[c]);
    }
    forall h ensures h in DryChildren(st, p, step, false, ts) <==> h in AllChildren(w, ts) {
      SameChildren(w, st, p, step, ts, h);
    }
    forall h | h in AllChildren(w, ts)
      ensures ReusedCell(st, ChildAddress(p.pipe, step.Identity(), h)) == ChildCell(w, p.pipe, step.Identity(), h)
    {
      var c := ChildOfSome(st, p, step, ts, h);
      ReplayedHit(st, p, step, ts[c], h);
      ReusedIsOutcome(w, st, ChildAddress(p.pipe, step.Identity(), h));
      ChildIsOutcome(w, p.pipe, step, h);
    }
    SameCellsNoted(w, st, p, step, ts);
  }

  lemma ChildOfSome(st: Store, p: Planner, step: Step, ts: map<Coord, Target>, h: Hash) returns (c: Coord)
    requires h in DryChildren(st, p, step, false, ts)
    ensures c in ts && FansOut(st, p, step, false, ts[c]) && h in ReusedChildren(st, p, step, ts[c])
  {
    hide Reuses, ReusedChildren;
    c :| c in ts && FansOut(st, p, step, false, ts[c]) && h in ReusedChildren(st, p, step, ts[c]);
  }

  lemma SameCellsNoted(w: World, st: Store, p: Planner, step: Step, ts: map<Coord, Target>)
    requires forall c :: c in ts ==> (FansOut(st, p, step, false, ts[c]) <==> Minting(w, ts[c]).Some?)
    requires forall c :: c in ts && !FansOut(st, p, step, false, ts[c]) ==> DryCell(st, p, step, false, ts[c]) == LaneCell(w, ts[c])
    requires forall h :: h in DryChildren(st, p, step, false, ts) <==> h in AllChildren(w, ts)
    requires forall h :: h in AllChildren(w, ts) ==>
               ReusedCell(st, ChildAddress(p.pipe, step.Identity(), h)) == ChildCell(w, p.pipe, step.Identity(), h)
    ensures DryCells(st, p, step, false, ts) == StepCells(w, p.pipe, step, ts)
  {
    hide FansOut, Minting, DryCell, LaneCell, DryChildren, AllChildren, ReusedCell, ChildCell, ChildAddress, DryCells, StepCells;
    var dry, own := DryCells(st, p, step, false, ts), StepCells(w, p.pipe, step, ts);
    forall c ensures (c, step.name) in dry <==> (c, step.name) in own
             ensures (c, step.name) in dry ==> dry[(c, step.name)] == own[(c, step.name)]
    {
      DryLane(st, p, step, false, ts, c);
      StepLane(w, p.pipe, step, ts, c);
    }
    SameAtName(dry, own, step.name);
  }

  lemma SameAtName(a: Cells, b: Cells, name: string)
    requires forall k :: k in a ==> k.1 == name
    requires forall k :: k in b ==> k.1 == name
    requires forall c :: ((c, name) in a <==> (c, name) in b) && ((c, name) in a ==> a[(c, name)] == b[(c, name)])
    ensures a == b
  {
    forall k | k in a ensures k in b && a[k] == b[k] {
      assert k == (k.0, name);
    }
    forall k | k in b ensures k in a {
      assert k == (k.0, name);
    }
  }

  lemma StepLane(w: World, pipe: string, step: Step, ts: map<Coord, Target>, c: Coord)
    ensures var own := StepCells(w, pipe, step, ts);
            var child, lane := c.Row? && c.h in AllChildren(w, ts), c in ts && Minting(w, ts[c]).None?;
            && ((c, step.name) in own <==> child || lane)
            && (child ==> own[(c, step.name)] == ChildCell(w, pipe, step.Identity(), c.h))
            && (!child && lane ==> own[(c, step.name)] == LaneCell(w, ts[c]))
  {
    hide Minting, AllChildren, ChildCell, LaneCell;
    if c.Row? && c.h in AllChildren(w, ts) {
      assert (Row(c.h), step.name) == (c, step.name);
    }
  }

  lemma SameChildren(w: World, st: Store, p: Planner, step: Step, ts: map<Coord, Target>, h: Hash)
    requires forall c :: c in ts ==> (FansOut(st, p, step, false, ts[c]) <==> Minting(w, ts[c]).Some?)
    requires forall c :: c in ts && FansOut(st, p, step, false, ts[c]) ==>
               ReusedChildren(st, p, step, ts[c]) == set g | g in Minting(w, ts[c]).value
    ensures h in DryChildren(st, p, step, false, ts) <==> h in AllChildren(w, ts)
  {
    hide Reuses, Minting, ReusedChildren;
    if h in DryChildren(st, p, step, false, ts) {
      var c :| c in ts && FansOut(st, p, step, false, ts[c]) && h in ReusedChildren(st, p, step, ts[c]);
      assert h in Minting(w, ts[c]).value;
    }
    if h in AllChildren(w, ts) {
      var c :| c in ts && Minting(w, ts[c]).Some? && h in Minting(w, ts[c]).value;
      assert h in ReusedChildren(st, p, step, ts[c]);
    }
  }

  lemma LaneAsRun(w: World, st: Store, p: Planner, step: Step, t: Target)
    requires StoreInv(w, st) && (t.ToMint? ==> LatestRow(st, t.anchor).None?) && !t.ToBlocked? && !t.ToPending?
    requires t.ToWork? || t.ToMint? ==> Reuses(st, p, step, false, t)
    ensures FansOut(st, p, step, false, t) <==> Minting(w, t).Some?
    ensures FansOut(st, p, step, false, t) ==> ReusedChildren(st, p, step, t) == set h | h in Minting(w, t).value
    ensures !FansOut(st, p, step, false, t) ==> DryCell(st, p, step, false, t) == LaneCell(w, t)
  {
    hide StoreInv, AnchorOf, LatestRow, ReplayedChildren, ReusedCell, ReusedChildren, Expected, OutcomeCell;
    if t.ToMint? {
      ReplayedHashes(w, st, p, step, t);
    } else if t.ToWork? {
      ReusedIsOutcome(w, st, t.address);
    }
  }

  /** What the dry run knows after n steps is what the run found. */
  lemma {:induction false} DryIsRun(w: World, origin: Store, after: Store, p: Planner, steps: seq<Step>, cells: Cells, decided: seq<Decision>, n: nat)
    requires Admissible(w, origin, p, steps) && CleanRun(w, p, steps) == Some(cells) && NoFailure(cells)
    requires PlannedOnce(p, steps, 0, |steps|, cells, decided) && Durable(w, after, p.pipe, steps, |steps|, cells, decided)
    requires StoreInv(w, Apply(w.spills, after, Crash)) && (forall i :: 0 <= i < |steps| ==> !steps[i].force) && n <= |steps|
    ensures CleanRun(w, p, steps[..n]).Some?
    ensures Dry(Apply(w.spills, after, Crash), p, steps[..n], false) == CleanRun(w, p, steps[..n])
  {
    hide PlanOn, StepCells, Admissible, NoFailure, PlannedOnce, Durable, StoreInv, Noted, Stumbles, Apply;
    assert steps[..|steps|] == steps;
    CleanPrefix(w, p, steps, |steps|, n);
    if n > 0 {
      var m := n - 1;
      assert steps[..n][..m] == steps[..m] && steps[..n][m] == steps[m];
      DryIsRun(w, origin, after, p, steps, cells, decided, m);
      NextAsRun(w, origin, after, p, steps, cells, decided, m);
    }
  }

  lemma NextAsRun(w: World, origin: Store, after: Store, p: Planner, steps: seq<Step>, cells: Cells, decided: seq<Decision>, i: nat)
    requires Admissible(w, origin, p, steps) && CleanRun(w, p, steps) == Some(cells) && NoFailure(cells)
    requires PlannedOnce(p, steps, 0, |steps|, cells, decided) && Durable(w, after, p.pipe, steps, |steps|, cells, decided)
    requires StoreInv(w, Apply(w.spills, after, Crash)) && i < |steps| && !steps[i].force
    requires CleanRun(w, p, steps[..i]).Some? && Plan(p, steps[i], CleanRun(w, p, steps[..i]).value).Some?
    ensures var before, next := CleanRun(w, p, steps[..i]).value, Apply(w.spills, after, Crash);
            && Noted(next, p, steps[i], false, before) == StepCells(w, p.pipe, steps[i], Plan(p, steps[i], before).value)
            && !Stumbles(next, p, steps[i], false, Plan(p, steps[i], before).value)
  {
    hide CleanRun, PlanOn, StepCells, NoFailure, PlannedOnce, Durable, StoreInv, Noted, Stumbles, Apply, Reuses, Ordered, ApartAlways, Fits,
         LeftOutput, AnchorsFree, AnyPending;
    var before, next := CleanRun(w, p, steps[..i]).value, Apply(w.spills, after, Crash);
    assert steps[..|steps|] == steps;
    PlannedAt(w, p, steps, |steps|, i);
    CleanNeverPends(w, p, steps[..i]);
    AloneNext(w, after, p, steps, |steps|, cells, decided, i);
    var ts := Plan(p, steps[i], before).value;
    forall c | c in ts
      ensures !ts[c].ToBlocked? && ((ts[c].ToWork? || ts[c].ToMint?) ==> Reuses(next, p, steps[i], false, ts[c]))
    {
      SlotAnnounced(w, origin, after, p, steps, cells, decided, i, c);
    }
    NotedAsRun(w, next, p, steps[i], before);
  }

  /** A slot of a run without failures can be reused after it. */
  lemma SlotAnnounced(w: World, origin: Store, after: Store, p: Planner, steps: seq<Step>, cells: Cells, decided: seq<Decision>, i: nat, c: Coord)
    requires Admissible(w, origin, p, steps) && CleanRun(w, p, steps) == Some(cells) && NoFailure(cells)
    requires PlannedOnce(p, steps, 0, |steps|, cells, decided) && Durable(w, after, p.pipe, steps, |steps|, cells, decided)
    requires i < |steps| && !steps[i].force && Plan(p, steps[i], cells).Some? && c in Plan(p, steps[i], cells).value
    ensures var t := Plan(p, steps[i], cells).value[c];
            !t.ToBlocked? && ((t.ToWork? || t.ToMint?) ==> Reuses(Apply(w.spills, after, Crash), p, steps[i], false, t))
  {
    hide CleanRun, PlanOn, Admissible, Durable, Apply, Reuses, Produced, Expected, Minting;
    var t := Plan(p, steps[i], cells).value[c];
    assert steps[..|steps|] == steps;
    PlannedCells(w, origin, p, steps, |steps|, i, c);
    var m :| 0 <= m < |decided| && decided[m].slot == (i, c);
    assert DecidedAs(p, steps, 0, |steps|, cells, decided[m]) && decided[m] in decided;
    if t.ToWork? || t.ToMint? {
      GoodLeavesOutput(w, p.pipe, steps[i], c, t, cells);
      OpenAfterCrash(w, origin, after, p, steps, |steps|, cells, decided, decided[m]);
    } else {
      GoodIsNotBlocked(w, p.pipe, steps[i], c, t, cells);
    }
  }

  lemma GoodLeavesOutput(w: World, pipe: string, step: Step, c: Coord, t: Target, cells: Cells)
    requires t.ToWork? || t.ToMint?
    requires forall k :: k in Produced(w, pipe, step, c, t) ==> k in cells && cells[k] == Produced(w, pipe, step, c, t)[k]
    requires NoFailure(cells)
    ensures LeftOutput(w, t)
  {
    hide Produced, Expected, Minting;
    if t.ToWork? {
      WorkProduced(w, pipe, step, c, t);
    } else {
      FanOutFailed(w, pipe, step, c, t);
    }
  }

  lemma GoodIsNotBlocked(w: World, pipe: string, step: Step, c: Coord, t: Target, cells: Cells)
    requires forall k :: k in Produced(w, pipe, step, c, t) ==> k in cells && cells[k] == Produced(w, pipe, step, c, t)[k]
    requires NoFailure(cells)
    ensures !t.ToBlocked?
  {
    assert t.ToBlocked? ==> (c, step.name) in Produced(w, pipe, step, c, t);
  }

  /**
   plan() right after a run in which nothing failed, even if the process died in between: it knows
   every cell of the run, and announces every slot that has anything to reuse.
   */
  lemma PlanAfterRun(w: World, origin: Store, after: Store, p: Planner, steps: seq<Step>, cells: Cells, decided: seq<Decision>)
    requires Admissible(w, origin, p, steps) && CleanRun(w, p, steps) == Some(cells) && NoFailure(cells)
    requires PlannedOnce(p, steps, 0, |steps|, cells, decided) && Durable(w, after, p.pipe, steps, |steps|, cells, decided)
    requires StoreInv(w, Apply(w.spills, after, Crash)) && forall i :: 0 <= i < |steps| ==> !steps[i].force
    ensures Dry(Apply(w.spills, after, Crash), p, steps, false) == Some(cells)
    ensures forall i: nat, c :: i < |steps| && Plan(p, steps[i], cells).Some? && c in Plan(p, steps[i], cells).value ==>
              var t := Plan(p, steps[i], cells).value[c];
              !t.ToBlocked? && (t.ToWork? || t.ToMint? ==> Announced(Apply(w.spills, after, Crash), p, steps, false, i, c, t))
  {
    hide CleanRun, PlanOn, PlannedOnce, Durable, StoreInv, Apply, Reuses, Dry, NoFailure, Fits, Singles, ApartAlways, Ordered;
    assert steps[..|steps|] == steps;
    DryIsRun(w, origin, after, p, steps, cells, decided, |steps|);
    forall i: nat, c | i < |steps| && Plan(p, steps[i], cells).Some? && c in Plan(p, steps[i], cells).value
      ensures var t := Plan(p, steps[i], cells).value[c];
              !t.ToBlocked? && (t.ToWork? || t.ToMint? ==> Announced(Apply(w.spills, after, Crash), p, steps, false, i, c, t))
    {
      DryIsRun(w, origin, after, p, steps, cells, decided, i);
      DryIsRun(w, origin, after, p, steps, cells, decided, i + 1);
      PlannedAt(w, p, steps, |steps|, i);
      SlotAnnounced(w, origin, after, p, steps, cells, decided, i, c);
    }
  }
}
