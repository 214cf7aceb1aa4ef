/**
 Where plan() and run() part: three inputs on which an announced reuse is never decided, and the
 conditions that tell them apart from the runs `PlanSound` is about.
 */
module PlanLimits {
  import opened Model
  import opened Meaning
  import opened Ledger
  import opened History
  import opened Planning
  import opened Clean
  import opened SingleCoords
  import opened Scopes
  import opened DryRun
  import opened PlanSound
  import opened PlannedRuns

  // ---------------------------------------------------------------------------
  // a run can raise where the dry run did not
  // ---------------------------------------------------------------------------

  /** Some lane that reaches the step has no value in its group field. */
  ghost predicate Ungrouped(p: Planner, step: Step, cells: Cells) {
    step.groupKey.Some?
    && exists d, c :: d in step.deps && HasUsable(cells, c, d) && FieldValues(p.show, cells[(c, d)], step.groupKey.value) == {}
  }

  /**
   A run raises at an aggregate that the dry run could plan exactly if a lane has come up that has
   no group; the dry run then had that step pending.
   */
  lemma AggregateRaises(p: Planner, coords: map<string, Coord>, step: Step, dry: Cells, run: Cells)
    requires Comparable(p, coords, step, dry, run) && step.shape.Aggregate? && Plan(p, step, dry).Some?
    ensures Plan(p, step, run).None? <==> Ungrouped(p, step, run)
    ensures Plan(p, step, run).None? ==> AnyPending(ParentCells(step, dry))
  {
    hide PlanOn, AnyBad, AnyPending, ParentCells, BelowDeps, ScopeFits;
    CollectiveSame(p, coords, step, dry, run);
    NoneBad(step, run);
    NonePending(step, run);
    AggregateRaisesHere(p, step, run);
  }

  lemma AggregateRaisesHere(p: Planner, step: Step, cells: Cells)
    requires step.shape.Aggregate? && step.WellFormed()
    requires !AnyBad(ParentCells(step, cells)) && !AnyPending(ParentCells(step, cells))
    ensures Plan(p, step, cells).None? <==> Ungrouped(p, step, cells)
  {
    hide FieldValues, AnyBad, AnyPending, LaneHashes, Usable, UsableLanes, ParentCells, Ungrouped, GroupKeys, GroupLanes;
    if step.groupKey.Some? {
      UngroupedLanes(p, step, cells, step.groupKey.value);
    } else {
      NothingUngrouped(p, step, cells);
    }
  }

  lemma NothingUngrouped(p: Planner, step: Step, cells: Cells)
    requires step.groupKey.None?
    ensures !Ungrouped(p, step, cells)
  {
  }

  lemma UngroupedLanes(p: Planner, step: Step, cells: Cells, field: string)
    requires step.groupKey == Some(field)
    ensures var lanes := UsableLanes(step, ParentCells(step, cells));
            (exists d | d in lanes :: exists c | c in lanes[d] :: FieldValues(p.show, lanes[d][c], field) == {})
            <==> Ungrouped(p, step, cells)
  {
    hide FieldValues, Usable;
    var own := ParentCells(step, cells);
    var lanes := UsableLanes(step, own);
    if Ungrouped(p, step, cells) {
      var d, c :| d in step.deps && HasUsable(cells, c, d) && FieldValues(p.show, cells[(c, d)], field) == {};
      assert (c, d) in own && c in lanes[d] && lanes[d][c] == cells[(c, d)];
    }
    if d, c :| d in lanes && c in lanes[d] && FieldValues(p.show, lanes[d][c], field) == {} {
      assert HasUsable(cells, c, d);
    }
  }

  function RootAddress(p: Planner, step: Step): Address {
    Address(p.pipe, step.Identity(), RootLane)
  }

  predicate RootMap(step: Step) {
    step.shape.Map? && step.deps == [] && step.cached && step.WellFormed()
  }

  lemma RootMapPlan(p: Planner, step: Step, cells: Cells)
    requires RootMap(step)
    ensures Plan(p, step, cells) == Some(map[Root := ToWork(RootAddress(p, step), NoParents)])
  {
    hide AggregatePlan, JoinPlan, Broadcast;
    var own := ParentCells(step, cells);
    var bcast := Broadcast(p, step, own);
    assert ParentsAt(p, step, own, bcast, Root) == map[];
    assert MapTarget(p, step, own, bcast, Root) == Some(Classify(p.pipe, step, map[]));
    assert Classify(p.pipe, step, map[]) == ToWork(RootAddress(p, step), NoParents);
    var ts := map[Root := ToWork(RootAddress(p, step), NoParents)];
    assert MapCoords(p, step, own) == {Root};
    assert MapPlan(p, step, own, bcast).Some?;
    assert MapPlan(p, step, own, bcast).value == ts;
  }

  lemma RootMapNoted(st: Store, p: Planner, step: Step, cells: Cells)
    requires RootMap(step) && p.scope.Full? && Plan(p, step, cells).Some? && Hit(st, RootAddress(p, step)).None?
    ensures Noted(st, p, step, false, cells) == map[(Root, step.name) := Pending]
  {
    hide PlanOn, Hit;
    RootMapPlan(p, step, cells);
    var ts := Plan(p, step, cells).value;
    assert DryChildren(st, p, step, false, ts) == {};
  }

  lemma DryAppend(st: Store, p: Planner, steps: seq<Step>, step: Step, force: bool)
    ensures var before := Dry(st, p, steps, force);
            Dry(st, p, steps + [step], force) ==
              if before.None? || Plan(p, step, before.value).None?
                 || Stumbles(st, p, step, force, Plan(p, step, before.value).value) then None
              else Some(before.value + Noted(st, p, step, force, before.value))
  {
    hide PlanOn, Noted;
    assert (steps + [step])[..|steps|] == steps;
  }

  /** A lane row where a planned fan-out has its anchor, whose value is true or a number other than zero. */
  ghost predicate RowInTheWay(st: Store, ts: map<Coord, Target>) {
    exists c, row :: c in ts && ts[c].ToMint? && ts[c].anchor in st.live && LatestRow(st, ts[c].anchor) == Some(row) && NoList(st, row)
  }

  predicate NoList(st: Store, row: LaneRow) {
    match row.output
    case Inline(v) => v == Bool(true) || (v.Int? && v.n != 0)
    case Ref(v) => v in st.objects && (v == Bool(true) || (v.Int? && v.n != 0))
  }

  /**
   plan() gets past a step exactly if the step can be planned over what it knows so far and, unless the
   step is forced, no lane row that cannot be taken for a list of children is where a fan-out has its anchor.
   */
  lemma DryRaisesWhen(st: Store, p: Planner, steps: seq<Step>, step: Step, force: bool)
    requires Dry(st, p, steps, force).Some?
    ensures var ts := Plan(p, step, Dry(st, p, steps, force).value);
            Dry(st, p, steps + [step], force).None? <==> ts.None? || (!force && !step.force && RowInTheWay(st, ts.value))
  {
    hide PlanOn, Noted, Dry, LatestRow, AnchorHit;
    DryAppend(st, p, steps, step, force);
    var plan := Plan(p, step, Dry(st, p, steps, force).value);
    if plan.Some? && !force && !step.force {
      var ts := plan.value;
      forall c | c in ts && ts[c].ToMint?
        ensures ListingAt(st, p, ts[c].anchor).Unlistable? <==>
                  ts[c].anchor in st.live && LatestRow(st, ts[c].anchor).Some? && NoList(st, LatestRow(st, ts[c].anchor).value)
      {
      }
    }
  }

  lemma PendingAggregate(st: Store, p: Planner, step: Step, d: string)
    requires step.shape.Aggregate? && step.WellFormed() && step.deps == [d] && !p.scope.Anchored(step.name) && d != step.name
    ensures var dry: Cells := map[(Root, d) := Pending];
            Plan(p, step, dry) == Some(map[All := ToPending])
            && Noted(st, p, step, false, dry) == map[(All, step.name) := Pending]
  {
    hide UsableLanes, FieldValues, GroupKeys, GroupLanes, AggregateTarget, JoinPlan, MapPlan, Reuses;
    var dry: Cells := map[(Root, d) := Pending];
    var own := ParentCells(step, dry);
    assert own == dry;
    assert !AnyBad(own);
    assert (Root, d) in own && AnyPending(own);
    var ts := Plan(p, step, dry).value;
    assert DryChildren(st, p, step, false, ts) == {};
  }

  /** What the dry run knows before the last of the three steps. */
  lemma DryOfTwo(st: Store, p: Planner, s: Step, g: Step)
    requires RootMap(s) && s.name != g.name && p.scope.Full?
    requires g.shape.Aggregate? && g.WellFormed() && g.deps == [s.name]
    requires Hit(st, RootAddress(p, s)).None?
    ensures Dry(st, p, [s, g], false) == Some(map[(Root, s.name) := Pending, (All, g.name) := Pending])
  {
    hide PlanOn, Hit, Noted;
    RootMapPlan(p, s, map[]);
    RootMapNoted(st, p, s, map[]);
    PendingAggregate(st, p, g, s.name);
    DryAppend(st, p, [], s, false);
    DryAppend(st, p, [s], g, false);
    assert [] + [s] == [s] && [s] + [g] == [s, g];
    var first: Cells, second: Cells := map[(Root, s.name) := Pending], map[(All, g.name) := Pending];
    assert map[] + first == first;
    assert Dry(st, p, [s], false) == Some(first);
    assert first + second == map[(Root, s.name) := Pending, (All, g.name) := Pending];
  }

  /**
   A root map that has to execute, an aggregate grouped by a field of its output, and another root
   map whose output is there.  The dry run calls the last one reuse.  If the first one returns an
   output without the field, planning the aggregate raises, and the last step is never planned.
   */
  lemma AnnouncedButNeverPlanned(st: Store, p: Planner, s: Step, g: Step, r: Step, field: string)
    requires RootMap(s) && RootMap(r) && s.name != g.name && s.name != r.name && g.name != r.name && p.scope.Full?
    requires g.shape.Aggregate? && g.WellFormed() && g.deps == [s.name] && g.groupKey == Some(field)
    requires Hit(st, RootAddress(p, s)).None? && Hit(st, RootAddress(p, r)).Some? && !r.force
    ensures Announced(st, p, [s, g, r], false, 2, Root, ToWork(RootAddress(p, r), NoParents))
    ensures var returned: Cells := map[(Root, s.name) := Mat(RootAddress(p, s), Content(Obj(map[])), Inline(Obj(map[])), false)];
            RunStep(st, p, s, false, map[], returned) && Plan(p, g, returned).None?
  {
    hide PlanOn, Hit, Noted, Dry, RunStep;
    var steps := [s, g, r];
    DryOfTwo(st, p, s, g);
    var before: Cells := map[(Root, s.name) := Pending, (All, g.name) := Pending];
    RootMapPlan(p, r, before);
    DryAppend(st, p, [s, g], r, false);
    assert steps[..2] == [s, g] && steps[..3] == [s, g] + [r];
    RaisesOnEmpty(st, p, s, g, field);
  }

  lemma RaisesOnEmpty(st: Store, p: Planner, s: Step, g: Step, field: string)
    requires RootMap(s) && s.name != g.name
    requires g.shape.Aggregate? && g.WellFormed() && g.deps == [s.name] && g.groupKey == Some(field)
    requires Hit(st, RootAddress(p, s)).None?
    ensures var returned: Cells := map[(Root, s.name) := Mat(RootAddress(p, s), Content(Obj(map[])), Inline(Obj(map[])), false)];
            RunStep(st, p, s, false, map[], returned) && Plan(p, g, returned).None?
  {
    hide PlanOn, Hit;
    var returned: Cells := map[(Root, s.name) := Mat(RootAddress(p, s), Content(Obj(map[])), Inline(Obj(map[])), false)];
    RootMapPlan(p, s, map[]);
    assert LaneRan(st, p, s, false, Root, ToWork(RootAddress(p, s), NoParents), returned);
    AggregateRaisesHere(p, g, returned);
    assert HasUsable(returned, Root, s.name);
  }

  // ---------------------------------------------------------------------------
  // a cohort anchored at a broadcast step and carried into many lanes
  // ---------------------------------------------------------------------------

  /**
   A root expand `e`, an aggregate `g` of its lanes, a map `a` of the aggregate, a map `m` of `a` and
   the lanes, and an aggregate `t` of `m`.
   */
  predicate Pipeline(e: Step, g: Step, a: Step, m: Step, t: Step) {
    && e.shape.Expand? && e.WellFormed() && e.deps == []
    && g.shape.Aggregate? && g.WellFormed() && g.groupKey.None? && g.deps == [e.name]
    && a.shape.Map? && a.WellFormed() && a.cached && !a.declarative && a.deps == [g.name]
    && m.shape.Map? && m.WellFormed() && m.cached && !m.declarative && m.deps == [a.name, e.name]
    && t.shape.Aggregate? && t.WellFormed() && t.groupKey.None? && t.deps == [m.name] && !t.force
    && e.name != g.name && e.name != a.name && e.name != m.name && e.name != t.name
    && g.name != a.name && g.name != m.name && g.name != t.name
    && a.name != m.name && a.name != t.name && m.name != t.name
  }

  /** The cohort: the aggregate's one lane and a row, anchored at `a`. */
  predicate CohortOf(p: Planner, g: Step, a: Step, m: Step, t: Step, h: Hash) {
    p.scope == Cohort(a.name, {a.name, m.name}, {All, Row(h)}) && p.singles == {g.name, a.name, t.name}
  }

  lemma SinglesAppend(steps: seq<Step>, step: Step)
    ensures var before := Singles(steps);
            Singles(steps + [step]) ==
              if (step.shape.Map? && forall d :: d in step.deps ==> d in before) || (step.shape.Aggregate? && step.groupKey.None?)
              then before + {step.name} else before
  {
    assert (steps + [step])[..|steps|] == steps;
  }

  lemma CarriersAppend(steps: seq<Step>, anchor: string, step: Step)
    ensures var before := Carriers(steps, anchor);
            Carriers(steps + [step], anchor) ==
              if step.name == anchor || (step.shape.Map? && exists d :: d in step.deps && d in before)
              then before + {step.name} else before
  {
    assert (steps + [step])[..|steps|] == steps;
  }

  lemma Prefixes(e: Step, g: Step, a: Step, m: Step, t: Step)
    ensures [] + [e] == [e] && [e] + [g] == [e, g] && [e, g] + [a] == [e, g, a] && [e, g, a] + [m] == [e, g, a, m]
    ensures [e, g, a, m] + [t] == [e, g, a, m, t]
    ensures var steps := [e, g, a, m, t];
            steps[..0] == [] && steps[..1] == [e] && steps[..2] == [e, g] && steps[..3] == [e, g, a]
            && steps[..4] == [e, g, a, m] && steps[..5] == steps
  {
  }

  lemma SinglesOfPipeline(e: Step, g: Step, a: Step, m: Step, t: Step)
    requires Pipeline(e, g, a, m, t)
    ensures Singles([e]) == {} && Singles([e, g]) == {g.name} && Singles([e, g, a]) == {g.name, a.name}
    ensures Singles([e, g, a, m]) == {g.name, a.name} && Singles([e, g, a, m, t]) == {g.name, a.name, t.name}
  {
    hide Singles;
    Prefixes(e, g, a, m, t);
    NoSingles();
    SinglesAppend([], e);
    SinglesAppend([e], g);
    SinglesAppend([e, g], a);
    SinglesAppend([e, g, a], m);
    assert e.name in m.deps;
    SinglesAppend([e, g, a, m], t);
  }

  lemma NoSingles()
    ensures Singles([]) == {}
  {
  }

  lemma CarriersOfPipeline(e: Step, g: Step, a: Step, m: Step, t: Step)
    requires Pipeline(e, g, a, m, t)
    ensures Carriers([e, g, a, m, t], a.name) == {a.name, m.name}
  {
    hide Carriers;
    Prefixes(e, g, a, m, t);
    NoCarriersBefore([], a.name);
    CarriersAppend([], a.name, e);
    CarriersAppend([e], a.name, g);
    CarriersAppend([e, g], a.name, a);
    CarriersAppend([e, g, a], a.name, m);
    assert a.name in m.deps;
    CarriersAppend([e, g, a, m], a.name, t);
  }

  lemma PipelineIsOrdered(e: Step, g: Step, a: Step, m: Step, t: Step)
    requires Pipeline(e, g, a, m, t)
    ensures Ordered([e, g, a, m, t])
  {
    var steps := [e, g, a, m, t];
    forall i, d | 0 <= i < |steps| && d in steps[i].deps ensures exists j :: 0 <= j < i && steps[j].name == d {
      assert d == steps[if i == 1 then 0 else if i == 2 then 1 else if i == 4 then 3 else if d == a.name then 2 else 0].name;
    }
  }

  lemma PipelineIsUnmixed(e: Step, g: Step, a: Step, m: Step, t: Step)
    requires Pipeline(e, g, a, m, t)
    ensures Unmixed([e, g, a, m, t])
  {
    hide CoordsOf;
    var steps := [e, g, a, m, t];
    Prefixes(e, g, a, m, t);
    SinglesOfPipeline(e, g, a, m, t);
    forall i | 0 <= i < |steps| && steps[i].shape.Map? && (forall d :: d in steps[i].deps ==> d in CoordsOf(steps[..i]))
      ensures forall d, d' :: d in steps[i].deps && d' in steps[i].deps ==> CoordsOf(steps[..i])[d] == CoordsOf(steps[..i])[d']
    {
      assert e.name in m.deps;
    }
  }

  // the dry run

  lemma ExpandPlan(p: Planner, e: Step, cells: Cells)
    requires e.shape.Expand? && e.WellFormed() && e.deps == []
    ensures Plan(p, e, cells) == Some(map[Root := ToMint(RootAddress(p, e), NoParents)])
  {
    hide AggregatePlan, JoinPlan, Broadcast;
    var own := ParentCells(e, cells);
    var bcast := Broadcast(p, e, own);
    assert ParentsAt(p, e, own, bcast, Root) == map[];
    assert MapTarget(p, e, own, bcast, Root) == Some(Classify(p.pipe, e, map[]));
    assert Classify(p.pipe, e, map[]) == ToMint(RootAddress(p, e), NoParents);
    assert MapCoords(p, e, own) == {Root};
    assert MapPlan(p, e, own, bcast).value == map[Root := ToMint(RootAddress(p, e), NoParents)];
  }

  lemma PendingExpand(st: Store, p: Planner, e: Step)
    requires e.shape.Expand? && e.WellFormed() && e.deps == [] && !p.scope.Anchored(e.name)
    requires ListingAt(st, p, RootAddress(p, e)).NoListing?
    ensures Plan(p, e, map[]).Some? && Noted(st, p, e, false, map[]) == map[(Root, e.name) := Pending]
    ensures !Stumbles(st, p, e, false, Plan(p, e, map[]).value)
  {
    hide PlanOn, ListingAt;
    ExpandPlan(p, e, map[]);
    var ts := Plan(p, e, map[]).value;
    assert DryChildren(st, p, e, false, ts) == {};
  }

  lemma PendingAnchor(st: Store, p: Planner, g: Step, a: Step, m: Step, t: Step, h: Hash, dry: Cells)
    requires CohortOf(p, g, a, m, t, h) && a.shape.Map? && a.WellFormed() && !a.declarative && a.deps == [g.name] && g.name != a.name
    requires ParentCells(a, dry) == map[(All, g.name) := Pending]
    ensures Plan(p, a, dry) == Some(map[All := ToPending])
    ensures Noted(st, p, a, false, dry) == map[(All, a.name) := Pending, (Row(h), a.name) := Pending]
  {
    hide PlanOn, Seen, Classify, ScanDeps;
    assert (All, g.name) in ParentCells(a, dry);
    assert forall k :: k in dry && k.1 == g.name ==> k in ParentCells(a, dry);
    OneSingleScan(p, a, g.name);
    OneLanePlanned(p, a, dry, All, g.name);
    LanePlan(p, a, dry);
    SeenKeys(p, a, dry, All);
    var at := SeenFrom(p, a, dry, All, g.name);
    PendingKind(p.pipe, a, Seen(p, a, dry, All), g.name);
    assert Plan(p, a, dry).value == map[All := ToPending];
    AnchorNoted(st, p, g, a, m, t, h, dry);
  }

  lemma PendingKind(pipe: string, step: Step, ps: map<string, Cell>, d: string)
    requires ps.Keys == {d} && ps[d] == Pending
    ensures Classify(pipe, step, ps) == ToPending
  {
  }

  lemma AnchorNoted(st: Store, p: Planner, g: Step, a: Step, m: Step, t: Step, h: Hash, dry: Cells)
    requires CohortOf(p, g, a, m, t, h) && Plan(p, a, dry) == Some(map[All := ToPending])
    requires ParentCells(a, dry) == map[(All, g.name) := Pending]
    ensures Noted(st, p, a, false, dry) == map[(All, a.name) := Pending, (Row(h), a.name) := Pending]
  {
    hide PlanOn, ParentCells, DryCells, Placeholders;
    PendingLaneNoted(st, p, a);
    RowHeld(p, g, a, m, t, h, dry);
  }

  lemma PendingLaneNoted(st: Store, p: Planner, a: Step)
    ensures DryCells(st, p, a, false, map[All := ToPending]) == map[(All, a.name) := Pending]
  {
    var ts: map<Coord, Target> := map[All := ToPending];
    assert DryChildren(st, p, a, false, ts) == {};
  }

  lemma RowHeld(p: Planner, g: Step, a: Step, m: Step, t: Step, h: Hash, dry: Cells)
    requires CohortOf(p, g, a, m, t, h) && ParentCells(a, dry) == map[(All, g.name) := Pending]
    ensures Placeholders(p, a, dry, map[All := ToPending]) == map[(Row(h), a.name) := Pending]
  {
    hide ParentCells;
    var ts: map<Coord, Target> := map[All := ToPending];
    assert ParentCells(a, dry)[(All, g.name)].Pending?;
    assert p.scope.lanes - ts.Keys == {Row(h)};
  }

  lemma OneSingleScan(p: Planner, step: Step, d: string)
    requires step.deps == [d] && d in p.singles
    ensures ScanDeps(p, step) == {d}
  {
    assert (set d | d in step.deps && d !in p.singles) == {};
    assert (set d | d in step.deps) == {d};
  }

  lemma ScansRows(p: Planner, a: string, e: string, m: Step)
    requires a in p.singles && e !in p.singles && m.deps == [a, e]
    ensures ScanDeps(p, m) == {e}
  {
    assert (set d | d in m.deps && d !in p.singles) == {e};
  }

  /** The row that is to come is in the cohort, the lane that stands for it is not. */
  lemma NoLanesPlanned(st: Store, p: Planner, e: Step, g: Step, a: Step, m: Step, t: Step, h: Hash, dry: Cells)
    requires Pipeline(e, g, a, m, t) && CohortOf(p, g, a, m, t, h)
    requires forall c :: (c, e.name) in dry ==> c == Root
    ensures Plan(p, m, dry) == Some(map[]) && Noted(st, p, m, false, dry) == map[]
  {
    hide AggregatePlan, JoinPlan, Broadcast, MapTarget, ScanDeps, Noted;
    ScansRows(p, a.name, e.name, m);
    assert MapCoords(p, m, ParentCells(m, dry)) == {};
    NothingNoted(st, p, m, dry);
  }

  lemma NothingNoted(st: Store, p: Planner, step: Step, dry: Cells)
    requires Plan(p, step, dry) == Some(map[]) && !p.scope.Anchored(step.name)
    ensures Noted(st, p, step, false, dry) == map[]
  {
    hide PlanOn;
    assert DryChildren(st, p, step, false, map[]) == {};
  }

  lemma Unobstructed(st: Store, p: Planner, step: Step, ts: map<Coord, Target>)
    requires forall c :: c in ts ==> !ts[c].ToMint?
    ensures !Stumbles(st, p, step, false, ts)
  {
  }

  function AllPending(e: Step, g: Step, a: Step, h: Hash): Cells {
    map[(Root, e.name) := Pending, (All, g.name) := Pending, (All, a.name) := Pending, (Row(h), a.name) := Pending]
  }

  lemma DryOfLanes(st: Store, p: Planner, e: Step, g: Step, a: Step, m: Step, t: Step, h: Hash)
    requires Pipeline(e, g, a, m, t) && CohortOf(p, g, a, m, t, h)
    requires ListingAt(st, p, RootAddress(p, e)).NoListing?
    ensures Dry(st, p, [e, g], false) == Some(map[(Root, e.name) := Pending, (All, g.name) := Pending])
  {
    hide PlanOn, Noted, ListingAt, Stumbles, Dry, AnyPending, AnyBad;
    Prefixes(e, g, a, m, t);
    NothingDry(st, p);
    PendingExpand(st, p, e);
    DryAppend(st, p, [], e, false);
    var one: Cells := map[(Root, e.name) := Pending];
    assert map[] + one == one;
    PendingAggregate(st, p, g, e.name);
    Unobstructed(st, p, g, Plan(p, g, one).value);
    DryAppend(st, p, [e], g, false);
    assert one + map[(All, g.name) := Pending] == map[(Root, e.name) := Pending, (All, g.name) := Pending];
  }

  lemma DryOfPipeline(st: Store, p: Planner, e: Step, g: Step, a: Step, m: Step, t: Step, h: Hash)
    requires Pipeline(e, g, a, m, t) && CohortOf(p, g, a, m, t, h)
    requires ListingAt(st, p, RootAddress(p, e)).NoListing?
    ensures Dry(st, p, [e, g, a, m], false) == Some(AllPending(e, g, a, h))
  {
    hide PlanOn, Noted, ListingAt, Stumbles, Dry, AnyPending, AnyBad;
    Prefixes(e, g, a, m, t);
    DryOfLanes(st, p, e, g, a, m, t, h);
    var two: Cells := map[(Root, e.name) := Pending, (All, g.name) := Pending];
    assert ParentCells(a, two) == map[(All, g.name) := Pending];
    PendingAnchor(st, p, g, a, m, t, h, two);
    Unobstructed(st, p, a, Plan(p, a, two).value);
    DryAppend(st, p, [e, g], a, false);
    assert two + map[(All, a.name) := Pending, (Row(h), a.name) := Pending] == AllPending(e, g, a, h);
    NoLanesPlanned(st, p, e, g, a, m, t, h, AllPending(e, g, a, h));
    Unobstructed(st, p, m, map[]);
    DryAppend(st, p, [e, g, a], m, false);
    assert AllPending(e, g, a, h) + map[] == AllPending(e, g, a, h);
  }

  lemma NothingDry(st: Store, p: Planner)
    ensures Dry(st, p, [], false) == Some(map[])
  {
  }

  // the run

  /** A step planned at one lane, executed there. */
  lemma WorkRan(st: Store, p: Planner, step: Step, before: Cells, c: Coord, cell: Cell)
    requires Plan(p, step, before).Some? && Plan(p, step, before).value.Keys == {c}
    requires var t := Plan(p, step, before).value[c]; t.ToWork? && Hit(st, t.address).None?
    requires !cell.Pending? && forall k :: k in before ==> k.1 != step.name
    ensures RunStep(st, p, step, false, before, before[(c, step.name) := cell])
  {
    hide PlanOn, Hit, DryChildren;
    var ts, after := Plan(p, step, before).value, before[(c, step.name) := cell];
    assert LaneRan(st, p, step, false, c, ts[c], after);
    assert LaneCame(st, p, step, false, ts, c, after);
  }

  lemma RowMinted(st: Store, p: Planner, e: Step, h: Hash, row: Cell)
    requires e.shape.Expand? && e.WellFormed() && e.deps == [] && !row.Pending?
    requires ListingAt(st, p, RootAddress(p, e)).NoListing?
    ensures RunStep(st, p, e, false, map[], map[(Row(h), e.name) := row])
  {
    hide PlanOn, ListingAt, DryChildren;
    ExpandPlan(p, e, map[]);
    var ts := Plan(p, e, map[]).value;
    var after: Cells := map[(Row(h), e.name) := row];
    assert ReplayedChildren(st, p, e.Identity(), RootAddress(p, e)).None?;
    assert LaneRan(st, p, e, false, Root, ts[Root], after);
    assert Root in ts && ts[Root].ToMint? && Executes(st, p, e, false, ts[Root]) && (Root, e.name) !in after;
    assert LaneCame(st, p, e, false, ts, Row(h), after);
  }

  /** A map planned at one lane from parents that are all there. */
  lemma AnchorPlan(p: Planner, g: Step, a: Step, m: Step, t: Step, h: Hash, cells: Cells)
    requires CohortOf(p, g, a, m, t, h) && a.shape.Map? && a.WellFormed() && a.cached && !a.declarative && a.deps == [g.name]
    requires (All, g.name) in cells && Usable(cells[(All, g.name)]) && forall k :: k in cells && k.1 == g.name ==> k == (All, g.name)
    ensures Plan(p, a, cells).Some? && Plan(p, a, cells).value.Keys == {All} && Plan(p, a, cells).value[All].ToWork?
  {
    hide PlanOn, Usable, Seen, Classify, ScanDeps, Arrange, IsFiltered;
    OneSingleScan(p, a, g.name);
    OneLanePlanned(p, a, cells, All, g.name);
    UsableKinds(cells[(All, g.name)]);
    LanePlan(p, a, cells);
    SeenThere(p, a, cells, All);
    WorkOf(p.pipe, a, Seen(p, a, cells, All));
  }

  lemma RowPlan(p: Planner, e: Step, g: Step, a: Step, m: Step, t: Step, h: Hash, cells: Cells)
    requires Pipeline(e, g, a, m, t) && CohortOf(p, g, a, m, t, h)
    requires (All, a.name) in cells && (Row(h), e.name) in cells
    requires Usable(cells[(All, a.name)]) && Usable(cells[(Row(h), e.name)])
    requires forall k :: k in cells && (k.1 == a.name || k.1 == e.name) ==> k == (All, a.name) || k == (Row(h), e.name)
    ensures Plan(p, m, cells).Some? && Plan(p, m, cells).value.Keys == {Row(h)} && Plan(p, m, cells).value[Row(h)].ToWork?
  {
    hide PlanOn, Usable, Seen, Classify, ScanDeps, Arrange, IsFiltered;
    ScansRows(p, a.name, e.name, m);
    OneLanePlanned(p, m, cells, Row(h), e.name);
    LanePlan(p, m, cells);
    SeenThere(p, m, cells, Row(h));
    WorkOf(p.pipe, m, Seen(p, m, cells, Row(h)));
  }

  lemma OneLanePlanned(p: Planner, step: Step, cells: Cells, c: Coord, d: string)
    requires step.shape.Map? && step.WellFormed() && step.deps != []
    requires ScanDeps(p, step) == {d} && d in step.deps && p.scope.Admits(step.name, c)
    requires (c, d) in cells && forall k :: k in cells && k.1 == d ==> k == (c, d)
    requires forall e :: e in step.deps ==> (e in p.singles && exists c' :: (c', e) in cells) || (e !in p.singles && (c, e) in cells)
    ensures Plan(p, step, cells).Some? && Plan(p, step, cells).value.Keys == {c}
  {
    hide Classify, AggregatePlan, JoinPlan, Broadcast, ScanDeps;
    var own := ParentCells(step, cells);
    var bcast := Broadcast(p, step, own);
    assert (c, d) in own;
    assert MapCoords(p, step, own) == {c};
    forall e | e in step.deps ensures e in ParentsAt(p, step, own, bcast, c) {
      if e in p.singles {
        var c' :| (c', e) in cells;
        assert (c', e) in own && e in bcast;
      } else {
        assert (c, e) in own;
      }
    }
  }

  lemma SeenThere(p: Planner, step: Step, cells: Cells, c: Coord)
    requires forall k :: k in cells && k.1 in step.deps ==> Usable(cells[k])
    ensures forall d :: d in Seen(p, step, cells, c) ==> Usable(Seen(p, step, cells, c)[d])
  {
    hide Seen, Usable;
    SeenKeys(p, step, cells, c);
    forall d | d in Seen(p, step, cells, c) ensures Usable(Seen(p, step, cells, c)[d]) {
      var at := SeenFrom(p, step, cells, c, d);
    }
  }

  lemma WorkOf(pipe: string, step: Step, ps: map<string, Cell>)
    requires step.shape.Map? && step.cached && forall d :: d in ps ==> Usable(ps[d])
    ensures Classify(pipe, step, ps).ToWork?
  {
    hide Arrange, InputOf;
    forall d | d in ps ensures !IsFiltered(ps[d]) && !Bad(ps[d]) && !ps[d].Pending? {
      UsableKinds(ps[d]);
    }
  }

  /** What the lanes returned, step after step. */
  function Returned(e: Step, g: Step, a: Step, m: Step, h: Hash, row: Cell, sum: Cell, one: Cell, out: Cell, n: nat): Cells
    requires n <= 4
  {
    if n == 0 then map[]
    else if n == 1 then map[(Row(h), e.name) := row]
    else if n == 2 then map[(Row(h), e.name) := row, (All, g.name) := sum]
    else if n == 3 then map[(Row(h), e.name) := row, (All, g.name) := sum, (All, a.name) := one]
    else map[(Row(h), e.name) := row, (All, g.name) := sum, (All, a.name) := one, (Row(h), m.name) := out]
  }

  function Finished(st: Store, e: Step, g: Step, a: Step, m: Step, h: Hash, row: Cell, sum: Cell, one: Cell, out: Cell): Execution {
    Execution(seq(5, _ => (c: Coord) => st),
              seq(5, n requires 0 <= n < 5 => Returned(e, g, a, m, h, row, sum, one, out, n)))
  }

  /** The only output there is belongs to another step. */
  ghost predicate OnlyRow(st: Store, only: Address) {
    && (forall a :: Hit(st, a).Some? <==> a == only)
    && (forall a :: AnchorHit(st, a).None?)
  }

  lemma NotTheOne(st: Store, p: Planner, step: Step, cells: Cells, only: Address)
    requires OnlyRow(st, only) && Plan(p, step, cells).Some? && step.name != only.code.step
    ensures forall c :: c in Plan(p, step, cells).value && Plan(p, step, cells).value[c].ToWork? ==>
              Hit(st, Plan(p, step, cells).value[c].address).None?
  {
    hide PlanOn, Hit, AnchorHit;
    PlansOwnAddresses(p, step, cells);
    forall c | c in Plan(p, step, cells).value && Plan(p, step, cells).value[c].ToWork?
      ensures Hit(st, Plan(p, step, cells).value[c].address).None?
    {
      assert Addressed(p, step, Plan(p, step, cells).value[c]);
    }
  }

  lemma PipelineRan(st: Store, p: Planner, e: Step, g: Step, a: Step, m: Step, t: Step, h: Hash,
                    row: Cell, sum: Cell, one: Cell, out: Cell, only: Address, i: nat)
    requires Pipeline(e, g, a, m, t) && CohortOf(p, g, a, m, t, h)
    requires Usable(row) && Usable(sum) && Usable(one) && Usable(out)
    requires OnlyRow(st, only) && only.code.step == t.name && ListingAt(st, p, RootAddress(p, e)).NoListing? && i < 4
    ensures RunStep(st, p, [e, g, a, m, t][i], false, Returned(e, g, a, m, h, row, sum, one, out, i),
                    Returned(e, g, a, m, h, row, sum, one, out, i + 1))
  {
    hide PlanOn, Hit, ListingAt, RunStep, OnlyRow, Usable, AggregateTarget;
    UsableKinds(row);
    UsableKinds(sum);
    UsableKinds(one);
    UsableKinds(out);
    var before := Returned(e, g, a, m, h, row, sum, one, out, i);
    if i == 0 {
      RowMinted(st, p, e, h, row);
    } else if i == 1 {
      OneLaneToCollect(p, g, e.name, Row(h), before);
      Collects(p, g, map[e.name := map[Row(h) := before[(Row(h), e.name)]]]);
      NotTheOne(st, p, g, before, only);
      WorkRan(st, p, g, before, All, sum);
    } else if i == 2 {
      AnchorPlan(p, g, a, m, t, h, before);
      NotTheOne(st, p, a, before, only);
      WorkRan(st, p, a, before, All, one);
    } else {
      RowPlan(p, e, g, a, m, t, h, before);
      NotTheOne(st, p, m, before, only);
      WorkRan(st, p, m, before, Row(h), out);
    }
  }

  lemma Collects(p: Planner, step: Step, lanes: map<string, map<Coord, Cell>>)
    ensures AggregateTarget(p.pipe, step, lanes).ToWork?
  {
  }

  lemma PipelineCompared(st: Store, p: Planner, e: Step, g: Step, a: Step, m: Step, t: Step, h: Hash,
                         row: Cell, sum: Cell, one: Cell, out: Cell, only: Address)
    requires Pipeline(e, g, a, m, t) && CohortOf(p, g, a, m, t, h)
    requires Usable(row) && Usable(sum) && Usable(one) && Usable(out)
    requires OnlyRow(st, only) && only.code.step == t.name && ListingAt(st, p, RootAddress(p, e)).NoListing?
    ensures var steps, x := [e, g, a, m, t], Finished(st, e, g, a, m, h, row, sum, one, out);
            Comparing(st, p, steps, false, x) && NamesFresh(st, p, steps, false, x)
  {
    hide Hit, ListingAt, OnlyRow, RunStep, RunStepAt, KeepsGate, Usable, AnyBad, Returned, Pipeline, CohortOf, NamesFresh;
    var steps, x := [e, g, a, m, t], Finished(st, e, g, a, m, h, row, sum, one, out);
    forall i: nat | i < 4 ensures RunStepAt(x.stores[i], p, steps[i], false, x.cells[i], x.cells[i + 1]) {
      PipelineRan(st, p, e, g, a, m, t, h, row, sum, one, out, only, i);
      AtOneMoment(st, p, steps[i], false, x.cells[i], x.cells[i + 1]);
    }
    NothingReturned(e, g, a, m, h, row, sum, one, out);
    assert Ran(p, steps, false, x);
    forall i: nat | i < 5 ensures KeepsGate(st, st, p, steps[i]) && !AnyBad(x.cells[i]) {
      SameStoreKeeps(st, p, steps[i]);
      NoneFailed(e, g, a, m, h, row, sum, one, out, i);
    }
    LaneGone(e, g, a, m, h, row, sum, one, out);
    RootExpandIsFresh(st, p, e, g, a, m, t, x);
  }

  lemma NothingReturned(e: Step, g: Step, a: Step, m: Step, h: Hash, row: Cell, sum: Cell, one: Cell, out: Cell)
    ensures Returned(e, g, a, m, h, row, sum, one, out, 0) == map[]
  {
  }

  lemma LaneGone(e: Step, g: Step, a: Step, m: Step, h: Hash, row: Cell, sum: Cell, one: Cell, out: Cell)
    ensures (Root, e.name) !in Returned(e, g, a, m, h, row, sum, one, out, 1)
  {
  }

  lemma RootExpandIsFresh(st: Store, p: Planner, e: Step, g: Step, a: Step, m: Step, t: Step, x: Execution)
    requires Pipeline(e, g, a, m, t) && Ran(p, [e, g, a, m, t], false, x) && |x.cells| > 1
    requires (Root, e.name) !in x.cells[1]
    ensures NamesFresh(st, p, [e, g, a, m, t], false, x)
  {
    hide PlanOn, Dry, RunStepAt;
    var steps := [e, g, a, m, t];
    assert |x.cells| <= 6;
    ExpandPlan(p, e, x.cells[0]);
    assert forall i :: 0 <= i < |steps| && steps[i].shape.Expand? ==> steps[i].deps == [];
  }

  lemma NoneFailed(e: Step, g: Step, a: Step, m: Step, h: Hash, row: Cell, sum: Cell, one: Cell, out: Cell, n: nat)
    requires n <= 4 && Usable(row) && Usable(sum) && Usable(one) && Usable(out)
    ensures !AnyBad(Returned(e, g, a, m, h, row, sum, one, out, n))
  {
    hide Usable, Bad, AnyBad;
    var first := map[(Row(h), e.name) := row];
    var second := first[(All, g.name) := sum];
    GoodNext(map[], (Row(h), e.name), row);
    GoodNext(first, (All, g.name), sum);
    GoodNext(second, (All, a.name), one);
    GoodNext(second[(All, a.name) := one], (Row(h), m.name), out);
  }

  lemma GoodNext(cells: Cells, k: Key, cell: Cell)
    requires Usable(cell)
    ensures !AnyBad(map[])
    ensures !AnyBad(cells) ==> !AnyBad(cells[k := cell])
  {
    UsableKinds(cell);
    if !AnyBad(cells) {
      var next := cells[k := cell];
      assert forall j :: j in next ==> !Bad(next[j]);
    }
  }

  /** The last aggregate over no lanes at all. */
  function OverNothing(p: Planner, m: Step, t: Step): (target: Target)
    ensures target.ToWork? && target.address.code.step == t.name
  {
    AggregateTarget(p.pipe, t, map[m.name := map[]])
  }

  /** A home in which the last aggregate has been computed over no lanes, and nothing else. */
  function Leftover(p: Planner, m: Step, t: Step): Store {
    Apply(_ => false, EMPTY, Commit(OverNothing(p, m, t).address, Ok(Null)))
  }

  lemma LeftoverHasOneRow(p: Planner, e: Step, m: Step, t: Step)
    ensures OnlyRow(Leftover(p, m, t), OverNothing(p, m, t).address)
    ensures RootAddress(p, e) != OverNothing(p, m, t).address ==>
              ListingAt(Leftover(p, m, t), p, RootAddress(p, e)).NoListing?
  {
    hide AggregateTarget, LatestRow;
    var st, only := Leftover(p, m, t), OverNothing(p, m, t).address;
    LatestAfterCommit(_ => false, EMPTY, only, Ok(Null));
    OnlyLive(p, m, t);
  }

  lemma OnlyLive(p: Planner, m: Step, t: Step)
    ensures var st := Leftover(p, m, t);
            st.live == {OverNothing(p, m, t).address}
            && st.anchorDisk == map[] && st.anchorBuffer == map[]
  {
    hide AlreadyLive, RowFor;
  }

  /**
   What `ScopeLegal` shuts out, and nothing else of `Plannable`: the anchor is broadcast into a map of
   many lanes.  The dry run has the expand pending, in a lane that is not requested, so nothing is
   planned or pending at that map, and the last aggregate is announced as reuse, over no lanes at all.
   The run then mints a lane that is requested, whatever the executed lanes return, and plans the
   aggregate at another address.
   */
  lemma SingleAnchorLosesLanes(p: Planner, e: Step, g: Step, a: Step, m: Step, t: Step, h: Hash,
                               row: Cell, sum: Cell, one: Cell, out: Cell)
    requires Pipeline(e, g, a, m, t) && CohortOf(p, g, a, m, t, h)
    requires Usable(row) && Usable(sum) && Usable(one) && Usable(out)
    ensures var steps := [e, g, a, m, t];
            Ordered(steps) && Unmixed(steps) && p.singles == Singles(steps) && p.scope.steps == Carriers(steps, a.name)
    ensures var st, steps := Leftover(p, m, t), [e, g, a, m, t];
            var x := Finished(st, e, g, a, m, h, row, sum, one, out);
            && Announced(st, p, steps, false, 4, All, OverNothing(p, m, t))
            && Comparing(st, p, steps, false, x) && NamesFresh(st, p, steps, false, x)
            && Plan(p, t, x.cells[4]).Some? && Plan(p, t, x.cells[4]).value.Keys == {All}
            && Plan(p, t, x.cells[4]).value[All].ToWork?
            && Plan(p, t, x.cells[4]).value[All].address != OverNothing(p, m, t).address
  {
    hide PlanOn, Hit, ListingAt, OnlyRow, Comparing, NamesFresh, Dry, AggregateTarget, Usable, Ordered, Unmixed, Singles, Carriers,
         Leftover, Noted;
    var st, steps, only := Leftover(p, m, t), [e, g, a, m, t], OverNothing(p, m, t).address;
    var x := Finished(st, e, g, a, m, h, row, sum, one, out);
    PipelineIsOrdered(e, g, a, m, t);
    PipelineIsUnmixed(e, g, a, m, t);
    SinglesOfPipeline(e, g, a, m, t);
    CarriersOfPipeline(e, g, a, m, t);
    LeftoverHasOneRow(p, e, m, t);
    PipelineCompared(st, p, e, g, a, m, t, h, row, sum, one, out, only);
    LastAnnounced(p, e, g, a, m, t, h);
    OneLaneToCollect(p, t, m.name, Row(h), x.cells[4]);
    Collects(p, t, map[m.name := map[Row(h) := out]]);
    DifferentAddresses(p, t, m.name, Row(h), out);
  }

  lemma LastAnnounced(p: Planner, e: Step, g: Step, a: Step, m: Step, t: Step, h: Hash)
    requires Pipeline(e, g, a, m, t) && CohortOf(p, g, a, m, t, h)
    ensures Announced(Leftover(p, m, t), p, [e, g, a, m, t], false, 4, All, OverNothing(p, m, t))
  {
    hide PlanOn, Hit, ListingAt, OnlyRow, Dry, AggregateTarget, Leftover, Noted, Stumbles;
    var st, dry := Leftover(p, m, t), AllPending(e, g, a, h);
    LeftoverHasOneRow(p, e, m, t);
    LeftoverHit(p, m, t);
    Prefixes(e, g, a, m, t);
    DryOfPipeline(st, p, e, g, a, m, t, h);
    NoLanesToCollect(p, t, m.name, dry);
    DryAppend(st, p, [e, g, a, m], t, false);
    Unobstructed(st, p, t, Plan(p, t, dry).value);
  }

  lemma LeftoverHit(p: Planner, m: Step, t: Step)
    ensures Hit(Leftover(p, m, t), OverNothing(p, m, t).address).Some?
  {
    hide Leftover, OverNothing, Hit, AnchorHit, ListingAt;
    var st, only := Leftover(p, m, t), OverNothing(p, m, t).address;
    LeftoverHasOneRow(p, t, m, t);
    assert OnlyRow(st, only);
  }

  lemma NoLanesToCollect(p: Planner, t: Step, d: string, cells: Cells)
    requires t.shape.Aggregate? && t.WellFormed() && t.groupKey.None? && t.deps == [d]
    requires forall k :: k in cells ==> k.1 != d
    ensures Plan(p, t, cells) == Some(map[All := AggregateTarget(p.pipe, t, map[d := map[]])])
  {
    hide PlanOn, AggregateTarget;
    LanesToCollect(p, t, d, cells, map[]);
    assert Survivors(map[]) == map[];
  }

  lemma OneLaneToCollect(p: Planner, t: Step, d: string, c: Coord, cells: Cells)
    requires t.shape.Aggregate? && t.WellFormed() && t.groupKey.None? && t.deps == [d]
    requires (c, d) in cells && Usable(cells[(c, d)]) && forall k :: k in cells && k.1 == d ==> k == (c, d)
    ensures Plan(p, t, cells) == Some(map[All := AggregateTarget(p.pipe, t, map[d := map[c := cells[(c, d)]]])])
  {
    hide PlanOn, AggregateTarget, Usable;
    var at := map[c := cells[(c, d)]];
    UsableKinds(cells[(c, d)]);
    LanesToCollect(p, t, d, cells, at);
    assert Survivors(at) == at;
  }

  lemma DifferentAddresses(p: Planner, t: Step, d: string, c: Coord, out: Cell)
    ensures AggregateTarget(p.pipe, t, map[d := map[]]).address != AggregateTarget(p.pipe, t, map[d := map[c := out]]).address
  {
    var none, some := LaneHashes(map[d := map[]]), LaneHashes(map[d := map[c := out]]);
    assert c !in none[d] && c in some[d];
  }

  // ---------------------------------------------------------------------------
  // minted lanes called like lanes their step is fed
  // ---------------------------------------------------------------------------

  /** Two expands fed by two other steps, a map of both, and an aggregate of the map. */
  predicate Chains(y: Step, x: Step, m: Step, t: Step, q: string, r: string) {
    && y.shape.Expand? && y.WellFormed() && !y.declarative && y.deps == [q]
    && x.shape.Expand? && x.WellFormed() && !x.declarative && x.deps == [r]
    && m.shape.Map? && m.WellFormed() && m.cached && !m.declarative && m.deps == [y.name, x.name]
    && t.shape.Aggregate? && t.WellFormed() && t.groupKey.None? && t.deps == [m.name] && !t.force
    && {q, r} !! {y.name, x.name, m.name, t.name}
    && y.name != x.name && y.name != m.name && y.name != t.name && x.name != m.name && x.name != t.name && m.name != t.name
  }

  predicate RowsEverywhere(p: Planner, y: Step, x: Step, q: string, r: string) {
    p.scope.Full? && p.singles !! {q, r, y.name, x.name}
  }

  /** The cells of one step. */
  ghost predicate Shown(cells: Cells, name: string, at: map<Coord, Cell>) {
    forall c :: ((c, name) in cells <==> c in at) && (c in at && (c, name) in cells ==> cells[(c, name)] == at[c])
  }

  function Own(name: string, at: map<Coord, Cell>): (cells: Cells)
    ensures forall k :: k in cells ==> k.1 == name
    ensures Shown(cells, name, at)
  {
    map c | c in at :: (c, name) := at[c]
  }

  lemma OwnShown(cells: Cells, name: string, at: map<Coord, Cell>)
    requires forall k :: k in cells ==> k.1 != name
    ensures Shown(cells + Own(name, at), name, at)
  {
  }

  lemma OthersShown(cells: Cells, name: string, at: map<Coord, Cell>, d: string, there: map<Coord, Cell>)
    requires d != name && Shown(cells, d, there)
    ensures Shown(cells + Own(name, at), d, there)
  {
  }

  /** Nothing that these steps could reuse. */
  ghost predicate NothingStored(st: Store, steps: set<string>) {
    forall a: Address :: a.code.step in steps ==> Hit(st, a).None? && AnchorHit(st, a).None?
  }

  lemma NothingReused(st: Store, p: Planner, step: Step, cells: Cells, steps: set<string>)
    requires NothingStored(st, steps) && step.name in steps && Plan(p, step, cells).Some?
    ensures forall c :: c in Plan(p, step, cells).value ==>
              var t := Plan(p, step, cells).value[c];
              !Reuses(st, p, step, false, t) && !FansOut(st, p, step, false, t) && !LookupRaises(st, p, step, false, t)
  {
    hide PlanOn, Hit, AnchorHit;
    PlansOwnAddresses(p, step, cells);
    forall c | c in Plan(p, step, cells).value
      ensures var t := Plan(p, step, cells).value[c];
              !Reuses(st, p, step, false, t) && !LookupRaises(st, p, step, false, t)
    {
      assert Addressed(p, step, Plan(p, step, cells).value[c]);
    }
  }

  /** What the dry run notes where nothing is reused and no lane is a placeholder. */
  lemma NotedPlain(st: Store, p: Planner, step: Step, dry: Cells, at: map<Coord, Cell>)
    requires Plan(p, step, dry).Some? && p.scope.Full? && Plan(p, step, dry).value.Keys == at.Keys
    requires forall c :: c in at ==> !FansOut(st, p, step, false, Plan(p, step, dry).value[c])
                                     && DryCell(st, p, step, false, Plan(p, step, dry).value[c]) == at[c]
    ensures Noted(st, p, step, false, dry) == Own(step.name, at)
  {
    hide PlanOn, FansOut, DryCell, Noted, Child, Own;
    var ts, noted := Plan(p, step, dry).value, Noted(st, p, step, false, dry);
    NoChildren(st, p, step, ts);
    NotedHere(st, p, step, false, dry);
    forall c ensures ((c, step.name) in noted <==> c in at) && (c in at ==> noted[(c, step.name)] == at[c]) {
      NotedCell(st, p, step, false, dry, c);
    }
    SameCells(noted, step.name, at);
  }

  lemma NoChildren(st: Store, p: Planner, step: Step, ts: map<Coord, Target>)
    requires forall c :: c in ts ==> !FansOut(st, p, step, false, ts[c])
    ensures forall c :: !Child(st, p, step, false, ts, c)
  {
    hide FansOut;
  }

  lemma SameCells(cells: Cells, name: string, at: map<Coord, Cell>)
    requires Shown(cells, name, at) && forall k :: k in cells ==> k.1 == name
    ensures cells == Own(name, at)
  {
    forall k | k in cells ensures k in Own(name, at) && Own(name, at)[k] == cells[k] {
      assert k == (k.0, name);
    }
  }

  /** A plan in which every lane has all its parents. */
  lemma AllParentsThere(p: Planner, step: Step, cells: Cells)
    requires Lanewise(step) && step.WellFormed() && step.deps != [] && forall d :: d in step.deps ==> d !in p.singles
    requires forall c, d, d' :: d in step.deps && d' in step.deps && (c, d) in cells ==> (c, d') in cells
    ensures Plan(p, step, cells).Some?
  {
    hide Classify, AggregatePlan, JoinPlan, Broadcast;
    var own := ParentCells(step, cells);
    var bcast := Broadcast(p, step, own);
    forall c | c in MapCoords(p, step, own) ensures MapTarget(p, step, own, bcast, c).Some? {
      var k :| k in own && k.1 in ScanDeps(p, step) && k.0 == c;
      assert k.1 in step.deps && (c, k.1) in cells;
      forall d | d in step.deps ensures d in ParentsAt(p, step, own, bcast, c) {
        assert (c, d) in own;
      }
    }
  }

  /** An expand fed by one output and one filtered lane. */
  lemma OneFansOut(p: Planner, y: Step, cells: Cells, q: string, a: Coord, b: Coord, fed: Cell, gone: Cell)
    requires y.shape.Expand? && y.WellFormed() && !y.declarative && y.deps == [q] && q !in p.singles && p.scope.Full?
    requires a != b && Usable(fed) && IsFiltered(gone) && Shown(cells, q, map[a := fed, b := gone]) && !AnyBad(cells)
    ensures Plan(p, y, cells).Some? && Plan(p, y, cells).value.Keys == {a, b}
    ensures Plan(p, y, cells).value[a].ToMint? && Plan(p, y, cells).value[b].ToSkipped?
  {
    hide PlanOn, Usable, IsFiltered, AnyBad;
    AllParentsThere(p, y, cells);
    ExpandLane(p, map[], y, cells);
    var ts := Plan(p, y, cells).value;
    assert (a, q) in cells && (b, q) in cells;
    assert forall c :: c in ts <==> (c, q) in cells;
  }

  /** A map of two steps with the same lanes, none of them failed or pending at both. */
  lemma BothPlanned(p: Planner, m: Step, cells: Cells, y: string, x: string, at: map<Coord, Cell>, at': map<Coord, Cell>)
    requires m.shape.Map? && m.WellFormed() && m.cached && !m.declarative && m.deps == [y, x] && p.scope.Full?
    requires y !in p.singles && x !in p.singles && at.Keys == at'.Keys && !AnyBad(cells)
    requires Shown(cells, y, at) && Shown(cells, x, at')
    ensures Plan(p, m, cells).Some? && Plan(p, m, cells).value.Keys == at.Keys
    ensures forall c :: c in at ==>
              && (IsFiltered(at[c]) || IsFiltered(at'[c]) ==> Plan(p, m, cells).value[c].ToSkipped?)
              && (Usable(at[c]) && Usable(at'[c]) ==> Plan(p, m, cells).value[c].ToWork?)
  {
    hide PlanOn, Seen, Usable, IsFiltered, Classify, AnyBad, ScanDeps;
    AllParentsThere(p, m, cells);
    LanePlan(p, m, cells);
    ScansBoth(p, m, y, x);
    var ts := Plan(p, m, cells).value;
    assert forall c :: c in ts <==> c in at;
    forall c | c in at
      ensures IsFiltered(at[c]) || IsFiltered(at'[c]) ==> ts[c].ToSkipped?
      ensures Usable(at[c]) && Usable(at'[c]) ==> ts[c].ToWork?
    {
      BothSeen(p, m, cells, y, x, c);
    }
  }

  lemma BothSeen(p: Planner, m: Step, cells: Cells, y: string, x: string, c: Coord)
    requires m.shape.Map? && m.cached && !m.declarative && m.deps == [y, x] && y !in p.singles && x !in p.singles && !AnyBad(cells)
    requires Plan(p, m, cells).Some? && c in Plan(p, m, cells).value && (c, y) in cells && (c, x) in cells
    ensures IsFiltered(cells[(c, y)]) || IsFiltered(cells[(c, x)]) ==> Plan(p, m, cells).value[c].ToSkipped?
    ensures Usable(cells[(c, y)]) && Usable(cells[(c, x)]) ==> Plan(p, m, cells).value[c].ToWork?
  {
    hide PlanOn, Seen, Usable, IsFiltered, Classify, AnyBad;
    OwnCellSeen(p, m, cells, c, y);
    OwnCellSeen(p, m, cells, c, x);
    SeenKeys(p, m, cells, c);
    LanePlan(p, m, cells);
    LaneKind(p, m, cells, c);
    if Usable(cells[(c, y)]) && Usable(cells[(c, x)]) {
      WorkOf(p.pipe, m, Seen(p, m, cells, c));
    }
  }

  lemma ScansBoth(p: Planner, m: Step, y: string, x: string)
    requires m.deps == [y, x] && y !in p.singles && x !in p.singles
    ensures forall d :: d in ScanDeps(p, m) <==> d == y || d == x
  {
  }

  lemma StillGood(cells: Cells, name: string, at: map<Coord, Cell>)
    requires !AnyBad(cells) && forall c :: c in at ==> !Bad(at[c])
    ensures !AnyBad(cells + Own(name, at))
  {
    hide Bad;
    forall k | k in cells + Own(name, at) ensures !Bad((cells + Own(name, at))[k]) {
      if k in Own(name, at) {
        assert k == (k.0, name);
      }
    }
  }

  /** The expand in the dry run: pending where it would run. */
  lemma FanOutNoted(st: Store, p: Planner, y: Step, cells: Cells, q: string, a: Coord, b: Coord, fed: Cell, gone: Cell)
    requires y.shape.Expand? && y.WellFormed() && !y.declarative && y.deps == [q] && q !in p.singles && p.scope.Full?
    requires a != b && Usable(fed) && IsFiltered(gone) && Shown(cells, q, map[a := fed, b := gone]) && !AnyBad(cells)
    requires NothingStored(st, {y.name})
    ensures Plan(p, y, cells).Some? && !Stumbles(st, p, y, false, Plan(p, y, cells).value)
    ensures Noted(st, p, y, false, cells) == Own(y.name, map[a := Pending, b := Skipped])
  {
    hide PlanOn, Usable, IsFiltered, AnyBad, Noted, NothingStored, Shown, Own;
    OneFansOut(p, y, cells, q, a, b, fed, gone);
    NothingReused(st, p, y, cells, {y.name});
    NotedPlain(st, p, y, cells, map[a := Pending, b := Skipped]);
  }

  /** The expand in the run: the lane gives way to a row of the same name, and to another. */
  lemma FanOutRan(st: Store, p: Planner, y: Step, cells: Cells, q: string, a: Coord, b: Coord, c: Coord,
                  fed: Cell, gone: Cell, same: Cell, other: Cell)
    requires y.shape.Expand? && y.WellFormed() && !y.declarative && y.deps == [q] && q !in p.singles && p.scope.Full?
    requires a != b && c != a && c != b && Usable(fed) && IsFiltered(gone) && Shown(cells, q, map[a := fed, b := gone]) && !AnyBad(cells)
    requires NothingStored(st, {y.name}) && Usable(same) && Usable(other) && forall k :: k in cells ==> k.1 != y.name
    ensures RunStep(st, p, y, false, cells, cells + Own(y.name, map[a := same, b := Skipped, c := other]))
  {
    hide PlanOn, Usable, IsFiltered, AnyBad, NothingStored, Own, LaneRan, LaneCame;
    OneFansOut(p, y, cells, q, a, b, fed, gone);
    NothingReused(st, p, y, cells, {y.name});
    UsableKinds(same);
    UsableKinds(other);
    var at := map[a := same, b := Skipped, c := other];
    var ts, after := Plan(p, y, cells).value, cells + Own(y.name, at);
    OwnShown(cells, y.name, at);
    forall k | k in ts ensures LaneRan(st, p, y, false, k, ts[k], after) {
      FanOutLane(st, p, y, k, ts[k], after);
    }
    forall k | (k, y.name) in after
      ensures LaneCame(st, p, y, false, ts, k, after) && !after[(k, y.name)].Pending?
    {
      FanOutCame(st, p, y, ts, k, a, after);
    }
  }

  lemma FanOutLane(st: Store, p: Planner, y: Step, c: Coord, t: Target, after: Cells)
    requires !FansOut(st, p, y, false, t) && (t.ToMint? || (t.ToSkipped? && (c, y.name) in after && after[(c, y.name)] == Skipped))
    ensures LaneRan(st, p, y, false, c, t, after)
  {
    hide ReplayedChildren;
  }

  lemma FanOutCame(st: Store, p: Planner, y: Step, ts: map<Coord, Target>, c: Coord, e: Coord, after: Cells)
    requires e in ts && ts[e].ToMint? && !Reuses(st, p, y, false, ts[e])
    ensures LaneCame(st, p, y, false, ts, c, after)
  {
    hide ReplayedChildren, DryChildren;
    assert Executes(st, p, y, false, ts[e]);
  }

  /** Lanes that are all filtered or executed. */
  lemma BothRan(st: Store, p: Planner, m: Step, cells: Cells, y: string, x: string,
                at: map<Coord, Cell>, at': map<Coord, Cell>, own: map<Coord, Cell>)
    requires m.shape.Map? && m.WellFormed() && m.cached && !m.declarative && m.deps == [y, x] && p.scope.Full?
    requires y !in p.singles && x !in p.singles && at.Keys == at'.Keys == own.Keys && !AnyBad(cells)
    requires Shown(cells, y, at) && Shown(cells, x, at') && NothingStored(st, {m.name})
    requires forall c :: c in at ==> (IsFiltered(at[c]) || IsFiltered(at'[c])) || (Usable(at[c]) && Usable(at'[c]))
    requires forall c :: c in at ==> !own[c].Pending? && (IsFiltered(at[c]) || IsFiltered(at'[c]) ==> own[c] == Skipped)
    requires forall k :: k in cells ==> k.1 != m.name
    ensures RunStep(st, p, m, false, cells, cells + Own(m.name, own))
  {
    hide PlanOn, Usable, IsFiltered, AnyBad, NothingStored, Own, LaneRan, LaneCame;
    BothPlanned(p, m, cells, y, x, at, at');
    NothingReused(st, p, m, cells, {m.name});
    var ts, after := Plan(p, m, cells).value, cells + Own(m.name, own);
    OwnShown(cells, m.name, own);
    forall c | c in ts ensures LaneRan(st, p, m, false, c, ts[c], after) && LaneCame(st, p, m, false, ts, c, after) {
      MapLane(st, p, m, ts, c, after);
    }
  }

  lemma MapLane(st: Store, p: Planner, m: Step, ts: map<Coord, Target>, c: Coord, after: Cells)
    requires c in ts && (c, m.name) in after && !Reuses(st, p, m, false, ts[c]) && (ts[c].ToSkipped? || ts[c].ToWork?)
    requires ts[c].ToSkipped? ==> after[(c, m.name)] == Skipped
    ensures LaneRan(st, p, m, false, c, ts[c], after) && LaneCame(st, p, m, false, ts, c, after)
  {
    hide DryChildren, Hit;
  }

  /** What the dry run knows of the two expands and the map, on top of what it knew before. */
  function DryChains(known: Cells, y: Step, x: Step, m: Step, a: Coord, b: Coord): Cells {
    known + Own(y.name, map[a := Pending, b := Skipped]) + Own(x.name, map[a := Skipped, b := Pending])
    + Own(m.name, map[a := Skipped, b := Skipped])
  }

  /** What the run finds at an expand: the lane is gone, its name minted again, and another row, too. */
  function Reminted(cells: Cells, y: Step, a: Coord, b: Coord, c: Coord, row: Cell): Cells {
    cells + Own(y.name, map[a := row, b := Skipped, c := row])
  }

  /** And at the map. */
  function Mapped(cells: Cells, m: Step, a: Coord, b: Coord, c: Coord, out: Cell): Cells {
    cells + Own(m.name, map[a := Skipped, b := Skipped, c := out])
  }

  /** Both parents known: an output at one row, a filter verdict at the other, the other way round. */
  ghost predicate Fed(known: Cells, y: Step, x: Step, m: Step, t: Step, q: string, r: string, a: Coord, b: Coord, fed: Cell, gone: Cell) {
    && a != b && Usable(fed) && IsFiltered(gone) && !AnyBad(known)
    && Shown(known, q, map[a := fed, b := gone]) && Shown(known, r, map[b := fed, a := gone])
    && forall k :: k in known ==> k.1 !in {y.name, x.name, m.name, t.name}
  }

  /** One of the expands in the dry run, and what it leaves alone. */
  lemma ExpandDry(st: Store, p: Planner, before: seq<Step>, known: Cells, y: Step, q: string, a: Coord, b: Coord, fed: Cell, gone: Cell,
                  d: string, there: map<Coord, Cell>)
    requires y.shape.Expand? && y.WellFormed() && !y.declarative && y.deps == [q] && q !in p.singles && p.scope.Full?
    requires a != b && Usable(fed) && IsFiltered(gone) && Shown(known, q, map[a := fed, b := gone]) && !AnyBad(known)
    requires NothingStored(st, {y.name}) && Dry(st, p, before, false) == Some(known)
    requires d != y.name && Shown(known, d, there) && forall k :: k in known ==> k.1 != y.name
    ensures var after := known + Own(y.name, map[a := Pending, b := Skipped]);
            && Dry(st, p, before + [y], false) == Some(after) && !AnyBad(after)
            && Shown(after, y.name, map[a := Pending, b := Skipped]) && Shown(after, d, there)
  {
    hide PlanOn, Usable, IsFiltered, AnyBad, Noted, NothingStored, Own, Dry, Stumbles, Shown;
    var at: map<Coord, Cell> := map[a := Pending, b := Skipped];
    DryAppend(st, p, before, y, false);
    FanOutNoted(st, p, y, known, q, a, b, fed, gone);
    OwnShown(known, y.name, at);
    OthersShown(known, y.name, at, d, there);
    StillGood(known, y.name, at);
  }

  lemma DryOfChains(st: Store, p: Planner, before: seq<Step>, known: Cells, y: Step, x: Step, m: Step, t: Step, q: string, r: string,
                    a: Coord, b: Coord, fed: Cell, gone: Cell)
    requires Chains(y, x, m, t, q, r) && RowsEverywhere(p, y, x, q, r) && Fed(known, y, x, m, t, q, r, a, b, fed, gone)
    requires NothingStored(st, {y.name, x.name, m.name}) && Dry(st, p, before, false) == Some(known)
    ensures Dry(st, p, before + [y] + [x] + [m], false) == Some(DryChains(known, y, x, m, a, b))
  {
    hide PlanOn, Usable, IsFiltered, AnyBad, Noted, NothingStored, Own, Dry, Stumbles, Shown;
    StoredNowhere(st, y.name, x.name, m.name);
    var aty: map<Coord, Cell>, atx: map<Coord, Cell> := map[a := Pending, b := Skipped], map[b := Pending, a := Skipped];
    var one := known + Own(y.name, aty);
    ExpandDry(st, p, before, known, y, q, a, b, fed, gone, r, map[b := fed, a := gone]);
    ExpandDry(st, p, before + [y], one, x, r, b, a, fed, gone, y.name, aty);
    assert atx == map[a := Skipped, b := Pending];
    DryAppend(st, p, before + [y] + [x], m, false);
    MapNoted(st, p, m, one + Own(x.name, atx), y.name, x.name, a, b);
  }

  lemma StoredNowhere(st: Store, y: string, x: string, m: string)
    requires NothingStored(st, {y, x, m})
    ensures NothingStored(st, {y}) && NothingStored(st, {x}) && NothingStored(st, {m})
  {
    hide Hit, AnchorHit;
  }

  lemma MapNoted(st: Store, p: Planner, m: Step, cells: Cells, y: string, x: string, a: Coord, b: Coord)
    requires m.shape.Map? && m.WellFormed() && m.cached && !m.declarative && m.deps == [y, x] && p.scope.Full?
    requires y !in p.singles && x !in p.singles && a != b && !AnyBad(cells) && NothingStored(st, {m.name})
    requires Shown(cells, y, map[a := Pending, b := Skipped]) && Shown(cells, x, map[a := Skipped, b := Pending])
    ensures Plan(p, m, cells).Some? && !Stumbles(st, p, m, false, Plan(p, m, cells).value)
    ensures Noted(st, p, m, false, cells) == Own(m.name, map[a := Skipped, b := Skipped])
  {
    hide PlanOn, AnyBad, Noted, NothingStored, Own, Shown;
    var aty: map<Coord, Cell>, atx: map<Coord, Cell> := map[a := Pending, b := Skipped], map[a := Skipped, b := Pending];
    BothPlanned(p, m, cells, y, x, aty, atx);
    NothingReused(st, p, m, cells, {m.name});
    NotedPlain(st, p, m, cells, map[a := Skipped, b := Skipped]);
  }

  /** One of the expands in the run, and what it leaves alone. */
  lemma ExpandRan(st: Store, p: Planner, known: Cells, y: Step, q: string, a: Coord, b: Coord, c: Coord, fed: Cell, gone: Cell, row: Cell,
                  d: string, there: map<Coord, Cell>)
    requires y.shape.Expand? && y.WellFormed() && !y.declarative && y.deps == [q] && q !in p.singles && p.scope.Full?
    requires a != b && c != a && c != b && Usable(fed) && IsFiltered(gone) && Shown(known, q, map[a := fed, b := gone]) && !AnyBad(known)
    requires NothingStored(st, {y.name}) && Usable(row)
    requires d != y.name && Shown(known, d, there) && forall k :: k in known ==> k.1 != y.name
    ensures var after := Reminted(known, y, a, b, c, row);
            && RunStep(st, p, y, false, known, after) && !AnyBad(after)
            && Shown(after, y.name, map[a := row, b := Skipped, c := row]) && Shown(after, d, there)
            && forall k :: k in after ==> k in known || k.1 == y.name
  {
    hide PlanOn, AnyBad, NothingStored, Own, Shown, RunStep, Usable, Bad;
    var at := map[a := row, b := Skipped, c := row];
    UsableKinds(row);
    SkippedIsGood();
    FanOutRan(st, p, y, known, q, a, b, c, fed, gone, row, row);
    OwnShown(known, y.name, at);
    OthersShown(known, y.name, at, d, there);
    StillGood(known, y.name, at);
  }

  lemma MapRan(st: Store, p: Planner, m: Step, cells: Cells, y: string, x: string, a: Coord, b: Coord, c: Coord, row: Cell, out: Cell)
    requires m.shape.Map? && m.WellFormed() && m.cached && !m.declarative && m.deps == [y, x] && p.scope.Full?
    requires y !in p.singles && x !in p.singles && !AnyBad(cells) && NothingStored(st, {m.name})
    requires a != b && c != a && c != b && Usable(row) && Usable(out) && forall k :: k in cells ==> k.1 != m.name
    requires Shown(cells, y, map[a := row, b := Skipped, c := row]) && Shown(cells, x, map[b := row, a := Skipped, c := row])
    ensures var after := Mapped(cells, m, a, b, c, out);
            RunStep(st, p, m, false, cells, after) && Shown(after, m.name, map[a := Skipped, b := Skipped, c := out])
  {
    hide PlanOn, AnyBad, NothingStored, Own, Shown, RunStep, Usable, IsFiltered;
    var at, aty, atx := map[a := Skipped, b := Skipped, c := out], map[a := row, b := Skipped, c := row], map[b := row, a := Skipped, c := row];
    UsableKinds(row);
    UsableKinds(out);
    SkippedIsGood();
    BothRan(st, p, m, cells, y, x, aty, atx, at);
    OwnShown(cells, m.name, at);
  }

  lemma ChainsRan(st: Store, p: Planner, known: Cells, y: Step, x: Step, m: Step, t: Step, q: string, r: string,
                  a: Coord, b: Coord, c: Coord, fed: Cell, gone: Cell, row: Cell, out: Cell)
    requires Chains(y, x, m, t, q, r) && RowsEverywhere(p, y, x, q, r) && Fed(known, y, x, m, t, q, r, a, b, fed, gone)
    requires NothingStored(st, {y.name, x.name, m.name}) && c != a && c != b && Usable(row) && Usable(out)
    ensures ChainsRun(st, p, known, y, x, m, a, b, c, row, out)
    ensures Shown(AfterChains(known, y, x, m, a, b, c, row, out), m.name, map[a := Skipped, b := Skipped, c := out])
  {
    hide PlanOn, AnyBad, NothingStored, Shown, RunStep, Usable, IsFiltered, Reminted, Mapped;
    StoredNowhere(st, y.name, x.name, m.name);
    var one := Reminted(known, y, a, b, c, row);
    ExpandRan(st, p, known, y, q, a, b, c, fed, gone, row, r, map[b := fed, a := gone]);
    ExpandRan(st, p, one, x, r, b, a, c, fed, gone, row, y.name, map[a := row, b := Skipped, c := row]);
    MapRan(st, p, m, Reminted(one, x, b, a, c, row), y.name, x.name, a, b, c, row, out);
  }

  lemma SkippedIsGood()
    ensures !Bad(Skipped) && IsFiltered(Skipped) && !Usable(Skipped)
  {
  }

  /**
   What `NamesFresh` shuts out.  Two steps the dry run knows all of, each with an output at one of two
   rows and filtered at the other, feed two expands, and a map takes both.  Each expand has one row to
   run, and the map is filtered at both rows, so nothing pends there and the aggregate below is announced
   as reuse, over no lanes.  In the run each expand mints its row's name again and a third row, and the
   aggregate gets that row's output.
   */
  lemma RemintedNamesLoseLanes(st: Store, p: Planner, before: seq<Step>, known: Cells, y: Step, x: Step, m: Step, t: Step,
                               q: string, r: string, a: Hash, b: Hash, c: Hash, fed: Cell, gone: Cell, row: Cell, out: Cell)
    requires Chains(y, x, m, t, q, r) && RowsEverywhere(p, y, x, q, r)
    requires Fed(known, y, x, m, t, q, r, Row(a), Row(b), fed, gone) && Dry(st, p, before, false) == Some(known)
    requires NothingStored(st, {y.name, x.name, m.name}) && Hit(st, OverNothing(p, m, t).address).Some?
    requires c != a && c != b && Usable(row) && Usable(out)
    ensures Announced(st, p, before + [y] + [x] + [m] + [t], false, |before| + 3, All, OverNothing(p, m, t))
    ensures ChainsRun(st, p, known, y, x, m, Row(a), Row(b), Row(c), row, out)
    ensures Plan(p, t, AfterChains(known, y, x, m, Row(a), Row(b), Row(c), row, out)) ==
              Some(map[All := AggregateTarget(p.pipe, t, map[m.name := map[Row(c) := out]])])
    ensures AggregateTarget(p.pipe, t, map[m.name := map[Row(c) := out]]).address != OverNothing(p, m, t).address
  {
    hide PlanOn, Hit, Dry, Usable, NothingStored, Fed, AggregateTarget, RowsEverywhere, ChainsRun, AfterChains, Announced;
    assert Row(a) != Row(b) by { DifferentRows(known, y, x, m, t, q, r, Row(a), Row(b), fed, gone); }
    RemintedAnnounced(st, p, before, known, y, x, m, t, q, r, Row(a), Row(b), fed, gone);
    ChainsRan(st, p, known, y, x, m, t, q, r, Row(a), Row(b), Row(c), fed, gone, row, out);
    RemintedCollected(p, m, t, AfterChains(known, y, x, m, Row(a), Row(b), Row(c), row, out), Row(a), Row(b), Row(c), out);
    DifferentAddresses(p, t, m.name, Row(c), out);
  }

  /** A run of the two expands and the map, from what the dry run knew before them. */
  ghost predicate ChainsRun(st: Store, p: Planner, known: Cells, y: Step, x: Step, m: Step,
                            a: Coord, b: Coord, c: Coord, row: Cell, out: Cell)
  {
    var one := Reminted(known, y, a, b, c, row);
    var two := Reminted(one, x, b, a, c, row);
    RunStep(st, p, y, false, known, one) && RunStep(st, p, x, false, one, two) && RunStep(st, p, m, false, two, Mapped(two, m, a, b, c, out))
  }

  function AfterChains(known: Cells, y: Step, x: Step, m: Step, a: Coord, b: Coord, c: Coord, row: Cell, out: Cell): Cells {
    Mapped(Reminted(Reminted(known, y, a, b, c, row), x, b, a, c, row), m, a, b, c, out)
  }

  lemma RemintedCollected(p: Planner, m: Step, t: Step, run: Cells, a: Coord, b: Coord, c: Coord, out: Cell)
    requires t.shape.Aggregate? && t.WellFormed() && t.groupKey.None? && t.deps == [m.name]
    requires Shown(run, m.name, map[a := Skipped, b := Skipped, c := out]) && Usable(out) && c != a && c != b
    ensures Plan(p, t, run) == Some(map[All := AggregateTarget(p.pipe, t, map[m.name := map[c := out]])])
  {
    hide PlanOn, AggregateTarget, Shown, Usable;
    UsableKinds(out);
    SkippedIsGood();
    LanesToCollect(p, t, m.name, run, map[a := Skipped, b := Skipped, c := out]);
    OneSurvivor(a, b, c, out);
  }

  lemma RemintedAnnounced(st: Store, p: Planner, before: seq<Step>, known: Cells, y: Step, x: Step, m: Step, t: Step,
                          q: string, r: string, a: Coord, b: Coord, fed: Cell, gone: Cell)
    requires Chains(y, x, m, t, q, r) && RowsEverywhere(p, y, x, q, r)
    requires Fed(known, y, x, m, t, q, r, a, b, fed, gone) && Dry(st, p, before, false) == Some(known)
    requires NothingStored(st, {y.name, x.name, m.name}) && Hit(st, OverNothing(p, m, t).address).Some?
    ensures Announced(st, p, before + [y] + [x] + [m] + [t], false, |before| + 3, All, OverNothing(p, m, t))
  {
    hide PlanOn, Hit, Dry, Own, Noted, Stumbles, Usable, NothingStored, Fed, AggregateTarget, Shown, DryChains;
    var steps, dry := before + [y] + [x] + [m] + [t], DryChains(known, y, x, m, a, b);
    DryOfChains(st, p, before, known, y, x, m, t, q, r, a, b, fed, gone);
    DryKnowsNone(known, y, x, m, t, a, b, q, r, fed, gone);
    LanesToCollect(p, t, m.name, dry, map[a := Skipped, b := Skipped]);
    NoSurvivors(a, b);
    DryAppend(st, p, before + [y] + [x] + [m], t, false);
    Unobstructed(st, p, t, Plan(p, t, dry).value);
    assert steps[..|before| + 3] == before + [y] + [x] + [m] && steps[..|before| + 4] == steps;
  }

  lemma DifferentRows(known: Cells, y: Step, x: Step, m: Step, t: Step, q: string, r: string, a: Coord, b: Coord, fed: Cell, gone: Cell)
    requires Fed(known, y, x, m, t, q, r, a, b, fed, gone)
    ensures a != b
  {
  }

  lemma DryKnowsNone(known: Cells, y: Step, x: Step, m: Step, t: Step, a: Coord, b: Coord, q: string, r: string, fed: Cell, gone: Cell)
    requires Chains(y, x, m, t, q, r) && Fed(known, y, x, m, t, q, r, a, b, fed, gone)
    ensures Shown(DryChains(known, y, x, m, a, b), m.name, map[a := Skipped, b := Skipped])
  {
    hide Own, Usable, IsFiltered, AnyBad;
    OwnShown(known + Own(y.name, map[a := Pending, b := Skipped]) + Own(x.name, map[a := Skipped, b := Pending]), m.name,
             map[a := Skipped, b := Skipped]);
  }

  function Survivors(at: map<Coord, Cell>): map<Coord, Cell> {
    map c | c in at && Usable(at[c]) :: at[c]
  }

  lemma NoSurvivors(a: Coord, b: Coord)
    ensures Survivors(map[a := Skipped, b := Skipped]) == map[]
  {
  }

  lemma OneSurvivor(a: Coord, b: Coord, c: Coord, out: Cell)
    requires Usable(out) && c != a && c != b
    ensures Survivors(map[a := Skipped, b := Skipped, c := out]) == map[c := out]
  {
    hide Usable;
    SkippedIsGood();
  }

  /** An aggregate of one step with nothing failed or pending gets the lanes that survived. */
  lemma LanesToCollect(p: Planner, t: Step, d: string, cells: Cells, at: map<Coord, Cell>)
    requires t.shape.Aggregate? && t.WellFormed() && t.groupKey.None? && t.deps == [d]
    requires Shown(cells, d, at) && forall c :: c in at ==> !Bad(at[c]) && !at[c].Pending?
    ensures Plan(p, t, cells) == Some(map[All := AggregateTarget(p.pipe, t, map[d := Survivors(at)])])
  {
    hide AggregateTarget, Bad, Usable, UsableLanes, ParentCells, AnyBad, AnyPending, Shown;
    NothingInTheWay(t, d, cells, at);
    SurvivingLanes(t, d, cells, at);
  }

  lemma NothingInTheWay(t: Step, d: string, cells: Cells, at: map<Coord, Cell>)
    requires t.deps == [d] && Shown(cells, d, at) && forall c :: c in at ==> !Bad(at[c]) && !at[c].Pending?
    ensures !AnyBad(ParentCells(t, cells)) && !AnyPending(ParentCells(t, cells))
  {
    hide Bad;
    forall k | k in ParentCells(t, cells) ensures !Bad(cells[k]) && !cells[k].Pending? {
      assert k == (k.0, d);
    }
  }

  lemma SurvivingLanes(t: Step, d: string, cells: Cells, at: map<Coord, Cell>)
    requires t.deps == [d] && Shown(cells, d, at)
    ensures UsableLanes(t, ParentCells(t, cells)) == map[d := Survivors(at)]
  {
    hide Usable;
    var own := ParentCells(t, cells);
    assert forall c :: (c, d) in own <==> (c, d) in cells;
    assert LanesOf(own, d) == Survivors(at);
  }
}
