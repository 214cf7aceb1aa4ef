/**
 The part of a clean run that one scheduler segment has to produce, in the form the
 scheduler's invariants use: the target of every cell, and the cells.
 */
module Script {
  import opened Model
  import opened Meaning
  import opened Ledger
  import opened Determined
  import opened Planning
  import opened Clean

  // ---------------------------------------------------------------------------
  // targets can be executed: their parents read back as their address says
  // ---------------------------------------------------------------------------

  ghost predicate ReadableCells(w: World, objects: set<Json>, cells: Cells) {
    forall k :: k in cells && Usable(cells[k]) ==> Readable(w, objects, cells[k])
  }

  ghost predicate TargetOk(w: World, objects: set<Json>, pipe: string, step: Step, t: Target) {
    match t
    case ToUtil(cell) => cell.Util? && Readable(w, objects, cell)
    case ToWork(a, ps) => !step.shape.Expand? && WorkOk(w, objects, pipe, step, a, ps)
    case ToMint(a, ps) => step.shape.Expand? && WorkOk(w, objects, pipe, step, a, ps)
    case _ => true
  }

  ghost predicate WorkOk(w: World, objects: set<Json>, pipe: string, step: Step, a: Address, ps: Parents) {
    && a.pipeline == pipe && a.code == step.Identity()
    && ArgsOf(w, pipe, a.input) == ArgsOf(w, pipe, InputOf(ps))
    && ParentsReadable(w, objects, ps)
  }

  lemma ClassifyOk(w: World, objects: set<Json>, pipe: string, step: Step, ps: map<string, Cell>)
    requires forall d :: d in ps && Usable(ps[d]) ==> Readable(w, objects, ps[d])
    ensures TargetOk(w, objects, pipe, step, Classify(pipe, step, ps))
  {
    var t := Classify(pipe, step, ps);
    if !t.ToBlocked? && !t.ToSkipped? && !t.ToPending? {
      assert forall d :: d in ps ==> Usable(ps[d]);
    }
  }

  lemma MapPlanOk(w: World, objects: set<Json>, p: Planner, step: Step, cells: Cells)
    requires ReadableCells(w, objects, cells)
    requires MapPlan(p, step, cells, Broadcast(p, step, cells)).Some?
    ensures var ts := MapPlan(p, step, cells, Broadcast(p, step, cells)).value;
            forall c :: c in ts ==> TargetOk(w, objects, p.pipe, step, ts[c])
  {
    hide Classify, TargetOk, Readable, MapCoords;
    var bcast := Broadcast(p, step, cells);
    var ts := MapPlan(p, step, cells, bcast).value;
    forall c | c in ts ensures TargetOk(w, objects, p.pipe, step, ts[c]) {
      var ps := ParentsAt(p, step, cells, bcast, c);
      forall d | d in ps && Usable(ps[d]) ensures Readable(w, objects, ps[d]) {
        if d in p.singles {
          var c' :| (c', d) in cells && cells[(c', d)] == bcast[d];
        }
      }
      ClassifyOk(w, objects, p.pipe, step, ps);
    }
  }

  ghost predicate LanesReadable(w: World, objects: set<Json>, lanes: map<string, map<Coord, Cell>>) {
    forall d, c :: d in lanes && c in lanes[d] ==> Readable(w, objects, lanes[d][c])
  }

  lemma UsableLanesReadable(w: World, objects: set<Json>, step: Step, cells: Cells)
    requires ReadableCells(w, objects, cells)
    ensures LanesReadable(w, objects, UsableLanes(step, cells))
  {
    hide Readable, Usable;
    var lanes := UsableLanes(step, cells);
    forall d, c | d in lanes && c in lanes[d] ensures Readable(w, objects, lanes[d][c]) {
      assert (c, d) in cells && Usable(cells[(c, d)]) && lanes[d][c] == cells[(c, d)];
    }
  }

  lemma AggregatePlanOk(w: World, objects: set<Json>, p: Planner, step: Step, cells: Cells)
    requires ReadableCells(w, objects, cells) && step.shape.Aggregate?
    requires AggregatePlan(p, step, cells).Some?
    ensures var ts := AggregatePlan(p, step, cells).value;
            forall c :: c in ts ==> TargetOk(w, objects, p.pipe, step, ts[c])
  {
    hide Readable, ArgsOf, UsableLanes, AnyBad, AnyPending, FieldValues, LaneHashes;
    var lanes := UsableLanes(step, cells);
    var ts := AggregatePlan(p, step, cells).value;
    UsableLanesReadable(w, objects, step, cells);
    AggregateTargetOk(w, objects, p.pipe, step, lanes);
    if step.groupKey.Some? {
      forall key ensures TargetOk(w, objects, p.pipe, step,
                           GroupTarget(p.pipe, step, key, GroupLanes(p.show, step.groupKey.value, key, lanes)))
      {
        GroupTargetOk(w, objects, p.pipe, step, key, GroupLanes(p.show, step.groupKey.value, key, lanes));
      }
    }
  }

  lemma AggregateTargetOk(w: World, objects: set<Json>, pipe: string, step: Step, lanes: map<string, map<Coord, Cell>>)
    requires LanesReadable(w, objects, lanes) && !step.shape.Expand?
    ensures TargetOk(w, objects, pipe, step, AggregateTarget(pipe, step, lanes))
  {
  }

  lemma GroupTargetOk(w: World, objects: set<Json>, pipe: string, step: Step, key: string, lanes: map<string, map<Coord, Cell>>)
    requires LanesReadable(w, objects, lanes) && !step.shape.Expand?
    ensures TargetOk(w, objects, pipe, step, GroupTarget(pipe, step, key, lanes))
  {
  }

  ghost predicate SlotsReadable(w: World, objects: set<Json>, slots: map<string, Option<Cell>>) {
    forall d :: d in slots && slots[d].Some? ==> Readable(w, objects, slots[d].value)
  }

  lemma {:induction false} TupleParentsReadable(w: World, objects: set<Json>, ds: seq<string>,
                                                lanes: map<string, map<Coord, Cell>>, t: seq<Coord>)
    requires LanesReadable(w, objects, lanes)
    requires |t| == |ds| && forall d :: d in ds ==> d in lanes
    ensures SlotsReadable(w, objects, TupleParents(ds, lanes, t))
  {
    hide Readable;
    if ds != [] {
      TupleParentsReadable(w, objects, ds[1..], lanes, t[1..]);
      var rest := TupleParents(ds[1..], lanes, t[1..]);
      var slot := if t[0] in lanes[ds[0]] then Some(lanes[ds[0]][t[0]]) else None;
      assert TupleParents(ds, lanes, t) == rest[ds[0] := slot];
    }
  }

  lemma JoinPlanOk(w: World, objects: set<Json>, p: Planner, step: Step, cells: Cells)
    requires ReadableCells(w, objects, cells) && step.WellFormed() && step.shape.Join?
    requires JoinPlan(p, step, cells).Some?
    ensures var ts := JoinPlan(p, step, cells).value;
            forall c :: c in ts ==> TargetOk(w, objects, p.pipe, step, ts[c])
  {
    hide Readable, ArgsOf, UsableLanes, AnyBad, AnyPending, FieldValues, KeyUniverse, Tuples, TupleParents, LanesReadable, SlotsReadable;
    var lanes := UsableLanes(step, cells);
    assert lanes.Keys == UsableLanes(step, cells).Keys;
    var ts := JoinPlan(p, step, cells).value;
    UsableLanesReadable(w, objects, step, cells);
    LanesOfDeps(step, cells);
    forall t: seq<Coord> | |t| == |step.deps|
      ensures TargetOk(w, objects, p.pipe, step, JoinTarget(p.pipe, step, TupleParents(step.deps, lanes, t)))
    {
      TupleParentsReadable(w, objects, step.deps, lanes, t);
      JoinTargetOk(w, objects, p.pipe, step, TupleParents(step.deps, lanes, t));
    }
  }

  lemma LanesOfDeps(step: Step, cells: Cells)
    ensures forall d :: d in step.deps <==> d in UsableLanes(step, cells)
  {
  }

  lemma JoinTargetOk(w: World, objects: set<Json>, pipe: string, step: Step, slots: map<string, Option<Cell>>)
    requires SlotsReadable(w, objects, slots)
    requires !step.shape.Expand?
    ensures TargetOk(w, objects, pipe, step, JoinTarget(pipe, step, slots))
  {
  }

  /** Every target of a plan made from readable cells can be executed from those cells. */
  lemma PlanOk(w: World, objects: set<Json>, p: Planner, step: Step, cells: Cells)
    requires ReadableCells(w, objects, cells) && Plan(p, step, cells).Some?
    ensures var ts := Plan(p, step, cells).value;
            forall c :: c in ts ==> TargetOk(w, objects, p.pipe, step, ts[c])
  {
    hide Readable, TargetOk, AggregatePlan, JoinPlan, MapPlan, Broadcast;
    var own := ParentCells(step, cells);
    match step.shape
    case Aggregate => AggregatePlanOk(w, objects, p, step, own);
    case Join => JoinPlanOk(w, objects, p, step, own);
    case _ => MapPlanOk(w, objects, p, step, own);
  }

  /** Objects are never deleted while a run is in flight, so a target stays executable. */
  lemma MoreObjects(w: World, objects: set<Json>, more: set<Json>, pipe: string, step: Step, t: Target)
    requires objects <= more && TargetOk(w, objects, pipe, step, t)
    ensures TargetOk(w, more, pipe, step, t)
  {
    hide ArgsOf, InputOf;
    match t
    case ToUtil(cell) => StillPresent(objects, more, cell);
    case ToWork(_, ps) => ParentsStillPresent(w, objects, more, ps);
    case ToMint(_, ps) => ParentsStillPresent(w, objects, more, ps);
    case _ =>
  }

  lemma {:induction false} StillPresent(objects: set<Json>, more: set<Json>, cell: Cell)
    requires objects <= more && Present(objects, cell)
    ensures Present(more, cell)
  {
    if cell.Util? {
      forall d | d in cell.parents ensures Present(more, cell.parents[d]) {
        StillPresent(objects, more, cell.parents[d]);
      }
    }
  }

  lemma ParentsStillPresent(w: World, objects: set<Json>, more: set<Json>, ps: Parents)
    requires objects <= more && ParentsReadable(w, objects, ps)
    ensures ParentsReadable(w, more, ps)
  {
    match ps
    case NoParents =>
    case Single(cell) => StillPresent(objects, more, cell);
    case Slots(slots) =>
      forall d | d in slots && slots[d].Some? ensures Readable(w, more, slots[d].value) {
        StillPresent(objects, more, slots[d].value);
      }
    case Lanes(lanes) =>
      forall d, c | d in lanes && c in lanes[d] ensures Readable(w, more, lanes[d][c]) {
        StillPresent(objects, more, lanes[d][c]);
      }
  }

  // ---------------------------------------------------------------------------
  // what a segment has to produce
  // ---------------------------------------------------------------------------

  /**
   A segment is one step of any shape, or a run of steps through which single lanes can
   advance.  The source also lets an expand fed by other lanes into the second kind; its lanes
   are minted there rather than carried, and the theorem leaves that case out.
   */
  predicate SegmentOk(steps: seq<Step>, lo: nat, hi: nat) {
    && lo < hi <= |steps|
    && (hi == lo + 1 || forall i :: lo <= i < hi ==> Deep(steps[i]) && !steps[i].DependentExpand())
  }

  /** Is this step fed by another step of the segment? */
  predicate Inner(steps: seq<Step>, lo: nat, hi: nat, j: nat) {
    j < |steps| && exists i :: lo <= i < hi && i < |steps| && steps[i].name in steps[j].deps
  }

  predicate Feeds(steps: seq<Step>, i: nat, j: nat)
    requires i < |steps| && j < |steps|
  {
    steps[i].name in steps[j].deps
  }

  type Plans = map<nat, map<Coord, Target>>

  /** Different targets of a step produce different cells. */
  ghost predicate Separated(w: World, pipe: string, step: Step, ts: map<Coord, Target>) {
    forall c1, c2, k :: c1 in ts && c2 in ts && c1 != c2 && k in Produced(w, pipe, step, c1, ts[c1])
      ==> k !in Produced(w, pipe, step, c2, ts[c2])
  }

  ghost predicate StepScript(w: World, p: Planner, step: Step, ts: map<Coord, Target>, goal: Cells) {
    && Plan(p, step, goal) == Some(ts)
    && CellsAt(goal, step.name) == StepCells(w, p.pipe, step, ts)
    && Apart(w, ts)
    && (forall c :: c in ts ==> !ts[c].ToPending?)
    && (step.DependentExpand() || Separated(w, p.pipe, step, ts))
  }

  /** A lane of a single-parent map depends on the parent's cell in that lane and nothing else. */
  ghost predicate LaneScript(p: Planner, step: Step, d: string, ts: map<Coord, Target>, goal: Cells) {
    && (forall c :: c in ts <==> (c, d) in goal && p.scope.Admits(step.name, c))
    && (forall c :: c in ts ==> ts[c] == Classify(p.pipe, step, map[d := goal[(c, d)]]))
  }

  ghost predicate Scripted(w: World, p: Planner, steps: seq<Step>, lo: nat, hi: nat, plans: Plans, goal: Cells)
    requires lo < hi <= |steps|
  {
    && (forall i :: lo <= i < hi ==> i in plans && StepScript(w, p, steps[i], plans[i], goal))
    && (forall i, j :: lo <= i < hi && lo <= j < hi && Feeds(steps, i, j) ==>
          steps[j].deps == [steps[i].name] && steps[j].shape.Map?
          && LaneScript(p, steps[j], steps[i].name, plans[j], goal))
  }

  // ---------------------------------------------------------------------------
  // where the script comes from
  // ---------------------------------------------------------------------------

  /** Every valid choice of broadcast cells is the same one. */
  lemma BroadcastUnique(p: Planner, step: Step, cells: Cells, goal: Cells, bcast: map<string, Cell>)
    requires Uniform(p.singles, goal) && forall k :: k in cells ==> k in goal && goal[k] == cells[k]
    requires IsBroadcast(p, step, cells, bcast)
    ensures bcast == Broadcast(p, step, cells)
  {
    var b := Broadcast(p, step, cells);
    forall d | d in bcast ensures d in b && bcast[d] == b[d] {
      var c1 :| (c1, d) in cells && cells[(c1, d)] == bcast[d];
      var c2 :| (c2, d) in cells && cells[(c2, d)] == b[d];
      assert UniformAt(goal, d);
    }
  }

  /** The one parent cell of a lane, whichever way it is resolved. */
  lemma LaneParents(p: Planner, step: Step, d: string, cells: Cells, goal: Cells, bcast: map<string, Cell>, c: Coord)
    requires step.deps == [d] && Uniform(p.singles, goal)
    requires forall k :: k in cells ==> k in goal && goal[k] == cells[k]
    requires IsBroadcast(p, step, cells, bcast) && (c, d) in cells
    ensures ParentsAt(p, step, cells, bcast, c) == map[d := goal[(c, d)]]
  {
    if d in p.singles {
      assert d in bcast;
      var c' :| (c', d) in cells && cells[(c', d)] == bcast[d];
      assert UniformAt(goal, d);
    }
  }

  /** Planning one lane of a single-parent map from whatever cells are there already. */
  lemma LaneTarget(p: Planner, step: Step, d: string, cells: Cells, goal: Cells, bcast: map<string, Cell>, c: Coord)
    requires step.deps == [d] && Uniform(p.singles, goal)
    requires forall k :: k in cells ==> k in goal && goal[k] == cells[k]
    requires IsBroadcast(p, step, cells, bcast) && (c, d) in cells
    ensures MapTarget(p, step, cells, bcast, c) == Some(Classify(p.pipe, step, map[d := goal[(c, d)]]))
  {
    hide Classify;
    LaneParents(p, step, d, cells, goal, bcast, c);
  }

  lemma LaneScriptHolds(p: Planner, step: Step, d: string, goal: Cells)
    requires step.deps == [d] && step.shape.Map? && Uniform(p.singles, goal) && Plan(p, step, goal).Some?
    ensures LaneScript(p, step, d, Plan(p, step, goal).value, goal)
  {
    hide Classify, AggregatePlan, JoinPlan, Broadcast, MapTarget;
    var own := ParentCells(step, goal);
    var bcast := Broadcast(p, step, own);
    var ts := Plan(p, step, goal).value;
    OneParentCoords(p, step, d, goal);
    forall c | c in ts ensures ts[c] == Classify(p.pipe, step, map[d := goal[(c, d)]]) {
      LaneTarget(p, step, d, own, goal, bcast, c);
    }
  }

  lemma OneParentCoords(p: Planner, step: Step, d: string, goal: Cells)
    requires step.deps == [d]
    ensures forall c :: c in MapCoords(p, step, ParentCells(step, goal)) <==> (c, d) in goal && p.scope.Admits(step.name, c)
  {
    assert ScanDeps(p, step) == {d};
    forall c | (c, d) in goal && p.scope.Admits(step.name, c)
      ensures c in MapCoords(p, step, ParentCells(step, goal))
    {
      assert (c, d) in ParentCells(step, goal);
    }
  }

  lemma RootCoords(p: Planner, step: Step, goal: Cells)
    requires step.deps == [] && (step.shape.Map? || step.shape.Expand?) && Plan(p, step, goal).Some?
    ensures Plan(p, step, goal).value.Keys == {Root}
    ensures var t := Plan(p, step, goal).value[Root]; t.ToMint? ==> t.anchor.input == RootLane
  {
    hide AggregatePlan, JoinPlan, Broadcast;
    var bcast := Broadcast(p, step, ParentCells(step, goal));
    assert ParentsAt(p, step, ParentCells(step, goal), bcast, Root) == map[];
  }

  /** A root source always meets the side conditions on expand steps. */
  lemma RootsAreApart(w: World, p: Planner, step: Step, goal: Cells)
    requires step.shape.Expand? && step.deps == [] && Plan(p, step, goal).Some?
    ensures Apart(w, Plan(p, step, goal).value)
  {
    hide PlanOn, AnchorOf;
    RootCoords(p, step, goal);
  }

  /** So does a step that is not an expand. */
  lemma OtherShapesAreApart(w: World, ts: map<Coord, Target>)
    requires forall c :: c in ts ==> !ts[c].ToMint?
    ensures Apart(w, ts)
  {
    assert AllChildren(w, ts) == {};
  }

  lemma NoMinting(p: Planner, step: Step, goal: Cells)
    requires !step.shape.Expand? && Plan(p, step, goal).Some?
    ensures forall c :: c in Plan(p, step, goal).value ==> !Plan(p, step, goal).value[c].ToMint?
  {
    hide Classify, Broadcast, UsableLanes, AnyBad, AnyPending, FieldValues, KeyUniverse, Tuples;
    if step.shape.Map? {
      var own := ParentCells(step, goal);
      forall c ensures !Classify(p.pipe, step, ParentsAt(p, step, own, Broadcast(p, step, own), c)).ToMint? {
        MapsDoNotMint(p.pipe, step, ParentsAt(p, step, own, Broadcast(p, step, own), c));
      }
    }
  }

  lemma SeparatedLanes(w: World, pipe: string, step: Step, ts: map<Coord, Target>)
    requires (forall c :: c in ts ==> !ts[c].ToMint?) || ts.Keys == {Root}
    ensures Separated(w, pipe, step, ts)
  {
  }

  /** No lane row is left from earlier runs where a lane of this run puts its anchor. */
  ghost predicate Vacant(st: Store, ts: map<Coord, Target>) {
    forall c :: c in ts && ts[c].ToMint? && ts[c].anchor.input != RootLane ==> LatestRow(st, ts[c].anchor).None?
  }

  /** The side conditions, asked only of expand steps that are fed by other lanes. */
  ghost predicate ApartRun(w: World, st: Store, p: Planner, steps: seq<Step>, goal: Cells) {
    forall i :: 0 <= i < |steps| && steps[i].DependentExpand() && Plan(p, steps[i], goal).Some?
      ==> Apart(w, Plan(p, steps[i], goal).value) && Vacant(st, Plan(p, steps[i], goal).value)
  }

  /** Root sources and steps that do not fan out leave no anchor where a lane row could be. */
  lemma OthersAreVacant(st: Store, p: Planner, step: Step, goal: Cells)
    requires !step.DependentExpand() && Plan(p, step, goal).Some?
    ensures Vacant(st, Plan(p, step, goal).value)
  {
    hide PlanOn, LatestRow;
    if step.shape.Expand? {
      RootCoords(p, step, goal);
    } else {
      NoMinting(p, step, goal);
    }
  }

  lemma StepScriptHolds(w: World, p: Planner, step: Step, goal: Cells)
    requires StepHolds(w, p, step, goal) && !AnyPending(goal)
    requires step.DependentExpand() ==> Apart(w, Plan(p, step, goal).value)
    ensures StepScript(w, p, step, Plan(p, step, goal).value, goal)
  {
    hide PlanOn, Apart, StepCells, Separated;
    var ts := Plan(p, step, goal).value;
    PlanNeverPends(p, step, goal);
    if step.DependentExpand() {
    } else if step.shape.Expand? {
      RootsAreApart(w, p, step, goal);
      RootCoords(p, step, goal);
      SeparatedLanes(w, p.pipe, step, ts);
    } else {
      NoMinting(p, step, goal);
      OtherShapesAreApart(w, ts);
      SeparatedLanes(w, p.pipe, step, ts);
    }
  }

  ghost function PlansOf(p: Planner, steps: seq<Step>, hi: nat, goal: Cells): Plans
    requires hi <= |steps|
  {
    map i: nat | i < hi && Plan(p, steps[i], goal).Some? :: Plan(p, steps[i], goal).value
  }

  /** A segment that ends at step `hi` has the clean run of the steps so far as its script. */
  lemma ScriptHolds(w: World, st: Store, p: Planner, steps: seq<Step>, lo: nat, hi: nat)
    requires Ordered(steps) && p.singles == Singles(steps) && SegmentOk(steps, lo, hi)
    requires CleanRun(w, p, steps[..hi]).Some?
    requires ApartRun(w, st, p, steps[..hi], CleanRun(w, p, steps[..hi]).value)
    ensures var goal := CleanRun(w, p, steps[..hi]).value;
            var plans := PlansOf(p, steps, hi, goal);
            Scripted(w, p, steps, lo, hi, plans, goal)
            && forall i :: lo <= i < hi ==> Vacant(st, plans[i])
  {
    hide PlanOn, StepCells, CleanRun, StepHolds, StepScript, LaneScript, Apart, Vacant, Ordered, Deep;
    var goal := CleanRun(w, p, steps[..hi]).value;
    PrefixOrdered(steps, hi);
    CleanIsRun(w, p, steps[..hi]);
    CleanNeverPends(w, p, steps[..hi]);
    forall i | lo <= i < hi
      ensures Plan(p, steps[i], goal).Some? && StepScript(w, p, steps[i], Plan(p, steps[i], goal).value, goal)
      ensures Vacant(st, Plan(p, steps[i], goal).value)
    {
      assert StepHolds(w, p, steps[..hi][i], goal);
      HeldPlan(w, p, steps[i], goal);
      assert steps[..hi][i] == steps[i];
      StepScriptHolds(w, p, steps[i], goal);
      if !steps[i].DependentExpand() {
        OthersAreVacant(st, p, steps[i], goal);
      }
    }
    forall i, j | lo <= i < hi && lo <= j < hi && Feeds(steps, i, j)
      ensures steps[j].deps == [steps[i].name] && steps[j].shape.Map?
           && LaneScript(p, steps[j], steps[i].name, Plan(p, steps[j], goal).value, goal)
    {
      InnerIsLane(steps, lo, hi, i, j);
      UniformGoal(w, p, steps, hi);
      assert Plan(p, steps[j], goal).Some?;
      LaneScriptHolds(p, steps[j], steps[i].name, goal);
    }
  }

  lemma HeldPlan(w: World, p: Planner, step: Step, goal: Cells)
    requires StepHolds(w, p, step, goal)
    ensures Plan(p, step, goal).Some?
  {
    hide PlanOn;
  }

  /** Only a single-parent map is fed from inside its own segment. */
  lemma InnerIsLane(steps: seq<Step>, lo: nat, hi: nat, i: nat, j: nat)
    requires Ordered(steps) && SegmentOk(steps, lo, hi)
    requires lo <= i < hi && lo <= j < hi && Feeds(steps, i, j)
    ensures i < j && steps[j].deps == [steps[i].name] && steps[j].shape.Map?
  {
    var k :| 0 <= k < j && steps[k].name == steps[i].name;
  }

  /** The broadcast names of the whole run are unambiguous in every prefix of it. */
  lemma UniformGoal(w: World, p: Planner, steps: seq<Step>, n: nat)
    requires Ordered(steps) && n <= |steps| && p.singles == Singles(steps) && CleanRun(w, p, steps[..n]).Some?
    ensures Uniform(p.singles, CleanRun(w, p, steps[..n]).value)
  {
    hide CleanRun, UniformAt, Ordered;
    var goal := CleanRun(w, p, steps[..n]).value;
    SinglesUniform(w, p, steps, n);
    PrefixOrdered(steps, n);
    CleanIsRun(w, p, steps[..n]);
    forall name | name in p.singles ensures UniformAt(goal, name) {
      if name !in Singles(steps[..n]) {
        LaterSingle(steps, n, name);
        NoCellsYet(steps, n, name, goal);
      }
    }
  }

  lemma {:induction false} LaterSingle(steps: seq<Step>, n: nat, name: string)
    requires n <= |steps| && name in Singles(steps) && name !in Singles(steps[..n])
    ensures exists i :: n <= i < |steps| && steps[i].name == name
  {
    assert steps[..|steps|] == steps;
    if n < |steps| {
      var m := |steps| - 1;
      if steps[m].name != name {
        assert steps[..m][..n] == steps[..n];
        LaterSingle(steps[..m], n, name);
        var i :| n <= i < m && steps[..m][i].name == name;
        assert steps[i].name == name;
      }
    }
  }

  lemma NoCellsYet(steps: seq<Step>, n: nat, name: string, goal: Cells)
    requires Ordered(steps) && n <= |steps| && KeysWithin(steps[..n], goal)
    requires exists i :: n <= i < |steps| && steps[i].name == name
    ensures UniformAt(goal, name)
  {
    var i :| n <= i < |steps| && steps[i].name == name;
    forall k | k in goal ensures k.1 != name {
      var j :| 0 <= j < n && steps[..n][j].name == k.1;
      assert steps[j].name != steps[i].name;
    }
  }
}
