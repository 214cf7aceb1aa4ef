/**
 plan(): a dry run, and why what it calls reuse is reuse.

 A dry run plans the steps in order without executing anything.  What would execute is
 "pending", and so is everything that depends on it.  `BelowAt` orders what a dry run knows
 against what a real run finds out; planning is monotone in that order.
 */
module DryRun {
  import opened Model
  import opened Meaning
  import opened Ledger
  import opened History
  import opened Planning
  import opened Clean
  import opened Script
  import opened SingleCoords

  // ---------------------------------------------------------------------------
  // the dry run
  // ---------------------------------------------------------------------------

  predicate Executes(st: Store, p: Planner, step: Step, force: bool, t: Target) {
    (t.ToWork? || t.ToMint?) && !Reuses(st, p, step, force, t)
  }

  function ReusedChildren(st: Store, p: Planner, step: Step, t: Target): set<Hash>
    requires t.ToMint?
  {
    var children := ReplayedChildren(st, p, step.Identity(), t.anchor);
    if children.None? then {} else set h | h in children.value
  }

  function ReusedCell(st: Store, a: Address): Cell {
    if Hit(st, a).Some? then CellOfRow(Hit(st, a).value) else Failed
  }

  /** The cell a dry run notes at a target's own coordinate. */
  function DryCell(st: Store, p: Planner, step: Step, force: bool, t: Target): Cell {
    match t
    case ToWork(a, _) => if Reuses(st, p, step, force, t) then ReusedCell(st, a) else Pending
    case ToSkipped => Skipped
    case ToUtil(cell) => cell
    case ToBlocked => if step.cached then Pending else Blocked
    case _ => Pending
  }

  function FansOut(st: Store, p: Planner, step: Step, force: bool, t: Target): bool {
    t.ToMint? && Reuses(st, p, step, force, t)
  }

  function DryChildren(st: Store, p: Planner, step: Step, force: bool, ts: map<Coord, Target>): set<Hash> {
    set c, h | c in ts && FansOut(st, p, step, force, ts[c]) && h in ReusedChildren(st, p, step, ts[c]) :: h
  }

  function DryCells(st: Store, p: Planner, step: Step, force: bool, ts: map<Coord, Target>): (cells: Cells)
    ensures forall k :: k in cells ==> k.1 == step.name
  {
    (map c | c in ts && !FansOut(st, p, step, force, ts[c]) :: (c, step.name) := DryCell(st, p, step, force, ts[c]))
    + (map h | h in DryChildren(st, p, step, force, ts) ::
         (Row(h), step.name) := ReusedCell(st, ChildAddress(p.pipe, step.Identity(), h)))
  }

  /**
   A dry plan cannot enumerate the lanes of a pending parent, but at the anchor of a partial
   run the requested lanes are known: those it has found no cell for are noted as pending.
   */
  function Placeholders(p: Planner, step: Step, dry: Cells, ts: map<Coord, Target>): (cells: Cells)
    ensures forall k :: k in cells ==> k.1 == step.name && k.0 !in ts && cells[k].Pending? && p.scope.Anchored(step.name)
  {
    if p.scope.Anchored(step.name) && AnyPending(ParentCells(step, dry)) then
      map c | c in p.scope.lanes - ts.Keys :: (c, step.name) := Pending
    else map[]
  }

  /** Everything a dry run notes for a step. */
  ghost function Noted(st: Store, p: Planner, step: Step, force: bool, dry: Cells): (cells: Cells)
    requires Plan(p, step, dry).Some?
    ensures forall k :: k in cells ==> k.1 == step.name
  {
    var ts := Plan(p, step, dry).value;
    DryCells(st, p, step, force, ts) + Placeholders(p, step, dry, ts)
  }

  /** Some lane's lookup raises. */
  predicate Stumbles(st: Store, p: Planner, step: Step, force: bool, ts: map<Coord, Target>) {
    exists c :: c in ts && LookupRaises(st, p, step, force, ts[c])
  }

  /** The cells a dry run knows after these steps; None when planning some step raises. */
  ghost function Dry(st: Store, p: Planner, steps: seq<Step>, force: bool): Option<Cells> {
    if steps == [] then Some(map[])
    else
      var before, step := Dry(st, p, steps[..|steps| - 1], force), steps[|steps| - 1];
      if before.None? then None
      else
        if Plan(p, step, before.value).None? || Stumbles(st, p, step, force, Plan(p, step, before.value).value) then None
        else Some(before.value + Noted(st, p, step, force, before.value))
  }

  // ---------------------------------------------------------------------------
  // a real run, whatever its steps return
  // ---------------------------------------------------------------------------

  /**
   What any run does to the cells of one step, planned whole.  Executed lanes may return
   anything (steps need not be deterministic), and an executed expand lane may mint any lanes;
   it does not overwrite a reused child with something else.
   */
  ghost predicate RunStep(st: Store, p: Planner, step: Step, force: bool, before: Cells, after: Cells) {
    var ts := Plan(p, step, before);
    && ts.Some?
    && (forall k :: k in before ==> k in after && after[k] == before[k] && k.1 != step.name)
    && (forall k :: k in after ==> k in before || k.1 == step.name)
    && (forall c :: c in ts.value ==> LaneRan(st, p, step, force, c, ts.value[c], after))
    && (forall c :: (c, step.name) in after ==> LaneCame(st, p, step, force, ts.value, c, after))
    && (forall c :: (c, step.name) in after ==> !after[(c, step.name)].Pending?)
  }

  /** What is left of a planned lane. */
  ghost predicate LaneRan(st: Store, p: Planner, step: Step, force: bool, c: Coord, t: Target, after: Cells) {
    var k := (c, step.name);
    if FansOut(st, p, step, force, t) then
      forall h :: h in ReusedChildren(st, p, step, t) ==>
        (Row(h), step.name) in after
        && after[(Row(h), step.name)] == ReusedCell(st, ChildAddress(p.pipe, step.Identity(), h))
    else if t.ToMint? then true
    else
      && k in after
      && (t.ToBlocked? ==> after[k].Blocked?)
      && (Settles(st, p, step, force, t) ==> after[k] == DryCell(st, p, step, force, t))
  }

  /** Decided by planning alone: reused, filtered, or fused. */
  predicate Settles(st: Store, p: Planner, step: Step, force: bool, t: Target) {
    t.ToSkipped? || t.ToUtil? || (t.ToWork? && Reuses(st, p, step, force, t))
  }

  /** Where a cell of the step comes from. */
  ghost predicate LaneCame(st: Store, p: Planner, step: Step, force: bool, ts: map<Coord, Target>, c: Coord, after: Cells) {
    || (c in ts && !FansOut(st, p, step, force, ts[c]))
    || (exists h :: c == Row(h) && h in DryChildren(st, p, step, force, ts))
    || (exists e :: e in ts && ts[e].ToMint? && Executes(st, p, step, force, ts[e]))
  }

  /**
   Minted lanes are not called like a lane their step is fed, in the run or in the dry run.  A lane
   that fans out is then gone from the step, unless it failed.
   */
  ghost predicate FreshNames(step: Step, dry: Cells, ts: map<Coord, Target>, after: Cells) {
    step.shape.Expand? ==>
      && (forall c, d :: (c, step.name) in after && c !in ts && d in step.deps ==> (c, d) !in dry)
      && (forall c :: c in ts && ts[c].ToMint? && (c, step.name) in after ==> after[(c, step.name)].Failed?)
  }

  // ---------------------------------------------------------------------------
  // the information order
  // ---------------------------------------------------------------------------

  predicate HasUsable(cells: Cells, c: Coord, name: string) {
    (c, name) in cells && Usable(cells[(c, name)])
  }

  predicate HasFiltered(cells: Cells, c: Coord, name: string) {
    (c, name) in cells && IsFiltered(cells[(c, name)])
  }

  predicate HasPending(cells: Cells, c: Coord, name: string) {
    (c, name) in cells && cells[(c, name)].Pending?
  }

  /** An output the dry run knows is the run's output. */
  ghost predicate OutputsKnown(dry: Cells, run: Cells, name: string) {
    forall c :: HasUsable(dry, c, name) ==> (c, name) in run && run[(c, name)] == dry[(c, name)]
  }

  /** A lane the dry run calls filtered is so in the run, or the run has no output there at all. */
  ghost predicate FiltersKnown(dry: Cells, run: Cells, name: string) {
    forall c :: HasFiltered(dry, c, name) ==>
      if (c, name) in run then run[(c, name)] == dry[(c, name)]
      else forall c' :: !HasUsable(run, c', name)
  }

  /** Outputs the dry run has no lane for replace a pending lane that gave way to them. */
  ghost predicate ExtrasPending(dry: Cells, run: Cells, name: string) {
    forall c :: HasUsable(run, c, name) && (c, name) !in dry ==>
      exists c' :: HasPending(dry, c', name) && (c', name) !in run
  }

  ghost predicate BelowAt(dry: Cells, run: Cells, name: string) {
    OutputsKnown(dry, run, name) && FiltersKnown(dry, run, name) && ExtrasPending(dry, run, name)
  }

  ghost predicate BelowDeps(dry: Cells, run: Cells, step: Step) {
    forall d :: d in step.deps ==> BelowAt(dry, run, d)
  }

  /** The dry run has a lane for every output of the run. */
  ghost predicate NoExtras(dry: Cells, run: Cells, name: string) {
    forall c :: HasUsable(run, c, name) ==> (c, name) in dry
  }

  ghost predicate NoUsable(cells: Cells, name: string) {
    forall c :: !HasUsable(cells, c, name)
  }

  /** A single step's cells are at its coordinate. */
  ghost predicate OnCoord(coords: map<string, Coord>, cells: Cells, name: string) {
    name in coords ==> forall c :: (c, name) in cells ==> c == coords[name]
  }

  /**
   A single step may only stray from its coordinate where it carries the cohort of a partial run:
   the placeholders of its lanes can be anywhere.  The dry run then knows no output of it.
   */
  ghost predicate Kept(p: Planner, coords: map<string, Coord>, dry: Cells, name: string) {
    OnCoord(coords, dry, name) || (p.scope.Restricts(name) && name in p.singles && NoUsable(dry, name))
  }

  /** All the parents are single, at one coordinate. */
  predicate Together(p: Planner, coords: map<string, Coord>, step: Step) {
    && (forall d :: d in step.deps ==> d in p.singles && d in coords)
    && (forall d, e :: d in step.deps && e in step.deps ==> coords[d] == coords[e])
  }

  /**
   What is asked of the scope at one step.  The anchor is a map, and every other step that carries
   the cohort is a map with a parent that carries it; that parent has many lanes, or else the step
   has no more lanes than one either.
   */
  ghost predicate ScopeFits(p: Planner, coords: map<string, Coord>, step: Step, dry: Cells, run: Cells) {
    && (p.scope.Anchored(step.name) ==> p.scope.Restricts(step.name))
    && (p.scope.Restricts(step.name) ==> step.shape.Map? && step.deps != [])
    && (forall d :: d in step.deps && p.scope.Restricts(d) ==>
          NoExtras(dry, run, d)
          && (step.shape.Map? ==> p.scope.Restricts(step.name) && !p.scope.Anchored(step.name)))
    && (p.scope.Restricts(step.name) && !p.scope.Anchored(step.name) ==>
          exists d :: d in step.deps && p.scope.Restricts(d) && (d !in p.singles || Together(p, coords, step)))
  }

  /** What the theorem asks of one step: no declarative union, no failures, a scope that fits. */
  ghost predicate Comparable(p: Planner, coords: map<string, Coord>, step: Step, dry: Cells, run: Cells) {
    && ScopeFits(p, coords, step, dry, run) && !step.declarative && step.WellFormed()
    && BelowDeps(dry, run, step)
    && !AnyBad(dry) && !AnyBad(run) && !AnyPending(run)
    && (forall d :: d in step.deps && d in p.singles ==> d in coords)
    && (forall d :: d in step.deps ==> Kept(p, coords, dry, d))
    && AtCoords(coords, run)
  }

  // ---------------------------------------------------------------------------
  // maps and expands
  // ---------------------------------------------------------------------------

  /** The plan of a lanewise step, lane by lane. */
  lemma LanePlan(p: Planner, step: Step, cells: Cells)
    requires Lanewise(step) && !step.declarative && Plan(p, step, cells).Some?
    ensures var ts := Plan(p, step, cells).value;
            (forall c :: c in ts ==> ts[c] == Classify(p.pipe, step, Seen(p, step, cells, c)))
            && (forall c, d :: c in ts && d in step.deps ==> d in Seen(p, step, cells, c))
    ensures step.deps == [] ==> Plan(p, step, cells).value.Keys == {Root}
    ensures step.deps != [] ==> forall c :: c in Plan(p, step, cells).value <==>
              p.scope.Admits(step.name, c) && exists d :: d in ScanDeps(p, step) && (c, d) in cells
  {
    hide Classify, AggregatePlan, JoinPlan, Broadcast, ParentsAt;
    var own := ParentCells(step, cells);
    assert forall d :: d in ScanDeps(p, step) ==> d in step.deps;
    if step.deps != [] {
      forall c | p.scope.Admits(step.name, c) && exists d :: d in ScanDeps(p, step) && (c, d) in cells
        ensures c in MapCoords(p, step, own)
      {
        var d :| d in ScanDeps(p, step) && (c, d) in cells;
        assert (c, d) in own;
      }
    }
  }

  /** The cell a lane sees of each parent: its own, or for a broadcast parent any one of its cells. */
  lemma SeenFrom(p: Planner, step: Step, cells: Cells, c: Coord, d: string) returns (at: Coord)
    requires d in Seen(p, step, cells, c)
    ensures (at, d) in cells && Seen(p, step, cells, c)[d] == cells[(at, d)] && (d !in p.singles ==> at == c)
  {
    hide Broadcast;
    at := c;
    if d in p.singles {
      var own := ParentCells(step, cells);
      var b := Broadcast(p, step, own);
      at :| (at, d) in own && own[(at, d)] == b[d];
    }
  }

  lemma SeenCell(p: Planner, coords: map<string, Coord>, step: Step, cells: Cells, c: Coord, d: string)
    requires OnCoord(coords, cells, d) && (d in p.singles ==> d in coords)
    requires d in Seen(p, step, cells, c)
    ensures var at := if d in p.singles then coords[d] else c;
            (at, d) in cells && Seen(p, step, cells, c)[d] == cells[(at, d)]
  {
    hide Seen;
    var at := SeenFrom(p, step, cells, c, d);
  }

  lemma CoordOf(coords: map<string, Coord>, cells: Cells, d: string)
    requires AtCoords(coords, cells)
    ensures OnCoord(coords, cells, d)
  {
  }

  function At(p: Planner, coords: map<string, Coord>, d: string, c: Coord): Coord
    requires d in p.singles ==> d in coords
  {
    if d in p.singles then coords[d] else c
  }

  /** A parent is seen wherever its cell is. */
  lemma CellSeen(p: Planner, coords: map<string, Coord>, step: Step, cells: Cells, c: Coord, d: string)
    requires OnCoord(coords, cells, d) && (d in p.singles ==> d in coords) && d in step.deps
    requires (At(p, coords, d, c), d) in cells
    ensures d in Seen(p, step, cells, c) && Seen(p, step, cells, c)[d] == cells[(At(p, coords, d, c), d)]
  {
    hide Broadcast;
    var own := ParentCells(step, cells);
    assert (At(p, coords, d, c), d) in own;
    if d in p.singles {
      var b := Broadcast(p, step, own);
      assert d in b;
      var c' :| (c', d) in own && own[(c', d)] == b[d];
    }
  }

  /** A parent of many lanes is seen at the lane itself. */
  lemma OwnCellSeen(p: Planner, step: Step, cells: Cells, c: Coord, d: string)
    requires d in step.deps && d !in p.singles && (c, d) in cells
    ensures d in Seen(p, step, cells, c) && Seen(p, step, cells, c)[d] == cells[(c, d)]
  {
    hide Broadcast;
    assert (c, d) in ParentCells(step, cells);
  }

  /** A lane all of whose parents the dry run knows is planned the same way by the run. */
  lemma KnownLane(p: Planner, coords: map<string, Coord>, step: Step, dry: Cells, run: Cells, c: Coord)
    requires Comparable(p, coords, step, dry, run) && Lanewise(step)
    requires Plan(p, step, dry).Some? && Plan(p, step, run).Some? && c in Plan(p, step, dry).value
    requires forall d :: d in Seen(p, step, dry, c) ==> Usable(Seen(p, step, dry, c)[d])
    ensures c in Plan(p, step, run).value && Plan(p, step, run).value[c] == Plan(p, step, dry).value[c]
  {
    hide PlanOn, Seen, Classify, Usable, AnyBad, AnyPending, ScopeFits, BelowDeps, AtCoords, OnCoord, Kept;
    LanePlan(p, step, dry);
    LanePlan(p, step, run);
    forall d | d in step.deps
      ensures d in Seen(p, step, run, c) && Seen(p, step, run, c)[d] == Seen(p, step, dry, c)[d]
      ensures (At(p, coords, d, c), d) in run && OnCoord(coords, dry, d)
    {
      KnownParent(p, coords, step, dry, run, c, d);
    }
    SeenKeys(p, step, dry, c);
    SeenKeys(p, step, run, c);
    assert Seen(p, step, run, c) == Seen(p, step, dry, c);
    if step.deps != [] {
      ScannedLane(p, coords, step, dry, run, c);
    }
  }

  lemma KnownParent(p: Planner, coords: map<string, Coord>, step: Step, dry: Cells, run: Cells, c: Coord, d: string)
    requires Comparable(p, coords, step, dry, run) && d in step.deps
    requires d in Seen(p, step, dry, c) && Usable(Seen(p, step, dry, c)[d])
    ensures d in Seen(p, step, run, c) && Seen(p, step, run, c)[d] == Seen(p, step, dry, c)[d]
    ensures (At(p, coords, d, c), d) in run && OnCoord(coords, dry, d)
  {
    hide Seen, Usable, ScopeFits, AtCoords, OnCoord, AnyBad, AnyPending;
    var at := SeenFrom(p, step, dry, c, d);
    assert HasUsable(dry, at, d) && Kept(p, coords, dry, d);
    CoordOf(coords, run, d);
    SeenCell(p, coords, step, dry, c, d);
    assert BelowAt(dry, run, d);
    assert HasUsable(dry, At(p, coords, d, c), d);
    CellSeen(p, coords, step, run, c, d);
  }

  lemma SeenKeys(p: Planner, step: Step, cells: Cells, c: Coord)
    ensures forall d :: d in Seen(p, step, cells, c) ==> d in step.deps
  {
    hide Broadcast;
  }

  /** If every parent seen at a lane is also there in the run, the run has the lane. */
  lemma ScannedLane(p: Planner, coords: map<string, Coord>, step: Step, dry: Cells, run: Cells, c: Coord)
    requires Comparable(p, coords, step, dry, run) && Lanewise(step) && step.deps != []
    requires Plan(p, step, dry).Some? && Plan(p, step, run).Some? && c in Plan(p, step, dry).value
    requires forall d :: d in step.deps ==> (At(p, coords, d, c), d) in run && OnCoord(coords, dry, d)
    ensures c in Plan(p, step, run).value
  {
    hide PlanOn, Seen;
    LanePlan(p, step, dry);
    LanePlan(p, step, run);
    var d :| d in ScanDeps(p, step) && (c, d) in dry;
    assert d in step.deps;
    assert At(p, coords, d, c) == c;
    assert (c, d) in run;
  }

  lemma ClassifyKinds(pipe: string, step: Step, ps: map<string, Cell>)
    requires forall d :: d in ps ==> !Bad(ps[d])
    ensures var t := Classify(pipe, step, ps);
            !t.ToBlocked?
            && (t.ToSkipped? <==> exists d :: d in ps && IsFiltered(ps[d]))
            && (t.ToPending? <==> (forall d :: d in ps ==> !IsFiltered(ps[d])) && exists d :: d in ps && ps[d].Pending?)
            && (t.ToUtil? || t.ToWork? || t.ToMint? <==> forall d :: d in ps ==> Usable(ps[d]))
            && (t.ToMint? ==> step.shape.Expand?)
            && (t.ToWork? ==> t.address.code == step.Identity())
            && (t.ToMint? ==> t.anchor.code == step.Identity())
  {
    hide Arrange, InputOf;
  }

  // ---------------------------------------------------------------------------
  // planning is monotone: maps
  // ---------------------------------------------------------------------------

  /** Both plans of a step are there, and the run went on without a failure. */
  ghost predicate Stepped(st: Store, p: Planner, coords: map<string, Coord>, step: Step, force: bool,
                          dry: Cells, run: Cells, after: Cells)
  {
    && Comparable(p, coords, step, dry, run)
    && Plan(p, step, dry).Some?
    && RunStep(st, p, step, force, run, after)
    && !AnyBad(after)
  }

  lemma MapTargets(p: Planner, step: Step, cells: Cells)
    requires step.shape.Map? && !step.declarative && Plan(p, step, cells).Some?
    ensures forall c :: c in Plan(p, step, cells).value ==> !Plan(p, step, cells).value[c].ToMint?
  {
    hide Classify, PlanOn;
    LanePlan(p, step, cells);
    forall c | c in Plan(p, step, cells).value ensures !Plan(p, step, cells).value[c].ToMint? {
      MapsDoNotMint(p.pipe, step, Seen(p, step, cells, c));
    }
  }

  /** Without minting, a step's cells are its planned lanes, and the placeholders of a dry run. */
  lemma LanesOnly(st: Store, p: Planner, step: Step, force: bool, dry: Cells, run: Cells, after: Cells)
    requires Plan(p, step, dry).Some? && RunStep(st, p, step, force, run, after)
    requires forall c :: c in Plan(p, step, dry).value ==> !Plan(p, step, dry).value[c].ToMint?
    requires forall c :: c in Plan(p, step, run).value ==> !Plan(p, step, run).value[c].ToMint?
    ensures forall c :: c in Plan(p, step, dry).value ==>
              (c, step.name) in Noted(st, p, step, force, dry)
              && Noted(st, p, step, force, dry)[(c, step.name)] == DryCell(st, p, step, force, Plan(p, step, dry).value[c])
    ensures forall c :: (c, step.name) in Noted(st, p, step, force, dry) && c !in Plan(p, step, dry).value ==>
              p.scope.Anchored(step.name) && Noted(st, p, step, force, dry)[(c, step.name)].Pending?
    ensures forall c :: (c, step.name) in after <==> c in Plan(p, step, run).value
  {
    hide PlanOn, DryCell, Reuses, Settles, Noted, RunStep;
    NotedLanes(st, p, step, force, dry);
    RanLanes(st, p, step, force, run, after);
  }

  lemma NotedLanes(st: Store, p: Planner, step: Step, force: bool, dry: Cells)
    requires Plan(p, step, dry).Some?
    requires forall c :: c in Plan(p, step, dry).value ==> !Plan(p, step, dry).value[c].ToMint?
    ensures forall c :: c in Plan(p, step, dry).value ==>
              (c, step.name) in Noted(st, p, step, force, dry)
              && Noted(st, p, step, force, dry)[(c, step.name)] == DryCell(st, p, step, force, Plan(p, step, dry).value[c])
    ensures forall c :: (c, step.name) in Noted(st, p, step, force, dry) && c !in Plan(p, step, dry).value ==>
              p.scope.Anchored(step.name) && Noted(st, p, step, force, dry)[(c, step.name)].Pending?
  {
    hide PlanOn, DryCell, Reuses, Placeholders;
    var ts := Plan(p, step, dry).value;
    assert DryChildren(st, p, step, force, ts) == {};
    forall c | c in ts
      ensures (c, step.name) in DryCells(st, p, step, force, ts) && (c, step.name) !in Placeholders(p, step, dry, ts)
    {
    }
  }

  lemma RanLanes(st: Store, p: Planner, step: Step, force: bool, run: Cells, after: Cells)
    requires RunStep(st, p, step, force, run, after)
    requires forall c :: c in Plan(p, step, run).value ==> !Plan(p, step, run).value[c].ToMint?
    ensures forall c :: (c, step.name) in after <==> c in Plan(p, step, run).value
  {
    hide PlanOn, DryCell, Reuses, Settles;
    assert DryChildren(st, p, step, force, Plan(p, step, run).value) == {};
    forall c | c in Plan(p, step, run).value ensures (c, step.name) in after {
      assert LaneRan(st, p, step, force, c, Plan(p, step, run).value[c], after);
    }
    forall c | (c, step.name) in after ensures c in Plan(p, step, run).value {
      assert LaneCame(st, p, step, force, Plan(p, step, run).value, c, after);
    }
  }

  /** What a lane of the dry run sees decides its target. */
  lemma LaneKind(p: Planner, step: Step, cells: Cells, c: Coord)
    requires Lanewise(step) && !step.declarative && Plan(p, step, cells).Some? && !AnyBad(cells)
    requires c in Plan(p, step, cells).value
    ensures var t, ps := Plan(p, step, cells).value[c], Seen(p, step, cells, c);
            !t.ToBlocked?
            && (t.ToSkipped? <==> exists d :: d in ps && IsFiltered(ps[d]))
            && (t.ToPending? <==> (forall d :: d in ps ==> !IsFiltered(ps[d])) && exists d :: d in ps && ps[d].Pending?)
            && (t.ToUtil? || t.ToWork? || t.ToMint? <==> forall d :: d in ps ==> Usable(ps[d]))
            && (t.ToMint? ==> step.shape.Expand?)
  {
    hide PlanOn, Seen, Classify, Usable, IsFiltered;
    LanePlan(p, step, cells);
    SeenNotBad(p, step, cells, c);
    ClassifyKinds(p.pipe, step, Seen(p, step, cells, c));
  }

  lemma SeenNotBad(p: Planner, step: Step, cells: Cells, c: Coord)
    requires !AnyBad(cells)
    ensures forall d :: d in Seen(p, step, cells, c) ==> !Bad(Seen(p, step, cells, c)[d])
  {
    hide Broadcast;
    var own := ParentCells(step, cells);
    var b := Broadcast(p, step, own);
    forall d | d in Seen(p, step, cells, c) ensures !Bad(Seen(p, step, cells, c)[d]) {
      if d in p.singles {
        var c' :| (c', d) in own && own[(c', d)] == b[d];
        assert (c', d) in cells;
      }
    }
  }

  /** A lane whose output the dry run knows: reused, or fused from known parents. */
  lemma SettledLane(st: Store, p: Planner, coords: map<string, Coord>, step: Step, force: bool,
                    dry: Cells, run: Cells, after: Cells, c: Coord)
    requires Stepped(st, p, coords, step, force, dry, run, after) && step.shape.Map?
    requires c in Plan(p, step, dry).value
    requires var t := Plan(p, step, dry).value[c]; t.ToUtil? || (t.ToWork? && Reuses(st, p, step, force, t))
    ensures (c, step.name) in after && after[(c, step.name)] == DryCell(st, p, step, force, Plan(p, step, dry).value[c])
  {
    hide PlanOn, Reuses, Seen, DryCell, Usable, IsFiltered;
    LaneKind(p, step, dry, c);
    KnownLane(p, coords, step, dry, run, c);
    assert LaneRan(st, p, step, force, c, Plan(p, step, run).value[c], after);
  }

  lemma DryCellKinds(st: Store, p: Planner, step: Step, force: bool, t: Target)
    requires !t.ToBlocked? && (t.ToUtil? ==> t.cell.Util?)
    ensures var cell := DryCell(st, p, step, force, t);
            (Usable(cell) ==> t.ToUtil? || (t.ToWork? && Reuses(st, p, step, force, t)))
            && (IsFiltered(cell) ==> t.ToSkipped? || (t.ToWork? && Reuses(st, p, step, force, t)))
            && (t.ToSkipped? ==> cell == Skipped)
            && (t.ToPending? || t.ToMint? || (t.ToWork? && !Reuses(st, p, step, force, t)) ==> cell.Pending?)
            && !Bad(cell)
  {
  }

  lemma MapOutputsKnown(st: Store, p: Planner, coords: map<string, Coord>, step: Step, force: bool,
                        dry: Cells, run: Cells, after: Cells)
    requires Stepped(st, p, coords, step, force, dry, run, after) && step.shape.Map?
    ensures OutputsKnown(Noted(st, p, step, force, dry), after, step.name)
  {
    hide PlanOn, Reuses, Usable, DryCell, Noted;
    MapTargets(p, step, dry);
    MapTargets(p, step, run);
    LanesOnly(st, p, step, force, dry, run, after);
    TargetsUtil(p, step, dry);
    forall c | HasUsable(Noted(st, p, step, force, dry), c, step.name)
      ensures (c, step.name) in after && after[(c, step.name)] == Noted(st, p, step, force, dry)[(c, step.name)]
    {
      PendingKinds(Noted(st, p, step, force, dry)[(c, step.name)]);
      LaneKind(p, step, dry, c);
      DryCellKinds(st, p, step, force, Plan(p, step, dry).value[c]);
      SettledLane(st, p, coords, step, force, dry, run, after, c);
    }
  }

  /** A lane the run plans is usable there only if the run has an output of every parent for it. */
  lemma UsableLane(st: Store, p: Planner, coords: map<string, Coord>, step: Step, force: bool,
                   dry: Cells, run: Cells, after: Cells, c: Coord, d: string)
    requires Stepped(st, p, coords, step, force, dry, run, after) && step.shape.Map? && d in step.deps
    requires HasUsable(after, c, step.name)
    ensures HasUsable(run, At(p, coords, d, c), d) && c in Plan(p, step, run).value
  {
    hide PlanOn, Usable, Seen, IsFiltered, Reuses, ScopeFits, BelowDeps, Kept, AtCoords, AnyBad, AnyPending, LaneRan, LaneCame, Noted, DryCell;
    MapTargets(p, step, dry);
    MapTargets(p, step, run);
    LanesOnly(st, p, step, force, dry, run, after);
    LaneKind(p, step, run, c);
    LanePlan(p, step, run);
    CoordOf(coords, run, d);
    SeenCell(p, coords, step, run, c, d);
    NothingPendsHere(p, step, run);
    UsableIsOwn(st, p, step, force, run, after, c);
  }

  lemma UsableIsOwn(st: Store, p: Planner, step: Step, force: bool, run: Cells, after: Cells, c: Coord)
    requires RunStep(st, p, step, force, run, after) && c in Plan(p, step, run).value && HasUsable(after, c, step.name)
    requires !Plan(p, step, run).value[c].ToMint? && !Plan(p, step, run).value[c].ToPending?
    ensures Plan(p, step, run).value[c].ToUtil? || Plan(p, step, run).value[c].ToWork?
  {
    hide PlanOn, Usable, Reuses, LaneCame, ReusedCell;
    assert LaneRan(st, p, step, force, c, Plan(p, step, run).value[c], after);
    UsableKinds(after[(c, step.name)]);
  }

  lemma UsableKinds(cell: Cell)
    ensures Usable(cell) ==> !cell.Skipped? && !cell.Blocked? && !cell.Pending? && !IsFiltered(cell) && !Bad(cell)
  {
  }

  lemma NothingPendsHere(p: Planner, step: Step, cells: Cells)
    requires !AnyPending(cells) && Plan(p, step, cells).Some?
    ensures forall c :: c in Plan(p, step, cells).value ==> !Plan(p, step, cells).value[c].ToPending?
  {
    PlanNeverPends(p, step, cells);
  }

  /** A parent that a lane of the dry run sees filtered has no output for that lane in the run. */
  lemma FilteredSeen(p: Planner, coords: map<string, Coord>, step: Step, dry: Cells, run: Cells, c: Coord, d: string)
    requires Comparable(p, coords, step, dry, run) && d in step.deps
    requires d in Seen(p, step, dry, c) && IsFiltered(Seen(p, step, dry, c)[d])
    ensures !HasUsable(run, At(p, coords, d, c), d)
    ensures d in p.singles || (c, d) !in run ==> forall c' :: !HasUsable(run, At(p, coords, d, c'), d)
  {
    hide Seen, Usable, IsFiltered, ScopeFits, OutputsKnown, ExtrasPending, AnyBad, AnyPending;
    var at := SeenFrom(p, step, dry, c, d);
    assert BelowAt(dry, run, d) && HasFiltered(dry, at, d);
    if (at, d) in run {
      UsableKinds(run[(at, d)]);
    }
  }

  /** A lane filtered in the dry run. */
  lemma SkippedLane(st: Store, p: Planner, coords: map<string, Coord>, step: Step, force: bool,
                    dry: Cells, run: Cells, after: Cells, c: Coord, d: string)
    requires Stepped(st, p, coords, step, force, dry, run, after) && step.shape.Map? && d in step.deps
    requires c in Plan(p, step, dry).value && d in Seen(p, step, dry, c) && IsFiltered(Seen(p, step, dry, c)[d])
    ensures if c in Plan(p, step, run).value then Plan(p, step, run).value[c].ToSkipped?
            else forall c' :: !HasUsable(after, c', step.name)
  {
    hide PlanOn, Usable, Seen, IsFiltered, Reuses, RunStep, ScopeFits, BelowDeps, ScanDeps, Kept;
    assert Plan(p, step, run).Some? by { PlansOf(st, p, coords, step, force, dry, run, after); }
    if c in Plan(p, step, run).value {
      SkippedThere(p, coords, step, dry, run, c, d);
    } else {
      SkippedParent(p, coords, step, dry, run, c, d);
      forall c' ensures !HasUsable(after, c', step.name) {
        if HasUsable(after, c', step.name) {
          UsableLane(st, p, coords, step, force, dry, run, after, c', d);
          assert false;
        }
      }
    }
  }

  lemma SkippedThere(p: Planner, coords: map<string, Coord>, step: Step, dry: Cells, run: Cells, c: Coord, d: string)
    requires Comparable(p, coords, step, dry, run) && Lanewise(step) && d in step.deps
    requires Plan(p, step, run).Some? && c in Plan(p, step, run).value
    requires d in Seen(p, step, dry, c) && IsFiltered(Seen(p, step, dry, c)[d])
    ensures Plan(p, step, run).value[c].ToSkipped?
  {
    hide PlanOn, Usable, Seen, IsFiltered, ScopeFits, ScanDeps, BelowDeps, AtCoords, OnCoord, Kept;
    FilteredSeen(p, coords, step, dry, run, c, d);
    LanePlan(p, step, run);
    CoordOf(coords, run, d);
    SeenCell(p, coords, step, run, c, d);
    CellKinds(run[(At(p, coords, d, c), d)]);
    LaneKind(p, step, run, c);
  }

  /** The filtered parent lane is missing in the run, or broadcast: either way no lane has an output of it. */
  lemma SkippedParent(p: Planner, coords: map<string, Coord>, step: Step, dry: Cells, run: Cells, c: Coord, d: string)
    requires Comparable(p, coords, step, dry, run) && Lanewise(step) && d in step.deps
    requires Plan(p, step, dry).Some? && Plan(p, step, run).Some?
    requires c in Plan(p, step, dry).value && c !in Plan(p, step, run).value
    requires d in Seen(p, step, dry, c) && IsFiltered(Seen(p, step, dry, c)[d])
    ensures forall c' :: !HasUsable(run, At(p, coords, d, c'), d)
  {
    hide PlanOn, Usable, Seen, IsFiltered, ScopeFits, ScanDeps, BelowDeps, Kept, AtCoords;
    FilteredSeen(p, coords, step, dry, run, c, d);
    LanePlan(p, step, dry);
    LanePlan(p, step, run);
    ScansDeps(p, step);
  }

  lemma MapFiltersKnown(st: Store, p: Planner, coords: map<string, Coord>, step: Step, force: bool,
                        dry: Cells, run: Cells, after: Cells)
    requires Stepped(st, p, coords, step, force, dry, run, after) && step.shape.Map?
    ensures FiltersKnown(Noted(st, p, step, force, dry), after, step.name)
  {
    hide PlanOn, Reuses, Usable, IsFiltered, DryCell, Noted, Seen, RunStep;
    forall c | HasFiltered(Noted(st, p, step, force, dry), c, step.name)
      ensures FilterKnownAt(Noted(st, p, step, force, dry), after, step.name, c)
    {
      MapFilterKnown(st, p, coords, step, force, dry, run, after, c);
    }
  }

  ghost predicate FilterKnownAt(dry: Cells, run: Cells, name: string, c: Coord)
    requires (c, name) in dry
  {
    if (c, name) in run then run[(c, name)] == dry[(c, name)]
    else forall c' :: !HasUsable(run, c', name)
  }

  lemma MapFilterKnown(st: Store, p: Planner, coords: map<string, Coord>, step: Step, force: bool,
                       dry: Cells, run: Cells, after: Cells, c: Coord)
    requires Stepped(st, p, coords, step, force, dry, run, after) && step.shape.Map?
    requires HasFiltered(Noted(st, p, step, force, dry), c, step.name)
    ensures FilterKnownAt(Noted(st, p, step, force, dry), after, step.name, c)
  {
    hide PlanOn, Reuses, Usable, IsFiltered, DryCell, Noted, Seen;
    MapTargets(p, step, dry);
    MapTargets(p, step, run);
    LanesOnly(st, p, step, force, dry, run, after);
    TargetsUtil(p, step, dry);
    PendingKinds(Noted(st, p, step, force, dry)[(c, step.name)]);
    LaneKind(p, step, dry, c);
    var t := Plan(p, step, dry).value[c];
    DryCellKinds(st, p, step, force, t);
    if t.ToSkipped? {
      var d :| d in Seen(p, step, dry, c) && IsFiltered(Seen(p, step, dry, c)[d]);
      SeenKeys(p, step, dry, c);
      SkippedLane(st, p, coords, step, force, dry, run, after, c, d);
      if c in Plan(p, step, run).value {
        SkippedStays(st, p, step, force, run, after, c);
      }
    } else {
      SettledLane(st, p, coords, step, force, dry, run, after, c);
    }
  }

  lemma SkippedStays(st: Store, p: Planner, step: Step, force: bool, run: Cells, after: Cells, c: Coord)
    requires RunStep(st, p, step, force, run, after)
    requires c in Plan(p, step, run).value && Plan(p, step, run).value[c].ToSkipped?
    ensures (c, step.name) in after && after[(c, step.name)] == Skipped
  {
    hide PlanOn;
    assert LaneRan(st, p, step, force, c, Plan(p, step, run).value[c], after);
  }

  lemma RunLane(st: Store, p: Planner, coords: map<string, Coord>, step: Step, force: bool,
                dry: Cells, run: Cells, after: Cells, c: Coord)
    requires Stepped(st, p, coords, step, force, dry, run, after) && step.shape.Map?
    requires HasUsable(after, c, step.name)
    ensures Plan(p, step, run).Some? && c in Plan(p, step, run).value
  {
    hide PlanOn, Reuses, DryCell, Usable;
    MapTargets(p, step, run);
    MapTargets(p, step, dry);
    LanesOnly(st, p, step, force, dry, run, after);
  }

  /** A lane the run has an output for, but the dry run has not planned: one of its parents. */
  lemma UnplannedLane(st: Store, p: Planner, coords: map<string, Coord>, step: Step, force: bool,
                      dry: Cells, run: Cells, after: Cells, c: Coord) returns (d: string)
    requires Stepped(st, p, coords, step, force, dry, run, after) && step.shape.Map?
    requires HasUsable(after, c, step.name) && c !in Plan(p, step, dry).value
    ensures d in step.deps && d in ScanDeps(p, step) && p.scope.Admits(step.name, c)
    ensures HasUsable(run, c, d) && (c, d) !in dry
  {
    hide PlanOn, Usable, Seen, IsFiltered, Reuses, BelowDeps, RunStep, AnyBad, AnyPending, ScanDeps, ScopeFits;
    RunLane(st, p, coords, step, force, dry, run, after, c);
    LanePlan(p, step, dry);
    LanePlan(p, step, run);
    ScansDeps(p, step);
    d :| d in ScanDeps(p, step) && (c, d) in run;
    UsableLane(st, p, coords, step, force, dry, run, after, c, d);
    assert At(p, coords, d, c) == c;
  }

  lemma ScansDeps(p: Planner, step: Step)
    ensures forall d :: d in ScanDeps(p, step) ==> d in step.deps
    ensures forall d :: d in step.deps && d !in p.singles ==> d in ScanDeps(p, step)
  {
  }

  /** The parent lane it came from gave way to it: another lane of that parent is pending in the dry run. */
  lemma PendingElsewhere(st: Store, p: Planner, coords: map<string, Coord>, step: Step, force: bool,
                         dry: Cells, run: Cells, after: Cells, c: Coord) returns (d: string, e: Coord)
    requires Stepped(st, p, coords, step, force, dry, run, after) && step.shape.Map?
    requires HasUsable(after, c, step.name) && c !in Plan(p, step, dry).value
    ensures d in step.deps && p.scope.Admits(step.name, c)
    ensures HasPending(dry, e, d) && (e, d) !in run
    ensures !p.scope.Restricts(step.name) ==> d !in p.singles
  {
    hide PlanOn, Usable, RunStep, AnyBad, AnyPending, ScanDeps, OutputsKnown, FiltersKnown, NoExtras, Together;
    d := UnplannedLane(st, p, coords, step, force, dry, run, after, c);
    assert BelowAt(dry, run, d) && Kept(p, coords, dry, d);
    e :| HasPending(dry, e, d) && (e, d) !in run;
    assert (c, d) in run && (e, d) in dry;
  }

  /** Where the cohort is not carried, that other lane is planned. */
  lemma PlannedElsewhere(p: Planner, step: Step, dry: Cells, d: string, e: Coord)
    requires Lanewise(step) && !step.declarative && Plan(p, step, dry).Some? && !p.scope.Restricts(step.name)
    requires d in step.deps && d !in p.singles && (e, d) in dry
    ensures e in Plan(p, step, dry).value
  {
    hide PlanOn, ScanDeps;
    LanePlan(p, step, dry);
    ScansDeps(p, step);
  }

  /** At a step that carries the cohort, the dry run has a lane for every output of the run. */
  lemma ScopedLane(st: Store, p: Planner, coords: map<string, Coord>, step: Step, force: bool,
                   dry: Cells, run: Cells, after: Cells, c: Coord)
    requires Stepped(st, p, coords, step, force, dry, run, after) && p.scope.Restricts(step.name)
    requires HasUsable(after, c, step.name) && c !in Plan(p, step, dry).value
    ensures (c, step.name) in Noted(st, p, step, force, dry)
  {
    hide PlanOn, Usable, RunStep, AnyBad, ScanDeps, BelowDeps, DryCells, NoExtras, Kept, Together;
    var d, e := PendingElsewhere(st, p, coords, step, force, dry, run, after, c);
    assert (e, d) in ParentCells(step, dry);
    if !p.scope.Anchored(step.name) {
      var d' :| d' in step.deps && p.scope.Restricts(d') && (d' !in p.singles || Together(p, coords, step));
      CarriedLane(st, p, coords, step, force, dry, run, after, c, d');
    }
  }

  lemma CarriedLane(st: Store, p: Planner, coords: map<string, Coord>, step: Step, force: bool,
                    dry: Cells, run: Cells, after: Cells, c: Coord, d: string)
    requires Stepped(st, p, coords, step, force, dry, run, after) && step.shape.Map? && HasUsable(after, c, step.name)
    requires d in step.deps && NoExtras(dry, run, d) && (d !in p.singles || Together(p, coords, step))
    ensures c in Plan(p, step, dry).value
  {
    hide PlanOn, Usable, RunStep, AnyBad, AnyPending, BelowDeps, ScopeFits, Kept;
    RunLane(st, p, coords, step, force, dry, run, after, c);
    LanePlan(p, step, dry);
    LanePlan(p, step, run);
    ScansDeps(p, step);
    UsableLane(st, p, coords, step, force, dry, run, after, c, d);
    if d in p.singles {
      var d' :| d' in ScanDeps(p, step) && (c, d') in run;
      assert d' in step.deps && c == coords[d'] == coords[d];
    }
    assert (c, d) in dry && d in ScanDeps(p, step);
  }

  lemma ScopedNoExtras(st: Store, p: Planner, coords: map<string, Coord>, step: Step, force: bool,
                       dry: Cells, run: Cells, after: Cells)
    requires Stepped(st, p, coords, step, force, dry, run, after) && p.scope.Restricts(step.name)
    ensures NoExtras(Noted(st, p, step, force, dry), after, step.name)
  {
    hide PlanOn, Usable, RunStep, AnyBad, AnyPending, BelowDeps, DryCells, Reuses;
    forall c | HasUsable(after, c, step.name) ensures (c, step.name) in Noted(st, p, step, force, dry) {
      if c in Plan(p, step, dry).value {
        PlannedIsNoted(st, p, coords, step, force, dry, run, after, c);
      } else {
        ScopedLane(st, p, coords, step, force, dry, run, after, c);
      }
    }
  }

  lemma PlannedIsNoted(st: Store, p: Planner, coords: map<string, Coord>, step: Step, force: bool,
                       dry: Cells, run: Cells, after: Cells, c: Coord)
    requires Stepped(st, p, coords, step, force, dry, run, after) && step.shape.Map?
    requires c in Plan(p, step, dry).value
    ensures (c, step.name) in Noted(st, p, step, force, dry)
  {
    hide PlanOn, Reuses, DryCell, Usable;
    MapTargets(p, step, run);
    MapTargets(p, step, dry);
    LanesOnly(st, p, step, force, dry, run, after);
  }

  lemma MapExtrasPending(st: Store, p: Planner, coords: map<string, Coord>, step: Step, force: bool,
                         dry: Cells, run: Cells, after: Cells)
    requires Stepped(st, p, coords, step, force, dry, run, after) && step.shape.Map?
    ensures ExtrasPending(Noted(st, p, step, force, dry), after, step.name)
  {
    hide PlanOn, Reuses, Usable, IsFiltered, DryCell, Noted, RunStep, Comparable;
    if p.scope.Restricts(step.name) {
      ScopedNoExtras(st, p, coords, step, force, dry, run, after);
    } else {
      forall c | HasUsable(after, c, step.name) && (c, step.name) !in Noted(st, p, step, force, dry)
        ensures exists e :: HasPending(Noted(st, p, step, force, dry), e, step.name) && (e, step.name) !in after
      {
        UnscopedExtra(st, p, coords, step, force, dry, run, after, c);
      }
    }
  }

  lemma UnscopedExtra(st: Store, p: Planner, coords: map<string, Coord>, step: Step, force: bool,
                      dry: Cells, run: Cells, after: Cells, c: Coord)
    requires Stepped(st, p, coords, step, force, dry, run, after) && step.shape.Map?
    requires !p.scope.Restricts(step.name)
    requires HasUsable(after, c, step.name) && (c, step.name) !in Noted(st, p, step, force, dry)
    ensures exists e :: HasPending(Noted(st, p, step, force, dry), e, step.name) && (e, step.name) !in after
  {
    hide PlanOn, Reuses, Usable, IsFiltered, DryCell, Noted, RunStep, AnyBad, AnyPending, BelowDeps, ScopeFits;
    if c in Plan(p, step, dry).value {
      PlannedIsNoted(st, p, coords, step, force, dry, run, after, c);
    }
    var d, e := PendingElsewhere(st, p, coords, step, force, dry, run, after, c);
    PlannedElsewhere(p, step, dry, d, e);
    PendingLane(st, p, coords, step, force, dry, run, after, c, d, e);
    assert HasPending(Noted(st, p, step, force, dry), e, step.name);
  }

  /** The lane that is pending at one parent is pending at the step and is not a lane of the run. */
  lemma PendingLane(st: Store, p: Planner, coords: map<string, Coord>, step: Step, force: bool,
                    dry: Cells, run: Cells, after: Cells, c: Coord, d: string, e: Coord)
    requires Stepped(st, p, coords, step, force, dry, run, after) && step.shape.Map?
    requires HasUsable(after, c, step.name)
    requires d in step.deps && d !in p.singles && HasPending(dry, e, d) && (e, d) !in run
    requires e in Plan(p, step, dry).value
    ensures (e, step.name) in Noted(st, p, step, force, dry)
    ensures Noted(st, p, step, force, dry)[(e, step.name)].Pending?
    ensures (e, step.name) !in after
  {
    hide PlanOn, Reuses, Usable, IsFiltered, DryCell, Noted, Seen;
    MapTargets(p, step, dry);
    MapTargets(p, step, run);
    LanesOnly(st, p, step, force, dry, run, after);
    LanePlan(p, step, run);
    if e in Plan(p, step, run).value {
      var at := SeenFrom(p, step, run, e, d);
      assert false;
    }
    LaneKind(p, step, dry, e);
    OwnCellSeen(p, step, dry, e, d);
    PendingKinds(dry[(e, d)]);
    var t := Plan(p, step, dry).value[e];
    TargetsUtil(p, step, dry);
    DryCellKinds(st, p, step, force, t);
    if t.ToSkipped? {
      var d1 :| d1 in Seen(p, step, dry, e) && IsFiltered(Seen(p, step, dry, e)[d1]);
      SeenKeys(p, step, dry, e);
      SkippedLane(st, p, coords, step, force, dry, run, after, e, d1);
      assert false;
    }
  }

  lemma PendingKinds(cell: Cell)
    ensures cell.Pending? ==> !Usable(cell) && !IsFiltered(cell)
  {
  }

  lemma MapStep(st: Store, p: Planner, coords: map<string, Coord>, step: Step, force: bool,
                dry: Cells, run: Cells, after: Cells)
    requires Stepped(st, p, coords, step, force, dry, run, after) && step.shape.Map?
    ensures BelowAt(Noted(st, p, step, force, dry), after, step.name)
  {
    hide PlanOn, Stepped, Noted, OutputsKnown, FiltersKnown, ExtrasPending;
    assert Plan(p, step, dry).Some? by { PlansOf(st, p, coords, step, force, dry, run, after); }
    MapOutputsKnown(st, p, coords, step, force, dry, run, after);
    MapFiltersKnown(st, p, coords, step, force, dry, run, after);
    MapExtrasPending(st, p, coords, step, force, dry, run, after);
  }

  lemma PlansOf(st: Store, p: Planner, coords: map<string, Coord>, step: Step, force: bool,
                dry: Cells, run: Cells, after: Cells)
    requires Stepped(st, p, coords, step, force, dry, run, after)
    ensures Plan(p, step, dry).Some? && Plan(p, step, run).Some?
  {
  }

  // ---------------------------------------------------------------------------
  // planning is monotone: expands
  // ---------------------------------------------------------------------------

  /** The target of a lane of an expand step, from the one cell it is fed. */
  lemma ExpandLane(p: Planner, coords: map<string, Coord>, step: Step, cells: Cells)
    requires step.shape.Expand? && step.WellFormed() && !step.declarative && !p.scope.Restricts(step.name)
    requires forall d :: d in step.deps ==> OnCoord(coords, cells, d) && (d in p.singles ==> d in coords)
    requires Plan(p, step, cells).Some? && !AnyBad(cells)
    ensures var ts := Plan(p, step, cells).value;
            (step.deps == [] ==> ts.Keys == {Root} && ts[Root].ToMint?)
            && (step.deps != [] ==> forall c :: c in ts <==> (c, step.deps[0]) in cells)
            && (step.deps != [] ==> forall c :: c in ts ==>
                 (ts[c].ToSkipped? <==> IsFiltered(cells[(c, step.deps[0])]))
                 && (ts[c].ToPending? <==> cells[(c, step.deps[0])].Pending?)
                 && (ts[c].ToMint? <==> Usable(cells[(c, step.deps[0])])))
  {
    hide PlanOn, Seen, Classify, Usable, IsFiltered;
    LanePlan(p, step, cells);
    var ts := Plan(p, step, cells).value;
    forall c | c in ts
      ensures step.deps == [] ==> ts[c].ToMint?
      ensures step.deps != [] ==>
                (c, step.deps[0]) in cells
                && (ts[c].ToSkipped? <==> IsFiltered(cells[(c, step.deps[0])]))
                && (ts[c].ToPending? <==> cells[(c, step.deps[0])].Pending?)
                && (ts[c].ToMint? <==> Usable(cells[(c, step.deps[0])]))
    {
      LaneKind(p, step, cells, c);
      SeenKeys(p, step, cells, c);
      ExpandMints(p.pipe, step, Seen(p, step, cells, c));
      if step.deps != [] {
        var d := step.deps[0];
        SeenCell(p, coords, step, cells, c, d);
        CellKinds(cells[(c, d)]);
      }
    }
    if step.deps != [] {
      forall c | (c, step.deps[0]) in cells ensures c in ts {
        assert step.deps[0] in ScanDeps(p, step);
      }
    }
  }

  lemma CellKinds(cell: Cell)
    ensures !(Usable(cell) && IsFiltered(cell)) && !(Usable(cell) && cell.Pending?) && !(IsFiltered(cell) && cell.Pending?)
    ensures Usable(cell) || IsFiltered(cell) || cell.Pending? || Bad(cell)
  {
  }

  lemma ExpandMints(pipe: string, step: Step, ps: map<string, Cell>)
    requires step.shape.Expand? && step.WellFormed()
    ensures !Classify(pipe, step, ps).ToWork? && !Classify(pipe, step, ps).ToUtil?
  {
    hide Arrange, InputOf;
  }

  /** An expand step's side of the theorem: its minted lanes are not called like the ones it is fed. */
  ghost predicate Expanded(st: Store, p: Planner, coords: map<string, Coord>, step: Step, force: bool,
                           dry: Cells, run: Cells, after: Cells)
  {
    && Stepped(st, p, coords, step, force, dry, run, after)
    && step.shape.Expand?
    && FreshNames(step, dry, Plan(p, step, run).value, after)
  }

  lemma GivesWay(st: Store, p: Planner, coords: map<string, Coord>, step: Step, force: bool,
                 dry: Cells, run: Cells, after: Cells, e: Coord)
    requires Expanded(st, p, coords, step, force, dry, run, after)
    requires e in Plan(p, step, run).value && Plan(p, step, run).value[e].ToMint?
    ensures (e, step.name) !in after
  {
    hide PlanOn, LaneRan, LaneCame, Comparable, AnyBad;
    NoneFailedThere(after);
  }

  lemma NoneFailedThere(cells: Cells)
    requires !AnyBad(cells)
    ensures forall k :: k in cells ==> !cells[k].Failed?
  {
  }

  /** A replayed child is replayed by the run. */
  lemma ChildKnown(st: Store, p: Planner, coords: map<string, Coord>, step: Step, force: bool,
                   dry: Cells, run: Cells, after: Cells, h: Hash)
    requires Expanded(st, p, coords, step, force, dry, run, after)
    requires h in DryChildren(st, p, step, force, Plan(p, step, dry).value)
    ensures (Row(h), step.name) in after
    ensures after[(Row(h), step.name)] == ReusedCell(st, ChildAddress(p.pipe, step.Identity(), h))
  {
    hide PlanOn, Reuses, Seen, Usable, ReusedCell, ReplayedChildren, FreshNames;
    var ts := Plan(p, step, dry).value;
    var e :| e in ts && FansOut(st, p, step, force, ts[e]) && h in ReusedChildren(st, p, step, ts[e]);
    LaneKind(p, step, dry, e);
    KnownLane(p, coords, step, dry, run, e);
    assert LaneRan(st, p, step, force, e, ts[e], after);
  }

  predicate Child(st: Store, p: Planner, step: Step, force: bool, ts: map<Coord, Target>, c: Coord) {
    c.Row? && c.h in DryChildren(st, p, step, force, ts)
  }

  /** What the dry run notes for a step: the replayed children, the other lanes, and placeholders. */
  lemma NotedCell(st: Store, p: Planner, step: Step, force: bool, dry: Cells, c: Coord)
    requires Plan(p, step, dry).Some?
    ensures var ts, own := Plan(p, step, dry).value, Noted(st, p, step, force, dry);
            var lane := c in ts && !FansOut(st, p, step, force, ts[c]);
            && (Child(st, p, step, force, ts, c) || lane ==> (c, step.name) in own)
            && ((c, step.name) in own && !Child(st, p, step, force, ts, c) && !lane ==> own[(c, step.name)].Pending?)
            && (!p.scope.Anchored(step.name) && Child(st, p, step, force, ts, c) ==>
                 own[(c, step.name)] == ReusedCell(st, ChildAddress(p.pipe, step.Identity(), c.h)))
            && (!Child(st, p, step, force, ts, c) && lane ==> own[(c, step.name)] == DryCell(st, p, step, force, ts[c]))
            && ((c, step.name) in own && !own[(c, step.name)].Pending? && Child(st, p, step, force, ts, c) ==>
                 own[(c, step.name)] == ReusedCell(st, ChildAddress(p.pipe, step.Identity(), c.h)))
            && (!p.scope.Anchored(step.name) ==>
                 ((c, step.name) in own <==> Child(st, p, step, force, ts, c) || lane))
  {
    hide PlanOn, FansOut, ReusedCell, DryCell, DryCells, Placeholders;
    DryLane(st, p, step, force, Plan(p, step, dry).value, c);
  }

  lemma DryLane(st: Store, p: Planner, step: Step, force: bool, ts: map<Coord, Target>, c: Coord)
    ensures var own := DryCells(st, p, step, force, ts);
            var lane := c in ts && !FansOut(st, p, step, force, ts[c]);
            && ((c, step.name) in own <==> Child(st, p, step, force, ts, c) || lane)
            && (Child(st, p, step, force, ts, c) ==>
                 own[(c, step.name)] == ReusedCell(st, ChildAddress(p.pipe, step.Identity(), c.h)))
            && (!Child(st, p, step, force, ts, c) && lane ==> own[(c, step.name)] == DryCell(st, p, step, force, ts[c]))
  {
    hide FansOut, ReusedCell, DryCell;
    if c.Row? && c.h in DryChildren(st, p, step, force, ts) {
      assert (Row(c.h), step.name) == (c, step.name);
    }
  }

  /** A lane planned but not replayed, with nothing in its place after the run, is pending. */
  lemma GaveWay(st: Store, p: Planner, coords: map<string, Coord>, step: Step, force: bool,
                dry: Cells, run: Cells, after: Cells, e: Coord)
    requires Expanded(st, p, coords, step, force, dry, run, after)
    requires var ts := Plan(p, step, dry).value;
             e in ts && !FansOut(st, p, step, force, ts[e]) && !ts[e].ToSkipped?
    requires (e, step.name) !in after
    ensures HasPending(Noted(st, p, step, force, dry), e, step.name)
  {
    hide PlanOn, Reuses, Noted, ReusedCell, RunStep, FreshNames;
    NotedCell(st, p, step, force, dry, e);
    var ts := Plan(p, step, dry).value;
    if Child(st, p, step, force, ts, e) {
      ChildKnown(st, p, coords, step, force, dry, run, after, e.h);
      assert false;
    }
    ExpandTargets(st, p, coords, step, force, dry, run, after);
  }

  lemma ExpandTargets(st: Store, p: Planner, coords: map<string, Coord>, step: Step, force: bool,
                      dry: Cells, run: Cells, after: Cells)
    requires Expanded(st, p, coords, step, force, dry, run, after)
    ensures forall c :: c in Plan(p, step, dry).value ==>
              var t := Plan(p, step, dry).value[c]; t.ToSkipped? || t.ToPending? || t.ToMint?
    ensures forall c :: c in Plan(p, step, run).value ==>
              var t := Plan(p, step, run).value[c]; t.ToSkipped? || t.ToMint?
  {
    hide PlanOn, RunStep, FreshNames, AnyPending, ScopeFits, BelowDeps, Kept, AtCoords;
    assert Plan(p, step, run).Some? by { PlansOf(st, p, coords, step, force, dry, run, after); }
    ExpandKinds(p, step, dry);
    ExpandKinds(p, step, run);
    NothingPendsHere(p, step, run);
  }

  lemma ExpandKinds(p: Planner, step: Step, cells: Cells)
    requires step.shape.Expand? && step.WellFormed() && !step.declarative && Plan(p, step, cells).Some? && !AnyBad(cells)
    ensures forall c :: c in Plan(p, step, cells).value ==>
              var t := Plan(p, step, cells).value[c]; t.ToSkipped? || t.ToPending? || t.ToMint?
  {
    hide PlanOn, Seen, Classify, AnyBad, Usable, IsFiltered;
    LanePlan(p, step, cells);
    forall c | c in Plan(p, step, cells).value
      ensures var t := Plan(p, step, cells).value[c]; t.ToSkipped? || t.ToPending? || t.ToMint?
    {
      LaneKind(p, step, cells, c);
      ExpandMints(p.pipe, step, Seen(p, step, cells, c));
    }
  }

  /** A fan-out of the run has an output of the step's parent, at its own lane. */
  lemma MintsFrom(p: Planner, coords: map<string, Coord>, step: Step, dry: Cells, run: Cells, e: Coord)
    requires Comparable(p, coords, step, dry, run) && step.shape.Expand? && Plan(p, step, run).Some?
    requires e in Plan(p, step, run).value && Plan(p, step, run).value[e].ToMint? && step.deps != []
    ensures HasUsable(run, e, step.deps[0]) && At(p, coords, step.deps[0], e) == e
  {
    hide PlanOn, Usable, IsFiltered, AnyBad, AnyPending, BelowDeps, Kept, AtCoords, OnCoord;
    forall d | d in step.deps ensures OnCoord(coords, run, d) {
      CoordOf(coords, run, d);
    }
    ExpandLane(p, coords, step, run);
    OnItsCoord(p, coords, run, e, step.deps[0]);
  }

  lemma OnItsCoord(p: Planner, coords: map<string, Coord>, cells: Cells, c: Coord, d: string)
    requires OnCoord(coords, cells, d) && (d in p.singles ==> d in coords) && (c, d) in cells
    ensures At(p, coords, d, c) == c
  {
  }

  /** A lane replayed by the dry run has the same target in the run. */
  lemma ReplayedLane(st: Store, p: Planner, coords: map<string, Coord>, step: Step, force: bool,
                     dry: Cells, run: Cells, after: Cells, e: Coord)
    requires Expanded(st, p, coords, step, force, dry, run, after)
    requires e in Plan(p, step, dry).value && FansOut(st, p, step, force, Plan(p, step, dry).value[e])
    ensures e in Plan(p, step, run).value && Plan(p, step, run).value[e] == Plan(p, step, dry).value[e]
  {
    hide PlanOn, Reuses, Seen, Usable, FreshNames, RunStep;
    assert Plan(p, step, run).Some? by { PlansOf(st, p, coords, step, force, dry, run, after); }
    LaneKind(p, step, dry, e);
    KnownLane(p, coords, step, dry, run, e);
  }

  ghost predicate SomeGaveWay(own: Cells, after: Cells, name: string) {
    exists e :: HasPending(own, e, name) && (e, name) !in after
  }

  /** A lane that fans out in the run but not in the dry run leaves a pending trace there. */
  lemma FannedOut(st: Store, p: Planner, coords: map<string, Coord>, step: Step, force: bool,
                  dry: Cells, run: Cells, after: Cells, e: Coord)
    requires Expanded(st, p, coords, step, force, dry, run, after)
    requires e in Plan(p, step, run).value && Plan(p, step, run).value[e].ToMint? && (e, step.name) !in after
    requires e in Plan(p, step, dry).value ==> !FansOut(st, p, step, force, Plan(p, step, dry).value[e])
    ensures SomeGaveWay(Noted(st, p, step, force, dry), after, step.name)
  {
    hide PlanOn, Reuses, Noted, Usable, IsFiltered, FansOut, RunStep, Seen, BelowDeps, ScopeFits, Kept, AtCoords, AnyBad, AnyPending,
         FreshNames;
    assert Plan(p, step, run).Some? by { PlansOf(st, p, coords, step, force, dry, run, after); }
    var g := e;
    if e in Plan(p, step, dry).value {
      NotSkippedThere(p, coords, step, dry, run, e);
    } else {
      g := PendingFeed(st, p, coords, step, force, dry, run, after, e);
      MintsOnly(st, p, step, force, Plan(p, step, dry).value[g]);
    }
    GaveWay(st, p, coords, step, force, dry, run, after, g);
    assert HasPending(Noted(st, p, step, force, dry), g, step.name);
  }

  /** What fans out in the run is not filtered in the dry run. */
  lemma NotSkippedThere(p: Planner, coords: map<string, Coord>, step: Step, dry: Cells, run: Cells, e: Coord)
    requires Comparable(p, coords, step, dry, run) && step.shape.Expand? && Plan(p, step, dry).Some? && Plan(p, step, run).Some?
    requires e in Plan(p, step, run).value && Plan(p, step, run).value[e].ToMint? && e in Plan(p, step, dry).value
    ensures !Plan(p, step, dry).value[e].ToSkipped?
  {
    hide PlanOn, Seen, Usable, IsFiltered, BelowDeps, ScopeFits, Kept, AtCoords, AnyBad, AnyPending;
    LaneKind(p, step, dry, e);
    SeenKeys(p, step, dry, e);
    if d :| d in Seen(p, step, dry, e) && IsFiltered(Seen(p, step, dry, e)[d]) {
      FilteredSeen(p, coords, step, dry, run, e, d);
      MintsFrom(p, coords, step, dry, run, e);
    }
  }

  /** A fan-out at a lane the dry run does not have came from a parent lane that is pending there. */
  lemma PendingFeed(st: Store, p: Planner, coords: map<string, Coord>, step: Step, force: bool,
                    dry: Cells, run: Cells, after: Cells, e: Coord) returns (g: Coord)
    requires Expanded(st, p, coords, step, force, dry, run, after)
    requires e in Plan(p, step, run).value && Plan(p, step, run).value[e].ToMint? && e !in Plan(p, step, dry).value
    ensures g in Plan(p, step, dry).value && Plan(p, step, dry).value[g].ToPending? && (g, step.name) !in after
  {
    hide PlanOn, Reuses, Usable, IsFiltered, RunStep, Seen, FreshNames, AnyBad, AnyPending, ScanDeps;
    assert Plan(p, step, run).Some? by { PlansOf(st, p, coords, step, force, dry, run, after); }
    LanePlan(p, step, dry);
    LanePlan(p, step, run);
    MintsFrom(p, coords, step, dry, run, e);
    var d := step.deps[0];
    OneScan(p, step);
    assert BelowAt(dry, run, d) && Kept(p, coords, dry, d);
    assert OnCoord(coords, dry, d);
    ExpandLane(p, coords, step, dry);
    ExpandLane(p, coords, step, run) by { CoordOf(coords, run, d); }
    g :| HasPending(dry, g, d) && (g, d) !in run;
    NotMinted(p, step, force, dry, run, after, g, d);
  }

  lemma OneScan(p: Planner, step: Step)
    requires step.shape.Expand? && step.WellFormed() && step.deps != []
    ensures ScanDeps(p, step) == {step.deps[0]} && forall d :: d in step.deps <==> d == step.deps[0]
  {
  }

  lemma MintsOnly(st: Store, p: Planner, step: Step, force: bool, t: Target)
    ensures FansOut(st, p, step, force, t) ==> t.ToMint?
  {
    hide Reuses;
  }

  lemma NotMinted(p: Planner, step: Step, force: bool, dry: Cells, run: Cells, after: Cells, e: Coord, d: string)
    requires Plan(p, step, run).Some? && FreshNames(step, dry, Plan(p, step, run).value, after) && step.shape.Expand?
    requires d in step.deps && (e, d) in dry && e !in Plan(p, step, run).value
    ensures (e, step.name) !in after
  {
    hide PlanOn;
  }

  lemma ExpandExtras(st: Store, p: Planner, coords: map<string, Coord>, step: Step, force: bool,
                     dry: Cells, run: Cells, after: Cells, c: Coord)
    requires Expanded(st, p, coords, step, force, dry, run, after)
    requires HasUsable(after, c, step.name) && (c, step.name) !in Noted(st, p, step, force, dry)
    ensures SomeGaveWay(Noted(st, p, step, force, dry), after, step.name)
  {
    hide PlanOn, Reuses, Noted, ReusedChildren, SomeGaveWay, FreshNames, ReusedCell, Usable, DryCell;
    var ts := Plan(p, step, run).value;
    ExpandTargets(st, p, coords, step, force, dry, run, after);
    NotedCell(st, p, step, force, dry, c);
    UsableKinds(after[(c, step.name)]);
    assert LaneCame(st, p, step, force, ts, c, after);
    if c in ts && !FansOut(st, p, step, force, ts[c]) {
      if ts[c].ToMint? {
        GivesWay(st, p, coords, step, force, dry, run, after, c);
      }
      assert LaneRan(st, p, step, force, c, ts[c], after);
      SettledSkip(st, p, step, force, ts[c]);
      assert false;
    } else if h :| c == Row(h) && h in DryChildren(st, p, step, force, ts) {
      var e :| e in ts && FansOut(st, p, step, force, ts[e]) && h in ReusedChildren(st, p, step, ts[e]);
      GivesWay(st, p, coords, step, force, dry, run, after, e);
      assert LaneRan(st, p, step, force, e, ts[e], after);
      if e in Plan(p, step, dry).value && FansOut(st, p, step, force, Plan(p, step, dry).value[e]) {
        ReplayedLane(st, p, coords, step, force, dry, run, after, e);
        assert false;
      }
      FannedOut(st, p, coords, step, force, dry, run, after, e);
    } else {
      var e :| e in ts && ts[e].ToMint? && Executes(st, p, step, force, ts[e]);
      GivesWay(st, p, coords, step, force, dry, run, after, e);
      if e in Plan(p, step, dry).value && FansOut(st, p, step, force, Plan(p, step, dry).value[e]) {
        ReplayedLane(st, p, coords, step, force, dry, run, after, e);
        assert false;
      }
      FannedOut(st, p, coords, step, force, dry, run, after, e);
    }
  }

  lemma SettledSkip(st: Store, p: Planner, step: Step, force: bool, t: Target)
    ensures t.ToSkipped? ==> Settles(st, p, step, force, t) && DryCell(st, p, step, force, t) == Skipped
  {
  }

  lemma ExpandOutputs(st: Store, p: Planner, coords: map<string, Coord>, step: Step, force: bool,
                      dry: Cells, run: Cells, after: Cells)
    requires Expanded(st, p, coords, step, force, dry, run, after)
    ensures OutputsKnown(Noted(st, p, step, force, dry), after, step.name)
  {
    hide PlanOn, Reuses, Noted, ReusedCell, FreshNames, RunStep;
    ExpandTargets(st, p, coords, step, force, dry, run, after);
    var own, ts := Noted(st, p, step, force, dry), Plan(p, step, dry).value;
    forall c | HasUsable(own, c, step.name)
      ensures (c, step.name) in after && after[(c, step.name)] == own[(c, step.name)]
    {
      NotedCell(st, p, step, force, dry, c);
      if Child(st, p, step, force, ts, c) {
        ChildKnown(st, p, coords, step, force, dry, run, after, c.h);
      }
    }
  }

  lemma ExpandFilters(st: Store, p: Planner, coords: map<string, Coord>, step: Step, force: bool,
                      dry: Cells, run: Cells, after: Cells)
    requires Expanded(st, p, coords, step, force, dry, run, after)
    ensures FiltersKnown(Noted(st, p, step, force, dry), after, step.name)
  {
    hide PlanOn, Reuses, Noted, ReusedCell, FreshNames, RunStep;
    ExpandTargets(st, p, coords, step, force, dry, run, after);
    var own, ts := Noted(st, p, step, force, dry), Plan(p, step, dry).value;
    forall c | HasFiltered(own, c, step.name)
      ensures FilterKnownAt(own, after, step.name, c)
    {
      NotedCell(st, p, step, force, dry, c);
      if Child(st, p, step, force, ts, c) {
        ChildKnown(st, p, coords, step, force, dry, run, after, c.h);
      } else {
        ExpandFilter(st, p, coords, step, force, dry, run, after, c);
      }
    }
  }

  lemma ExpandFilter(st: Store, p: Planner, coords: map<string, Coord>, step: Step, force: bool,
                     dry: Cells, run: Cells, after: Cells, c: Coord)
    requires Expanded(st, p, coords, step, force, dry, run, after)
    requires c in Plan(p, step, dry).value && Plan(p, step, dry).value[c].ToSkipped?
    requires HasFiltered(Noted(st, p, step, force, dry), c, step.name)
    requires Noted(st, p, step, force, dry)[(c, step.name)] == Skipped
    ensures FilterKnownAt(Noted(st, p, step, force, dry), after, step.name, c)
  {
    hide PlanOn, Reuses, Noted, ReusedChildren, FreshNames, Usable, IsFiltered, DryCell, Seen, BelowDeps, ScopeFits, Kept, AtCoords,
         AnyBad, AnyPending;
    var ts := Plan(p, step, run).value;
    ExpandTargets(st, p, coords, step, force, dry, run, after);
    LaneKind(p, step, dry, c);
    SeenKeys(p, step, dry, c);
    var d :| d in Seen(p, step, dry, c) && IsFiltered(Seen(p, step, dry, c)[d]);
    if c in ts {
      SkippedThere(p, coords, step, dry, run, c, d);
      SkippedStays(st, p, step, force, run, after, c);
    } else {
      SkippedParent(p, coords, step, dry, run, c, d);
      forall e | e in ts ensures !ts[e].ToMint? {
        if ts[e].ToMint? {
          MintsFrom(p, coords, step, dry, run, e);
        }
      }
      forall c' | (c', step.name) in after ensures c' in ts && after[(c', step.name)] == Skipped {
        assert LaneCame(st, p, step, force, ts, c', after);
        SkippedStays(st, p, step, force, run, after, c');
      }
      UsableKinds(Skipped);
    }
  }

  lemma ExpandStep(st: Store, p: Planner, coords: map<string, Coord>, step: Step, force: bool,
                   dry: Cells, run: Cells, after: Cells)
    requires Expanded(st, p, coords, step, force, dry, run, after)
    ensures BelowAt(Noted(st, p, step, force, dry), after, step.name)
  {
    hide PlanOn, Stepped, Noted, OutputsKnown, FiltersKnown, FreshNames;
    assert Plan(p, step, dry).Some? by { PlansOf(st, p, coords, step, force, dry, run, after); }
    ExpandOutputs(st, p, coords, step, force, dry, run, after);
    ExpandFilters(st, p, coords, step, force, dry, run, after);
    var own := Noted(st, p, step, force, dry);
    forall c | HasUsable(after, c, step.name) && (c, step.name) !in own
      ensures SomeGaveWay(own, after, step.name)
    {
      ExpandExtras(st, p, coords, step, force, dry, run, after, c);
    }
  }

  // ---------------------------------------------------------------------------
  // planning is monotone: aggregates and joins
  // ---------------------------------------------------------------------------

  predicate Collective(step: Step) {
    step.shape.Aggregate? || step.shape.Join?
  }

  /** With nothing pending among its parents, a collective step sees what the run sees. */
  lemma SameLanes(p: Planner, coords: map<string, Coord>, step: Step, dry: Cells, run: Cells)
    requires Comparable(p, coords, step, dry, run) && !AnyPending(ParentCells(step, dry))
    ensures UsableLanes(step, ParentCells(step, dry)) == UsableLanes(step, ParentCells(step, run))
  {
    hide Usable, IsFiltered;
    var own, real' := ParentCells(step, dry), ParentCells(step, run);
    forall d | d in step.deps ensures LanesOf(own, d) == LanesOf(real', d) {
      assert BelowAt(dry, run, d);
      forall c | c in LanesOf(own, d) ensures c in LanesOf(real', d) && LanesOf(real', d)[c] == LanesOf(own, d)[c] {
        assert HasUsable(dry, c, d);
        assert (c, d) in real';
      }
      forall c | c in LanesOf(real', d) ensures c in LanesOf(own, d) {
        assert HasUsable(run, c, d);
        SameLane(step, dry, run, c, d);
        assert (c, d) in own;
      }
    }
  }

  lemma SameLane(step: Step, dry: Cells, run: Cells, c: Coord, d: string)
    requires BelowAt(dry, run, d) && d in step.deps && HasUsable(run, c, d)
    requires !AnyPending(ParentCells(step, dry)) && !AnyBad(dry)
    ensures HasUsable(dry, c, d)
  {
    hide Usable, IsFiltered;
    var own := ParentCells(step, dry);
    assert forall e :: (e, d) in dry ==> (e, d) in own && own[(e, d)] == dry[(e, d)];
    assert forall e :: !HasPending(dry, e, d);
    assert (c, d) in own;
    CellKinds(dry[(c, d)]);
    CellKinds(run[(c, d)]);
  }

  lemma NoneBad(step: Step, cells: Cells)
    requires !AnyBad(cells)
    ensures !AnyBad(ParentCells(step, cells))
  {
  }

  lemma NonePending(step: Step, cells: Cells)
    requires !AnyPending(cells)
    ensures !AnyPending(ParentCells(step, cells))
  {
  }

  /** A collective step's plan depends on the surviving lanes, and on whether anything is bad or pending. */
  lemma CollectivePlan(p: Planner, step: Step, cells: Cells, cells': Cells)
    requires Collective(step) && !AnyBad(cells) && !AnyBad(cells') && !AnyPending(cells) && !AnyPending(cells')
    requires UsableLanes(step, cells) == UsableLanes(step, cells')
    ensures PlanOn(p, step, cells) == PlanOn(p, step, cells')
  {
    hide UsableLanes, AnyBad, AnyPending, FieldValues, KeyUniverse, Tuples, LaneHashes, Reserved, MapPlan;
  }

  /** With something pending, a collective step is one pending lane, named like none the run plans. */
  lemma CollectivePending(p: Planner, step: Step, cells: Cells, cells': Cells)
    requires Collective(step) && !AnyBad(cells) && !AnyBad(cells') && AnyPending(cells) && !AnyPending(cells')
    requires PlanOn(p, step, cells).Some? && PlanOn(p, step, cells').Some?
    ensures exists c :: PlanOn(p, step, cells).value == map[c := ToPending]
              && (c in PlanOn(p, step, cells').value ==> PlanOn(p, step, cells').value.Keys == {c})
  {
    hide AnyBad, AnyPending, FieldValues, KeyUniverse, Tuples, LaneHashes, Reserved, MapPlan;
    var c := if step.shape.Aggregate? then All else JoinAll;
    assert PlanOn(p, step, cells).value == map[c := ToPending];
  }

  lemma CollectiveWork(p: Planner, step: Step, cells: Cells)
    requires Collective(step) && Plan(p, step, cells).Some? && !AnyBad(ParentCells(step, cells))
    ensures forall c :: c in Plan(p, step, cells).value ==>
              Plan(p, step, cells).value[c].ToWork? || Plan(p, step, cells).value[c].ToPending?
  {
    hide AnyBad, AnyPending, FieldValues, KeyUniverse, Tuples, LaneHashes, Reserved, MapPlan;
  }

  /** A collective step that both sides plan is planned alike, or pending in the dry run. */
  lemma CollectiveSame(p: Planner, coords: map<string, Coord>, step: Step, dry: Cells, run: Cells)
    requires Comparable(p, coords, step, dry, run) && Collective(step)
    ensures AnyPending(ParentCells(step, dry)) || Plan(p, step, dry) == Plan(p, step, run)
  {
    hide PlanOn, AnyBad, AnyPending, UsableLanes, ParentCells, BelowDeps, ScopeFits;
    if !AnyPending(ParentCells(step, dry)) {
      NoneBad(step, dry);
      NoneBad(step, run);
      NonePending(step, run);
      SameLanes(p, coords, step, dry, run);
      CollectivePlan(p, step, ParentCells(step, dry), ParentCells(step, run));
    }
  }

  lemma CollectiveStep(st: Store, p: Planner, coords: map<string, Coord>, step: Step, force: bool,
                       dry: Cells, run: Cells, after: Cells)
    requires Stepped(st, p, coords, step, force, dry, run, after) && Collective(step)
    ensures BelowAt(Noted(st, p, step, force, dry), after, step.name)
  {
    hide PlanOn, AnyBad, AnyPending, Reuses, Noted, UsableLanes, DryCell, ParentCells, Settles;
    NoneBad(step, dry);
    NoneBad(step, run);
    NonePending(step, run);
    CollectiveWork(p, step, dry);
    CollectiveWork(p, step, run);
    LanesOnly(st, p, step, force, dry, run, after);
    if AnyPending(ParentCells(step, dry)) {
      CollectivePending(p, step, ParentCells(step, dry), ParentCells(step, run));
      PendingCollective(st, p, coords, step, force, dry, run, after);
    } else {
      CollectiveSame(p, coords, step, dry, run);
      SamePlan(st, p, coords, step, force, dry, run, after);
    }
  }

  lemma PendingCollective(st: Store, p: Planner, coords: map<string, Coord>, step: Step, force: bool,
                          dry: Cells, run: Cells, after: Cells)
    requires Stepped(st, p, coords, step, force, dry, run, after) && Collective(step)
    requires exists c :: Plan(p, step, dry).value == map[c := ToPending]
               && (c in Plan(p, step, run).value ==> Plan(p, step, run).value.Keys == {c})
    requires forall c :: c in Plan(p, step, run).value ==> !Plan(p, step, run).value[c].ToMint?
    ensures BelowAt(Noted(st, p, step, force, dry), after, step.name)
  {
    hide PlanOn, AnyBad, AnyPending, Reuses, Noted, Settles, LaneRan, LaneCame;
    LanesOnly(st, p, step, force, dry, run, after);
    var c :| Plan(p, step, dry).value == map[c := ToPending]
               && (c in Plan(p, step, run).value ==> Plan(p, step, run).value.Keys == {c});
    var own := Noted(st, p, step, force, dry);
    assert c in Plan(p, step, dry).value;
    assert HasPending(own, c, step.name);
    assert forall c' :: (c', step.name) in own ==> c' == c;
    OnlyPending(own, after, step.name, c);
  }

  /** A step of which the dry run knows one pending lane is below any run without other lanes in its place. */
  lemma OnlyPending(own: Cells, after: Cells, name: string, c: Coord)
    requires HasPending(own, c, name) && forall c' :: (c', name) in own ==> c' == c
    requires (c, name) in after ==> forall c' :: (c', name) in after ==> c' == c
    ensures BelowAt(own, after, name)
  {
  }

  lemma SamePlan(st: Store, p: Planner, coords: map<string, Coord>, step: Step, force: bool,
                 dry: Cells, run: Cells, after: Cells)
    requires Stepped(st, p, coords, step, force, dry, run, after) && Collective(step)
    requires Plan(p, step, dry) == Plan(p, step, run)
    requires forall c :: c in Plan(p, step, dry).value ==>
               Plan(p, step, dry).value[c].ToWork? || Plan(p, step, dry).value[c].ToPending?
    ensures BelowAt(Noted(st, p, step, force, dry), after, step.name)
  {
    hide PlanOn, AnyBad, AnyPending, Reuses, Noted, DryCell;
    LanesOnly(st, p, step, force, dry, run, after);
    var own, ts := Noted(st, p, step, force, dry), Plan(p, step, dry).value;
    forall c | c in ts
      ensures own[(c, step.name)].Pending? || (own[(c, step.name)] == after[(c, step.name)])
    {
      DryCellKinds(st, p, step, force, ts[c]);
      assert LaneRan(st, p, step, force, c, ts[c], after);
    }
    assert forall c :: (c, step.name) in own <==> (c, step.name) in after;
  }
}
