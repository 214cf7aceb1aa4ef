/**
 The cells of every run are what `Semantics` says they are.
 */
module Adequacy {
  import opened Model
  import opened Meaning
  import opened Ledger
  import opened Determined
  import opened Planning
  import opened Clean
  import opened Script
  import opened Semantics

  // ---------------------------------------------------------------------------
  // values
  // ---------------------------------------------------------------------------

  ghost predicate SoundCells(w: World, cells: Cells) {
    forall k :: k in cells && Usable(cells[k]) ==> Sound(w, cells[k])
  }

  lemma {:induction false} OutputIsValue(w: World, pipe: string, x: Cell)
    requires Usable(x) && Sound(w, x)
    ensures Output(w, pipe, x) == ValueOf(w, pipe, IdentityOf(x))
  {
    hide UtilValue, FusedOutput;
    if x.Util? {
      FusedIsUtil(w, pipe, x.code, map d | d in x.parents :: Output(w, pipe, x.parents[d]));
      forall d | d in x.parents ensures Output(w, pipe, x.parents[d]) == ValueOf(w, pipe, IdentityOf(x.parents[d])) {
        OutputIsValue(w, pipe, x.parents[d]);
      }
      var hashes := map d | d in x.parents :: IdentityOf(x.parents[d]);
      assert (map d | d in x.parents :: Output(w, pipe, x.parents[d])) == (map d | d in hashes :: ValueOf(w, pipe, hashes[d]));
    }
  }

  lemma FusedIsUtil(w: World, pipe: string, code: Code, values: map<string, Option<Json>>)
    ensures FusedOutput(w, pipe, code, values) == UtilValue(w, pipe, code, values)
  {
  }

  /** What a target needs of the cells it was planned from. */
  lemma UtilOfParents(pipe: string, step: Step, ps: map<string, Cell>)
    ensures var t := Classify(pipe, step, ps);
            t.ToUtil? ==> t.cell == Util(step.Identity(), ps) && forall d :: d in ps ==> Usable(ps[d])
  {
  }

  lemma TargetsSound(w: World, p: Planner, step: Step, cells: Cells)
    requires SoundCells(w, cells) && Plan(p, step, cells).Some?
    ensures forall c :: c in Plan(p, step, cells).value ==>
              var t := Plan(p, step, cells).value[c]; t.ToUtil? ==> Sound(w, t.cell)
  {
    hide Classify, UsableLanes, AnyBad, AnyPending, FieldValues, KeyUniverse, Tuples, LaneHashes, Sound, Usable, Seen, SoundCells,
         MapPlan;
    if Lanewise(step) {
      PlannedLanes(p, step, cells);
      forall c | c in Plan(p, step, cells).value
        ensures var t := Plan(p, step, cells).value[c]; t.ToUtil? ==> Sound(w, t.cell)
      {
        SeenUtilSound(w, p, step, cells, c);
      }
    }
  }

  lemma SeenUtilSound(w: World, p: Planner, step: Step, cells: Cells, c: Coord)
    requires SoundCells(w, cells)
    ensures var t := Classify(p.pipe, step, Seen(p, step, cells, c)); t.ToUtil? ==> Sound(w, t.cell)
  {
    hide Classify, Sound, Usable, Seen;
    var ps := Seen(p, step, cells, c);
    UtilOfParents(p.pipe, step, ps);
    SeenAreCells(p, step, cells, c);
    forall d | d in ps && Usable(ps[d]) ensures Sound(w, ps[d]) {
      var k :| k in cells && cells[k] == ps[d];
    }
    UtilIsSound(w, step.Identity(), ps);
  }

  lemma UtilIsSound(w: World, code: Code, ps: map<string, Cell>)
    ensures (forall d :: d in ps ==> Usable(ps[d]) && Sound(w, ps[d])) ==> Sound(w, Util(code, ps))
  {
  }

  lemma SeenAreCells(p: Planner, step: Step, cells: Cells, c: Coord)
    ensures var ps := Seen(p, step, cells, c); forall d :: d in ps ==> exists k :: k in cells && cells[k] == ps[d]
  {
    hide Broadcast;
    var own := ParentCells(step, cells);
    var b := Broadcast(p, step, own);
    forall d | d in Seen(p, step, cells, c) ensures exists k :: k in cells && cells[k] == Seen(p, step, cells, c)[d] {
      if d in p.singles {
        var at :| (at, d) in own && own[(at, d)] == b[d];
        assert (at, d) in cells;
      } else {
        assert (c, d) in cells;
      }
    }
  }

  lemma StepCellsSound(w: World, pipe: string, step: Step, ts: map<Coord, Target>)
    requires forall c :: c in ts && ts[c].ToUtil? ==> Sound(w, ts[c].cell)
    ensures SoundCells(w, StepCells(w, pipe, step, ts))
  {
    hide Expected, AnchorOf;
  }

  lemma {:induction false} CleanSound(w: World, p: Planner, steps: seq<Step>)
    requires CleanRun(w, p, steps).Some?
    ensures SoundCells(w, CleanRun(w, p, steps).value)
  {
    hide PlanOn, StepCells, Sound, Usable;
    if steps != [] {
      var n := |steps| - 1;
      var before := CleanRun(w, p, steps[..n]).value;
      CleanSound(w, p, steps[..n]);
      TargetsSound(w, p, steps[n], before);
      StepCellsSound(w, p.pipe, steps[n], Plan(p, steps[n], before).value);
    }
  }

  // ---------------------------------------------------------------------------
  // map and expand: lanes and parents
  // ---------------------------------------------------------------------------

  lemma SeenBy(p: Planner, step: Step, cells: Cells, c: Coord)
    requires Uniform(p.singles, cells)
    ensures ParentsOf(p, step, cells, c, Seen(p, step, cells, c))
    ensures forall d, x :: d in step.deps && Sees(p, cells, c, d, x) ==>
              d in Seen(p, step, cells, c) && Seen(p, step, cells, c)[d] == x
  {
    hide Seen, Sees, Uniform;
    var ps := Seen(p, step, cells, c);
    forall d | d in ps ensures d in step.deps && Sees(p, cells, c, d, ps[d]) {
      SeenIsSeen(p, step, cells, c, d);
    }
    forall d, x | d in step.deps && Sees(p, cells, c, d, x) ensures d in ps && ps[d] == x {
      SeesTheSeen(p, step, cells, c, d, x);
    }
  }

  lemma SeenIsSeen(p: Planner, step: Step, cells: Cells, c: Coord, d: string)
    requires d in Seen(p, step, cells, c)
    ensures d in step.deps && Sees(p, cells, c, d, Seen(p, step, cells, c)[d])
  {
    hide Broadcast;
    var own := ParentCells(step, cells);
    var b := Broadcast(p, step, own);
    if d in p.singles {
      var at :| (at, d) in own && own[(at, d)] == b[d];
      assert (at, d) in cells;
    }
  }

  lemma SeesTheSeen(p: Planner, step: Step, cells: Cells, c: Coord, d: string, x: Cell)
    requires Uniform(p.singles, cells) && d in step.deps && Sees(p, cells, c, d, x)
    ensures d in Seen(p, step, cells, c) && Seen(p, step, cells, c)[d] == x
  {
    hide Broadcast, UniformAt;
    var own := ParentCells(step, cells);
    var b := Broadcast(p, step, own);
    var at :| (at, d) in cells && cells[(at, d)] == x && (d in p.singles || at == c);
    assert (at, d) in own;
    if d in p.singles {
      assert d in BroadcastDeps(p, step);
      var at' :| (at', d) in own && own[(at', d)] == b[d];
      OneValue(cells, d, at, at');
    }
  }

  lemma OneValue(cells: Cells, name: string, c1: Coord, c2: Coord)
    requires UniformAt(cells, name) && (c1, name) in cells && (c2, name) in cells
    ensures cells[(c1, name)] == cells[(c2, name)]
  {
  }

  lemma ScanMeans(p: Planner, step: Step)
    ensures forall d :: d in ScanDeps(p, step) <==>
              d in step.deps && (d in p.singles ==> forall e :: e in step.deps ==> e in p.singles)
  {
    var own := set d | d in step.deps && d !in p.singles;
    if own == {} {
      forall e | e in step.deps ensures e in p.singles {
        assert e !in own;
      }
    } else {
      var e :| e in own;
      assert e in step.deps && e !in p.singles;
    }
  }

  lemma LanesAre(p: Planner, step: Step, cells: Cells)
    ensures forall c :: c in MapCoords(p, step, ParentCells(step, cells)) <==> LaneOf(p, step, cells, c)
  {
    hide ScanDeps;
    var own := ParentCells(step, cells);
    ScanMeans(p, step);
    if step.deps != [] {
      forall c ensures c in MapCoords(p, step, own) <==> LaneOf(p, step, cells, c) {
        if c in MapCoords(p, step, own) {
          var k :| k in own && k.1 in ScanDeps(p, step) && p.scope.Admits(step.name, k.0) && k.0 == c;
          assert k == (c, k.1) && (c, k.1) in cells;
        }
        if LaneOf(p, step, cells, c) {
          var d :| d in step.deps && (c, d) in cells && (d in p.singles ==> forall e :: e in step.deps ==> e in p.singles);
          assert (c, d) in own && d in ScanDeps(p, step);
        }
      }
    }
  }

  lemma PlannedLanes(p: Planner, step: Step, cells: Cells)
    requires Lanewise(step) && Plan(p, step, cells).Some?
    ensures var ts := Plan(p, step, cells).value;
            (forall c :: c in ts <==> LaneOf(p, step, cells, c))
            && (forall c :: c in ts ==> ts[c] == Classify(p.pipe, step, Seen(p, step, cells, c)))
  {
    hide Classify, AggregatePlan, JoinPlan, Broadcast, MapCoords, LaneOf, ParentsAt;
    LanesAre(p, step, cells);
  }

  lemma LanesRaise(p: Planner, step: Step, cells: Cells)
    requires Lanewise(step) && step.WellFormed() && Uniform(p.singles, cells)
    ensures Plan(p, step, cells).None? <==> MisAligned(p, step, cells)
  {
    hide Classify, AggregatePlan, JoinPlan, Broadcast, MapCoords, LaneOf, ParentsAt, Sees, Uniform;
    LanesAre(p, step, cells);
    var own := ParentCells(step, cells);
    var bcast := Broadcast(p, step, own);
    forall c ensures MapTarget(p, step, own, bcast, c).None? <==>
                       !step.declarative && exists d :: d in step.deps && forall x :: !Sees(p, cells, c, d, x)
    {
      SeenBy(p, step, cells, c);
    }
  }

  /** Bad, filtered and usable parents, as a lane sees them. */
  lemma SeenKinds(p: Planner, step: Step, cells: Cells, c: Coord)
    requires Uniform(p.singles, cells)
    ensures var ps := Seen(p, step, cells, c);
            && (SeesBad(p, step, cells, c) <==> exists d :: d in ps && Bad(ps[d]))
            && (SeesFiltered(p, step, cells, c) <==> exists d :: d in ps && IsFiltered(ps[d]))
  {
    hide Seen, Sees, Uniform;
    SeenBy(p, step, cells, c);
    var ps := Seen(p, step, cells, c);
    if SeesBad(p, step, cells, c) {
      var d, x :| d in step.deps && Sees(p, cells, c, d, x) && (x.Blocked? || x.Failed?);
      assert Bad(ps[d]);
    }
    if d :| d in ps && Bad(ps[d]) {
      assert Sees(p, cells, c, d, ps[d]);
    }
    if SeesFiltered(p, step, cells, c) {
      var d, x :| d in step.deps && Sees(p, cells, c, d, x) && (x.Skipped? || (x.Mat? && x.filtered));
      assert IsFiltered(ps[d]);
    }
    if d :| d in ps && IsFiltered(ps[d]) {
      assert Sees(p, cells, c, d, ps[d]);
    }
  }

  // ---------------------------------------------------------------------------
  // map and expand: calls
  // ---------------------------------------------------------------------------

  lemma ArrangedInput(step: Step, ps: map<string, Cell>)
    requires step.deps == [] ==> ps == map[]
    ensures InputOf(Arrange(step, ps)) == MapInput(step, ps)
  {
    if step.deps != [] && !(|step.deps| == 1 && step.deps[0] in ps) {
      var slots: map<string, Option<Cell>> := map d | d in ps :: Some(ps[d]);
      assert (map d | d in slots :: if slots[d].None? then None else Some(IdentityOf(slots[d].value)))
          == (map d | d in ps :: Some(IdentityOf(ps[d])));
    }
  }

  ghost predicate Valued(w: World, pipe: string, ps: map<string, Cell>) {
    forall d :: d in ps ==> Output(w, pipe, ps[d]) == ValueOf(w, pipe, IdentityOf(ps[d]))
  }

  lemma ArrangedArgs(w: World, pipe: string, step: Step, ps: map<string, Cell>)
    requires (step.deps == [] ==> ps == map[]) && (forall d :: d in ps ==> d in step.deps) && Valued(w, pipe, ps)
    ensures ArgsOf(w, pipe, MapInput(step, ps)) == MapArgs(w, pipe, step, ps)
  {
    hide ValueOf, Output, IdentityOf;
    if step.deps == [] {
    } else if |step.deps| == 1 && step.deps[0] in ps {
      assert forall d :: d in ps ==> d == step.deps[0];
    } else {
      var slots := map d | d in ps :: Some(IdentityOf(ps[d]));
      var present := map d | d in slots && slots[d].Some? :: ValueOf(w, pipe, slots[d].value);
      assert present == (map d | d in ps :: Output(w, pipe, ps[d]));
      assert slots.Keys == ps.Keys;
      assert (exists d | d in present :: present[d].None?) <==> (exists d | d in ps :: Output(w, pipe, ps[d]).None?);
      if !(exists d | d in ps :: Output(w, pipe, ps[d]).None?) {
        assert (map d | d in slots.Keys :: if d in present then present[d] else None) == (map d | d in ps :: Output(w, pipe, ps[d]));
      }
    }
  }

  /** An outcome's cell, spelled out. */
  lemma OutcomeReturned(w: World, pipe: string, step: Step, input: Input, args: Option<Args>)
    requires !w.mints(pipe, step.Identity()) && ArgsOf(w, pipe, input) == args
    ensures var a := Address(pipe, step.Identity(), input);
            Returned(w, pipe, step, input, args, OutcomeCell(w, a, Expected(w, a)))
  {
  }

  lemma SeenValued(w: World, p: Planner, step: Step, cells: Cells, c: Coord)
    requires SoundCells(w, cells)
    requires forall d :: d in Seen(p, step, cells, c) ==> Usable(Seen(p, step, cells, c)[d])
    ensures Valued(w, p.pipe, Seen(p, step, cells, c))
  {
    hide Seen, Output, ValueOf, Usable, Sound;
    SeenAreCells(p, step, cells, c);
    forall d | d in Seen(p, step, cells, c)
      ensures Output(w, p.pipe, Seen(p, step, cells, c)[d]) == ValueOf(w, p.pipe, IdentityOf(Seen(p, step, cells, c)[d]))
    {
      OutputIsValue(w, p.pipe, Seen(p, step, cells, c)[d]);
    }
  }

  lemma ClassifiedOwn(w: World, pipe: string, step: Step, ps: map<string, Cell>)
    requires step.shape.Map? && !w.mints(pipe, step.Identity()) && Valued(w, pipe, ps)
    requires (step.deps == [] ==> ps == map[]) && (forall d :: d in ps ==> d in step.deps)
    requires forall d :: d in ps ==> !Bad(ps[d]) && !IsFiltered(ps[d]) && !ps[d].Pending?
    ensures OwnMapCell(w, pipe, step, ps, LaneCell(w, Classify(pipe, step, ps)))
  {
    hide Arrange, InputOf, MapInput, MapArgs, ArgsOf, Expected, OutcomeCell, Valued, Returned, Bad, IsFiltered;
    if step.cached {
      ArrangedInput(step, ps);
      ArrangedArgs(w, pipe, step, ps);
      OutcomeReturned(w, pipe, step, MapInput(step, ps), MapArgs(w, pipe, step, ps));
    }
  }

  lemma ClassifiedMarks(pipe: string, step: Step, ps: map<string, Cell>)
    ensures (exists d :: d in ps && Bad(ps[d])) <==> Classify(pipe, step, ps).ToBlocked?
    ensures (forall d :: d in ps ==> !Bad(ps[d])) ==>
              ((exists d :: d in ps && IsFiltered(ps[d])) <==> Classify(pipe, step, ps).ToSkipped?)
  {
    hide Arrange, InputOf;
  }

  lemma SeenWithinDeps(p: Planner, step: Step, cells: Cells, c: Coord)
    ensures forall d :: d in Seen(p, step, cells, c) ==> d in step.deps
    ensures step.deps == [] ==> Seen(p, step, cells, c) == map[]
  {
    hide Broadcast;
  }

  lemma SeenDoNotPend(p: Planner, step: Step, cells: Cells, c: Coord)
    requires !AnyPending(cells)
    ensures forall d :: d in Seen(p, step, cells, c) ==> !Seen(p, step, cells, c)[d].Pending?
  {
    hide Seen;
    SeenAreCells(p, step, cells, c);
  }

  lemma OthersUsable(cell: Cell)
    ensures !Bad(cell) && !IsFiltered(cell) && !cell.Pending? ==> Usable(cell)
  {
  }

  /** A map's cell at one lane. */
  lemma MapLane(w: World, p: Planner, step: Step, cells: Cells, c: Coord)
    requires step.shape.Map? && Uniform(p.singles, cells) && SoundCells(w, cells) && !AnyPending(cells)
    requires !w.mints(p.pipe, step.Identity())
    ensures MapCell(w, p, step, cells, c, LaneCell(w, Classify(p.pipe, step, Seen(p, step, cells, c))))
  {
    hide Classify, Seen, Uniform, SoundCells, AnyPending, SeesBad, SeesFiltered, Bad, IsFiltered, Usable, Valued, OwnMapCell, ParentsOf;
    var ps := Seen(p, step, cells, c);
    SeenBy(p, step, cells, c);
    SeenKinds(p, step, cells, c);
    SeenWithinDeps(p, step, cells, c);
    ClassifiedMarks(p.pipe, step, ps);
    if !SeesBad(p, step, cells, c) && !SeesFiltered(p, step, cells, c) {
      SeenDoNotPend(p, step, cells, c);
      forall d | d in ps ensures Usable(ps[d]) {
        OthersUsable(ps[d]);
      }
      SeenValued(w, p, step, cells, c);
      ClassifiedOwn(w, p.pipe, step, ps);
    }
  }

  lemma MapAdequate(w: World, p: Planner, step: Step, cells: Cells)
    requires step.shape.Map? && StepHolds(w, p, step, cells)
    requires Uniform(p.singles, cells) && SoundCells(w, cells) && !AnyPending(cells)
    requires !w.mints(p.pipe, step.Identity())
    ensures MapMeant(w, p, step, cells)
  {
    hide PlanOn, Classify, Seen, Uniform, SoundCells, AnyPending, MapCell, LaneOf, LaneCell;
    var ts := Plan(p, step, cells).value;
    PlannedLanes(p, step, cells);
    NoMinting(p, step, cells);
    OwnCellsOnly(w, p.pipe, step, ts);
    forall c ensures (c, step.name) in cells <==> c in ts
             ensures c in ts ==> cells[(c, step.name)] == LaneCell(w, ts[c])
    {
      CellAt(cells, step.name, c);
    }
    forall c | c in ts ensures MapCell(w, p, step, cells, c, cells[(c, step.name)]) {
      MapLane(w, p, step, cells, c);
    }
  }

  lemma CellAt(cells: Cells, name: string, c: Coord)
    ensures (c, name) in cells <==> (c, name) in CellsAt(cells, name)
    ensures (c, name) in cells ==> CellsAt(cells, name)[(c, name)] == cells[(c, name)]
  {
  }

  /** Without minting, a step's cells are its lanes'. */
  lemma OwnCellsOnly(w: World, pipe: string, step: Step, ts: map<Coord, Target>)
    requires forall c :: c in ts ==> !ts[c].ToMint?
    ensures var own := StepCells(w, pipe, step, ts);
            forall c :: ((c, step.name) in own <==> c in ts) && (c in ts ==> own[(c, step.name)] == LaneCell(w, ts[c]))
  {
    hide LaneCell, ChildCell, AnchorOf;
    assert AllChildren(w, ts) == {};
  }

  // ---------------------------------------------------------------------------
  // expands
  // ---------------------------------------------------------------------------

  lemma ParentsUnique(p: Planner, step: Step, cells: Cells, c: Coord, xs: map<string, Cell>)
    requires Uniform(p.singles, cells) && ParentsOf(p, step, cells, c, xs)
    ensures xs == Seen(p, step, cells, c)
  {
    hide Seen, Sees, Uniform;
    SeenBy(p, step, cells, c);
    var ps := Seen(p, step, cells, c);
    forall d | d in xs ensures d in ps && ps[d] == xs[d] {
      assert Sees(p, cells, c, d, xs[d]);
    }
    forall d | d in ps ensures d in xs {
      assert Sees(p, cells, c, d, ps[d]);
    }
  }

  /** What the anchor of a lane's target stands for. */
  lemma AnchorYields(w: World, pipe: string, step: Step, ps: map<string, Cell>)
    requires step.shape.Expand? && step.WellFormed() && Valued(w, pipe, ps)
    requires (step.deps == [] ==> ps == map[]) && (forall d :: d in ps ==> d in step.deps)
    requires forall d :: d in ps ==> !Bad(ps[d]) && !IsFiltered(ps[d]) && !ps[d].Pending?
    ensures var t, ys := Classify(pipe, step, ps), Generated(w, pipe, step, MapArgs(w, pipe, step, ps));
            t.ToMint? && t.anchor == Address(pipe, step.Identity(), MapInput(step, ps))
            && Minting(w, t) == if ys.None? then None else Some(ChildHashes(ys.value))
  {
    hide Arrange, InputOf, MapInput, MapArgs, ArgsOf, Valued, Bad, IsFiltered, ChildHashes;
    ArrangedInput(step, ps);
    ArrangedArgs(w, pipe, step, ps);
  }

  /** A lane of an expand: blocked, skipped, or what its generator makes of it. */
  lemma ExpandTargetAt(w: World, p: Planner, step: Step, cells: Cells, c: Coord)
    requires step.shape.Expand? && step.WellFormed() && LaneOf(p, step, cells, c)
    requires Uniform(p.singles, cells) && SoundCells(w, cells) && !AnyPending(cells)
    ensures var t := Classify(p.pipe, step, Seen(p, step, cells, c));
            && (SeesBad(p, step, cells, c) <==> t.ToBlocked?)
            && (!SeesBad(p, step, cells, c) ==> (SeesFiltered(p, step, cells, c) <==> t.ToSkipped?))
            && (t.ToBlocked? || t.ToSkipped? || t.ToMint?)
            && (t.ToMint? ==> t.anchor == Address(p.pipe, step.Identity(), MapInput(step, Seen(p, step, cells, c))))
            && (forall ys :: Yields(w, p, step, cells, c, ys) <==> t.ToMint? && Yielding(w, p, step, cells, c) == ys)
            && (t.ToMint? ==> Minting(w, t) == ChildrenOf(Yielding(w, p, step, cells, c)))
  {
    hide Classify, Seen, Uniform, SoundCells, AnyPending, SeesBad, SeesFiltered, Bad, IsFiltered, Usable, Valued, LaneOf,
         ParentsOf, MapArgs, MapInput, Generated, Minting, ChildHashes;
    var ps := Seen(p, step, cells, c);
    SeenBy(p, step, cells, c);
    SeenKinds(p, step, cells, c);
    SeenWithinDeps(p, step, cells, c);
    ClassifiedMarks(p.pipe, step, ps);
    forall xs | ParentsOf(p, step, cells, c, xs) ensures xs == ps {
      ParentsUnique(p, step, cells, c, xs);
    }
    if !SeesBad(p, step, cells, c) && !SeesFiltered(p, step, cells, c) {
      SeenDoNotPend(p, step, cells, c);
      forall d | d in ps ensures Usable(ps[d]) {
        OthersUsable(ps[d]);
      }
      SeenValued(w, p, step, cells, c);
      AnchorYields(w, p.pipe, step, ps);
    }
  }

  ghost function Yielding(w: World, p: Planner, step: Step, cells: Cells, c: Coord): Option<seq<Json>> {
    Generated(w, p.pipe, step, MapArgs(w, p.pipe, step, Seen(p, step, cells, c)))
  }

  function ChildrenOf(ys: Option<seq<Json>>): Option<seq<Hash>> {
    if ys.None? then None else Some(ChildHashes(ys.value))
  }

  /** The minted lanes are named by the payloads yielded. */
  lemma MintedChildren(w: World, p: Planner, step: Step, cells: Cells, ts: map<Coord, Target>)
    requires step.shape.Expand? && step.WellFormed() && Plan(p, step, cells) == Some(ts)
    requires Uniform(p.singles, cells) && SoundCells(w, cells) && !AnyPending(cells)
    ensures forall h :: h in AllChildren(w, ts) <==> exists y :: Minted(w, p, step, cells, y) && h == ChildHash(y)
  {
    hide PlanOn, Classify, Seen, Uniform, SoundCells, AnyPending, SeesBad, SeesFiltered, LaneOf, Yielding, Minting, ChildHash;
    PlannedLanes(p, step, cells);
    forall c | c in ts
      ensures forall ys :: Yields(w, p, step, cells, c, ys) <==> ts[c].ToMint? && Yielding(w, p, step, cells, c) == ys
      ensures ts[c].ToMint? ==> Minting(w, ts[c]) == ChildrenOf(Yielding(w, p, step, cells, c))
    {
      ExpandTargetAt(w, p, step, cells, c);
    }
    forall c | c in ts && !ts[c].ToMint? ensures Minting(w, ts[c]).None? {
      OnlyMintsFanOut(w, ts[c]);
    }
    forall h | h in AllChildren(w, ts) ensures exists y :: Minted(w, p, step, cells, y) && h == ChildHash(y) {
      var c :| c in ts && Minting(w, ts[c]).Some? && h in Minting(w, ts[c]).value;
      var ys := Yielding(w, p, step, cells, c).value;
      var y :| y in ys && h == ChildHash(y);
      assert Yields(w, p, step, cells, c, Some(ys));
    }
    forall y | Minted(w, p, step, cells, y) ensures ChildHash(y) in AllChildren(w, ts) {
      var c, ys :| Yields(w, p, step, cells, c, Some(ys)) && y in ys;
      assert c in ts && ChildHash(y) in Minting(w, ts[c]).value;
    }
  }

  lemma OnlyMintsFanOut(w: World, t: Target)
    ensures !t.ToMint? ==> Minting(w, t).None?
  {
  }

  lemma ChildIsMinted(w: World, pipe: string, step: Step, y: Json)
    requires w.mints(pipe, step.Identity())
    ensures ChildCell(w, pipe, step.Identity(), ChildHash(y)) == MintedCell(w, pipe, step, y)
  {
  }

  lemma ExpandAdequate(w: World, p: Planner, step: Step, cells: Cells)
    requires step.shape.Expand? && step.WellFormed() && StepHolds(w, p, step, cells)
    requires Uniform(p.singles, cells) && SoundCells(w, cells) && !AnyPending(cells)
    requires w.mints(p.pipe, step.Identity()) && Apart(w, Plan(p, step, cells).value)
    ensures ExpandMeant(w, p, step, cells)
  {
    hide PlanOn, Classify, Seen, Uniform, SoundCells, AnyPending, SeesBad, SeesFiltered, LaneOf, Yielding, Yields, Minting, ChildHash,
         ChildCell, MintedCell, Minted, LaneCell, StepCells, AllChildren, Apart;
    var ts := Plan(p, step, cells).value;
    PlannedLanes(p, step, cells);
    MintedChildren(w, p, step, cells, ts);
    forall c | LaneOf(p, step, cells, c) ensures ExpandLaneMeant(w, p, step, cells, c) {
      ExpandLane(w, p, step, cells, ts, c);
    }
    YieldingLanes(w, p, step, cells);
    forall y | Minted(w, p, step, cells, y)
      ensures (Row(ChildHash(y)), step.name) in cells && cells[(Row(ChildHash(y)), step.name)] == MintedCell(w, p.pipe, step, y)
    {
      ChildThere(w, p.pipe, step, ts, ChildHash(y));
      CellAt(cells, step.name, Row(ChildHash(y)));
      ChildIsMinted(w, p.pipe, step, y);
    }
    forall c | (c, step.name) in cells ensures StaysPut(w, p, step, cells, c) || MintedAt(w, p, step, cells, c) {
      CellAt(cells, step.name, c);
      WhereFrom(w, p.pipe, step, ts, c);
      if c in ts && Minting(w, ts[c]).None? {
        NoFanOut(w, p, step, cells, ts, c);
      }
    }
  }

  lemma YieldingLanes(w: World, p: Planner, step: Step, cells: Cells)
    ensures forall c, ys :: Yields(w, p, step, cells, c, ys) ==> LaneOf(p, step, cells, c)
  {
    hide LaneOf, SeesBad, SeesFiltered;
  }

  /** The three ways in which a lane of an expand keeps a cell of its own. */
  ghost predicate ExpandLaneMeant(w: World, p: Planner, step: Step, cells: Cells, c: Coord) {
    && (SeesBad(p, step, cells, c) ==> (c, step.name) in cells && cells[(c, step.name)] == Blocked)
    && (!SeesBad(p, step, cells, c) && SeesFiltered(p, step, cells, c) ==> (c, step.name) in cells && cells[(c, step.name)] == Skipped)
    && (Yields(w, p, step, cells, c, None) ==> (c, step.name) in cells && cells[(c, step.name)] == Failed)
  }

  lemma ExpandLane(w: World, p: Planner, step: Step, cells: Cells, ts: map<Coord, Target>, c: Coord)
    requires step.shape.Expand? && step.WellFormed() && Plan(p, step, cells) == Some(ts) && LaneOf(p, step, cells, c)
    requires CellsAt(cells, step.name) == StepCells(w, p.pipe, step, ts) && Apart(w, ts)
    requires Uniform(p.singles, cells) && SoundCells(w, cells) && !AnyPending(cells)
    ensures ExpandLaneMeant(w, p, step, cells, c)
  {
    hide PlanOn, Classify, Seen, Uniform, SoundCells, AnyPending, SeesBad, SeesFiltered, LaneOf, Yielding, Yields, StepCells, Apart,
         AnchorOf, ChildHashes;
    PlannedLanes(p, step, cells);
    ExpandTargetAt(w, p, step, cells, c);
    if Minting(w, ts[c]).None? {
      ProducedInStep(w, p.pipe, step, ts, c, (c, step.name));
      CellAt(cells, step.name, c);
    }
  }

  lemma NoFanOut(w: World, p: Planner, step: Step, cells: Cells, ts: map<Coord, Target>, c: Coord)
    requires step.shape.Expand? && step.WellFormed() && Plan(p, step, cells) == Some(ts) && c in ts && Minting(w, ts[c]).None?
    requires Uniform(p.singles, cells) && SoundCells(w, cells) && !AnyPending(cells)
    ensures StaysPut(w, p, step, cells, c)
  {
    hide PlanOn, Classify, Seen, Uniform, SoundCells, AnyPending, SeesBad, SeesFiltered, LaneOf, Yielding, Yields, Minting;
    PlannedLanes(p, step, cells);
    ExpandTargetAt(w, p, step, cells, c);
    if ts[c].ToMint? {
      assert Yielding(w, p, step, cells, c).None?;
      assert Yields(w, p, step, cells, c, None);
    }
  }

  lemma ChildThere(w: World, pipe: string, step: Step, ts: map<Coord, Target>, h: Hash)
    requires h in AllChildren(w, ts)
    ensures var own := StepCells(w, pipe, step, ts);
            (Row(h), step.name) in own && own[(Row(h), step.name)] == ChildCell(w, pipe, step.Identity(), h)
  {
    hide LaneCell, ChildCell, AllChildren, Minting;
  }

  lemma WhereFrom(w: World, pipe: string, step: Step, ts: map<Coord, Target>, c: Coord)
    requires (c, step.name) in StepCells(w, pipe, step, ts)
    ensures (c in ts && Minting(w, ts[c]).None?) || exists h :: h in AllChildren(w, ts) && c == Row(h)
  {
    hide LaneCell, ChildCell, AllChildren, Minting;
  }

  // ---------------------------------------------------------------------------
  // aggregates
  // ---------------------------------------------------------------------------

  lemma TextsAre(show: Json -> string, x: Cell, field: string)
    ensures forall key :: key in FieldValues(show, x, field) <==> HasText(show, x, field, key)
    ensures FieldValues(show, x, field) == {} <==> forall key :: !HasText(show, x, field, key)
  {
  }

  lemma SurvivorsAre(step: Step, cells: Cells)
    ensures var lanes := UsableLanes(step, ParentCells(step, cells));
            && (forall d :: d in lanes <==> d in step.deps)
            && (forall d, c :: d in lanes ==> (c in lanes[d] <==> Survives(cells, c, d)))
            && (forall d, c :: d in lanes && c in lanes[d] ==> lanes[d][c] == cells[(c, d)])
  {
    var own := ParentCells(step, cells);
    forall d, c | d in step.deps
      ensures c in LanesOf(own, d) <==> Survives(cells, c, d)
      ensures c in LanesOf(own, d) ==> LanesOf(own, d)[c] == cells[(c, d)]
    {
      assert (c, d) in own <==> (c, d) in cells;
    }
  }

  lemma BadAre(step: Step, cells: Cells)
    ensures AnyBad(ParentCells(step, cells)) <==> SomeBad(step, cells)
    ensures !AnyPending(cells) ==> !AnyPending(ParentCells(step, cells))
  {
    var own := ParentCells(step, cells);
    if SomeBad(step, cells) {
      var c, d :| d in step.deps && (c, d) in cells && (cells[(c, d)].Blocked? || cells[(c, d)].Failed?);
      assert (c, d) in own && Bad(own[(c, d)]);
    }
    if k :| k in own && Bad(own[k]) {
      assert k == (k.0, k.1) && (k.0, k.1) in cells;
    }
  }

  ghost predicate LanesValued(w: World, pipe: string, lanes: map<string, map<Coord, Cell>>) {
    forall d, c :: d in lanes && c in lanes[d] ==> Output(w, pipe, lanes[d][c]) == ValueOf(w, pipe, IdentityOf(lanes[d][c]))
  }

  lemma CollectedLanesArgs(w: World, pipe: string, lanes: map<string, map<Coord, Cell>>)
    requires LanesValued(w, pipe, lanes)
    ensures LaneArgs(LaneValues(w, pipe, LaneHashes(lanes))) == CollectedArgs(w, pipe, lanes)
  {
    hide LaneArgs, LaneValues, LaneOutputs, AllThere, LanesValued;
    CollectedValues(w, pipe, lanes);
    LaneArgsSpelled(LaneOutputs(w, pipe, lanes));
  }

  lemma CollectedValues(w: World, pipe: string, lanes: map<string, map<Coord, Cell>>)
    requires LanesValued(w, pipe, lanes)
    ensures LaneValues(w, pipe, LaneHashes(lanes)) == LaneOutputs(w, pipe, lanes)
  {
    hide Output, ValueOf, IdentityOf;
    var values, outputs := LaneValues(w, pipe, LaneHashes(lanes)), LaneOutputs(w, pipe, lanes);
    forall d | d in lanes ensures values[d] == outputs[d] {
      assert values[d].Keys == outputs[d].Keys;
      forall c | c in lanes[d] ensures values[d][c] == outputs[d][c] {
        assert LaneHashes(lanes)[d][c] == IdentityOf(lanes[d][c]);
      }
    }
    assert values.Keys == outputs.Keys;
  }

  lemma LaneArgsSpelled(outputs: map<string, map<Coord, Option<Json>>>)
    ensures LaneArgs(outputs) == AllThere(outputs)
  {
    if LaneArgs(outputs).Some? {
      var m, n := LaneArgs(outputs).value.lanes, AllThere(outputs).value.lanes;
      forall d | d in outputs ensures m[d] == n[d] {
      }
      assert m == n;
    }
  }

  lemma CollectedReturned(w: World, pipe: string, step: Step, key: Option<string>, lanes: map<string, map<Coord, Cell>>)
    requires !w.mints(pipe, step.Identity()) && LanesValued(w, pipe, lanes)
    ensures var a := Address(pipe, step.Identity(), CollectedInput(key, lanes));
            Returned(w, pipe, step, CollectedInput(key, lanes), CollectedArgs(w, pipe, lanes), OutcomeCell(w, a, Expected(w, a)))
  {
    hide LaneArgs, LaneValues, CollectedArgs, Expected, OutcomeCell, Returned, LanesValued, IdentityOf;
    CollectedLanesArgs(w, pipe, lanes);
    OutcomeReturned(w, pipe, step, CollectedInput(key, lanes), CollectedArgs(w, pipe, lanes));
  }

  lemma SurvivorsValued(w: World, pipe: string, step: Step, cells: Cells, key: Option<string>, p: Planner, lanes: map<string, map<Coord, Cell>>)
    requires SoundCells(w, cells) && Collected(p, step, cells, key, lanes)
    ensures LanesValued(w, pipe, lanes)
  {
    hide Output, ValueOf, IdentityOf, Sound, InGroup;
    forall d, c | d in lanes && c in lanes[d]
      ensures Output(w, pipe, lanes[d][c]) == ValueOf(w, pipe, IdentityOf(lanes[d][c]))
    {
      assert Survives(cells, c, d) && Usable(cells[(c, d)]);
      OutputIsValue(w, pipe, cells[(c, d)]);
    }
  }

  /** The cell of one call of an aggregate. */
  lemma CollectedCell(w: World, p: Planner, step: Step, cells: Cells, key: Option<string>, lanes: map<string, map<Coord, Cell>>, t: Target)
    requires !w.mints(p.pipe, step.Identity()) && SoundCells(w, cells) && Collected(p, step, cells, key, lanes)
    requires t == ToWork(Address(p.pipe, step.Identity(), CollectedInput(key, lanes)), Lanes(lanes))
    ensures AggregateCell(w, p, step, cells, key, LaneCell(w, t))
  {
    hide Collected, SoundCells, CollectedInput, CollectedArgs, Returned, Expected, OutcomeCell, LanesValued;
    SurvivorsValued(w, p.pipe, step, cells, key, p, lanes);
    CollectedReturned(w, p.pipe, step, key, lanes);
  }

  lemma AggregateAdequate(w: World, p: Planner, step: Step, cells: Cells)
    requires step.shape.Aggregate? && step.WellFormed() && StepHolds(w, p, step, cells)
    requires SoundCells(w, cells) && !AnyPending(cells) && !w.mints(p.pipe, step.Identity())
    ensures AggregateMeant(w, p, step, cells)
  {
    hide PlanOn, SoundCells, AnyPending, LaneCell, AggregateCell, SomeBad, NoneSurvive, StepCells;
    var ts := Plan(p, step, cells).value;
    AggregateTargets(p, step, cells);
    NoMinting(p, step, cells);
    OwnCellsOnly(w, p.pipe, step, ts);
    forall c ensures (c, step.name) in cells <==> c in ts
             ensures c in ts ==> cells[(c, step.name)] == LaneCell(w, ts[c])
    {
      CellAt(cells, step.name, c);
    }
    if SomeBad(step, cells) && (step.block || NoneSurvive(step, cells)) {
      MarkedBlocked(w);
    } else if step.groupKey.None? {
      WholeCell(w, p, step, cells, ts[All]);
    } else {
      forall key | Occurs(p, step, cells, step.groupKey.value, key)
        ensures AggregateCell(w, p, step, cells, Some(key), cells[(Group(key), step.name)])
      {
        GroupCell(w, p, step, cells, key, ts[Group(key)]);
      }
    }
  }

  lemma MarkedBlocked(w: World)
    ensures LaneCell(w, ToBlocked) == Blocked
  {
  }

  /** The plan of an aggregate, by its survivors. */
  lemma AggregateTargets(p: Planner, step: Step, cells: Cells)
    requires step.shape.Aggregate? && step.WellFormed() && Plan(p, step, cells).Some? && !AnyPending(cells)
    ensures var ts, lanes := Plan(p, step, cells).value, UsableLanes(step, ParentCells(step, cells));
            if SomeBad(step, cells) && (step.block || NoneSurvive(step, cells)) then ts == map[All := ToBlocked]
            else if step.groupKey.None? then ts == map[All := AggregateTarget(p.pipe, step, lanes)]
            else
              var field := step.groupKey.value;
              (forall c :: c in ts <==> c.Group? && Occurs(p, step, cells, field, c.key))
              && forall key :: Group(key) in ts ==>
                   ts[Group(key)] == GroupTarget(p.pipe, step, key, GroupLanes(p.show, field, key, lanes))
  {
    hide UsableLanes, FieldValues, AggregateTarget, GroupTarget, GroupLanes, GroupKeys, SomeBad, AnyBad, AnyPending, Survives;
    BadAre(step, cells);
    NothingLeft(step, cells);
    if step.groupKey.Some? {
      KeysOccur(p, step, cells, step.groupKey.value);
    }
  }

  lemma NothingLeft(step: Step, cells: Cells)
    ensures var lanes := UsableLanes(step, ParentCells(step, cells));
            (forall d :: d in lanes ==> lanes[d] == map[]) <==> NoneSurvive(step, cells)
  {
    hide UsableLanes, Survives;
    SurvivorsAre(step, cells);
    var lanes := UsableLanes(step, ParentCells(step, cells));
    if forall d :: d in lanes ==> lanes[d] == map[] {
      forall c, d | d in step.deps ensures !Survives(cells, c, d) {
        assert c !in lanes[d];
      }
    }
    if NoneSurvive(step, cells) {
      forall d | d in lanes ensures lanes[d] == map[] {
        assert forall c :: c !in lanes[d];
      }
    }
  }

  lemma KeysOccur(p: Planner, step: Step, cells: Cells, field: string)
    ensures var lanes := UsableLanes(step, ParentCells(step, cells));
            forall key :: key in GroupKeys(p.show, field, lanes) <==> Occurs(p, step, cells, field, key)
  {
    hide UsableLanes, FieldValues, HasText, Survives;
    SurvivorsAre(step, cells);
    var lanes := UsableLanes(step, ParentCells(step, cells));
    forall key ensures key in GroupKeys(p.show, field, lanes) <==> Occurs(p, step, cells, field, key) {
      if key in GroupKeys(p.show, field, lanes) {
        var d, c :| d in lanes && c in lanes[d] && key in FieldValues(p.show, lanes[d][c], field);
        TextsAre(p.show, lanes[d][c], field);
        assert Survives(cells, c, d) && lanes[d][c] == cells[(c, d)];
      }
      if Occurs(p, step, cells, field, key) {
        var c, d :| d in step.deps && Survives(cells, c, d) && HasText(p.show, cells[(c, d)], field, key);
        TextsAre(p.show, cells[(c, d)], field);
        assert d in lanes && c in lanes[d] && key in FieldValues(p.show, lanes[d][c], field);
      }
    }
  }

  lemma WholeCell(w: World, p: Planner, step: Step, cells: Cells, t: Target)
    requires !w.mints(p.pipe, step.Identity()) && SoundCells(w, cells)
    requires t == AggregateTarget(p.pipe, step, UsableLanes(step, ParentCells(step, cells)))
    ensures AggregateCell(w, p, step, cells, None, LaneCell(w, t))
  {
    hide UsableLanes, Survives, SoundCells, AggregateCell, LaneCell;
    SurvivorsAre(step, cells);
    var lanes := UsableLanes(step, ParentCells(step, cells));
    assert Collected(p, step, cells, None, lanes);
    CollectedCell(w, p, step, cells, None, lanes, t);
  }

  lemma GroupCell(w: World, p: Planner, step: Step, cells: Cells, key: string, t: Target)
    requires !w.mints(p.pipe, step.Identity()) && SoundCells(w, cells) && step.groupKey.Some?
    requires t == GroupTarget(p.pipe, step, key,
                              GroupLanes(p.show, step.groupKey.value, key, UsableLanes(step, ParentCells(step, cells))))
    ensures AggregateCell(w, p, step, cells, Some(key), LaneCell(w, t))
  {
    hide SoundCells, AggregateCell, LaneCell, UsableLanes, GroupLanes, Collected;
    var lanes := GroupLanes(p.show, step.groupKey.value, key, UsableLanes(step, ParentCells(step, cells)));
    GroupIsCollected(p, step, cells, key);
    CollectedCell(w, p, step, cells, Some(key), lanes, t);
  }

  /** A group's call is given exactly the surviving lanes with the group's text in the group field. */
  lemma GroupIsCollected(p: Planner, step: Step, cells: Cells, key: string)
    requires step.groupKey.Some?
    ensures Collected(p, step, cells, Some(key),
                      GroupLanes(p.show, step.groupKey.value, key, UsableLanes(step, ParentCells(step, cells))))
  {
    hide UsableLanes, FieldValues, HasText, Survives;
    SurvivorsAre(step, cells);
    var all := UsableLanes(step, ParentCells(step, cells));
    forall d, c | d in all && c in all[d]
      ensures key in FieldValues(p.show, all[d][c], step.groupKey.value) <==> HasText(p.show, all[d][c], step.groupKey.value, key)
    {
      TextsAre(p.show, all[d][c], step.groupKey.value);
    }
  }

  lemma AggregateRaisesWhen(p: Planner, step: Step, cells: Cells)
    requires step.shape.Aggregate? && step.WellFormed() && !AnyPending(cells)
    ensures Plan(p, step, cells).None? <==> Raises(p, step, cells)
  {
    hide UsableLanes, FieldValues, AggregateTarget, GroupTarget, GroupLanes, GroupKeys, SomeBad, AnyBad, AnyPending, Survives, HasText;
    BadAre(step, cells);
    NothingLeft(step, cells);
    if step.groupKey.Some? {
      TextlessLanes(p, step, cells, step.groupKey.value);
    }
  }

  lemma TextlessLanes(p: Planner, step: Step, cells: Cells, field: string)
    ensures var lanes := UsableLanes(step, ParentCells(step, cells));
            (exists d | d in lanes :: exists c | c in lanes[d] :: FieldValues(p.show, lanes[d][c], field) == {})
            <==> exists c, d :: d in step.deps && Survives(cells, c, d) && Textless(p, cells[(c, d)], field)
  {
    hide UsableLanes, FieldValues, HasText, Survives;
    SurvivorsAre(step, cells);
    var lanes := UsableLanes(step, ParentCells(step, cells));
    if d, c :| d in lanes && c in lanes[d] && FieldValues(p.show, lanes[d][c], field) == {} {
      TextsAre(p.show, lanes[d][c], field);
      assert Survives(cells, c, d) && Textless(p, cells[(c, d)], field);
    }
    if c, d :| d in step.deps && Survives(cells, c, d) && Textless(p, cells[(c, d)], field) {
      TextsAre(p.show, cells[(c, d)], field);
      assert d in lanes && c in lanes[d] && FieldValues(p.show, lanes[d][c], field) == {};
    }
  }

  // ---------------------------------------------------------------------------
  // joins
  // ---------------------------------------------------------------------------

  ghost function Survivors(step: Step, cells: Cells): map<string, map<Coord, Cell>> {
    UsableLanes(step, ParentCells(step, cells))
  }

  lemma SidesCarry(p: Planner, step: Step, cells: Cells, d: string, key: string)
    requires d in step.deps && d in step.joinOn && d in Survivors(step, cells)
    ensures forall c :: c in SideLanes(p.show, step, Survivors(step, cells), d, key) <==> Carries(p, step, cells, c, d, key)
    ensures key in SideKeys(p.show, step, Survivors(step, cells), d) <==> exists c :: Carries(p, step, cells, c, d, key)
  {
    hide UsableLanes, FieldValues, HasText, Survives;
    SurvivorsAre(step, cells);
    var lanes := Survivors(step, cells);
    forall c | c in lanes[d] ensures key in FieldValues(p.show, lanes[d][c], step.joinOn[d]) <==> Carries(p, step, cells, c, d, key) {
      TextsAre(p.show, lanes[d][c], step.joinOn[d]);
    }
    forall c | Carries(p, step, cells, c, d, key) ensures c in lanes[d] {
    }
  }

  ghost predicate InSlots(p: Planner, step: Step, cells: Cells, ds: seq<string>, key: string, t: seq<Coord>)
    requires forall d :: d in ds ==> d in Survivors(step, cells) && d in step.joinOn
  {
    |t| == |ds| && forall i :: 0 <= i < |t| ==> t[i] in SideSlots(p.show, step, Survivors(step, cells), ds[i], key)
  }

  lemma {:induction false} TupleMembers(p: Planner, step: Step, cells: Cells, ds: seq<string>, key: string, t: seq<Coord>)
    requires forall d :: d in ds ==> d in Survivors(step, cells) && d in step.joinOn
    ensures t in Tuples(p.show, step, Survivors(step, cells), ds, key) <==> InSlots(p, step, cells, ds, key, t)
  {
    hide SideSlots, Survivors;
    var lanes := Survivors(step, cells);
    if ds == [] {
      assert t in {[]} <==> |t| == 0;
    } else if t != [] {
      TupleMembers(p, step, cells, ds[1..], key, t[1..]);
      assert t == [t[0]] + t[1..];
      if t in Tuples(p.show, step, lanes, ds, key) {
        var c, u :| c in SideSlots(p.show, step, lanes, ds[0], key) && u in Tuples(p.show, step, lanes, ds[1..], key) && t == [c] + u;
        assert u == t[1..];
        forall i | 0 <= i < |t| ensures t[i] in SideSlots(p.show, step, lanes, ds[i], key) {
          if i > 0 { assert t[1..][i - 1] == t[i] && ds[1..][i - 1] == ds[i]; }
        }
      }
      if InSlots(p, step, cells, ds, key, t) {
        forall i | 0 <= i < |t| - 1 ensures t[1..][i] in SideSlots(p.show, step, lanes, ds[1..][i], key) {
          assert t[1..][i] == t[i + 1] && ds[1..][i] == ds[i + 1];
        }
      }
    }
  }

  lemma SlotsFit(p: Planner, step: Step, cells: Cells, d: string, key: string, c: Coord)
    requires d in step.deps && d in step.joinOn && d in Survivors(step, cells)
    ensures c in SideSlots(p.show, step, Survivors(step, cells), d, key) <==>
              Carries(p, step, cells, c, d, key) || (c == Missing && forall c' :: !Carries(p, step, cells, c', d, key))
  {
    hide Carries, SideLanes, Survivors, SideKeys;
    SidesCarry(p, step, cells, d, key);
  }

  lemma SurvivorKeys(step: Step, cells: Cells)
    ensures forall d :: d in Survivors(step, cells) <==> d in step.deps
  {
  }

  lemma UniverseIs(p: Planner, step: Step, cells: Cells, key: string)
    requires step.deps != [] && forall d :: d in step.deps ==> d in Survivors(step, cells) && d in step.joinOn
    ensures key in KeyUniverse(p.show, step, Survivors(step, cells)) <==>
              && (exists d, c :: d in step.deps && Carries(p, step, cells, c, d, key))
              && (!step.union ==> forall d :: d in step.deps ==> exists c :: Carries(p, step, cells, c, d, key))
  {
    hide Carries, SideKeys, Survivors, SideLanes;
    var lanes := Survivors(step, cells);
    forall d | d in step.deps ensures key in SideKeys(p.show, step, lanes, d) <==> exists c :: Carries(p, step, cells, c, d, key) {
      SidesCarry(p, step, cells, d, key);
    }
  }

  /** A tuple is planned for a key exactly if it is joined on it. */
  lemma TuplesJoin(p: Planner, step: Step, cells: Cells, key: string, t: seq<Coord>)
    requires step.deps != [] && forall d :: d in step.deps ==> d in Survivors(step, cells) && d in step.joinOn
    ensures key in KeyUniverse(p.show, step, Survivors(step, cells)) && t in Tuples(p.show, step, Survivors(step, cells), step.deps, key)
            <==> JoinedOn(p, step, cells, t, key)
  {
    hide KeyUniverse, Tuples, Carries, Survivors, SideSlots;
    UniverseIs(p, step, cells, key);
    TupleMembers(p, step, cells, step.deps, key, t);
    if |t| == |step.deps| {
      forall i | 0 <= i < |t|
        ensures t[i] in SideSlots(p.show, step, Survivors(step, cells), step.deps[i], key) <==>
                  Carries(p, step, cells, t[i], step.deps[i], key)
                  || (t[i] == Missing && forall c' :: !Carries(p, step, cells, c', step.deps[i], key))
      {
        assert step.deps[i] in step.deps;
        SlotsFit(p, step, cells, step.deps[i], key, t[i]);
      }
      TupleOnKey(p, step, cells, key, t);
    }
  }

  lemma TupleOnKey(p: Planner, step: Step, cells: Cells, key: string, t: seq<Coord>)
    requires |t| == |step.deps|
    ensures var universe := (exists d, c :: d in step.deps && Carries(p, step, cells, c, d, key))
                            && (!step.union ==> forall d :: d in step.deps ==> exists c :: Carries(p, step, cells, c, d, key));
            var slots := forall i :: 0 <= i < |t| ==>
                  Carries(p, step, cells, t[i], step.deps[i], key)
                  || (t[i] == Missing && forall c' :: !Carries(p, step, cells, c', step.deps[i], key));
            universe && slots <==> JoinedOn(p, step, cells, t, key)
  {
    hide Carries;
    if JoinedOn(p, step, cells, t, key) {
      forall d | !step.union && d in step.deps ensures exists c :: Carries(p, step, cells, c, d, key) {
        var i :| 0 <= i < |step.deps| && step.deps[i] == d;
        assert SlotFits(p, step, cells, t[i], step.deps[i], key);
      }
      var i :| 0 <= i < |t| && Carries(p, step, cells, t[i], step.deps[i], key);
      assert step.deps[i] in step.deps;
    }
    if (exists d, c :: d in step.deps && Carries(p, step, cells, c, d, key))
       && (!step.union ==> forall d :: d in step.deps ==> exists c :: Carries(p, step, cells, c, d, key))
       && forall i :: 0 <= i < |t| ==>
            Carries(p, step, cells, t[i], step.deps[i], key)
            || (t[i] == Missing && forall c' :: !Carries(p, step, cells, c', step.deps[i], key))
    {
      var d, c :| d in step.deps && Carries(p, step, cells, c, d, key);
      var i :| 0 <= i < |step.deps| && step.deps[i] == d;
      assert Carries(p, step, cells, t[i], step.deps[i], key);
      forall j | 0 <= j < |t| ensures SlotFits(p, step, cells, t[j], step.deps[j], key) {
        assert step.deps[j] in step.deps;
      }
    }
  }

  lemma {:induction false} ParentsOfTuple(ds: seq<string>, lanes: map<string, map<Coord, Cell>>, t: seq<Coord>, i: nat)
    requires |t| == |ds| && i < |ds| && (forall d :: d in ds ==> d in lanes)
    requires forall m, n :: 0 <= m < n < |ds| ==> ds[m] != ds[n]
    ensures var sides := TupleParents(ds, lanes, t);
            && (forall d :: d in sides <==> d in ds)
            && sides[ds[i]] == if t[i] in lanes[ds[i]] then Some(lanes[ds[i]][t[i]]) else None
  {
    var rest := TupleParents(ds[1..], lanes, t[1..]);
    if i > 0 {
      assert ds[1..][i - 1] == ds[i] && t[1..][i - 1] == t[i];
      ParentsOfTuple(ds[1..], lanes, t[1..], i - 1);
    } else if |ds| > 1 {
      ParentsOfTuple(ds[1..], lanes, t[1..], 0);
    }
    forall d | d in ds ensures d in TupleParents(ds, lanes, t) {
      var m :| 0 <= m < |ds| && ds[m] == d;
      if m > 0 { assert ds[1..][m - 1] == d; }
    }
  }

  ghost predicate NoneReserved(step: Step, cells: Cells) {
    forall c, d :: d in step.deps && Survives(cells, c, d) ==> c != Missing && c != Group("@missing")
  }

  lemma SurvivorUsable(cells: Cells, c: Coord, d: string)
    ensures Survives(cells, c, d) <==> (c, d) in cells && Usable(cells[(c, d)])
  {
  }

  lemma TupleSides(p: Planner, step: Step, cells: Cells, t: seq<Coord>)
    requires step.WellFormed() && step.shape.Join? && NoneReserved(step, cells) && Joined(p, step, cells, t)
    requires forall d :: d in step.deps ==> d in Survivors(step, cells)
    ensures SidesOf(step, cells, t, TupleParents(step.deps, Survivors(step, cells), t))
    ensures forall d :: d in TupleParents(step.deps, Survivors(step, cells), t) ==>
              var x := TupleParents(step.deps, Survivors(step, cells), t)[d]; x.Some? ==> exists k :: k in cells && Usable(cells[k]) && cells[k] == x.value
  {
    hide HasText, TupleParents, Usable, Survives, Survivors, SlotFits;
    var sides := TupleParents(step.deps, Survivors(step, cells), t);
    var key :| JoinedOn(p, step, cells, t, key);
    ParentsOfTuple(step.deps, Survivors(step, cells), t, 0);
    forall i | 0 <= i < |t|
      ensures if t[i] == Missing then sides[step.deps[i]] == None
              else (t[i], step.deps[i]) in cells && Usable(cells[(t[i], step.deps[i])]) && sides[step.deps[i]] == Some(cells[(t[i], step.deps[i])])
    {
      SideOf(p, step, cells, t, key, i);
    }
    forall d | d in sides && sides[d].Some? ensures exists k :: k in cells && Usable(cells[k]) && cells[k] == sides[d].value {
      var i :| 0 <= i < |step.deps| && step.deps[i] == d;
      assert Usable(cells[(t[i], d)]);
    }
  }

  lemma SideOf(p: Planner, step: Step, cells: Cells, t: seq<Coord>, key: string, i: nat)
    requires step.WellFormed() && step.shape.Join? && NoneReserved(step, cells) && i < |t| == |step.deps|
    requires SlotFits(p, step, cells, t[i], step.deps[i], key) && forall d :: d in step.deps ==> d in Survivors(step, cells)
    ensures var sides := TupleParents(step.deps, Survivors(step, cells), t);
            step.deps[i] in sides
            && if t[i] == Missing then sides[step.deps[i]] == None
               else (t[i], step.deps[i]) in cells && Usable(cells[(t[i], step.deps[i])]) && sides[step.deps[i]] == Some(cells[(t[i], step.deps[i])])
  {
    hide UsableLanes, HasText, TupleParents, Usable, Survives;
    SurvivorsAre(step, cells);
    assert step.deps[i] in step.deps;
    ParentsOfTuple(step.deps, Survivors(step, cells), t, i);
    SurvivorUsable(cells, t[i], step.deps[i]);
  }

  ghost predicate SidesValued(w: World, pipe: string, sides: map<string, Option<Cell>>) {
    forall d :: d in sides && sides[d].Some? ==> Output(w, pipe, sides[d].value) == ValueOf(w, pipe, IdentityOf(sides[d].value))
  }

  lemma SidesArgs(w: World, pipe: string, sides: map<string, Option<Cell>>)
    requires SidesValued(w, pipe, sides)
    ensures ArgsOf(w, pipe, SideInput(sides)) == SideArgs(w, pipe, sides)
  {
    hide Output, ValueOf, IdentityOf;
    var slots := SideInput(sides).slots;
    var present := map d | d in slots && slots[d].Some? :: ValueOf(w, pipe, slots[d].value);
    assert slots.Keys == sides.Keys;
    assert forall d :: d in present <==> d in sides && sides[d].Some?;
    assert forall d :: d in present ==> present[d] == Output(w, pipe, sides[d].value);
    if forall d :: d in sides && sides[d].Some? ==> Output(w, pipe, sides[d].value).Some? {
      assert (map d | d in slots.Keys :: if d in present then present[d] else None)
          == (map d | d in sides :: if sides[d].Some? then Output(w, pipe, sides[d].value) else None);
    } else {
      var d :| d in sides && sides[d].Some? && Output(w, pipe, sides[d].value).None?;
      assert d in present && present[d].None?;
    }
  }

  /** The cell of one tuple. */
  lemma TupleCell(w: World, p: Planner, step: Step, cells: Cells, t: seq<Coord>)
    requires step.WellFormed() && step.shape.Join? && NoneReserved(step, cells) && Joined(p, step, cells, t)
    requires (forall d :: d in step.deps ==> d in Survivors(step, cells)) && |t| == |step.deps|
    requires SoundCells(w, cells) && !w.mints(p.pipe, step.Identity())
    ensures JoinCell(w, p, step, cells, t,
                     LaneCell(w, JoinTarget(p.pipe, step, TupleParents(step.deps, Survivors(step, cells), t))))
  {
    hide UsableLanes, Joined, TupleParents, SidesOf, Sound, Usable, Output, ValueOf, IdentityOf, Returned, SideArgs, Expected, OutcomeCell, ArgsOf,
         Survivors;
    var sides := TupleParents(step.deps, Survivors(step, cells), t);
    TupleSides(p, step, cells, t);
    forall d | d in sides && sides[d].Some?
      ensures Output(w, p.pipe, sides[d].value) == ValueOf(w, p.pipe, IdentityOf(sides[d].value))
    {
      OutputIsValue(w, p.pipe, sides[d].value);
    }
    SidesArgs(w, p.pipe, sides);
    OutcomeReturned(w, p.pipe, step, SideInput(sides), SideArgs(w, p.pipe, sides));
    SameSideInput(sides);
  }

  lemma SameSideInput(sides: map<string, Option<Cell>>)
    ensures InputOf(Slots(sides)) == SideInput(sides)
  {
  }

  lemma ReservedLanes(step: Step, cells: Cells)
    ensures AnyReserved(Survivors(step, cells)) <==> !NoneReserved(step, cells)
  {
    hide UsableLanes, Survives;
    SurvivorsAre(step, cells);
    var lanes := Survivors(step, cells);
    if !NoneReserved(step, cells) {
      var c, d :| d in step.deps && Survives(cells, c, d) && (c == Missing || c == Group("@missing"));
      assert d in lanes && c in lanes[d] && Reserved(c);
    }
  }

  lemma TextlessSides(p: Planner, step: Step, cells: Cells)
    ensures AnyTextless(p, step, Survivors(step, cells))
            <==> exists c, d :: d in step.deps && d in step.joinOn && Survives(cells, c, d) && Textless(p, cells[(c, d)], step.joinOn[d])
  {
    hide UsableLanes, FieldValues, HasText, Survives;
    SurvivorsAre(step, cells);
    var lanes := Survivors(step, cells);
    if d, c :| d in lanes && c in lanes[d] && d in step.joinOn && FieldValues(p.show, lanes[d][c], step.joinOn[d]) == {} {
      TextsAre(p.show, lanes[d][c], step.joinOn[d]);
      assert Survives(cells, c, d) && Textless(p, cells[(c, d)], step.joinOn[d]);
    }
    if c, d :| d in step.deps && d in step.joinOn && Survives(cells, c, d) && Textless(p, cells[(c, d)], step.joinOn[d]) {
      TextsAre(p.show, cells[(c, d)], step.joinOn[d]);
      assert d in lanes && c in lanes[d] && FieldValues(p.show, lanes[d][c], step.joinOn[d]) == {};
    }
  }

  predicate AnyReserved(lanes: map<string, map<Coord, Cell>>) {
    exists d | d in lanes :: exists c | c in lanes[d] :: Reserved(c)
  }

  predicate AnyTextless(p: Planner, step: Step, lanes: map<string, map<Coord, Cell>>) {
    exists d | d in lanes :: exists c | c in lanes[d] ::
      d in step.joinOn && FieldValues(p.show, lanes[d][c], step.joinOn[d]) == {}
  }

  lemma JoinPlanNone(p: Planner, step: Step, own: Cells)
    requires step.shape.Join? && step.WellFormed() && !AnyPending(own)
    ensures JoinPlan(p, step, own).None? <==>
              AnyReserved(UsableLanes(step, own)) || (!(AnyBad(own) && step.block) && AnyTextless(p, step, UsableLanes(step, own)))
  {
    hide UsableLanes, FieldValues, JoinTarget, KeyUniverse, Tuples, TupleParents, AnyBad, AnyPending, Reserved;
  }

  lemma JoinRaisesWhen(p: Planner, step: Step, cells: Cells)
    requires step.shape.Join? && step.WellFormed() && !AnyPending(cells)
    ensures Plan(p, step, cells).None? <==> Raises(p, step, cells)
  {
    hide UsableLanes, JoinPlan, SomeBad, AnyBad, AnyPending, Survives, Textless, NoneReserved, ParentCells, AnyReserved, AnyTextless;
    BadAre(step, cells);
    JoinPlanNone(p, step, ParentCells(step, cells));
    ReservedLanes(step, cells);
    TextlessSides(p, step, cells);
    JoinRaisesSpelled(p, step, cells);
  }

  lemma JoinRaisesSpelled(p: Planner, step: Step, cells: Cells)
    requires step.shape.Join?
    ensures Raises(p, step, cells) <==>
              || !NoneReserved(step, cells)
              || (!(SomeBad(step, cells) && step.block)
                  && exists c, d :: d in step.deps && d in step.joinOn && Survives(cells, c, d) && Textless(p, cells[(c, d)], step.joinOn[d]))
  {
    hide Survives, Textless, SomeBad;
  }

  ghost function TuplesOf(p: Planner, step: Step, cells: Cells): set<seq<Coord>>
    requires step.WellFormed() && step.shape.Join? && forall d :: d in step.deps ==> d in Survivors(step, cells)
  {
    JoinTuples(p.show, step, Survivors(step, cells))
  }

  lemma TuplesAreJoined(p: Planner, step: Step, cells: Cells)
    requires step.WellFormed() && step.shape.Join? && forall d :: d in step.deps ==> d in Survivors(step, cells)
    ensures forall t :: t in TuplesOf(p, step, cells) <==> Joined(p, step, cells, t)
  {
    hide KeyUniverse, Tuples, JoinedOn, Survivors;
    forall t ensures t in TuplesOf(p, step, cells) <==> Joined(p, step, cells, t) {
      forall key ensures key in KeyUniverse(p.show, step, Survivors(step, cells)) && t in Tuples(p.show, step, Survivors(step, cells), step.deps, key)
                         <==> JoinedOn(p, step, cells, t, key)
      {
        TuplesJoin(p, step, cells, key, t);
      }
    }
  }

  /** A join's targets: one for each tuple, or a single blocked lane. */
  ghost predicate TupleTargets(pipe: string, step: Step, lanes: map<string, map<Coord, Cell>>, tuples: set<seq<Coord>>, ts: map<Coord, Target>)
    requires forall d :: d in step.deps ==> d in lanes
  {
    && (forall c :: c in ts <==> c.Pair? && c.parts in tuples)
    && forall t :: t in tuples ==> |t| == |step.deps| && Pair(t) in ts && ts[Pair(t)] == JoinTarget(pipe, step, TupleParents(step.deps, lanes, t))
  }

  lemma JoinPlanSome(p: Planner, step: Step, own: Cells)
    requires step.shape.Join? && step.WellFormed() && JoinPlan(p, step, own).Some? && !AnyPending(own)
    requires forall d :: d in step.deps ==> d in UsableLanes(step, own)
    ensures var lanes, ts := UsableLanes(step, own), JoinPlan(p, step, own).value;
            if AnyBad(own) && (step.block || JoinTuples(p.show, step, lanes) == {}) then ts == map[JoinAll := ToBlocked]
            else TupleTargets(p.pipe, step, lanes, JoinTuples(p.show, step, lanes), ts)
  {
    hide UsableLanes, FieldValues, JoinTarget, JoinTuples, TupleParents, AnyBad, AnyPending, Reserved;
  }

  /** The plan of a join, by its tuples. */
  lemma JoinTargets(p: Planner, step: Step, cells: Cells)
    requires step.shape.Join? && step.WellFormed() && Plan(p, step, cells).Some? && !AnyPending(cells)
    requires forall d :: d in step.deps ==> d in Survivors(step, cells)
    ensures if SomeBad(step, cells) && (step.block || TuplesOf(p, step, cells) == {}) then Plan(p, step, cells).value == map[JoinAll := ToBlocked]
            else TupleTargets(p.pipe, step, Survivors(step, cells), TuplesOf(p, step, cells), Plan(p, step, cells).value)
    ensures NoneReserved(step, cells)
  {
    hide UsableLanes, FieldValues, JoinPlan, JoinTuples, TupleTargets, SomeBad, AnyBad, AnyPending, Survives, AnyReserved, AnyTextless, ParentCells, NoneReserved;
    BadAre(step, cells);
    JoinPlanSome(p, step, ParentCells(step, cells));
    JoinPlanNone(p, step, ParentCells(step, cells));
    ReservedLanes(step, cells);
  }

  lemma JoinAdequate(w: World, p: Planner, step: Step, cells: Cells)
    requires step.shape.Join? && step.WellFormed() && StepHolds(w, p, step, cells)
    requires SoundCells(w, cells) && !AnyPending(cells) && !w.mints(p.pipe, step.Identity())
    ensures JoinMeant(w, p, step, cells)
  {
    hide PlanOn, SoundCells, AnyPending, LaneCell, JoinCell, SomeBad, StepCells, Joined, Survivors, TuplesOf, NoneReserved, JoinTarget,
         TupleParents;
    var ts := Plan(p, step, cells).value;
    SurvivorKeys(step, cells);
    JoinTargets(p, step, cells);
    TuplesAreJoined(p, step, cells);
    NoMinting(p, step, cells);
    OwnCellsOnly(w, p.pipe, step, ts);
    forall c ensures (c, step.name) in cells <==> c in ts
             ensures c in ts ==> cells[(c, step.name)] == LaneCell(w, ts[c])
    {
      CellAt(cells, step.name, c);
    }
    if SomeBad(step, cells) && (step.block || TuplesOf(p, step, cells) == {}) {
      MarkedBlocked(w);
    } else {
      forall t | Joined(p, step, cells, t) ensures JoinCell(w, p, step, cells, t, cells[(Pair(t), step.name)]) {
        assert Pair(t).parts in TuplesOf(p, step, cells);
        TupleCell(w, p, step, cells, t);
      }
    }
  }

  // ---------------------------------------------------------------------------
  // whole runs
  // ---------------------------------------------------------------------------

  lemma StepMeant(w: World, p: Planner, step: Step, cells: Cells)
    requires step.WellFormed() && StepHolds(w, p, step, cells)
    requires Uniform(p.singles, cells) && SoundCells(w, cells) && !AnyPending(cells)
    requires w.mints(p.pipe, step.Identity()) <==> step.shape.Expand?
    requires step.DependentExpand() ==> Apart(w, Plan(p, step, cells).value)
    ensures Meant(w, p, step, cells)
  {
    hide PlanOn, Uniform, SoundCells, AnyPending, StepCells, Apart, MapMeant, ExpandMeant, AggregateMeant, JoinMeant;
    match step.shape
    case Map => MapAdequate(w, p, step, cells);
    case Expand =>
      if step.deps == [] {
        RootsAreApart(w, p, step, cells);
      }
      ExpandAdequate(w, p, step, cells);
    case Aggregate => AggregateAdequate(w, p, step, cells);
    case Join => JoinAdequate(w, p, step, cells);
  }

  /** The cells of every run are what the declarations of its steps mean. */
  lemma RunMeans(w: World, st: Store, p: Planner, steps: seq<Step>, n: nat)
    requires Ordered(steps) && Fits(w, p.pipe, steps) && p.singles == Singles(steps) && n <= |steps|
    requires CleanRun(w, p, steps[..n]).Some? && ApartRun(w, st, p, steps[..n], CleanRun(w, p, steps[..n]).value)
    ensures AllMeant(w, p, steps, n, CleanRun(w, p, steps[..n]).value)
  {
    hide PlanOn, CleanRun, Uniform, SoundCells, AnyPending, StepHolds, Apart, Meant, Ordered;
    var cells := CleanRun(w, p, steps[..n]).value;
    PrefixOrdered(steps, n);
    CleanIsRun(w, p, steps[..n]);
    CleanNeverPends(w, p, steps[..n]);
    CleanSound(w, p, steps[..n]);
    UniformGoal(w, p, steps, n);
    forall i | 0 <= i < n ensures Meant(w, p, steps[i], cells) {
      assert steps[..n][i] == steps[i] && StepHolds(w, p, steps[..n][i], cells);
      HeldPlan(w, p, steps[i], cells);
      StepMeant(w, p, steps[i], cells) by { StepsAreWellFormed(steps, i); }
    }
  }

  lemma StepsAreWellFormed(steps: seq<Step>, i: nat)
    requires Ordered(steps) && i < |steps|
    ensures steps[i].WellFormed()
  {
  }

  /** Planning raises exactly in the cases that the cells before show. */
  lemma RaisesWhen(w: World, p: Planner, steps: seq<Step>, n: nat)
    requires Ordered(steps) && p.singles == Singles(steps) && n < |steps| && CleanRun(w, p, steps[..n]).Some?
    ensures CleanRun(w, p, steps[..n + 1]).None? <==> Raises(p, steps[n], CleanRun(w, p, steps[..n]).value)
  {
    hide PlanOn, Uniform, AnyPending, StepCells, MisAligned, Raises, Ordered;
    var cells := CleanRun(w, p, steps[..n]).value;
    assert steps[..n + 1][..n] == steps[..n] && steps[..n + 1][n] == steps[n];
    CleanNeverPends(w, p, steps[..n]);
    UniformGoal(w, p, steps, n);
    StepsAreWellFormed(steps, n);
    PlanRaises(p, steps[n], cells);
  }

  lemma PlanRaises(p: Planner, step: Step, cells: Cells)
    requires step.WellFormed() && Uniform(p.singles, cells) && !AnyPending(cells)
    ensures Plan(p, step, cells).None? <==> Raises(p, step, cells)
  {
    hide PlanOn, Uniform, AnyPending, MisAligned;
    match step.shape
    case Aggregate => AggregateRaisesWhen(p, step, cells);
    case Join => JoinRaisesWhen(p, step, cells);
    case _ => LanesRaise(p, step, cells);
  }
}
