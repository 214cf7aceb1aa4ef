/**
 What a run computes, with no store, no cache and no schedule: the cells of a pipeline as a
 function of the user's code, one step after another.
 */
module Clean {
  import opened Model
  import opened Meaning
  import opened Ledger
  import opened Determined
  import opened Planning

  // ---------------------------------------------------------------------------
  // the cells a step leaves behind
  // ---------------------------------------------------------------------------

  /** The child hashes a target fans out into; None for every other kind of target. */
  function Minting(w: World, t: Target): Option<seq<Hash>> {
    if t.ToMint? then AnchorOf(w, t.anchor) else None
  }

  /** The cell left at the target's own coordinate. */
  function LaneCell(w: World, t: Target): Cell {
    match t
    case ToBlocked => Blocked
    case ToSkipped => Skipped
    case ToPending => Pending
    case ToUtil(cell) => cell
    case ToWork(a, _) => OutcomeCell(w, a, Expected(w, a))
    case ToMint(_, _) => Failed
  }

  function ChildCell(w: World, pipe: string, code: Code, h: Hash): Cell {
    var a := ChildAddress(pipe, code, h);
    OutcomeCell(w, a, Expected(w, a))
  }

  /** The cells one target of a step produces. */
  function Produced(w: World, pipe: string, step: Step, c: Coord, t: Target): Cells {
    var children := Minting(w, t);
    if children.None? then map[(c, step.name) := LaneCell(w, t)]
    else map h | h in children.value :: (Row(h), step.name) := ChildCell(w, pipe, step.Identity(), h)
  }

  function AllChildren(w: World, ts: map<Coord, Target>): set<Hash> {
    set c, h | c in ts && Minting(w, ts[c]).Some? && h in Minting(w, ts[c]).value :: h
  }

  function StepCells(w: World, pipe: string, step: Step, ts: map<Coord, Target>): (cells: Cells)
    ensures forall k :: k in cells ==> k.1 == step.name
  {
    (map c | c in ts && Minting(w, ts[c]).None? :: (c, step.name) := LaneCell(w, ts[c]))
    + (map h | h in AllChildren(w, ts) :: (Row(h), step.name) := ChildCell(w, pipe, step.Identity(), h))
  }

  /**
   The side conditions on an expand step fed by other lanes.  No payload the step yields in
   this run may be the content of a lane it is fed in this run (its lane row would be at the
   anchor's address, and the next plan would take its value for the list of children), and a
   lane that does not fan out must not be called like one of the minted lanes.  A root source
   always meets both (`RootsAreApart`).
   */
  ghost predicate Apart(w: World, ts: map<Coord, Target>) {
    && (forall c, h :: c in ts && ts[c].ToMint? && h in AllChildren(w, ts) ==> ts[c].anchor.input != Of(h))
    && (forall c, h :: c in ts && Minting(w, ts[c]).None? && h in AllChildren(w, ts) ==> c != Row(h))
  }

  /** Every target's cells are among the step's cells ... */
  lemma ProducedInStep(w: World, pipe: string, step: Step, ts: map<Coord, Target>, c: Coord, k: Key)
    requires Apart(w, ts) && c in ts && k in Produced(w, pipe, step, c, ts[c])
    ensures k in StepCells(w, pipe, step, ts)
    ensures StepCells(w, pipe, step, ts)[k] == Produced(w, pipe, step, c, ts[c])[k]
  {
    hide AnchorOf, ChildCell, LaneCell;
    var children := AllChildren(w, ts);
    if Minting(w, ts[c]).Some? {
      assert k.0.Row? && k.0.h in children;
    } else {
      assert forall h :: h in children ==> c != Row(h);
    }
  }

  /** ... and they are all of them. */
  lemma StepIsProduced(w: World, pipe: string, step: Step, ts: map<Coord, Target>, k: Key) returns (c: Coord)
    requires k in StepCells(w, pipe, step, ts)
    ensures c in ts && k in Produced(w, pipe, step, c, ts[c])
  {
    hide AnchorOf, ChildCell, LaneCell;
    if h :| h in AllChildren(w, ts) && k == (Row(h), step.name) {
      c :| c in ts && Minting(w, ts[c]).Some? && h in Minting(w, ts[c]).value;
    } else {
      c :| c in ts && Minting(w, ts[c]).None? && k == (c, step.name);
    }
  }

  // ---------------------------------------------------------------------------
  // the run
  // ---------------------------------------------------------------------------

  /** Unique names, every dependency earlier in the list, and code that fits the shapes. */
  predicate Ordered(steps: seq<Step>) {
    && (forall i, j :: 0 <= i < j < |steps| ==> steps[i].name != steps[j].name)
    && (forall i, d :: 0 <= i < |steps| && d in steps[i].deps ==> exists j :: 0 <= j < i && steps[j].name == d)
    && (forall i :: 0 <= i < |steps| ==> steps[i].WellFormed())
  }

  predicate Fits(w: World, pipe: string, steps: seq<Step>) {
    forall i :: 0 <= i < |steps| ==> (w.mints(pipe, steps[i].Identity()) <==> steps[i].shape.Expand?)
  }

  predicate Deep(step: Step) {
    (step.shape.Map? || step.shape.Expand?) && |step.deps| <= 1
  }

  /** Step names that can only ever produce one value for the whole run. */
  function Singles(steps: seq<Step>): set<string> {
    if steps == [] then {}
    else
      var before, step := Singles(steps[..|steps| - 1]), steps[|steps| - 1];
      var single := (step.shape.Map? && forall d :: d in step.deps ==> d in before)
                 || (step.shape.Aggregate? && step.groupKey.None?);
      if single then before + {step.name} else before
  }

  /** The clean run: None when planning some step raises. */
  ghost function CleanRun(w: World, p: Planner, steps: seq<Step>): Option<Cells>
  {
    if steps == [] then Some(map[])
    else
      var before, step := CleanRun(w, p, steps[..|steps| - 1]), steps[|steps| - 1];
      if before.None? then None
      else
        var ts := Plan(p, step, before.value);
        if ts.None? then None else Some(before.value + StepCells(w, p.pipe, step, ts.value))
  }

  function CellsAt(cells: Cells, name: string): Cells {
    map k | k in cells && k.1 == name :: cells[k]
  }

  predicate KeysWithin(steps: seq<Step>, cells: Cells) {
    forall k :: k in cells ==> exists i :: 0 <= i < |steps| && steps[i].name == k.1
  }

  /** The cells of each step are what its own plan, made from these same cells, produces. */
  ghost predicate IsRun(w: World, p: Planner, steps: seq<Step>, cells: Cells)
  {
    && KeysWithin(steps, cells)
    && forall i :: 0 <= i < |steps| ==> StepHolds(w, p, steps[i], cells)
  }

  ghost predicate StepHolds(w: World, p: Planner, step: Step, cells: Cells)
  {
    var ts := Plan(p, step, cells);
    ts.Some? && CellsAt(cells, step.name) == StepCells(w, p.pipe, step, ts.value)
  }

  lemma PrefixOrdered(steps: seq<Step>, n: nat)
    requires Ordered(steps) && n <= |steps|
    ensures Ordered(steps[..n])
  {
    forall i, d | 0 <= i < n && d in steps[..n][i].deps
      ensures exists j :: 0 <= j < i && steps[..n][j].name == d
    {
      var j :| 0 <= j < i && steps[j].name == d;
      assert steps[..n][j].name == d;
    }
  }

  /** The clean run is a solution of its own step equations. */
  lemma {:induction false} CleanIsRun(w: World, p: Planner, steps: seq<Step>)
    requires Ordered(steps) && CleanRun(w, p, steps).Some?
    ensures IsRun(w, p, steps, CleanRun(w, p, steps).value)
  {
    hide PlanOn, StepCells, StepHolds, Ordered;
    if steps != [] {
      var n := |steps| - 1;
      var before := CleanRun(w, p, steps[..n]).value;
      PrefixOrdered(steps, n);
      CleanIsRun(w, p, steps[..n]);
      var own := StepCells(w, p.pipe, steps[n], Plan(p, steps[n], before).value);
      AgreesWithItself(steps[..n], before);
      assert KeysWithin(steps, before + own) by {
        MoreKeysWithin(steps, before, own);
      }
      forall i | 0 <= i < |steps| ensures StepHolds(w, p, steps[i], before + own) {
        SameParents(steps, n, i, before, own);
        if i < n {
          assert StepHolds(w, p, steps[..n][i], before);
          EarlierStepHolds(w, p, steps, n, i, before, own);
        } else {
          LastStepHolds(w, p, steps, before, own);
        }
      }
    }
  }

  lemma MoreKeysWithin(steps: seq<Step>, before: Cells, own: Cells)
    requires steps != [] && KeysWithin(steps[..|steps| - 1], before)
    requires forall k :: k in own ==> k.1 == steps[|steps| - 1].name
    ensures KeysWithin(steps, before + own)
  {
    var n := |steps| - 1;
    forall k | k in before + own ensures exists i :: 0 <= i < |steps| && steps[i].name == k.1 {
      if k in own { assert steps[n].name == k.1; }
      else { var i :| 0 <= i < n && steps[..n][i].name == k.1; assert steps[i].name == k.1; }
    }
  }

  lemma EarlierStepHolds(w: World, p: Planner, steps: seq<Step>, n: nat, i: nat, before: Cells, own: Cells)
    requires Ordered(steps) && i < n < |steps|
    requires forall k :: k in own ==> k.1 == steps[n].name
    requires ParentCells(steps[i], before + own) == ParentCells(steps[i], before)
    requires StepHolds(w, p, steps[i], before)
    ensures StepHolds(w, p, steps[i], before + own)
  {
    hide PlanOn, StepCells, ParentCells;
    assert CellsAt(before + own, steps[i].name) == CellsAt(before, steps[i].name);
  }

  lemma LastStepHolds(w: World, p: Planner, steps: seq<Step>, before: Cells, own: Cells)
    requires Ordered(steps) && steps != []
    requires KeysWithin(steps[..|steps| - 1], before)
    requires var step := steps[|steps| - 1];
             ParentCells(step, before + own) == ParentCells(step, before)
             && Plan(p, step, before).Some?
             && own == StepCells(w, p.pipe, step, Plan(p, step, before).value)
    ensures StepHolds(w, p, steps[|steps| - 1], before + own)
  {
    hide PlanOn, StepCells, ParentCells;
    var n := |steps| - 1;
    forall k | k in before ensures k.1 != steps[n].name {
      var i :| 0 <= i < n && steps[..n][i].name == k.1;
    }
    assert CellsAt(before + own, steps[n].name) == own;
  }

  /** Cells of a later step are nobody's parents yet. */
  lemma SameParents(steps: seq<Step>, n: nat, i: nat, before: Cells, own: Cells)
    requires Ordered(steps) && i <= n < |steps|
    requires forall k :: k in own ==> k.1 == steps[n].name
    ensures ParentCells(steps[i], before + own) == ParentCells(steps[i], before)
  {
    forall d | d in steps[i].deps ensures d != steps[n].name {
      var j :| 0 <= j < i && steps[j].name == d;
    }
  }

  ghost predicate Agrees(steps: seq<Step>, part: Cells, whole: Cells) {
    && KeysWithin(steps, part)
    && (forall k :: k in part ==> k in whole && whole[k] == part[k])
    && (forall k, i :: k in whole && 0 <= i < |steps| && k.1 == steps[i].name ==> k in part)
  }

  /** Whatever prefix of the steps has finished, the full run agrees with it. */
  lemma {:induction false} PrefixAgrees(w: World, p: Planner, steps: seq<Step>, n: nat)
    requires Ordered(steps) && n <= |steps| && CleanRun(w, p, steps).Some?
    ensures CleanRun(w, p, steps[..n]).Some?
    ensures Agrees(steps[..n], CleanRun(w, p, steps[..n]).value, CleanRun(w, p, steps).value)
  {
    hide PlanOn, StepCells, Ordered, Agrees;
    if n < |steps| {
      var m := |steps| - 1;
      PrefixOrdered(steps, m);
      PrefixAgrees(w, p, steps[..m], n);
      assert steps[..m][..n] == steps[..n];
      var before := CleanRun(w, p, steps[..m]).value;
      var own := StepCells(w, p.pipe, steps[m], Plan(p, steps[m], before).value);
      AgreesWithMore(steps, n, CleanRun(w, p, steps[..n]).value, before, own);
    } else {
      assert steps[..n] == steps;
      CleanIsRun(w, p, steps);
      AgreesWithItself(steps, CleanRun(w, p, steps).value);
    }
  }

  /** If no step raises, none did before. */
  lemma {:induction false} CleanPrefix(w: World, p: Planner, steps: seq<Step>, n: nat, i: nat)
    requires i <= n <= |steps| && CleanRun(w, p, steps[..n]).Some?
    ensures CleanRun(w, p, steps[..i]).Some?
  {
    hide PlanOn, StepCells;
    if i < n {
      assert steps[..n][..n - 1] == steps[..n - 1];
      CleanPrefix(w, p, steps, n - 1, i);
    }
  }

  lemma AgreesWithItself(steps: seq<Step>, cells: Cells)
    requires KeysWithin(steps, cells)
    ensures Agrees(steps, cells, cells)
  {
  }

  lemma AgreesWithMore(steps: seq<Step>, n: nat, part: Cells, before: Cells, own: Cells)
    requires n < |steps| && Ordered(steps) && Agrees(steps[..n], part, before)
    requires forall k :: k in own ==> k.1 == steps[|steps| - 1].name
    ensures Agrees(steps[..n], part, before + own)
  {
    forall k | k in part ensures k !in own {
      var i :| 0 <= i < n && steps[..n][i].name == k.1;
    }
    forall k, i | k in before + own && 0 <= i < n && k.1 == steps[..n][i].name ensures k in part {
      assert k !in own;
    }
  }

  // ---------------------------------------------------------------------------
  // broadcast parents are unambiguous
  // ---------------------------------------------------------------------------

  ghost predicate UniformAt(cells: Cells, name: string) {
    forall c1, c2 :: (c1, name) in cells && (c2, name) in cells ==> cells[(c1, name)] == cells[(c2, name)]
  }

  ghost predicate Uniform(singles: set<string>, cells: Cells) {
    forall name :: name in singles ==> UniformAt(cells, name)
  }

  lemma SinglesAreSteps(steps: seq<Step>, name: string)
    requires name in Singles(steps)
    ensures exists i :: 0 <= i < |steps| && steps[i].name == name
  {
    var n := |steps| - 1;
    if name != steps[n].name {
      SinglesAreSteps(steps[..n], name);
      var i :| 0 <= i < n && steps[..n][i].name == name;
      assert steps[i].name == name;
    }
  }

  /** With every parent broadcast, all coordinates of a map get the same target. */
  lemma BroadcastMapUniform(w: World, p: Planner, step: Step, cells: Cells)
    requires step.shape.Map? && (forall d :: d in step.deps ==> d in p.singles)
    requires Plan(p, step, cells).Some?
    ensures UniformAt(StepCells(w, p.pipe, step, Plan(p, step, cells).value), step.name)
  {
    hide Classify, StepCells, AggregatePlan, JoinPlan, Broadcast;
    var own := ParentCells(step, cells);
    var bcast := Broadcast(p, step, own);
    var ts := Plan(p, step, cells).value;
    forall c1, c2 | c1 in ts && c2 in ts ensures ts[c1] == ts[c2] {
      assert ParentsAt(p, step, own, bcast, c1) == ParentsAt(p, step, own, bcast, c2);
    }
    forall c | c in ts ensures !ts[c].ToMint? {
      MapsDoNotMint(p.pipe, step, ParentsAt(p, step, own, bcast, c));
    }
    SameTargetsUniform(w, p.pipe, step, ts);
  }

  lemma MapsDoNotMint(pipe: string, step: Step, ps: map<string, Cell>)
    requires !step.shape.Expand?
    ensures !Classify(pipe, step, ps).ToMint?
  {
  }

  lemma SameTargetsUniform(w: World, pipe: string, step: Step, ts: map<Coord, Target>)
    requires forall c :: c in ts ==> !ts[c].ToMint?
    requires forall c1, c2 :: c1 in ts && c2 in ts ==> ts[c1] == ts[c2]
    ensures UniformAt(StepCells(w, pipe, step, ts), step.name)
  {
    hide LaneCell, ChildCell, AnchorOf;
    assert AllChildren(w, ts) == {};
    var own := StepCells(w, pipe, step, ts);
    assert forall c :: (c, step.name) in own ==> c in ts && own[(c, step.name)] == LaneCell(w, ts[c]);
  }

  /**
   A step named single never shows two different cells, whatever the code does, so the choice
   of "the" broadcast cell cannot matter.
   */
  lemma {:induction false} SinglesUniform(w: World, p: Planner, steps: seq<Step>, n: nat)
    requires Ordered(steps) && n <= |steps| && p.singles == Singles(steps)
    requires CleanRun(w, p, steps[..n]).Some?
    ensures Uniform(Singles(steps[..n]), CleanRun(w, p, steps[..n]).value)
  {
    hide PlanOn, StepCells, Ordered, UniformAt, CellsAt;
    if n > 0 {
      var m := n - 1;
      assert steps[..n][..m] == steps[..m] && steps[..n][m] == steps[m];
      SinglesUniform(w, p, steps, m);
      var before := CleanRun(w, p, steps[..m]).value;
      var own := StepCells(w, p.pipe, steps[m], Plan(p, steps[m], before).value);
      forall name | name in Singles(steps[..n]) ensures UniformAt(before + own, name) {
        NotYet(w, p, steps, m);
        if name in Singles(steps[..m]) {
          EarlierName(steps, m, name);
          SameAt(before, before + own, name);
        } else {
          SingleStepUniform(w, p, steps, m, before);
          SameAt(own, before + own, name);
        }
      }
    }
  }

  lemma EarlierName(steps: seq<Step>, m: nat, name: string)
    requires Ordered(steps) && m < |steps| && name in Singles(steps[..m])
    ensures name != steps[m].name
  {
    SinglesAreSteps(steps[..m], name);
    var i :| 0 <= i < m && steps[..m][i].name == name;
  }

  lemma SameAt(part: Cells, whole: Cells, name: string)
    requires UniformAt(part, name)
    requires forall c :: (c, name) in whole ==> (c, name) in part && whole[(c, name)] == part[(c, name)]
    ensures UniformAt(whole, name)
  {
  }

  lemma NotYet(w: World, p: Planner, steps: seq<Step>, m: nat)
    requires Ordered(steps) && m < |steps| && CleanRun(w, p, steps[..m]).Some?
    ensures forall k :: k in CleanRun(w, p, steps[..m]).value ==> k.1 != steps[m].name
  {
    hide PlanOn, StepCells;
    PrefixOrdered(steps, m);
    CleanIsRun(w, p, steps[..m]);
    forall k | k in CleanRun(w, p, steps[..m]).value ensures k.1 != steps[m].name {
      var i :| 0 <= i < m && steps[..m][i].name == k.1;
    }
  }

  lemma SingleStepUniform(w: World, p: Planner, steps: seq<Step>, m: nat, before: Cells)
    requires Ordered(steps) && m < |steps| && p.singles == Singles(steps)
    requires steps[m].name in Singles(steps[..m + 1]) && steps[m].name !in Singles(steps[..m])
    requires Plan(p, steps[m], before).Some?
    ensures UniformAt(StepCells(w, p.pipe, steps[m], Plan(p, steps[m], before).value), steps[m].name)
  {
    hide PlanOn, StepCells, UniformAt;
    var step := steps[m];
    assert steps[..m + 1][..m] == steps[..m] && steps[..m + 1][m] == step;
    SinglesMonotone(steps, m);
    SinglesStep(steps[..m + 1]);
    if step.shape.Map? {
      BroadcastMapUniform(w, p, step, before);
    } else {
      AggregateAllUniform(w, p, step, before);
    }
  }

  lemma SinglesStep(steps: seq<Step>)
    requires steps != [] && steps[|steps| - 1].name in Singles(steps)
    ensures var step, before := steps[|steps| - 1], Singles(steps[..|steps| - 1]);
            step.name in before
            || (step.shape.Map? && forall d :: d in step.deps ==> d in before)
            || (step.shape.Aggregate? && step.groupKey.None?)
  {
  }

  lemma AggregateAllUniform(w: World, p: Planner, step: Step, cells: Cells)
    requires step.shape.Aggregate? && step.groupKey.None?
    requires Plan(p, step, cells).Some?
    ensures UniformAt(StepCells(w, p.pipe, step, Plan(p, step, cells).value), step.name)
  {
    hide StepCells;
    var ts := Plan(p, step, cells).value;
    assert ts.Keys == {All} && !ts[All].ToMint?;
    SameTargetsUniform(w, p.pipe, step, ts);
  }

  lemma {:induction false} SinglesMonotone(steps: seq<Step>, n: nat)
    requires n <= |steps|
    ensures Singles(steps[..n]) <= Singles(steps)
  {
    if n < |steps| {
      var m := |steps| - 1;
      SinglesMonotone(steps[..m], n);
      assert steps[..m][..n] == steps[..n];
    } else {
      assert steps[..n] == steps;
    }
  }

  // ---------------------------------------------------------------------------
  // "pending" only exists in dry runs
  // ---------------------------------------------------------------------------

  lemma PlanNeverPends(p: Planner, step: Step, cells: Cells)
    requires !AnyPending(cells) && Plan(p, step, cells).Some?
    ensures forall c :: c in Plan(p, step, cells).value ==> !Plan(p, step, cells).value[c].ToPending?
  {
    hide Classify, UsableLanes, AnyBad, FieldValues, KeyUniverse, Tuples, MapCoords, LaneHashes;
    var own := ParentCells(step, cells);
    assert !AnyPending(own);
    if step.shape.Map? || step.shape.Expand? {
      var bcast := Broadcast(p, step, own);
      forall c ensures !Classify(p.pipe, step, ParentsAt(p, step, own, bcast, c)).ToPending? {
        ParentsDoNotPend(p, step, own, bcast, c);
        ClassifyNeverPends(p.pipe, step, ParentsAt(p, step, own, bcast, c));
      }
    }
  }

  lemma ParentsDoNotPend(p: Planner, step: Step, cells: Cells, bcast: map<string, Cell>, c: Coord)
    requires !AnyPending(cells) && IsBroadcast(p, step, cells, bcast)
    ensures forall d :: d in ParentsAt(p, step, cells, bcast, c) ==> !ParentsAt(p, step, cells, bcast, c)[d].Pending?
  {
    forall d | d in ParentsAt(p, step, cells, bcast, c)
      ensures !ParentsAt(p, step, cells, bcast, c)[d].Pending?
    {
      if d in p.singles {
        var c' :| (c', d) in cells && cells[(c', d)] == bcast[d];
      }
    }
  }

  lemma ClassifyNeverPends(pipe: string, step: Step, ps: map<string, Cell>)
    requires forall d :: d in ps ==> !ps[d].Pending?
    ensures !Classify(pipe, step, ps).ToPending?
  {
    hide Arrange, InputOf;
  }

  lemma {:induction false} CleanNeverPends(w: World, p: Planner, steps: seq<Step>)
    requires CleanRun(w, p, steps).Some?
    ensures !AnyPending(CleanRun(w, p, steps).value)
  {
    hide PlanOn, StepCells, AnyPending;
    if steps != [] {
      var before, step := CleanRun(w, p, steps[..|steps| - 1]).value, steps[|steps| - 1];
      CleanNeverPends(w, p, steps[..|steps| - 1]);
      PlanNeverPends(p, step, before);
      TargetsUtil(p, step, before);
      StepCellsNeverPend(w, p.pipe, step, before, Plan(p, step, before).value);
    } else {
      NothingPends();
    }
  }

  lemma NothingPends()
    ensures !AnyPending(map[])
  {
  }

  lemma TargetsUtil(p: Planner, step: Step, cells: Cells)
    requires Plan(p, step, cells).Some?
    ensures forall c :: c in Plan(p, step, cells).value && Plan(p, step, cells).value[c].ToUtil?
              ==> Plan(p, step, cells).value[c].cell.Util?
  {
    hide UsableLanes, AnyBad, AnyPending, FieldValues, KeyUniverse, Tuples, MapCoords, LaneHashes, ParentsAt, Broadcast, InputOf, Arrange;
  }

  lemma StepCellsNeverPend(w: World, pipe: string, step: Step, before: Cells, ts: map<Coord, Target>)
    requires !AnyPending(before)
    requires forall c :: c in ts ==> !ts[c].ToPending? && (ts[c].ToUtil? ==> ts[c].cell.Util?)
    ensures !AnyPending(before + StepCells(w, pipe, step, ts))
  {
    hide Expected, AnchorOf;
  }
}
