/**
 Broadcast steps: a step named single really has one coordinate, unless its single ancestors
 mix a root lane with a collective one.
 */
module SingleCoords {
  import opened Model
  import opened Planning
  import opened Clean
  import opened Script

  /** The coordinate each single step is expected at. */
  function CoordsOf(steps: seq<Step>): (coords: map<string, Coord>)
    ensures coords.Keys == Singles(steps)
  {
    if steps == [] then map[]
    else
      var before, step := CoordsOf(steps[..|steps| - 1]), steps[|steps| - 1];
      if step.shape.Map? && forall d :: d in step.deps ==> d in before then
        before[step.name := if step.deps == [] then Root else before[step.deps[0]]]
      else if step.shape.Aggregate? && step.groupKey.None? then before[step.name := All]
      else before
  }

  /** No map of single parents mixes parents at different coordinates. */
  predicate Unmixed(steps: seq<Step>) {
    forall i :: 0 <= i < |steps| && steps[i].shape.Map? ==>
      var before := CoordsOf(steps[..i]);
      (forall d :: d in steps[i].deps ==> d in before) ==>
        forall d, e :: d in steps[i].deps && e in steps[i].deps ==> before[d] == before[e]
  }

  /** Every cell of a single step is at its expected coordinate. */
  predicate AtCoords(coords: map<string, Coord>, cells: Cells) {
    forall k :: k in cells && k.1 in coords ==> k.0 == coords[k.1]
  }

  /** Planning a single step only ever finds its expected coordinate. */
  lemma SinglePlan(p: Planner, steps: seq<Step>, i: nat, cells: Cells)
    requires Ordered(steps) && Unmixed(steps) && i < |steps| && p.singles == Singles(steps)
    requires AtCoords(CoordsOf(steps[..i]), cells)
    requires steps[i].name in CoordsOf(steps[..i + 1]) && steps[i].name !in CoordsOf(steps[..i])
    requires Plan(p, steps[i], cells).Some?
    ensures Plan(p, steps[i], cells).value.Keys <= {CoordsOf(steps[..i + 1])[steps[i].name]}
  {
    var step, before := steps[i], CoordsOf(steps[..i]);
    assert steps[..i + 1][..i] == steps[..i] && steps[..i + 1][i] == step;
    if step.shape.Map? {
      SinglesMonotone(steps, i);
      SingleMapPlan(p, step, before, cells);
    } else {
      AllPlan(p, step, cells);
    }
  }

  lemma AllPlan(p: Planner, step: Step, cells: Cells)
    requires step.shape.Aggregate? && step.groupKey.None? && Plan(p, step, cells).Some?
    ensures Plan(p, step, cells).value.Keys == {All}
  {
  }

  lemma SingleMapPlan(p: Planner, step: Step, before: map<string, Coord>, cells: Cells)
    requires step.shape.Map? && AtCoords(before, cells) && Plan(p, step, cells).Some?
    requires forall d :: d in step.deps ==> d in before
    requires forall d, e :: d in step.deps && e in step.deps ==> before[d] == before[e]
    ensures Plan(p, step, cells).value.Keys <= {if step.deps == [] then Root else before[step.deps[0]]}
  {
    hide MapTarget, AggregatePlan, JoinPlan, Broadcast;
    forall c | c in Plan(p, step, cells).value && step.deps != [] ensures c == before[step.deps[0]] {
      var k :| k in ParentCells(step, cells) && k.1 in ScanDeps(p, step) && k.0 == c;
    }
  }

  /** In the clean run, a step named single has one coordinate. */
  lemma {:induction false} SinglesHaveOneCoordinate(w: World, p: Planner, steps: seq<Step>, n: nat)
    requires Ordered(steps) && Unmixed(steps) && n <= |steps| && p.singles == Singles(steps)
    requires CleanRun(w, p, steps[..n]).Some?
    ensures AtCoords(CoordsOf(steps[..n]), CleanRun(w, p, steps[..n]).value)
  {
    hide PlanOn, StepCells, Ordered, Unmixed;
    if n > 0 {
      var m := n - 1;
      assert steps[..n][..m] == steps[..m] && steps[..n][m] == steps[m];
      SinglesHaveOneCoordinate(w, p, steps, m);
      var before := CleanRun(w, p, steps[..m]).value;
      var ts := Plan(p, steps[m], before).value;
      var own := StepCells(w, p.pipe, steps[m], ts);
      NotYet(w, p, steps, m);
      if steps[m].name in CoordsOf(steps[..n]) && steps[m].name !in CoordsOf(steps[..m]) {
        SinglePlan(p, steps, m, before);
        SingleNotExpand(steps, m);
        NoMinting(p, steps[m], before);
        OwnCoordinates(w, p.pipe, steps[m], ts, CoordsOf(steps[..n])[steps[m].name]);
      }
      Extended(steps, m, before, own);
    }
  }

  lemma SingleNotExpand(steps: seq<Step>, m: nat)
    requires m < |steps| && steps[m].name in CoordsOf(steps[..m + 1]) && steps[m].name !in CoordsOf(steps[..m])
    ensures !steps[m].shape.Expand?
  {
    assert steps[..m + 1][..m] == steps[..m] && steps[..m + 1][m] == steps[m];
  }

  lemma OwnCoordinates(w: World, pipe: string, step: Step, ts: map<Coord, Target>, c: Coord)
    requires ts.Keys <= {c} && forall c' :: c' in ts ==> !ts[c'].ToMint?
    ensures forall k :: k in StepCells(w, pipe, step, ts) ==> k.0 == c
  {
    assert AllChildren(w, ts) == {};
  }

  lemma Extended(steps: seq<Step>, m: nat, before: Cells, own: Cells)
    requires Ordered(steps) && m < |steps| && AtCoords(CoordsOf(steps[..m]), before)
    requires forall k :: k in own ==> k.1 == steps[m].name
    requires forall k :: k in before ==> k.1 != steps[m].name
    requires steps[m].name in CoordsOf(steps[..m + 1]) && steps[m].name !in CoordsOf(steps[..m]) ==>
               forall k :: k in own ==> k.0 == CoordsOf(steps[..m + 1])[steps[m].name]
    ensures AtCoords(CoordsOf(steps[..m + 1]), before + own)
  {
    assert steps[..m + 1][..m] == steps[..m] && steps[..m + 1][m] == steps[m];
    if steps[m].name in CoordsOf(steps[..m]) {
      EarlierName(steps, m, steps[m].name);
    }
  }
}
