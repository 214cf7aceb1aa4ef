/**
 Partial runs: which steps carry the requested cohort of lanes.
 */
module Scopes {
  import opened Model
  import opened Planning
  import opened Clean
  import opened Script

  /** The steps that carry a partial run's cohort: its anchor, and the maps below it. */
  function Carriers(steps: seq<Step>, anchor: string): set<string> {
    if steps == [] then {}
    else
      var before, step := Carriers(steps[..|steps| - 1], anchor), steps[|steps| - 1];
      if step.name == anchor || (step.shape.Map? && exists d :: d in step.deps && d in before)
      then before + {step.name} else before
  }

  lemma {:induction false} CarriersAreSteps(steps: seq<Step>, anchor: string, name: string)
    requires name in Carriers(steps, anchor)
    ensures exists i :: 0 <= i < |steps| && steps[i].name == name
  {
    var n := |steps| - 1;
    if name != steps[n].name {
      CarriersAreSteps(steps[..n], anchor, name);
      var i :| 0 <= i < n && steps[..n][i].name == name;
      assert steps[i].name == name;
    }
  }

  lemma {:induction false} CarriersMonotone(steps: seq<Step>, anchor: string, n: nat)
    requires n <= |steps|
    ensures Carriers(steps[..n], anchor) <= Carriers(steps, anchor)
  {
    if n < |steps| {
      var m := |steps| - 1;
      CarriersMonotone(steps[..m], anchor, n);
      assert steps[..m][..n] == steps[..n];
    } else {
      assert steps[..n] == steps;
    }
  }

  /** A step's own prefix decides whether it carries the cohort. */
  lemma {:induction false} CarrierInPlace(steps: seq<Step>, anchor: string, n: nat)
    requires Ordered(steps) && n < |steps| && steps[n].name in Carriers(steps, anchor)
    ensures steps[n].name in Carriers(steps[..n + 1], anchor)
  {
    var m := |steps| - 1;
    if n < m {
      assert steps[n].name != steps[m].name;
      PrefixOrdered(steps, m);
      CarrierInPlace(steps[..m], anchor, n);
      assert steps[..m][..n + 1] == steps[..n + 1];
    } else {
      assert steps[..n + 1] == steps;
    }
  }

  lemma NotAmongEarlier(steps: seq<Step>, anchor: string, n: nat)
    requires Ordered(steps) && n < |steps|
    ensures steps[n].name !in Carriers(steps[..n], anchor)
  {
    hide Carriers;
    forall name | name in Carriers(steps[..n], anchor) ensures name != steps[n].name {
      CarriersAreSteps(steps[..n], anchor, name);
      var i :| 0 <= i < n && steps[..n][i].name == name;
    }
  }

  /** A step carries the cohort if it is the anchor, or a map fed by a step that does. */
  lemma CarrierSteps(steps: seq<Step>, anchor: string, n: nat)
    requires Ordered(steps) && n < |steps|
    ensures steps[n].name in Carriers(steps, anchor) <==>
              steps[n].name == anchor
              || (steps[n].shape.Map? && exists d :: d in steps[n].deps && d in Carriers(steps, anchor))
  {
    hide Carriers, Ordered;
    CarriersMonotone(steps, anchor, n + 1);
    if steps[n].name in Carriers(steps, anchor) {
      CarrierInPlace(steps, anchor, n);
    }
    NotAmongEarlier(steps, anchor, n);
    CarriersStep(steps, anchor, n);
    forall d | d in steps[n].deps ensures d in Carriers(steps[..n], anchor) <==> d in Carriers(steps, anchor) {
      CarriedParent(steps, anchor, n, d);
    }
  }

  lemma CarriersStep(steps: seq<Step>, anchor: string, n: nat)
    requires n < |steps|
    ensures var before, step := Carriers(steps[..n], anchor), steps[n];
            Carriers(steps[..n + 1], anchor) ==
              if step.name == anchor || (step.shape.Map? && exists d :: d in step.deps && d in before)
              then before + {step.name} else before
  {
    assert steps[..n + 1][..n] == steps[..n] && steps[..n + 1][n] == steps[n];
  }

  lemma CarriedParent(steps: seq<Step>, anchor: string, n: nat, d: string)
    requires Ordered(steps) && n < |steps| && d in steps[n].deps
    ensures d in Carriers(steps[..n], anchor) <==> d in Carriers(steps, anchor)
  {
    hide Carriers;
    CarriersMonotone(steps, anchor, n);
    if d in Carriers(steps, anchor) {
      var j :| 0 <= j < n && steps[j].name == d;
      CarrierInPlace(steps, anchor, j);
      assert steps[..n][..j + 1] == steps[..j + 1];
      CarriersMonotone(steps[..n], anchor, j + 1);
    }
  }

  /** If the anchor has many lanes, so has every step that carries its cohort. */
  lemma {:induction false} CarriersAreMany(steps: seq<Step>, anchor: string, n: nat)
    requires Ordered(steps) && n < |steps| && anchor !in Singles(steps)
    requires steps[n].name in Carriers(steps, anchor)
    requires forall i :: 0 <= i < |steps| && steps[i].name == anchor ==> steps[i].shape.Map?
    ensures steps[n].name !in Singles(steps)
    decreases n
  {
    CarrierSteps(steps, anchor, n);
    if steps[n].name != anchor {
      var d :| d in steps[n].deps && d in Carriers(steps, anchor);
      var j :| 0 <= j < n && steps[j].name == d;
      CarriersAreMany(steps, anchor, j);
      if steps[n].name in Singles(steps) {
        SingleInPlace(steps, n);
        SinglesMonotone(steps, n);
        assert false;
      }
    }
  }

  /** Nothing carries the cohort before its anchor. */
  lemma {:induction false} NoCarriersBefore(steps: seq<Step>, anchor: string)
    requires forall i :: 0 <= i < |steps| ==> steps[i].name != anchor
    ensures Carriers(steps, anchor) == {}
  {
    if steps != [] {
      NoCarriersBefore(steps[..|steps| - 1], anchor);
    }
  }

  lemma AnchorIsFedByOthers(steps: seq<Step>, anchor: string, n: nat)
    requires Ordered(steps) && n < |steps| && steps[n].name == anchor
    ensures forall d :: d in steps[n].deps ==> d !in Carriers(steps, anchor)
  {
    hide Carriers;
    NoCarriersBefore(steps[..n], anchor);
    forall d | d in steps[n].deps ensures d !in Carriers(steps, anchor) {
      CarriedParent(steps, anchor, n, d);
    }
  }

  /** A map named single has only single parents before it. */
  lemma SingleInPlace(steps: seq<Step>, n: nat)
    requires Ordered(steps) && n < |steps| && steps[n].name in Singles(steps) && steps[n].shape.Map?
    ensures forall d :: d in steps[n].deps ==> d in Singles(steps[..n])
  {
    if steps[n].name !in Singles(steps[..n + 1]) {
      LaterSingle(steps, n + 1, steps[n].name);
      assert false;
    }
    if steps[n].name in Singles(steps[..n]) {
      EarlierName(steps, n, steps[n].name);
      assert false;
    }
    assert steps[..n + 1][..n] == steps[..n] && steps[..n + 1][n] == steps[n];
    SinglesStep(steps[..n + 1]);
  }

  // ---------------------------------------------------------------------------
  // finding them
  // ---------------------------------------------------------------------------

  /** The step at this position is a map fed by this parent. */
  predicate MapBelow(steps: seq<Step>, parent: string, i: nat) {
    i < |steps| && steps[i].shape.Map? && parent in steps[i].deps
  }

  function Names(steps: seq<Step>): set<string> {
    set i | 0 <= i < |steps| :: steps[i].name
  }

  /** Every map below a found step is found, unless the step is still on the stack, or being visited. */
  ghost predicate Searched(steps: seq<Step>, found: set<string>, stack: seq<string>, visited: string, n: nat) {
    forall parent, i: nat :: parent in found && parent !in stack && MapBelow(steps, parent, i) && (parent == visited ==> i < n)
      ==> steps[i].name in found
  }

  /** Walk from the anchor through the maps below it. */
  method CarrierStepsOf(steps: seq<Step>, anchor: string) returns (found: set<string>)
    requires Ordered(steps) && exists i :: 0 <= i < |steps| && steps[i].name == anchor
    ensures found == Carriers(steps, anchor)
  {
    hide Carriers, Ordered, Searched, Names;
    found := {anchor};
    var stack := [anchor];
    AnchorCarries(steps, anchor);
    SearchStarts(steps, anchor);
    while stack != []
      invariant anchor in found && found <= Carriers(steps, anchor) && found <= Names(steps)
      invariant forall s :: s in stack ==> s in found
      invariant forall visited :: Searched(steps, found, stack, visited, |steps|)
      decreases |Names(steps) - found|, |stack|
    {
      var parent := stack[|stack| - 1];
      ghost var before, left := found, |stack| - 1;
      SearchPops(steps, found, stack);
      stack := stack[..|stack| - 1];
      for i := 0 to |steps|
        invariant before <= found && found <= Carriers(steps, anchor) && found <= Names(steps)
        invariant Searched(steps, found, stack, parent, i)
        invariant found == before ==> |stack| == left
        invariant parent in before && forall s :: s in stack ==> s in found
      {
        SearchStep(steps, found, stack, parent, i);
        if parent in steps[i].deps && steps[i].shape.Map? && steps[i].name !in found {
          CarrierSteps(steps, anchor, i);
          NameThere(steps, i);
          found := found + {steps[i].name};
          stack := stack + [steps[i].name];
        }
      }
      SearchDone(steps, found, stack, parent);
      if found != before {
        FewerLeft(Names(steps), before, found);
      }
    }
    forall n | 0 <= n < |steps| && steps[n].name in Carriers(steps, anchor) ensures steps[n].name in found {
      AllFound(steps, anchor, found, n);
    }
    forall name | name in Carriers(steps, anchor) ensures name in found {
      CarriersAreSteps(steps, anchor, name);
    }
  }

  lemma NameThere(steps: seq<Step>, i: nat)
    requires i < |steps|
    ensures steps[i].name in Names(steps)
  {
  }

  lemma SearchStarts(steps: seq<Step>, anchor: string)
    ensures forall visited :: Searched(steps, {anchor}, [anchor], visited, |steps|)
  {
  }

  lemma SearchPops(steps: seq<Step>, found: set<string>, stack: seq<string>)
    requires stack != [] && forall visited :: Searched(steps, found, stack, visited, |steps|)
    ensures var parent := stack[|stack| - 1]; Searched(steps, found, stack[..|stack| - 1], parent, 0)
  {
    var parent := stack[|stack| - 1];
    assert stack == stack[..|stack| - 1] + [parent];
    assert Searched(steps, found, stack, parent, |steps|);
  }

  lemma SearchStep(steps: seq<Step>, found: set<string>, stack: seq<string>, parent: string, i: nat)
    requires i < |steps| && Searched(steps, found, stack, parent, i)
    ensures if parent in steps[i].deps && steps[i].shape.Map? && steps[i].name !in found
            then Searched(steps, found + {steps[i].name}, stack + [steps[i].name], parent, i + 1)
            else Searched(steps, found, stack, parent, i + 1)
  {
  }

  lemma SearchDone(steps: seq<Step>, found: set<string>, stack: seq<string>, parent: string)
    requires Searched(steps, found, stack, parent, |steps|)
    ensures forall visited :: Searched(steps, found, stack, visited, |steps|)
  {
  }

  lemma AnchorCarries(steps: seq<Step>, anchor: string)
    requires Ordered(steps) && exists i :: 0 <= i < |steps| && steps[i].name == anchor
    ensures anchor in Carriers(steps, anchor) && anchor in Names(steps)
  {
    hide Carriers, Ordered;
    var i :| 0 <= i < |steps| && steps[i].name == anchor;
    CarrierSteps(steps, anchor, i);
  }

  lemma FewerLeft(names: set<string>, before: set<string>, found: set<string>)
    requires before < found <= names
    ensures |names - found| < |names - before|
  {
    var s :| s in found && s !in before;
    assert names - found <= names - before - {s};
    CardinalityAtMost(names - found, names - before - {s});
  }

  lemma CardinalityAtMost(a: set<string>, b: set<string>)
    requires a <= b
    ensures |a| <= |b|
  {
    assert b == a + (b - a);
  }

  lemma {:induction false} AllFound(steps: seq<Step>, anchor: string, found: set<string>, n: nat)
    requires Ordered(steps) && n < |steps| && steps[n].name in Carriers(steps, anchor)
    requires anchor in found && forall visited :: Searched(steps, found, [], visited, |steps|)
    ensures steps[n].name in found
    decreases n
  {
    hide Carriers;
    CarrierSteps(steps, anchor, n);
    if steps[n].name != anchor {
      var d :| d in steps[n].deps && d in Carriers(steps, anchor);
      var j :| 0 <= j < n && steps[j].name == d;
      AllFound(steps, anchor, found, j);
      assert Searched(steps, found, [], d, |steps|) && MapBelow(steps, d, n);
    }
  }
}
