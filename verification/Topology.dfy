/**
 Ordering the steps of a pipeline: a depth-first topological sort with temporary marks.
 */
module Topology {
  import opened Model
  import opened Clean

  datatype Sorting =
    | Sorted(order: seq<Step>)
    | DuplicateNames
    | UnknownDependency(step: string, dep: string)
    | Cycle

  // ---------------------------------------------------------------------------
  // what a sortable pipeline is
  // ---------------------------------------------------------------------------

  predicate UniqueNames(steps: seq<Step>) {
    forall i, j :: 0 <= i < j < |steps| ==> steps[i].name != steps[j].name
  }

  function Names(steps: seq<Step>): set<string> {
    set s | s in steps :: s.name
  }

  predicate KnownDeps(steps: seq<Step>) {
    forall s, d :: s in steps && d in s.deps ==> d in Names(steps)
  }

  ghost predicate DependsOn(steps: seq<Step>, a: string, b: string) {
    exists s :: s in steps && s.name == a && b in s.deps
  }

  /** There is a chain of n dependencies from a to b. */
  ghost predicate Reaches(steps: seq<Step>, a: string, b: string, n: nat)
    decreases n
  {
    if n == 0 then a == b
    else exists c :: DependsOn(steps, a, c) && Reaches(steps, c, b, n - 1)
  }

  ghost predicate OnCycle(steps: seq<Step>, a: string) {
    exists n: nat :: n > 0 && Reaches(steps, a, a, n)
  }

  ghost predicate Acyclic(steps: seq<Step>) {
    forall a :: !OnCycle(steps, a)
  }

  /** Every dependency of a step comes before it. */
  predicate DepsFirst(order: seq<Step>) {
    forall i, d :: 0 <= i < |order| && d in order[i].deps ==> d in Names(order[..i])
  }

  /** A dependency of the step at position i sits before it. */
  lemma DepEarlier(order: seq<Step>, steps: seq<Step>, i: nat, c: string) returns (j: nat)
    requires UniqueNames(order) && DepsFirst(order) && i < |order|
    requires forall s :: s in steps ==> s in order
    requires DependsOn(steps, order[i].name, c)
    ensures j < i && order[j].name == c
  {
    var s :| s in steps && s.name == order[i].name && c in s.deps;
    var k :| 0 <= k < |order| && order[k] == s;
    assert k == i && c in Names(order[..i]);
    var t :| t in order[..i] && t.name == c;
    j :| 0 <= j < i && order[..i][j] == t;
  }

  /** An order with dependencies first leaves no room for a cycle. */
  lemma {:induction false} ReachesBackwards(order: seq<Step>, steps: seq<Step>, i: nat, b: string, n: nat) returns (j: nat)
    requires UniqueNames(order) && DepsFirst(order) && i < |order| && n > 0
    requires forall s :: s in steps ==> s in order
    requires Reaches(steps, order[i].name, b, n)
    ensures j < i && order[j].name == b
    decreases n
  {
    hide DepsFirst, DependsOn;
    var c :| DependsOn(steps, order[i].name, c) && Reaches(steps, c, b, n - 1);
    j := DepEarlier(order, steps, i, c);
    if n > 1 {
      j := ReachesBackwards(order, steps, j, b, n - 1);
    }
  }

  lemma OrderedIsAcyclic(order: seq<Step>, steps: seq<Step>)
    requires UniqueNames(order) && DepsFirst(order)
    requires forall s :: s in steps <==> s in order
    ensures Acyclic(steps)
  {
    hide DepsFirst;
    forall a, n: nat | n > 0 ensures !Reaches(steps, a, a, n) {
      if Reaches(steps, a, a, n) {
        NotReachingItself(order, steps, a, n);
        assert false;
      }
    }
  }

  lemma NotReachingItself(order: seq<Step>, steps: seq<Step>, a: string, n: nat)
    requires UniqueNames(order) && DepsFirst(order) && n > 0
    requires forall s :: s in steps <==> s in order
    ensures !Reaches(steps, a, a, n)
  {
    hide DepsFirst;
    if Reaches(steps, a, a, n) {
      var c :| DependsOn(steps, a, c) && Reaches(steps, c, a, n - 1);
      var s :| s in steps && s.name == a && c in s.deps;
      var i :| 0 <= i < |order| && order[i] == s;
      var j := ReachesBackwards(order, steps, i, a, n);
      assert false;
    }
  }

  // ---------------------------------------------------------------------------
  // chains
  // ---------------------------------------------------------------------------

  /** Each name on the path depends on the next. */
  ghost predicate Chain(steps: seq<Step>, path: seq<string>) {
    forall i :: 0 <= i < |path| - 1 ==> DependsOn(steps, path[i], path[i + 1])
  }

  lemma {:induction false} ChainReaches(steps: seq<Step>, path: seq<string>, i: nat, j: nat)
    requires Chain(steps, path) && i <= j < |path|
    ensures Reaches(steps, path[i], path[j], j - i)
    decreases j - i
  {
    if i < j {
      ChainReaches(steps, path, i + 1, j);
    }
  }

  /** Coming back to a name on the path closes a cycle. */
  lemma BackOnPath(steps: seq<Step>, path: seq<string>, n: string)
    requires Chain(steps, path + [n]) && n in path
    ensures !Acyclic(steps)
  {
    var i :| 0 <= i < |path| && path[i] == n;
    ChainReaches(steps, path + [n], i, |path|);
    assert Reaches(steps, n, n, |path| - i);
    assert OnCycle(steps, n);
  }

  // ---------------------------------------------------------------------------
  // the sort
  // ---------------------------------------------------------------------------

  /** What has been placed: finished steps, dependencies first, and nothing that is marked. */
  ghost predicate PlacedOk(steps: seq<Step>, order: seq<Step>, visited: set<string>, tempMark: set<string>) {
    && visited == Names(order) && visited !! tempMark
    && UniqueNames(order) && DepsFirst(order)
    && (forall s :: s in order ==> s in steps)
  }

  ghost predicate IsDirectory(steps: seq<Step>, byName: map<string, Step>) {
    && byName.Keys == Names(steps)
    && forall n :: n in byName ==> byName[n] in steps && byName[n].name == n
  }

  class Sorter {
    const steps: seq<Step>
    const byName: map<string, Step>
    var visited: set<string>
    var tempMark: set<string>
    var order: seq<Step>

    constructor (steps: seq<Step>, byName: map<string, Step>)
      requires KnownDeps(steps) && IsDirectory(steps, byName)
      ensures this.steps == steps && this.byName == byName
      ensures Valid() && visited == {} && tempMark == {}
    {
      this.steps, this.byName := steps, byName;
      visited, tempMark, order := {}, {}, [];
    }

    ghost predicate Valid()
      reads this
    {
      IsDirectory(steps, byName) && KnownDeps(steps) && PlacedOk(steps, order, visited, tempMark)
    }

    /** Place a step after everything it depends on; false when that runs into a cycle. */
    method Visit(n: string, ghost path: seq<string>) returns (ok: bool)
      requires Valid() && n in byName
      requires Chain(steps, path + [n]) && tempMark == SetOf(path)
      modifies this
      ensures ok ==> Valid() && n in visited && old(visited) <= visited && tempMark == old(tempMark)
      ensures !ok ==> !Acyclic(steps)
      decreases |byName.Keys - tempMark|
    {
      hide Acyclic, Chain, KnownDeps, PlacedOk, IsDirectory;
      if n in tempMark {
        BackOnPath(steps, path, n);
        return false;
      }
      if n in visited {
        return true;
      }
      Marked(steps, order, visited, tempMark, n);
      Fewer(byName.Keys, tempMark, n);
      tempMark := tempMark + {n};
      var s := byName[n];
      ghost var marks := tempMark;
      for i := 0 to |s.deps|
        invariant Valid() && tempMark == marks && old(visited) <= visited
        invariant forall d :: d in s.deps[..i] ==> d in visited
      {
        DepKnown(steps, byName, n, i);
        LongerChain(steps, path, byName, n, i);
        var done := Visit(s.deps[i], path + [n]);
        if !done {
          return false;
        }
      }
      assert s.deps[..|s.deps|] == s.deps;
      Placed(steps, byName, order, visited, tempMark, n);
      tempMark := tempMark - {n};
      visited := visited + {n};
      order := order + [s];
      assert tempMark == old(tempMark);
      return true;
    }
  }

  function SetOf(path: seq<string>): set<string> {
    set x | x in path
  }

  lemma Marked(steps: seq<Step>, order: seq<Step>, visited: set<string>, tempMark: set<string>, n: string)
    requires PlacedOk(steps, order, visited, tempMark) && n !in visited
    ensures PlacedOk(steps, order, visited, tempMark + {n})
  {
    hide DepsFirst, UniqueNames, Names;
  }

  lemma Fewer(all: set<string>, marks: set<string>, n: string)
    requires n in all && n !in marks
    ensures |all - (marks + {n})| < |all - marks|
  {
    assert all - marks == (all - (marks + {n})) + {n};
  }

  lemma DepKnown(steps: seq<Step>, byName: map<string, Step>, n: string, i: nat)
    requires IsDirectory(steps, byName) && KnownDeps(steps) && n in byName && i < |byName[n].deps|
    ensures byName[n].deps[i] in byName
  {
    assert byName[n].deps[i] in byName[n].deps;
  }

  lemma LongerChain(steps: seq<Step>, path: seq<string>, byName: map<string, Step>, n: string, i: nat)
    requires Chain(steps, path + [n]) && IsDirectory(steps, byName) && n in byName && i < |byName[n].deps|
    ensures Chain(steps, path + [n] + [byName[n].deps[i]])
    ensures SetOf(path + [n]) == SetOf(path) + {n}
  {
    var longer := path + [n] + [byName[n].deps[i]];
    forall k | 0 <= k < |longer| - 1 ensures DependsOn(steps, longer[k], longer[k + 1]) {
      if k < |path| {
        assert (path + [n])[k] == longer[k] && (path + [n])[k + 1] == longer[k + 1];
      } else {
        assert byName[n].deps[i] in byName[n].deps;
      }
    }
  }

  lemma Placed(steps: seq<Step>, byName: map<string, Step>, order: seq<Step>, visited: set<string>, tempMark: set<string>, n: string)
    requires PlacedOk(steps, order, visited, tempMark) && IsDirectory(steps, byName) && n in byName && n in tempMark
    requires forall d :: d in byName[n].deps ==> d in visited
    ensures PlacedOk(steps, order + [byName[n]], visited + {n}, tempMark - {n})
  {
    var s := byName[n];
    var longer := order + [s];
    forall i | 0 <= i < |order| ensures order[i].name != s.name {
      assert order[i] in order && order[i].name in Names(order);
    }
    forall i, d | 0 <= i < |longer| && d in longer[i].deps ensures d in Names(longer[..i]) {
      if i < |order| { assert longer[..i] == order[..i]; }
      else { assert longer[..i] == order; }
    }
    assert Names(longer) == Names(order) + {s.name};
  }

  // ---------------------------------------------------------------------------
  // the whole pipeline
  // ---------------------------------------------------------------------------

  lemma OneMoreName(steps: seq<Step>)
    requires steps != []
    ensures var n := |steps| - 1;
            Names(steps) == Names(steps[..n]) + {steps[n].name}
            && (UniqueNames(steps) <==> UniqueNames(steps[..n]) && steps[n].name !in Names(steps[..n]))
  {
    var n := |steps| - 1;
    assert steps == steps[..n] + [steps[n]];
    if steps[n].name in Names(steps[..n]) {
      var s :| s in steps[..n] && s.name == steps[n].name;
      var i :| 0 <= i < n && steps[..n][i] == s;
      assert steps[i].name == steps[n].name;
    } else {
      forall i | 0 <= i < n ensures steps[i].name != steps[n].name {
        assert steps[i] in steps[..n];
      }
    }
  }

  /** Counting the names finds duplicates. */
  lemma {:induction false} NamesCount(steps: seq<Step>)
    ensures |Names(steps)| <= |steps|
    ensures |Names(steps)| == |steps| <==> UniqueNames(steps)
  {
    if steps != [] {
      hide UniqueNames, Names;
      NamesCount(steps[..|steps| - 1]);
      OneMoreName(steps);
    }
  }

  /** The steps by name; the last of several with one name wins. */
  method Directory(steps: seq<Step>) returns (byName: map<string, Step>)
    ensures IsDirectory(steps, byName)
  {
    byName := map[];
    for i := 0 to |steps|
      invariant IsDirectory(steps[..i], byName)
    {
      assert steps[..i + 1] == steps[..i] + [steps[i]];
      byName := byName[steps[i].name := steps[i]];
    }
    assert steps[..|steps|] == steps;
  }

  method FindUnknown(steps: seq<Step>, byName: map<string, Step>) returns (unknown: Option<(string, string)>)
    requires IsDirectory(steps, byName)
    ensures unknown.None? <==> KnownDeps(steps)
    ensures unknown.Some? ==> exists s :: s in steps && s.name == unknown.value.0 && unknown.value.1 in s.deps
                                        && unknown.value.1 !in Names(steps)
  {
    for i := 0 to |steps|
      invariant forall s, d :: s in steps[..i] && d in s.deps ==> d in byName
    {
      assert steps[..i + 1] == steps[..i] + [steps[i]];
      for j := 0 to |steps[i].deps|
        invariant forall d :: d in steps[i].deps[..j] ==> d in byName
      {
        if steps[i].deps[j] !in byName {
          assert steps[i] in steps && steps[i].deps[j] in steps[i].deps;
          return Some((steps[i].name, steps[i].deps[j]));
        }
      }
      assert steps[i].deps[..|steps[i].deps|] == steps[i].deps;
    }
    assert steps[..|steps|] == steps;
    return None;
  }

  /**
   The sort succeeds exactly when names are unique, dependencies known and the graph acyclic; its
   result is a permutation of the steps with every step after its dependencies.
   */
  method TopologicalSort(steps: seq<Step>) returns (result: Sorting)
    ensures result.Sorted? <==> UniqueNames(steps) && KnownDeps(steps) && Acyclic(steps)
    ensures result.Sorted? ==> multiset(result.order) == multiset(steps) && UniqueNames(result.order) && DepsFirst(result.order)
    ensures result.DuplicateNames? <==> !UniqueNames(steps)
    ensures result.UnknownDependency? ==>
              exists s :: s in steps && s.name == result.step && result.dep in s.deps && result.dep !in Names(steps)
  {
    hide Acyclic, DepsFirst, Chain, KnownDeps, UniqueNames, PlacedOk, IsDirectory;
    var byName := Directory(steps);
    NamesCount(steps);
    assert byName.Keys == Names(steps) by { DirectoryNames(steps, byName); }
    if |byName.Keys| != |steps| {
      return DuplicateNames;
    }
    var unknown := FindUnknown(steps, byName);
    if unknown.Some? {
      return UnknownDependency(unknown.value.0, unknown.value.1);
    }
    var sorter := new Sorter(steps, byName);
    for i := 0 to |steps|
      invariant sorter.steps == steps && sorter.byName == byName
      invariant sorter.Valid() && sorter.tempMark == {}
      invariant forall s :: s in steps[..i] ==> s.name in sorter.visited
    {
      assert steps[..i + 1] == steps[..i] + [steps[i]];
      assert steps[i] in steps && steps[i].name in Names(steps);
      if steps[i].name !in sorter.visited {
        ShortChain(steps, steps[i].name);
        var ok := sorter.Visit(steps[i].name, []);
        if !ok {
          return Cycle;
        }
      }
    }
    assert steps[..|steps|] == steps;
    AllPlaced(steps, sorter.order, sorter.visited);
    OrderedIsAcyclic(sorter.order, steps);
    return Sorted(sorter.order);
  }

  lemma DirectoryNames(steps: seq<Step>, byName: map<string, Step>)
    requires IsDirectory(steps, byName)
    ensures byName.Keys == Names(steps)
  {
  }

  lemma ShortChain(steps: seq<Step>, n: string)
    ensures Chain(steps, [] + [n]) && SetOf([]) == {}
  {
  }

  /** Once every name has been visited, the order is a permutation of the steps. */
  lemma AllPlaced(steps: seq<Step>, order: seq<Step>, visited: set<string>)
    requires UniqueNames(steps) && PlacedOk(steps, order, visited, {})
    requires forall s :: s in steps ==> s.name in visited
    ensures (forall s :: s in steps <==> s in order) && multiset(order) == multiset(steps)
    ensures UniqueNames(order) && DepsFirst(order)
  {
    forall s | s in steps ensures s in order {
      var t :| t in order && t.name == s.name;
      var i :| 0 <= i < |steps| && steps[i] == s;
      var j :| 0 <= j < |steps| && steps[j] == t;
      assert i == j;
    }
    forall s ensures multiset(order)[s] == multiset(steps)[s] {
      Once(order, s);
      Once(steps, s);
    }
  }

  lemma {:induction false} Once(steps: seq<Step>, s: Step)
    requires UniqueNames(steps)
    ensures multiset(steps)[s] == if s in steps then 1 else 0
  {
    if steps != [] {
      var n := |steps| - 1;
      assert steps == steps[..n] + [steps[n]];
      Once(steps[..n], s);
      if s in steps[..n] {
        var i :| 0 <= i < n && steps[..n][i] == s;
        assert steps[i].name != steps[n].name;
      }
    }
  }

  /** Sorted steps are what the run modules take. */
  lemma SortedIsOrdered(order: seq<Step>)
    requires UniqueNames(order) && DepsFirst(order) && forall i :: 0 <= i < |order| ==> order[i].WellFormed()
    ensures Ordered(order)
  {
    forall i, d | 0 <= i < |order| && d in order[i].deps ensures exists j :: 0 <= j < i && order[j].name == d {
      var t :| t in order[..i] && t.name == d;
      var j :| 0 <= j < i && order[..i][j] == t;
      assert order[j].name == d;
    }
  }

  // ---------------------------------------------------------------------------
  // single-coordinate steps
  // ---------------------------------------------------------------------------

  /** The loop over the sorted steps that names the broadcast ones. */
  method SingletonSteps(order: seq<Step>) returns (singles: set<string>)
    ensures singles == Singles(order)
  {
    singles := {};
    for i := 0 to |order|
      invariant singles == Singles(order[..i])
    {
      assert order[..i + 1][..i] == order[..i] && order[..i + 1][i] == order[i];
      var step := order[i];
      if step.shape.Map? {
        if forall d :: d in step.deps ==> d in singles {
          singles := singles + {step.name};
        }
      } else if step.shape.Aggregate? && step.groupKey.None? {
        singles := singles + {step.name};
      }
    }
    assert order[..|order|] == order;
  }
}
