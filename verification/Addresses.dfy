/**
 What the addresses of a run say: the step that computed an output, down to its version, parameters
 and source, and what it was computed from.  So no run reuses what other code has computed.
 */
module Addresses {
  import opened Model
  import opened Meaning
  import opened Ledger
  import opened History
  import opened Determined
  import opened Planning
  import opened Clean
  import opened Script
  import opened Progress
  import opened Books
  import opened Semantics
  import opened Adequacy

  // ---------------------------------------------------------------------------
  // the step
  // ---------------------------------------------------------------------------

  /** This address was made for this step of this pipeline, as it is declared. */
  predicate MadeFor(a: Address, pipe: string, step: Step) {
    && a.pipeline == pipe && a.code.step == step.name && a.code.version == step.version
    && a.code.params == step.params && a.code.source == step.source
  }

  predicate FusedFor(code: Code, step: Step) {
    code.step == step.name && code.version == step.version && code.params == step.params && code.source == step.source
  }

  ghost predicate CellFor(pipe: string, step: Step, x: Cell) {
    (x.Mat? ==> MadeFor(x.address, pipe, step)) && (x.Util? ==> FusedFor(x.code, step))
  }

  lemma ReturnedFor(w: World, pipe: string, step: Step, input: Input, args: Option<Args>, x: Cell)
    requires Returned(w, pipe, step, input, args, x)
    ensures CellFor(pipe, step, x) && (x.Mat? ==> x.address.input == input) && !x.Util?
  {
  }

  /** Every output of a run, minted lanes and fused steps included, names its own step. */
  lemma CellsNameTheirStep(w: World, p: Planner, step: Step, cells: Cells, c: Coord)
    requires Meant(w, p, step, cells) && (c, step.name) in cells
    ensures CellFor(p.pipe, step, cells[(c, step.name)])
  {
    hide SeesBad, SeesFiltered, LaneOf, ParentsOf, MapInput, MapArgs, Returned, SomeBad, NoneSurvive, Collected, CollectedArgs, CollectedInput,
         Occurs, Joined, SidesOf, SideArgs, SideInput, Minted, Yields;
    var x := cells[(c, step.name)];
    match step.shape
    case Map =>
      if !SeesBad(p, step, cells, c) && !SeesFiltered(p, step, cells, c) {
        var xs :| ParentsOf(p, step, cells, c, xs) && OwnMapCell(w, p.pipe, step, xs, x);
        if step.cached {
          ReturnedFor(w, p.pipe, step, MapInput(step, xs), MapArgs(w, p.pipe, step, xs), x);
        }
      }
    case Expand => ExpandCellFor(w, p, step, cells, c);
    case Aggregate =>
      if !(SomeBad(step, cells) && (step.block || NoneSurvive(step, cells))) {
        AggregateCellFor(w, p, step, cells, if step.groupKey.None? then None else Some(c.key), x);
      }
    case Join =>
      if !(SomeBad(step, cells) && (step.block || forall t :: !Joined(p, step, cells, t))) {
        var t := c.parts;
        var sides :| SidesOf(step, cells, t, sides) && Returned(w, p.pipe, step, SideInput(sides), SideArgs(w, p.pipe, sides), x);
        ReturnedFor(w, p.pipe, step, SideInput(sides), SideArgs(w, p.pipe, sides), x);
      }
  }

  lemma AggregateCellFor(w: World, p: Planner, step: Step, cells: Cells, key: Option<string>, x: Cell)
    requires AggregateCell(w, p, step, cells, key, x)
    ensures CellFor(p.pipe, step, x)
  {
    hide Collected, CollectedArgs, CollectedInput, Returned, CellFor;
    var lanes :| Collected(p, step, cells, key, lanes)
      && Returned(w, p.pipe, step, CollectedInput(key, lanes), CollectedArgs(w, p.pipe, lanes), x);
    ReturnedFor(w, p.pipe, step, CollectedInput(key, lanes), CollectedArgs(w, p.pipe, lanes), x);
  }

  lemma ExpandCellFor(w: World, p: Planner, step: Step, cells: Cells, c: Coord)
    requires ExpandMeant(w, p, step, cells) && (c, step.name) in cells
    ensures CellFor(p.pipe, step, cells[(c, step.name)])
  {
    hide SeesBad, SeesFiltered, LaneOf, Minted, Yields, ChildHash;
    if MintedAt(w, p, step, cells, c) {
      var y :| Minted(w, p, step, cells, y) && c == Row(ChildHash(y));
      assert cells[(c, step.name)] == MintedCell(w, p.pipe, step, y);
    }
  }

  /** So does every address looked up, and every anchor. */
  lemma DecisionsNameTheirStep(p: Planner, steps: seq<Step>, n: nat, goal: Cells, decided: seq<Decision>, d: Decision)
    requires n <= |steps| && PlannedOnce(p, steps, 0, n, goal, decided) && d in decided
    ensures d.slot.0 < n
    ensures d.target.ToWork? ==> MadeFor(d.target.address, p.pipe, steps[d.slot.0])
    ensures d.target.ToMint? ==> MadeFor(d.target.anchor, p.pipe, steps[d.slot.0])
  {
    hide PlanOn;
    var m :| 0 <= m < |decided| && decided[m] == d;
    assert DecidedAs(p, steps, 0, n, goal, decided[m]);
    PlansOwnAddresses(p, steps[d.slot.0], goal);
  }

  /** The address a decision is about. */
  function About(t: Target): Option<Address> {
    match t
    case ToWork(a, _) => Some(a)
    case ToMint(a, _) => Some(a)
    case _ => None
  }

  /**
   Two runs, of whatever pipelines, never look up one address for steps that differ in name, version,
   parameters or source.
   */
  lemma OneAddressOneStep(p: Planner, steps: seq<Step>, n: nat, goal: Cells, decided: seq<Decision>, d: Decision,
                          p': Planner, steps': seq<Step>, n': nat, goal': Cells, decided': seq<Decision>, d': Decision)
    requires n <= |steps| && PlannedOnce(p, steps, 0, n, goal, decided) && d in decided
    requires n' <= |steps'| && PlannedOnce(p', steps', 0, n', goal', decided') && d' in decided'
    requires About(d.target).Some? && About(d.target) == About(d'.target)
    ensures p.pipe == p'.pipe && d.slot.0 < n && d'.slot.0 < n'
    ensures var one, other := steps[d.slot.0], steps'[d'.slot.0];
            one.name == other.name && one.version == other.version && one.params == other.params && one.source == other.source
  {
    hide PlannedOnce;
    DecisionsNameTheirStep(p, steps, n, goal, decided, d);
    DecisionsNameTheirStep(p', steps', n', goal', decided', d');
  }

  // ---------------------------------------------------------------------------
  // what it was computed from
  // ---------------------------------------------------------------------------

  /** The input hash lists this hash for parent d (and, where lanes are collected, for lane c of it). */
  predicate Names(input: Input, d: string, c: Coord, h: Hash) {
    match input
    case RootLane => false
    case Of(g) => g == h
    case ByDep(slots) => d in slots && slots[d] == Some(h)
    case Members(lanes) => d in lanes && c in lanes[d] && lanes[d][c] == h
    case Grouped(_, lanes) => d in lanes && c in lanes[d] && lanes[d][c] == h
  }

  lemma NamesOne(input: Input, d: string, c: Coord, h: Hash, g: Hash)
    requires Names(input, d, c, h) && Names(input, d, c, g)
    ensures h == g
  {
  }

  /** A map's output names each parent its lane saw. */
  lemma MapNames(w: World, p: Planner, step: Step, cells: Cells, c: Coord, d: string, x: Cell, at: Coord)
    requires MapMeant(w, p, step, cells) && Uniform(p.singles, cells)
    requires (c, step.name) in cells && cells[(c, step.name)].Mat? && d in step.deps && Sees(p, cells, c, d, x)
    ensures Names(cells[(c, step.name)].address.input, d, at, IdentityOf(x))
  {
    hide SeesBad, SeesFiltered, LaneOf, MapArgs, Returned, Sees, Uniform, Seen, IdentityOf;
    var y := cells[(c, step.name)];
    assert MapCell(w, p, step, cells, c, y);
    var xs :| ParentsOf(p, step, cells, c, xs) && OwnMapCell(w, p.pipe, step, xs, y);
    ParentsUnique(p, step, cells, c, xs);
    SeenBy(p, step, cells, c);
    if step.cached {
      ReturnedFor(w, p.pipe, step, MapInput(step, xs), MapArgs(w, p.pipe, step, xs), y);
      if |step.deps| == 1 {
        assert step.deps[0] == d;
      }
    }
  }

  /** An aggregate's output names each lane it was given. */
  lemma AggregateNames(w: World, p: Planner, step: Step, cells: Cells, c: Coord, d: string, at: Coord)
    requires AggregateMeant(w, p, step, cells) && (c, step.name) in cells && cells[(c, step.name)].Mat?
    requires d in step.deps && Survives(cells, at, d)
    requires InGroup(p, step, cells[(at, d)], if step.groupKey.None? then None else if c.Group? then Some(c.key) else None)
    ensures Names(cells[(c, step.name)].address.input, d, at, IdentityOf(cells[(at, d)]))
  {
    hide SomeBad, NoneSurvive, CollectedArgs, CollectedInput, Returned, Occurs, Survives, InGroup, IdentityOf, Names;
    var y := cells[(c, step.name)];
    var key := if step.groupKey.None? then None else if c.Group? then Some(c.key) else None;
    assert AggregateCell(w, p, step, cells, key, y);
    var lanes :| Collected(p, step, cells, key, lanes)
      && Returned(w, p.pipe, step, CollectedInput(key, lanes), CollectedArgs(w, p.pipe, lanes), y);
    ReturnedFor(w, p.pipe, step, CollectedInput(key, lanes), CollectedArgs(w, p.pipe, lanes), y);
    assert d in lanes && at in lanes[d];
    CollectedNames(key, lanes, d, at);
  }

  lemma CollectedNames(key: Option<string>, lanes: map<string, map<Coord, Cell>>, d: string, c: Coord)
    requires d in lanes && c in lanes[d]
    ensures Names(CollectedInput(key, lanes), d, c, IdentityOf(lanes[d][c]))
  {
    hide IdentityOf;
  }

  /** A join's output names the lane of each side that is there. */
  lemma JoinNames(w: World, p: Planner, step: Step, cells: Cells, t: seq<Coord>, i: nat, at: Coord)
    requires step.WellFormed() && JoinMeant(w, p, step, cells) && (Pair(t), step.name) in cells && cells[(Pair(t), step.name)].Mat?
    requires i < |t| == |step.deps| && t[i] != Missing && (t[i], step.deps[i]) in cells
    ensures Names(cells[(Pair(t), step.name)].address.input, step.deps[i], at, IdentityOf(cells[(t[i], step.deps[i])]))
  {
    hide SomeBad, SideArgs, Returned, Joined, IdentityOf;
    var y := cells[(Pair(t), step.name)];
    assert Joined(p, step, cells, Pair(t).parts);
    assert JoinCell(w, p, step, cells, t, y);
    var sides :| SidesOf(step, cells, t, sides) && Returned(w, p.pipe, step, SideInput(sides), SideArgs(w, p.pipe, sides), y);
    ReturnedFor(w, p.pipe, step, SideInput(sides), SideArgs(w, p.pipe, sides), y);
    assert step.deps[i] in step.deps && step.deps[i] in sides;
  }

  /**
   Where a parent is never stored, its code is in the address instead: two outputs at one address were
   computed from fused parents of the same code and the same inputs.
   */
  lemma FusedParentsAgree(input: Input, d: string, c: Coord, x: Cell, y: Cell)
    requires Names(input, d, c, IdentityOf(x)) && Names(input, d, c, IdentityOf(y)) && x.Util? && Usable(y)
    ensures y.Util? ==> y.code == x.code && y.parents.Keys == x.parents.Keys
                        && forall e :: e in x.parents ==> IdentityOf(y.parents[e]) == IdentityOf(x.parents[e])
    ensures y.Mat? ==> y.identity.Fused?
  {
    NamesOne(input, d, c, IdentityOf(x), IdentityOf(y));
    if y.Util? {
      var m, n := map e | e in x.parents :: IdentityOf(x.parents[e]), map e | e in y.parents :: IdentityOf(y.parents[e]);
      assert IdentityOf(x) == Fused(x.code, m) && IdentityOf(y) == Fused(y.code, n);
      assert m.Keys == x.parents.Keys && n.Keys == y.parents.Keys;
      forall e | e in x.parents ensures IdentityOf(y.parents[e]) == IdentityOf(x.parents[e]) {
        assert m[e] == n[e];
      }
    }
  }

  // ---------------------------------------------------------------------------
  // decisions
  // ---------------------------------------------------------------------------

  /**
   When a slot is reused: nothing is forced, and the lookup finds its output live with a row; or its
   anchor, and each child it lists live with a row.
   */
  lemma ReusedWhen(spills: Json -> bool, origin: Store, log: seq<Event>, p: Planner, steps: seq<Step>, force: bool, d: Decision)
    requires DecisionOk(spills, origin, log, p, steps, force, d)
    ensures var st, step := Replay(spills, origin, log[..d.at]), steps[d.slot.0];
            var code := Code(step.name, step.version, step.params, step.source);
            d.reused <==>
              && !force && !step.force
              && match d.target
                 case ToWork(a, _) => a in st.live && LatestRow(st, a).Some?
                 case ToMint(a, _) =>
                   AnchorHit(st, a).Some?
                   && forall h :: h in AnchorHit(st, a).value ==>
                        Address(p.pipe, code, Of(h)) in st.live && LatestRow(st, Address(p.pipe, code, Of(h))).Some?
                 case _ => false
  {
    hide Replay, LatestRow, AnchorHit, ReplayedChildren;
    var st, step := Replay(spills, origin, log[..d.at]), steps[d.slot.0];
    if d.target.ToMint? {
      AnchorIsListed(st, p, step.Identity(), d.target.anchor);
      forall h ensures ChildAddress(p.pipe, step.Identity(), h) == Address(p.pipe, Code(step.name, step.version, step.params, step.source), Of(h)) {
      }
    }
  }

  /** Nothing so far was computed by this very step, as it is declared now. */
  ghost predicate OtherCode(h: seq<Event>, step: Step) {
    forall e :: e in h && (e.Commit? || e.CommitAnchor?) && e.address.code.step == step.name ==>
      e.address.code.version != step.version || e.address.code.params != step.params || e.address.code.source != step.source
  }

  /**
   After a history in which a step's name was only ever run with another version, other parameters or
   other source, whatever the step reuses the run itself has just computed, at that address.
   */
  lemma OtherCodeIsNotReused(spills: Json -> bool, h: seq<Event>, log: seq<Event>, p: Planner, steps: seq<Step>, force: bool,
                             n: nat, goal: Cells, decided: seq<Decision>, d: Decision)
    requires n <= |steps| && PlannedOnce(p, steps, 0, n, goal, decided) && d in decided
    requires DecisionOk(spills, Replay(spills, EMPTY, h), log, p, steps, force, d) && OtherCode(h, steps[d.slot.0])
    ensures d.reused ==>
              About(d.target).Some?
              && exists m :: 0 <= m < d.at && (log[m].Commit? || log[m].CommitAnchor?) && log[m].address == About(d.target).value
  {
    hide PlannedOnce, Replay, LatestRow, AnchorHit;
    DecisionsNameTheirStep(p, steps, n, goal, decided, d);
    ReusedWhen(spills, Replay(spills, EMPTY, h), log, p, steps, force, d);
    if d.reused {
      var a, all := About(d.target).value, h + log[..d.at];
      var st := Replay(spills, Replay(spills, EMPTY, h), log[..d.at]);
      ReplayConcat(spills, EMPTY, h, log[..d.at]);
      if d.target.ToMint? {
        ServedIsLive(st, a);
      }
      LiveSinceCommit(spills, all, a);
      var j :| 0 <= j < |all| && Fulfils(all[j], a) && forall m :: j < m < |all| ==> !Flips(all[m], a);
      NotFromBefore(h, p.pipe, steps[d.slot.0], a);
      assert forall i :: 0 <= i < |h| ==> all[i] == h[i] && h[i] in h;
      assert all[j] == log[j - |h|];
    }
  }

  lemma NotFromBefore(h: seq<Event>, pipe: string, step: Step, a: Address)
    requires OtherCode(h, step) && MadeFor(a, pipe, step)
    ensures forall e :: e in h ==> !Fulfils(e, a)
  {
  }

  lemma ServedIsLive(st: Store, a: Address)
    ensures AnchorHit(st, a).Some? ==> a in st.live
  {
    hide LatestRow;
  }

  // ---------------------------------------------------------------------------
  // counts
  // ---------------------------------------------------------------------------

  /** A run's counts, cell by cell, for every stored step whose lanes do not share children. */
  lemma TallyMeans(origin: Store, steps: seq<Step>, cells: Cells, tally: map<string, Tally>, i: nat)
    requires AllTallied(origin, steps, cells, tally) && i < |steps| && steps[i].cached
    requires !steps[i].shape.Expand? || steps[i].deps == []
    ensures steps[i].name in tally
    ensures var t, name := tally[steps[i].name], steps[i].name;
            var ok := set k | k in cells && k.1 == name && cells[k].Mat? && !cells[k].filtered;
            && t.created + t.reused == |ok|
            && t.created == |set a | a in (set k | k in ok :: cells[k].address) && (a !in origin.live || LatestRow(origin, a).None?)|
            && t.filtered == |set k | k in cells && k.1 == name && (cells[k].Skipped? || (cells[k].Mat? && cells[k].filtered))|
            && t.failed == |set k | k in cells && k.1 == name && cells[k].Failed?|
            && t.blocked == |set k | k in cells && k.1 == name && cells[k].Blocked?|
  {
    hide LatestRow;
    var t, name := tally[steps[i].name], steps[i].name;
    assert Counted(steps[i]) && Tallied(origin, cells, name, t);
    var ok := set k | k in cells && k.1 == name && cells[k].Mat? && !cells[k].filtered;
    assert KeysOf(cells, name, KOk) == ok;
    assert OkAddresses(cells, name) == set k | k in ok :: cells[k].address;
    assert NewAddresses(origin, cells, name)
        == set a | a in (set k | k in ok :: cells[k].address) && (a !in origin.live || LatestRow(origin, a).None?);
    assert KeysOf(cells, name, KFiltered)
        == set k | k in cells && k.1 == name && (cells[k].Skipped? || (cells[k].Mat? && cells[k].filtered));
    assert KeysOf(cells, name, KFailed) == set k | k in cells && k.1 == name && cells[k].Failed?;
    assert KeysOf(cells, name, KBlocked) == set k | k in cells && k.1 == name && cells[k].Blocked?;
  }
}
