/**
 What plan() promises: every lane it calls reuse is decided reuse, at the same address, by a
 run from the same state, whatever the executed lanes turn out to return.
 */
module PlanSound {
  import opened Model
  import opened Meaning
  import opened Ledger
  import opened History
  import opened Determined
  import opened Planning
  import opened Clean
  import opened Script
  import opened SingleCoords
  import opened Scopes
  import opened Books
  import opened DryRun

  // ---------------------------------------------------------------------------
  // the run's own commits do not close the gate
  // ---------------------------------------------------------------------------

  /** What a lookup of this step would have reused, it still reuses, from the same row or anchor. */
  ghost predicate KeepsGate(st: Store, st': Store, p: Planner, step: Step) {
    && (forall a: Address :: OwnAddress(p, step, a) && Hit(st, a).Some? ==> Hit(st', a) == Hit(st, a))
    && (forall a: Address :: OwnAddress(p, step, a) && Replayable(st, p, step, a).Some? ==>
          Replayable(st', p, step, a) == Replayable(st, p, step, a))
  }

  /** The children an anchor of this step replays; steps that do not fan out have none. */
  function Replayable(st: Store, p: Planner, step: Step, a: Address): Option<seq<Hash>> {
    if step.shape.Expand? then ReplayedChildren(st, p, step.Identity(), a) else None
  }

  /** An event of a run that concerns another step: it commits or flushes somewhere else. */
  predicate Elsewhere(e: Event, name: string) {
    match e
    case Stage(_) => true
    case Commit(a, _) => a.code.step != name
    case CommitAnchor(a, _) => a.code.step != name
    case Flush(k) => k.1 != name
    case FlushAnchors(k) => k.1 != name
    case _ => false
  }

  /**
   A commit of this step, made for a lane whose lookup had missed in an earlier store `at`.  A
   child lane may also be there already, with the same payload.
   */
  ghost predicate Missed(spills: Json -> bool, at: Store, now: Store, p: Planner, step: Step, e: Event) {
    match e
    case Commit(a, o) =>
      !o.Fail? && (Hit(at, a).None? || AlreadyLive(spills, now, a, o)) && Replayable(now, p, step, a).None?
    case CommitAnchor(a, _) => Replayable(at, p, step, a).None?
    case _ => false
  }

  /** The i-th event concerns another step, or is for a lane of this one whose lookup missed. */
  ghost predicate Benign(spills: Json -> bool, st: Store, log: seq<Event>, p: Planner, step: Step, i: nat)
    requires i < |log|
  {
    || Elsewhere(log[i], step.name)
    || exists j :: 0 <= j <= i && Missed(spills, Replay(spills, st, log[..j]), Replay(spills, st, log[..i]), p, step, log[i])
  }

  lemma ElsewhereKeeps(spills: Json -> bool, st: Store, e: Event, a: Address)
    requires Elsewhere(e, a.code.step)
    ensures Hit(Apply(spills, st, e), a) == Hit(st, a)
    ensures AnchorHit(Apply(spills, st, e), a) == AnchorHit(st, a)
  {
    hide LatestRow, Effect, LastAnchor;
    LatestUnchanged(spills, st, e, a);
    ElsewhereLive(spills, st, e, a);
    ElsewhereAnchors(spills, st, e, a);
  }

  lemma ElsewhereLive(spills: Json -> bool, st: Store, e: Event, a: Address)
    requires Elsewhere(e, a.code.step)
    ensures a in Apply(spills, st, e).live <==> a in st.live
  {
    hide AlreadyLive, AnchorHit, RowFor;
  }

  lemma ElsewhereAnchors(spills: Json -> bool, st: Store, e: Event, a: Address)
    requires Elsewhere(e, a.code.step)
    ensures Table(Apply(spills, st, e).anchorDisk, TableOf(a)) == Table(st.anchorDisk, TableOf(a))
    ensures Table(Apply(spills, st, e).anchorBuffer, TableOf(a)) == Table(st.anchorBuffer, TableOf(a))
  {
    hide AlreadyLive, AnchorHit, RowFor;
  }

  /** A hit survives a commit of any kind that is not a different output at its own address. */
  lemma HitSurvives(spills: Json -> bool, st: Store, e: Event, a: Address)
    requires Hit(st, a).Some? && (e.Commit? || e.CommitAnchor?)
    requires e.Commit? && e.address == a ==> !e.outcome.Fail? && AlreadyLive(spills, st, a, e.outcome)
    ensures Hit(Apply(spills, st, e), a) == Hit(st, a)
  {
    hide LatestRow, AlreadyLive, RowFor, AnchorHit;
    if e.Commit? && e.address == a {
      LatestAfterCommit(spills, st, a, e.outcome);
    } else {
      LatestUnchanged(spills, st, e, a);
    }
  }

  /** An anchor survives a commit of a lane or an anchor at another address. */
  lemma AnchorSurvives(spills: Json -> bool, st: Store, e: Event, a: Address)
    requires AnchorHit(st, a).Some? && (e.Commit? || e.CommitAnchor?) && e.address != a
    ensures AnchorHit(Apply(spills, st, e), a) == AnchorHit(st, a)
  {
    hide LatestRow, AlreadyLive, RowFor, AnchorHit, LastAnchor;
    LatestUnchanged(spills, st, e, a);
    AnchorTables(spills, st, e, a);
    SameAnchor(st, Apply(spills, st, e), a);
  }

  lemma AnchorTables(spills: Json -> bool, st: Store, e: Event, a: Address)
    requires (e.Commit? || e.CommitAnchor?) && e.address != a
    ensures var next, k := Apply(spills, st, e), TableOf(a);
            && Table(next.anchorDisk, k) == Table(st.anchorDisk, k)
            && LastAnchor(Table(next.anchorBuffer, k), a) == LastAnchor(Table(st.anchorBuffer, k), a)
            && (a in st.live ==> a in next.live)
  {
    hide AlreadyLive, RowFor, AnchorHit, LastAnchor;
    if e.CommitAnchor? {
      LastAnchorAppend(Table(st.anchorBuffer, TableOf(a)), AnchorRow(e.address, e.children, st.clock), a);
    }
  }

  lemma SameAnchor(st: Store, next: Store, a: Address)
    requires AnchorHit(st, a).Some? && LatestRow(next, a) == LatestRow(st, a)
    requires Table(next.anchorDisk, TableOf(a)) == Table(st.anchorDisk, TableOf(a))
    requires LastAnchor(Table(next.anchorBuffer, TableOf(a)), a) == LastAnchor(Table(st.anchorBuffer, TableOf(a)), a)
    requires a in st.live ==> a in next.live
    ensures AnchorHit(next, a) == AnchorHit(st, a)
  {
    hide LatestRow, LastAnchor;
  }

  /** Every live row of the step can be read. */
  ghost predicate RowsRead(st: Store, p: Planner, step: Step) {
    forall a: Address :: OwnAddress(p, step, a) && Hit(st, a).Some? && Hit(st, a).value.output.Ref? ==>
      Hit(st, a).value.output.v in st.objects
  }

  /** Rows that were hits are the same hits, anchors that could be replayed are still alone at their address. */
  ghost predicate Untouched(st: Store, st': Store, p: Planner, step: Step) {
    && st.objects <= st'.objects
    && (forall a: Address :: OwnAddress(p, step, a) && Hit(st, a).Some? ==> Hit(st', a) == Hit(st, a))
    && (forall a: Address :: OwnAddress(p, step, a) && Hit(st, a).None? && Replayable(st, p, step, a).Some? ==>
          Hit(st', a).None? && AnchorHit(st', a) == AnchorHit(st, a))
  }

  lemma SameListing(st: Store, st': Store, p: Planner, step: Step, a: Address)
    requires Untouched(st, st', p, step) && RowsRead(st, p, step) && OwnAddress(p, step, a) && Replayable(st, p, step, a).Some?
    ensures ListingAt(st', p, a) == ListingAt(st, p, a)
  {
    hide Hit, AnchorHit, Iterated;
  }

  lemma SameReplay(st: Store, st': Store, p: Planner, step: Step, a: Address)
    requires ListingAt(st', p, a) == ListingAt(st, p, a) && Replayable(st, p, step, a).Some?
    requires forall b: Address :: OwnAddress(p, step, b) && Hit(st, b).Some? ==> Hit(st', b) == Hit(st, b)
    ensures Replayable(st', p, step, a) == Replayable(st, p, step, a)
  {
    hide Hit, ListingAt;
    var items := ListingAt(st, p, a).items;
    forall i | 0 <= i < |items| ensures LiveChild(st', p.pipe, step.Identity(), items[i]) {
      assert LiveChild(st, p.pipe, step.Identity(), items[i]);
      assert OwnAddress(p, step, ChildAddress(p.pipe, step.Identity(), items[i].value));
    }
    assert Replayable(st', p, step, a).value == Replayable(st, p, step, a).value;
  }

  lemma UntouchedKeepsGate(st: Store, st': Store, p: Planner, step: Step)
    requires Untouched(st, st', p, step) && RowsRead(st, p, step)
    ensures KeepsGate(st, st', p, step)
  {
    hide Hit, AnchorHit, Replayable, ListingAt, RowsRead;
    forall a: Address | OwnAddress(p, step, a) && Replayable(st, p, step, a).Some?
      ensures Replayable(st', p, step, a) == Replayable(st, p, step, a)
    {
      SameListing(st, st', p, step, a);
      SameReplay(st, st', p, step, a);
    }
  }

  /** What is listed by no row is listed by an anchor. */
  lemma ListedByAnchor(st: Store, p: Planner, step: Step, a: Address)
    requires Replayable(st, p, step, a).Some? && Hit(st, a).None?
    ensures AnchorHit(st, a).Some? && LatestRow(st, a).None?
  {
    hide LatestRow;
    ReplayableListed(st, p, step, a);
  }

  lemma ReplayableListed(st: Store, p: Planner, step: Step, a: Address)
    requires Replayable(st, p, step, a).Some?
    ensures ListingAt(st, p, a).Listed?
  {
    hide ListingAt;
  }

  lemma ObjectsGrow(spills: Json -> bool, st: Store, e: Event)
    requires Grows(e)
    ensures st.objects <= Apply(spills, st, e).objects
  {
    hide AlreadyLive, AnchorHit, RowFor;
  }

  lemma RowlessStaysSo(spills: Json -> bool, st: Store, e: Event, a: Address)
    requires LatestRow(st, a).None? && Grows(e) && !(e.Commit? && e.address == a)
    ensures Hit(Apply(spills, st, e), a).None?
  {
    hide LatestRow, Effect;
    LatestUnchanged(spills, st, e, a);
  }

  lemma ElsewhereKeepsGate(spills: Json -> bool, st: Store, now: Store, p: Planner, step: Step, e: Event)
    requires Untouched(st, now, p, step) && Elsewhere(e, step.name)
    ensures Untouched(st, Apply(spills, now, e), p, step)
  {
    hide Hit, Replayable, Apply, AnchorHit;
    var next := Apply(spills, now, e);
    ObjectsGrow(spills, now, e);
    forall a: Address | OwnAddress(p, step, a)
      ensures Hit(next, a) == Hit(now, a) && AnchorHit(next, a) == AnchorHit(now, a)
    {
      ElsewhereKeeps(spills, now, e, a);
    }
  }

  lemma MissedKeepsGate(spills: Json -> bool, st: Store, at: Store, now: Store, p: Planner, step: Step, e: Event)
    requires RowsRead(st, p, step) && Untouched(st, at, p, step) && Untouched(st, now, p, step)
    requires Missed(spills, at, now, p, step, e)
    ensures Untouched(st, Apply(spills, now, e), p, step)
  {
    hide Hit, Replayable, Apply, AnchorHit, AlreadyLive, RowsRead;
    var next := Apply(spills, now, e);
    ObjectsGrow(spills, now, e);
    UntouchedKeepsGate(st, at, p, step);
    UntouchedKeepsGate(st, now, p, step);
    forall a: Address | OwnAddress(p, step, a) && Hit(st, a).Some? ensures Hit(next, a) == Hit(st, a) {
      HitSurvives(spills, now, e, a);
    }
    forall a: Address | OwnAddress(p, step, a) && Hit(st, a).None? && Replayable(st, p, step, a).Some?
      ensures Hit(next, a).None? && AnchorHit(next, a) == AnchorHit(st, a)
    {
      assert Replayable(now, p, step, a).Some? && Replayable(at, p, step, a).Some?;
      assert e.address != a;
      ListedByAnchor(now, p, step, a);
      RowlessStaysSo(spills, now, e, a);
      AnchorSurvives(spills, now, e, a);
    }
  }

  /**
   A lane is looked up after a run has committed for other steps and, when lanes advance on their
   own, for siblings whose own lookups missed: whatever could be reused before is reused still.
   */
  lemma SiblingsKeepTheGate(spills: Json -> bool, st: Store, p: Planner, log: seq<Event>, step: Step)
    requires RowsRead(st, p, step)
    requires forall i :: 0 <= i < |log| ==> Benign(spills, st, log, p, step, i)
    ensures KeepsGate(st, Replay(spills, st, log), p, step)
  {
    hide KeepsGate, Untouched, RowsRead, Benign;
    SiblingsLeaveUntouched(spills, st, p, log, step);
    UntouchedKeepsGate(st, Replay(spills, st, log), p, step);
  }

  lemma {:induction false} SiblingsLeaveUntouched(spills: Json -> bool, st: Store, p: Planner, log: seq<Event>, step: Step)
    requires RowsRead(st, p, step)
    requires forall i :: 0 <= i < |log| ==> Benign(spills, st, log, p, step, i)
    ensures Untouched(st, Replay(spills, st, log), p, step)
  {
    hide Untouched, Missed, Apply, Elsewhere, RowsRead;
    if log == [] {
      SameStoreUntouched(st, p, step);
    } else {
      var n := |log| - 1;
      forall m, i | 0 <= i < m <= n ensures Benign(spills, st, log[..m], p, step, i) {
        BenignPrefix(spills, st, log, p, step, m, i);
      }
      SiblingsLeaveUntouched(spills, st, p, log[..n], step);
      assert Benign(spills, st, log, p, step, n);
      if Elsewhere(log[n], step.name) {
        ElsewhereKeepsGate(spills, st, Replay(spills, st, log[..n]), p, step, log[n]);
      } else {
        var j :| 0 <= j <= n && Missed(spills, Replay(spills, st, log[..j]), Replay(spills, st, log[..n]), p, step, log[n]);
        SiblingsLeaveUntouched(spills, st, p, log[..j], step);
        MissedKeepsGate(spills, st, Replay(spills, st, log[..j]), Replay(spills, st, log[..n]), p, step, log[n]);
      }
    }
  }

  lemma SameStoreUntouched(st: Store, p: Planner, step: Step)
    ensures Untouched(st, st, p, step)
  {
    hide Hit, AnchorHit, Replayable;
    forall a: Address | OwnAddress(p, step, a) && Hit(st, a).None? && Replayable(st, p, step, a).Some?
      ensures AnchorHit(st, a) == AnchorHit(st, a)
    {
    }
  }

  lemma BenignPrefix(spills: Json -> bool, st: Store, log: seq<Event>, p: Planner, step: Step, m: nat, i: nat)
    requires i < m <= |log| && Benign(spills, st, log, p, step, i)
    ensures Benign(spills, st, log[..m], p, step, i)
  {
    hide Missed, Elsewhere, Replay;
    assert log[..m][i] == log[i];
    if !Elsewhere(log[i], step.name) {
      var j :| 0 <= j <= i && Missed(spills, Replay(spills, st, log[..j]), Replay(spills, st, log[..i]), p, step, log[i]);
      assert log[..m][..j] == log[..j] && log[..m][..i] == log[..i];
    }
  }

  lemma SameStoreKeeps(st: Store, p: Planner, step: Step)
    ensures KeepsGate(st, st, p, step)
  {
  }

  lemma KeptDecision(st: Store, st': Store, p: Planner, step: Step, force: bool, t: Target)
    requires KeepsGate(st, st', p, step) && Addressed(p, step, t)
    ensures Reuses(st, p, step, force, t) ==> Reuses(st', p, step, force, t)
    ensures t.ToWork? && Reuses(st, p, step, force, t) ==> DryCell(st', p, step, force, t) == DryCell(st, p, step, force, t)
    ensures FansOut(st, p, step, force, t) ==>
              FansOut(st', p, step, force, t) && ReusedChildren(st', p, step, t) == ReusedChildren(st, p, step, t)
  {
    hide Hit, AnchorHit, ReplayedChildren;
    if t.ToMint? {
      assert Replayable(st, p, step, t.anchor) == ReplayedChildren(st, p, step.Identity(), t.anchor);
      assert Replayable(st', p, step, t.anchor) == ReplayedChildren(st', p, step.Identity(), t.anchor);
    }
  }

  lemma KeptChild(st: Store, st': Store, p: Planner, step: Step, t: Target, h: Hash)
    requires KeepsGate(st, st', p, step) && t.ToMint? && h in ReusedChildren(st, p, step, t)
    ensures ReusedCell(st', ChildAddress(p.pipe, step.Identity(), h)) == ReusedCell(st, ChildAddress(p.pipe, step.Identity(), h))
  {
    hide Hit, AnchorHit;
    assert OwnAddress(p, step, ChildAddress(p.pipe, step.Identity(), h));
  }

  // ---------------------------------------------------------------------------
  // lanes looked up at different moments
  // ---------------------------------------------------------------------------

  /** As `RunStep`, with each lane looked up in the store of its own moment. */
  ghost predicate RunStepAt(at: Coord -> Store, p: Planner, step: Step, force: bool, before: Cells, after: Cells) {
    var ts := Plan(p, step, before);
    && ts.Some?
    && (forall k :: k in before ==> k in after && after[k] == before[k] && k.1 != step.name)
    && (forall k :: k in after ==> k in before || k.1 == step.name)
    && (forall c :: c in ts.value ==> LaneRan(at(c), p, step, force, c, ts.value[c], after))
    && (forall c :: (c, step.name) in after ==> LaneCameAt(at, p, step, force, ts.value, c, after))
    && (forall c :: (c, step.name) in after ==> !after[(c, step.name)].Pending?)
  }

  ghost predicate LaneCameAt(at: Coord -> Store, p: Planner, step: Step, force: bool, ts: map<Coord, Target>, c: Coord, after: Cells) {
    || (c in ts && !FansOut(at(c), p, step, force, ts[c]))
    || (exists e, h :: e in ts && FansOut(at(e), p, step, force, ts[e]) && h in ReusedChildren(at(e), p, step, ts[e])
                       && c == Row(h))
    || (exists e :: e in ts && ts[e].ToMint? && Executes(at(e), p, step, force, ts[e]))
  }

  lemma KeptLaneRan(st: Store, st': Store, p: Planner, step: Step, force: bool, c: Coord, t: Target, after: Cells)
    requires KeepsGate(st, st', p, step) && Addressed(p, step, t)
    requires LaneRan(st', p, step, force, c, t, after)
    ensures LaneRan(st, p, step, force, c, t, after)
  {
    hide KeepsGate, Reuses, ReusedChildren, ReusedCell;
    KeptDecision(st, st', p, step, force, t);
    if FansOut(st, p, step, force, t) {
      forall h | h in ReusedChildren(st, p, step, t)
        ensures ReusedCell(st', ChildAddress(p.pipe, step.Identity(), h)) == ReusedCell(st, ChildAddress(p.pipe, step.Identity(), h))
      {
        KeptChild(st, st', p, step, t, h);
      }
    }
  }

  lemma KeptLaneCame(st: Store, at: Coord -> Store, p: Planner, step: Step, force: bool, ts: map<Coord, Target>, c: Coord, after: Cells)
    requires forall e :: e in ts ==> KeepsGate(st, at(e), p, step) && Addressed(p, step, ts[e])
    requires LaneCameAt(at, p, step, force, ts, c, after)
    ensures LaneCame(st, p, step, force, ts, c, after)
  {
    hide KeepsGate, Reuses, ReusedChildren, Addressed;
    forall e | e in ts
      ensures FansOut(st, p, step, force, ts[e]) ==>
                FansOut(at(e), p, step, force, ts[e]) && ReusedChildren(at(e), p, step, ts[e]) == ReusedChildren(st, p, step, ts[e])
      ensures Executes(at(e), p, step, force, ts[e]) ==> Executes(st, p, step, force, ts[e])
    {
      KeptDecision(st, at(e), p, step, force, ts[e]);
    }
    if c in ts && !FansOut(at(c), p, step, force, ts[c]) {
    } else if e, h :| e in ts && FansOut(at(e), p, step, force, ts[e]) && h in ReusedChildren(at(e), p, step, ts[e])
                       && c == Row(h) {
      if FansOut(st, p, step, force, ts[e]) {
        assert h in DryChildren(st, p, step, force, ts);
      } else {
        assert Executes(st, p, step, force, ts[e]);
      }
    }
  }

  /** The step might as well have been planned whole, against the store the dry run saw. */
  lemma RanAtOnce(st: Store, at: Coord -> Store, p: Planner, step: Step, force: bool, before: Cells, after: Cells)
    requires RunStepAt(at, p, step, force, before, after) && forall c :: KeepsGate(st, at(c), p, step)
    ensures RunStep(st, p, step, force, before, after)
  {
    hide KeepsGate, PlanOn, LaneRan, LaneCame, LaneCameAt, Addressed;
    var ts := Plan(p, step, before).value;
    PlansOwnAddresses(p, step, before);
    forall c | c in ts ensures LaneRan(st, p, step, force, c, ts[c], after) {
      KeptLaneRan(st, at(c), p, step, force, c, ts[c], after);
    }
    forall c | (c, step.name) in after ensures LaneCame(st, p, step, force, ts, c, after) {
      KeptLaneCame(st, at, p, step, force, ts, c, after);
    }
  }

  // ---------------------------------------------------------------------------
  // broadcast steps keep to their coordinate
  // ---------------------------------------------------------------------------

  /** A later step's name is never single because of an earlier one, and the other way round. */
  lemma DepsInPlace(steps: seq<Step>, n: nat)
    requires Ordered(steps) && n < |steps|
    ensures forall d :: d in steps[n].deps && d in Singles(steps) ==> d in CoordsOf(steps[..n])
  {
    forall d | d in steps[n].deps && d in Singles(steps) ensures d in Singles(steps[..n]) {
      if d !in Singles(steps[..n]) {
        LaterSingle(steps, n, d);
        assert false;
      }
    }
  }

  /** Cells added for one step keep every broadcast step at its coordinate. */
  lemma StillAtCoords(p: Planner, steps: seq<Step>, n: nat, before: Cells, own: Cells)
    requires Ordered(steps) && Unmixed(steps) && n < |steps| && p.singles == Singles(steps)
    requires AtCoords(CoordsOf(steps[..n]), before) && Plan(p, steps[n], before).Some?
    requires forall k :: k in before ==> k.1 != steps[n].name
    requires forall k :: k in own ==> k.1 == steps[n].name
    requires !steps[n].shape.Expand? && steps[n].name in p.singles ==>
               forall k :: k in own ==> k.0 in Plan(p, steps[n], before).value
    ensures AtCoords(CoordsOf(steps[..n + 1]), before + own)
  {
    hide PlanOn, Ordered, Unmixed, CoordsOf;
    if steps[n].name in CoordsOf(steps[..n + 1]) && steps[n].name !in CoordsOf(steps[..n]) {
      SinglePlan(p, steps, n, before);
      SingleNotExpand(steps, n);
      SinglesMonotone(steps, n + 1);
    }
    Extended(steps, n, before, own);
  }

  // ---------------------------------------------------------------------------
  // the theorem
  // ---------------------------------------------------------------------------

  /**
   A run, step by step, as far as it got: the store in which each lane of a step was looked up,
   and the cells before that step.  The last entry is the step at which it stopped, or the end.
   */
  datatype Execution = Execution(stores: seq<Coord -> Store>, cells: seq<Cells>)

  ghost predicate Ran(p: Planner, steps: seq<Step>, force: bool, x: Execution) {
    && 0 < |x.cells| == |x.stores| <= |steps| + 1
    && x.cells[0] == map[]
    && forall i :: 0 <= i < |x.cells| - 1 ==> RunStepAt(x.stores[i], p, steps[i], force, x.cells[i], x.cells[i + 1])
  }

  /**
   A partial run's scope: the anchor is a map that is fed by other lanes, and the cohort is carried
   by the maps below it.  If the anchor is broadcast, so is every map that carries the cohort.
   */
  ghost predicate ScopeLegal(p: Planner, steps: seq<Step>) {
    p.scope.Cohort? ==>
      && p.scope.steps == Carriers(steps, p.scope.anchor)
      && (p.scope.anchor in p.singles ==> p.scope.steps <= p.singles)
      && forall i :: 0 <= i < |steps| && steps[i].name == p.scope.anchor ==> steps[i].shape.Map? && steps[i].deps != []
  }

  /** The pipelines the theorem is about. */
  ghost predicate Plannable(p: Planner, steps: seq<Step>) {
    && Ordered(steps) && Unmixed(steps) && p.singles == Singles(steps) && ScopeLegal(p, steps)
    && forall i :: 0 <= i < |steps| ==> !steps[i].declarative
  }

  /** What the dry run could reuse is not gone when the run looks it up, and no executed lane failed. */
  ghost predicate Comparing(st: Store, p: Planner, steps: seq<Step>, force: bool, x: Execution) {
    && Ran(p, steps, force, x)
    && (forall i, c :: 0 <= i < |x.cells| && i < |steps| ==> KeepsGate(st, x.stores[i](c), p, steps[i]))
    && (forall i :: 0 <= i < |x.cells| ==> !AnyBad(x.cells[i]))
  }

  ghost predicate NamesFresh(st: Store, p: Planner, steps: seq<Step>, force: bool, x: Execution)
    requires Ran(p, steps, force, x)
  {
    forall i :: 0 <= i < |x.cells| - 1 && Dry(st, p, steps[..i], force).Some? && Plan(p, steps[i], x.cells[i]).Some? ==>
      FreshNames(steps[i], Dry(st, p, steps[..i], force).value, Plan(p, steps[i], x.cells[i]).value, x.cells[i + 1])
  }

  /** After n steps the dry run is below the run. */
  ghost predicate Below(p: Planner, steps: seq<Step>, n: nat, dry: Cells, run: Cells)
    requires n <= |steps|
  {
    && (forall i :: 0 <= i < n ==> BelowAt(dry, run, steps[i].name))
    && (forall i :: 0 <= i < n && p.scope.Restricts(steps[i].name) ==> NoExtras(dry, run, steps[i].name))
    && KeysWithin(steps[..n], dry) && KeysWithin(steps[..n], run)
    && !AnyBad(dry) && !AnyPending(run)
    && AllKept(p, CoordsOf(steps[..n]), dry) && AtCoords(CoordsOf(steps[..n]), run)
  }

  ghost predicate AllKept(p: Planner, coords: map<string, Coord>, dry: Cells) {
    forall name :: name in coords ==> Kept(p, coords, dry, name)
  }

  lemma {:induction false} DryPrefix(st: Store, p: Planner, steps: seq<Step>, force: bool, n: nat)
    requires n <= |steps| && Dry(st, p, steps, force).Some?
    ensures Dry(st, p, steps[..n], force).Some?
  {
    hide PlanOn, DryCells;
    if n < |steps| {
      DryPrefix(st, p, steps[..|steps| - 1], force, n);
      assert steps[..|steps| - 1][..n] == steps[..n];
    } else {
      assert steps[..n] == steps;
    }
  }

  lemma DryNext(st: Store, p: Planner, steps: seq<Step>, force: bool, n: nat)
    requires n < |steps| && Dry(st, p, steps[..n + 1], force).Some?
    ensures Dry(st, p, steps[..n], force).Some?
    ensures var dry := Dry(st, p, steps[..n], force).value;
            Plan(p, steps[n], dry).Some?
            && Dry(st, p, steps[..n + 1], force).value == dry + Noted(st, p, steps[n], force, dry)
  {
    hide PlanOn, DryCells;
    assert steps[..n + 1][..n] == steps[..n] && steps[..n + 1][n] == steps[n];
  }

  lemma NotHereYet(steps: seq<Step>, n: nat, cells: Cells)
    requires Ordered(steps) && n < |steps| && KeysWithin(steps[..n], cells)
    ensures forall k :: k in cells ==> k.1 != steps[n].name
  {
    forall k | k in cells ensures k.1 != steps[n].name {
      var i :| 0 <= i < n && steps[..n][i].name == k.1;
    }
  }

  /** What was below stays below when both sides gain the cells of another step. */
  lemma BelowKept(dry: Cells, run: Cells, dry': Cells, run': Cells, name: string)
    requires BelowAt(dry, run, name)
    requires forall c :: ((c, name) in dry' <==> (c, name) in dry) && ((c, name) in dry ==> dry'[(c, name)] == dry[(c, name)])
    requires forall c :: ((c, name) in run' <==> (c, name) in run) && ((c, name) in run ==> run'[(c, name)] == run[(c, name)])
    ensures BelowAt(dry', run', name)
  {
    hide Usable, IsFiltered;
    forall c | HasUsable(run', c, name) && (c, name) !in dry'
      ensures exists c' :: HasPending(dry', c', name) && (c', name) !in run'
    {
      assert HasUsable(run, c, name);
      var c' :| HasPending(dry, c', name) && (c', name) !in run;
      assert HasPending(dry', c', name);
    }
    forall c | HasFiltered(dry', c, name) && (c, name) !in run'
      ensures forall c' :: !HasUsable(run', c', name)
    {
      assert HasFiltered(dry, c, name);
      assert forall c' :: HasUsable(run', c', name) == HasUsable(run, c', name);
    }
    forall c | HasUsable(dry', c, name) ensures (c, name) in run' && run'[(c, name)] == dry'[(c, name)] {
      assert HasUsable(dry, c, name);
    }
  }

  lemma NoExtrasKept(dry: Cells, run: Cells, dry': Cells, run': Cells, name: string)
    requires NoExtras(dry, run, name)
    requires forall c :: (c, name) in dry ==> (c, name) in dry'
    requires forall c :: ((c, name) in run' <==> (c, name) in run) && ((c, name) in run ==> run'[(c, name)] == run[(c, name)])
    ensures NoExtras(dry', run', name)
  {
    hide Usable;
    forall c | HasUsable(run', c, name) ensures (c, name) in dry' {
      assert HasUsable(run, c, name);
    }
  }

  /** A dry run never notes a failure or a block. */
  lemma NotedNeverBad(st: Store, p: Planner, step: Step, force: bool, dry: Cells)
    requires Plan(p, step, dry).Some? && !AnyBad(dry) && !step.declarative
    ensures forall k :: k in Noted(st, p, step, force, dry) ==> !Bad(Noted(st, p, step, force, dry)[k])
  {
    hide PlanOn, DryCell, Reuses, Bad, Noted, FansOut, DryChildren;
    var ts, own := Plan(p, step, dry).value, Noted(st, p, step, force, dry);
    TargetsNotBlocked(p, step, dry);
    TargetsUtil(p, step, dry);
    forall k | k in own ensures !Bad(own[k]) {
      NotedHere(st, p, step, force, dry);
      NotedCell(st, p, step, force, dry, k.0);
      NotBadKinds(own[k]);
      if Child(st, p, step, force, ts, k.0) {
        ReplayedAreHits(st, p, step, force, ts, k.0.h);
      } else if k.0 in ts && !FansOut(st, p, step, force, ts[k.0]) {
        DryCellKinds(st, p, step, force, ts[k.0]);
      }
    }
  }

  lemma StillNoneBad(cells: Cells, more: Cells)
    requires !AnyBad(cells) && forall k :: k in more ==> !Bad(more[k])
    ensures !AnyBad(cells + more)
  {
  }

  lemma NotBadKinds(cell: Cell)
    ensures cell.Pending? ==> !Bad(cell)
  {
  }

  lemma ReplayedAreHits(st: Store, p: Planner, step: Step, force: bool, ts: map<Coord, Target>, h: Hash)
    requires h in DryChildren(st, p, step, force, ts)
    ensures !Bad(ReusedCell(st, ChildAddress(p.pipe, step.Identity(), h)))
  {
  }

  lemma TargetsNotBlocked(p: Planner, step: Step, cells: Cells)
    requires Plan(p, step, cells).Some? && !AnyBad(cells) && !step.declarative
    ensures forall c :: c in Plan(p, step, cells).value ==> !Plan(p, step, cells).value[c].ToBlocked?
  {
    hide PlanOn, AnyBad, Seen;
    if Collective(step) {
      NoneBad(step, cells);
      CollectiveWork(p, step, cells);
    } else {
      forall c | c in Plan(p, step, cells).value ensures !Plan(p, step, cells).value[c].ToBlocked? {
        LaneKind(p, step, cells, c);
      }
    }
  }

  /** The scope fits at every step of a legal partial run. */
  lemma ScopeFitsStep(p: Planner, steps: seq<Step>, n: nat, dry: Cells, run: Cells)
    requires Plannable(p, steps) && n < |steps| && Below(p, steps, n, dry, run)
    ensures ScopeFits(p, CoordsOf(steps[..n]), steps[n], dry, run)
  {
    hide AnyBad, AnyPending, BelowAt, AtCoords, CoordsOf, Unmixed, KeysWithin, NoExtras, Together, AllKept;
    if p.scope.Cohort? {
      var step, anchor := steps[n], p.scope.anchor;
      CarrierSteps(steps, anchor, n);
      if step.name == anchor {
        AnchorIsFedByOthers(steps, anchor, n);
      }
      forall d | d in step.deps && p.scope.Restricts(d) ensures NoExtras(dry, run, d) {
        var j :| 0 <= j < n && steps[j].name == d;
      }
      if p.scope.Restricts(step.name) && !p.scope.Anchored(step.name) {
        CarriedFit(p, steps, n);
      }
    }
  }

  lemma CarriedFit(p: Planner, steps: seq<Step>, n: nat)
    requires Plannable(p, steps) && n < |steps| && p.scope.Restricts(steps[n].name) && !p.scope.Anchored(steps[n].name)
    ensures exists d :: d in steps[n].deps && p.scope.Restricts(d) && (d !in p.singles || Together(p, CoordsOf(steps[..n]), steps[n]))
  {
    hide CoordsOf, Unmixed, Carriers, Together, Singles;
    var anchor := p.scope.anchor;
    CarrierSteps(steps, anchor, n);
    var d :| d in steps[n].deps && d in Carriers(steps, anchor);
    var j :| 0 <= j < n && steps[j].name == d;
    if anchor in p.singles {
      SingleTogether(p, steps, n);
    } else {
      CarriersAreMany(steps, anchor, j);
    }
  }

  /** The parents of a broadcast map are broadcast, at one coordinate. */
  lemma SingleTogether(p: Planner, steps: seq<Step>, n: nat)
    requires Ordered(steps) && Unmixed(steps) && p.singles == Singles(steps)
    requires n < |steps| && steps[n].shape.Map? && steps[n].name in p.singles
    ensures Together(p, CoordsOf(steps[..n]), steps[n])
  {
    hide Ordered;
    SingleInPlace(steps, n);
    SinglesMonotone(steps, n);
  }

  /** The next step can be compared. */
  lemma ComparableNext(p: Planner, steps: seq<Step>, n: nat, dry: Cells, run: Cells)
    requires Plannable(p, steps) && n < |steps| && Below(p, steps, n, dry, run) && !AnyBad(run)
    ensures Comparable(p, CoordsOf(steps[..n]), steps[n], dry, run)
  {
    hide PlanOn, BelowAt, CoordsOf, AnyBad, AnyPending, ScopeFits, Unmixed, ScopeLegal, KeysWithin, NoExtras;
    DepsInPlace(steps, n);
    ScopeFitsStep(p, steps, n, dry, run);
    forall d | d in steps[n].deps ensures BelowAt(dry, run, d) {
      var j :| 0 <= j < n && steps[j].name == d;
    }
  }

  /** One step of the comparison. */
  lemma BelowStep(st: Store, p: Planner, steps: seq<Step>, force: bool, n: nat, dry: Cells, run: Cells, after: Cells)
    requires Plannable(p, steps) && n < |steps| && Below(p, steps, n, dry, run)
    requires Plan(p, steps[n], dry).Some? && RunStep(st, p, steps[n], force, run, after)
    requires !AnyBad(run) && !AnyBad(after)
    requires FreshNames(steps[n], dry, Plan(p, steps[n], run).value, after)
    ensures BelowAt(Noted(st, p, steps[n], force, dry), after, steps[n].name)
    ensures p.scope.Restricts(steps[n].name) ==> NoExtras(Noted(st, p, steps[n], force, dry), after, steps[n].name)
  {
    hide PlanOn, Noted, BelowAt, RunStep, CoordsOf, AnyBad, AnyPending, FreshNames, Comparable, Below, Plannable, NoExtras;
    var step, coords := steps[n], CoordsOf(steps[..n]);
    ComparableNext(p, steps, n, dry, run);
    assert RunStep(st, p, step, force, run, after);
    if step.shape.Map? {
      MapStep(st, p, coords, step, force, dry, run, after);
    } else if step.shape.Expand? {
      ExpandStep(st, p, coords, step, force, dry, run, after);
    } else {
      CollectiveStep(st, p, coords, step, force, dry, run, after);
    }
    if p.scope.Restricts(step.name) {
      ScopedNoExtras(st, p, coords, step, force, dry, run, after);
    }
  }

  /** The comparison survives the step. */
  lemma BelowGrows(st: Store, p: Planner, steps: seq<Step>, force: bool, n: nat, dry: Cells, run: Cells, after: Cells)
    requires Plannable(p, steps) && n < |steps| && Below(p, steps, n, dry, run)
    requires Plan(p, steps[n], dry).Some? && RunStep(st, p, steps[n], force, run, after)
    requires !AnyBad(run) && !AnyBad(after)
    requires FreshNames(steps[n], dry, Plan(p, steps[n], run).value, after)
    ensures Below(p, steps, n + 1, dry + Noted(st, p, steps[n], force, dry), after)
  {
    hide PlanOn, Noted, BelowAt, CoordsOf, FreshNames, LaneRan, LaneCame, Ordered, Unmixed, AtCoords, AllKept, NoExtras, ScopeLegal,
         AnyBad, AnyPending, KeysWithin;
    var own := Noted(st, p, steps[n], force, dry);
    BelowStep(st, p, steps, force, n, dry, run, after);
    NotHereYet(steps, n, dry);
    NotHereYet(steps, n, run);
    NotedHere(st, p, steps[n], force, dry);
    forall i | 0 <= i < n + 1
      ensures BelowAt(dry + own, after, steps[i].name)
      ensures p.scope.Restricts(steps[i].name) ==> NoExtras(dry + own, after, steps[i].name)
    {
      if i < n {
        EarlierDiffers(steps, i, n);
        StillBelow(p, dry, run, dry + own, after, steps[i].name);
      } else {
        StillBelow(p, own, after, dry + own, after, steps[n].name);
      }
    }
    NotedNeverBad(st, p, steps[n], force, dry);
    StillNoneBad(dry, own);
    GrowsAtCoords(st, p, steps, force, n, dry, run, after);
    GrowsKept(st, p, steps, force, n, dry, run);
    GrowsWithin(steps, n, dry, own);
    GrowsWithin(steps, n, run, after);
    Outgrown(st, p, steps[n], force, run, after);
  }

  lemma StillBelow(p: Planner, dry: Cells, run: Cells, dry': Cells, run': Cells, name: string)
    requires BelowAt(dry, run, name) && (p.scope.Restricts(name) ==> NoExtras(dry, run, name))
    requires forall c :: ((c, name) in dry' <==> (c, name) in dry) && ((c, name) in dry ==> dry'[(c, name)] == dry[(c, name)])
    requires forall c :: ((c, name) in run' <==> (c, name) in run) && ((c, name) in run ==> run'[(c, name)] == run[(c, name)])
    ensures BelowAt(dry', run', name) && (p.scope.Restricts(name) ==> NoExtras(dry', run', name))
  {
    hide BelowAt, NoExtras;
    BelowKept(dry, run, dry', run', name);
    if p.scope.Restricts(name) {
      NoExtrasKept(dry, run, dry', run', name);
    }
  }

  lemma EarlierDiffers(steps: seq<Step>, i: nat, n: nat)
    requires Ordered(steps) && i < n < |steps|
    ensures steps[i].name != steps[n].name
  {
  }

  lemma NotedHere(st: Store, p: Planner, step: Step, force: bool, dry: Cells)
    requires Plan(p, step, dry).Some?
    ensures forall k :: k in Noted(st, p, step, force, dry) ==> k.1 == step.name
  {
    hide PlanOn;
  }

  lemma GrowsWithin(steps: seq<Step>, n: nat, before: Cells, more: Cells)
    requires n < |steps| && KeysWithin(steps[..n], before)
    requires forall k :: k in more ==> k in before || k.1 == steps[n].name
    ensures KeysWithin(steps[..n + 1], before + more)
  {
    var longer := steps[..n + 1];
    forall k | k in before + more ensures exists i :: 0 <= i < |longer| && longer[i].name == k.1 {
      if k in before {
        var i :| 0 <= i < n && steps[..n][i].name == k.1;
        assert longer[i].name == k.1;
      } else {
        assert longer[n].name == k.1;
      }
    }
  }

  lemma GrowsAtCoords(st: Store, p: Planner, steps: seq<Step>, force: bool, n: nat, dry: Cells, run: Cells, after: Cells)
    requires Plannable(p, steps) && n < |steps| && Below(p, steps, n, dry, run)
    requires Plan(p, steps[n], dry).Some? && RunStep(st, p, steps[n], force, run, after)
    ensures AtCoords(CoordsOf(steps[..n + 1]), after)
  {
    hide PlanOn, Noted, BelowAt, CoordsOf, FreshNames, Ordered, Unmixed, AtCoords, AllKept, LaneRan, LaneCame;
    var step := steps[n];
    NotHereYet(steps, n, run);
    var mine := CellsAt(after, step.name);
    assert after == run + mine;
    if !step.shape.Expand? {
      NoMinting(p, step, dry);
      NoMinting(p, step, run);
      LanesOnly(st, p, step, force, dry, run, after);
      forall k | k in mine ensures k.0 in Plan(p, step, run).value {
        assert k == (k.0, step.name);
      }
    }
    StillAtCoords(p, steps, n, run, mine);
  }

  /** A lane that sees a parent without an output has none in the dry run either. */
  lemma UnusableLane(st: Store, p: Planner, step: Step, force: bool, dry: Cells, c: Coord, d: string)
    requires step.shape.Map? && !step.declarative && Plan(p, step, dry).Some? && !AnyBad(dry)
    requires c in Plan(p, step, dry).value && d in Seen(p, step, dry, c) && !Usable(Seen(p, step, dry, c)[d])
    ensures !Usable(DryCell(st, p, step, force, Plan(p, step, dry).value[c]))
  {
    hide PlanOn, Seen, AnyBad, DryCell, Usable, IsFiltered, Reuses;
    LaneKind(p, step, dry, c);
    TargetsUtil(p, step, dry);
    DryCellKinds(st, p, step, force, Plan(p, step, dry).value[c]);
  }

  /** A step with a parent of which the dry run knows no output. */
  lemma FedByNone(st: Store, p: Planner, step: Step, force: bool, dry: Cells, d: string)
    requires step.shape.Map? && !step.declarative && Plan(p, step, dry).Some? && !AnyBad(dry)
    requires d in step.deps && NoUsable(dry, d)
    ensures NoUsable(Noted(st, p, step, force, dry), step.name)
  {
    hide PlanOn, Seen, AnyBad, DryCell, Usable, Noted;
    var own := Noted(st, p, step, force, dry);
    MapTargets(p, step, dry);
    NotedLanes(st, p, step, force, dry);
    LanePlan(p, step, dry);
    forall c ensures !HasUsable(own, c, step.name) {
      if c in Plan(p, step, dry).value {
        var at := SeenFrom(p, step, dry, c, d);
        assert !HasUsable(dry, at, d);
        UnusableLane(st, p, step, force, dry, c, d);
      } else if (c, step.name) in own {
        PendingKinds(own[(c, step.name)]);
      }
    }
  }

  /** A broadcast anchor with placeholders has a pending parent, so the dry run knows no output of it. */
  lemma PlaceholdersOnly(p: Planner, coords: map<string, Coord>, step: Step, dry: Cells)
    requires AnyPending(ParentCells(step, dry)) && !AnyBad(dry)
    requires Together(p, coords, step) && forall d :: d in step.deps ==> OnCoord(coords, dry, d)
    ensures exists d :: d in step.deps && NoUsable(dry, d)
  {
    var k :| k in ParentCells(step, dry) && ParentCells(step, dry)[k].Pending?;
    var d := k.1;
    forall c ensures !HasUsable(dry, c, d) {
      if (c, d) in dry {
        assert c == coords[d] == k.0 && k == (c, d);
      }
    }
  }

  /** What a single step notes is at its coordinate, or it carries the cohort and has no output. */
  lemma NotedKept(st: Store, p: Planner, steps: seq<Step>, force: bool, n: nat, dry: Cells, run: Cells)
    requires Plannable(p, steps) && n < |steps| && Below(p, steps, n, dry, run) && Plan(p, steps[n], dry).Some?
    requires ScopeFits(p, CoordsOf(steps[..n]), steps[n], dry, run)
    requires steps[n].name in CoordsOf(steps[..n + 1]) && steps[n].name !in CoordsOf(steps[..n])
    ensures Kept(p, CoordsOf(steps[..n + 1]), Noted(st, p, steps[n], force, dry), steps[n].name)
  {
    hide PlanOn, Noted, CoordsOf, AnyBad, AnyPending, BelowAt, AtCoords, NoUsable, NoExtras, KeysWithin, DryCell;
    var step, before := steps[n], CoordsOf(steps[..n]);
    SinglesMonotone(steps, n + 1);
    SingleNotExpand(steps, n);
    if step.shape.Map? {
      SingleTogether(p, steps, n);
      DepsInPlace(steps, n);
      if d :| d in step.deps && !OnCoord(before, dry, d) {
        assert Kept(p, before, dry, d);
        FedByNone(st, p, step, force, dry, d);
      } else if p.scope.Anchored(step.name) && AnyPending(ParentCells(step, dry)) {
        PlaceholdersOnly(p, before, step, dry);
        var d :| d in step.deps && NoUsable(dry, d);
        FedByNone(st, p, step, force, dry, d);
      } else {
        LanesAtCoord(st, p, steps, force, n, dry);
      }
    } else {
      CollectiveAtCoord(st, p, steps, force, n, dry);
    }
  }

  lemma LanesAtCoord(st: Store, p: Planner, steps: seq<Step>, force: bool, n: nat, dry: Cells)
    requires Plannable(p, steps) && n < |steps| && Plan(p, steps[n], dry).Some? && steps[n].shape.Map?
    requires steps[n].name in CoordsOf(steps[..n + 1]) && steps[n].name !in CoordsOf(steps[..n])
    requires forall d :: d in steps[n].deps ==> OnCoord(CoordsOf(steps[..n]), dry, d)
    requires p.scope.Anchored(steps[n].name) ==> !AnyPending(ParentCells(steps[n], dry))
    ensures OnCoord(CoordsOf(steps[..n + 1]), Noted(st, p, steps[n], force, dry), steps[n].name)
  {
    hide PlanOn, CoordsOf, AnyPending, DryCell, Unmixed, ScopeLegal;
    var step, own := steps[n], ParentCells(steps[n], dry);
    assert ParentCells(step, own) == own;
    assert AtCoords(CoordsOf(steps[..n]), own);
    SinglePlan(p, steps, n, own);
    MapTargets(p, step, dry);
    NotedWithin(st, p, step, force, dry);
  }

  lemma NotedWithin(st: Store, p: Planner, step: Step, force: bool, dry: Cells)
    requires Plan(p, step, dry).Some? && forall c :: c in Plan(p, step, dry).value ==> !Plan(p, step, dry).value[c].ToMint?
    requires p.scope.Anchored(step.name) ==> !AnyPending(ParentCells(step, dry))
    ensures forall c :: (c, step.name) in Noted(st, p, step, force, dry) ==> c in Plan(p, step, dry).value
  {
    hide PlanOn, AnyPending, DryCell;
    assert DryChildren(st, p, step, force, Plan(p, step, dry).value) == {};
  }

  lemma CollectiveAtCoord(st: Store, p: Planner, steps: seq<Step>, force: bool, n: nat, dry: Cells)
    requires Plannable(p, steps) && n < |steps| && Plan(p, steps[n], dry).Some? && !steps[n].shape.Map?
    requires p.scope.Anchored(steps[n].name) ==> steps[n].shape.Map?
    requires steps[n].name in CoordsOf(steps[..n + 1]) && steps[n].name !in CoordsOf(steps[..n])
    ensures OnCoord(CoordsOf(steps[..n + 1]), Noted(st, p, steps[n], force, dry), steps[n].name)
  {
    hide PlanOn, AnyPending, DryCell, Unmixed, ScopeLegal;
    assert steps[..n + 1][..n] == steps[..n] && steps[..n + 1][n] == steps[n];
    AllPlan(p, steps[n], dry);
    NoMinting(p, steps[n], dry);
    NotedWithin(st, p, steps[n], force, dry);
  }

  lemma GrowsKept(st: Store, p: Planner, steps: seq<Step>, force: bool, n: nat, dry: Cells, run: Cells)
    requires Plannable(p, steps) && n < |steps| && Below(p, steps, n, dry, run) && Plan(p, steps[n], dry).Some?
    ensures AllKept(p, CoordsOf(steps[..n + 1]), dry + Noted(st, p, steps[n], force, dry))
  {
    hide PlanOn, Noted, BelowAt, CoordsOf, Ordered, Unmixed, AtCoords, AnyBad, AnyPending, NoExtras, ScopeLegal, KeysWithin,
         Kept, ScopeFits;
    var own, longer := Noted(st, p, steps[n], force, dry), CoordsOf(steps[..n + 1]);
    ScopeFitsStep(p, steps, n, dry, run);
    NotHereYet(steps, n, dry);
    NotedHere(st, p, steps[n], force, dry);
    CoordsGrow(steps, n);
    forall name | name in longer ensures Kept(p, longer, dry + own, name) {
      if name == steps[n].name {
        NewName(steps, n);
        NotedKept(st, p, steps, force, n, dry, run);
        SameKept(p, longer, own, longer, dry + own, name);
      } else {
        SameKept(p, CoordsOf(steps[..n]), dry, longer, dry + own, name);
      }
    }
  }

  lemma CoordsGrow(steps: seq<Step>, n: nat)
    requires n < |steps|
    ensures var before, longer := CoordsOf(steps[..n]), CoordsOf(steps[..n + 1]);
            forall name :: name in longer && name != steps[n].name ==> name in before && before[name] == longer[name]
  {
    assert steps[..n + 1][..n] == steps[..n] && steps[..n + 1][n] == steps[n];
  }

  lemma NewName(steps: seq<Step>, n: nat)
    requires Ordered(steps) && n < |steps|
    ensures steps[n].name !in CoordsOf(steps[..n])
  {
    if steps[n].name in CoordsOf(steps[..n]) {
      EarlierName(steps, n, steps[n].name);
      assert false;
    }
  }

  lemma SameKept(p: Planner, coords: map<string, Coord>, cells: Cells, coords': map<string, Coord>, cells': Cells, name: string)
    requires name in coords && name in coords' && coords[name] == coords'[name] && Kept(p, coords, cells, name)
    requires forall c :: ((c, name) in cells' <==> (c, name) in cells) && ((c, name) in cells ==> cells'[(c, name)] == cells[(c, name)])
    ensures Kept(p, coords', cells', name)
  {
    hide Usable;
    if NoUsable(cells, name) {
      forall c ensures !HasUsable(cells', c, name) {
        assert !HasUsable(cells, c, name);
      }
    }
  }

  lemma Outgrown(st: Store, p: Planner, step: Step, force: bool, run: Cells, after: Cells)
    requires RunStep(st, p, step, force, run, after)
    ensures run + after == after
    ensures !AnyPending(run) ==> !AnyPending(after)
  {
    hide PlanOn, LaneRan, LaneCame;
    if !AnyPending(run) {
      forall k | k in after ensures !after[k].Pending? {
        assert k == (k.0, k.1);
      }
    }
  }

  /** After any number of steps, what the dry run knows is what the run found. */
  lemma {:induction false} DryRunBelowRun(st: Store, p: Planner, steps: seq<Step>, force: bool, x: Execution, n: nat)
    requires Plannable(p, steps) && Comparing(st, p, steps, force, x) && NamesFresh(st, p, steps, force, x)
    requires n < |x.cells| && Dry(st, p, steps[..n], force).Some?
    ensures Below(p, steps, n, Dry(st, p, steps[..n], force).value, x.cells[n])
  {
    hide PlanOn, Noted, RunStep, RunStepAt, FreshNames, Below, DryCells, AnyBad, KeepsGate;
    if n == 0 {
      NothingKnown(p, steps);
    } else {
      var m := n - 1;
      DryNext(st, p, steps, force, m);
      DryRunBelowRun(st, p, steps, force, x, m);
      RanAtOnce(st, x.stores[m], p, steps[m], force, x.cells[m], x.cells[n]);
      assert Plan(p, steps[m], x.cells[m]).Some? by { RunPlans(st, p, steps[m], force, x.cells[m], x.cells[n]); }
      BelowGrows(st, p, steps, force, m, Dry(st, p, steps[..m], force).value, x.cells[m], x.cells[n]);
    }
  }

  lemma RunPlans(st: Store, p: Planner, step: Step, force: bool, before: Cells, after: Cells)
    requires RunStep(st, p, step, force, before, after)
    ensures Plan(p, step, before).Some?
  {
  }

  lemma NothingKnown(p: Planner, steps: seq<Step>)
    ensures Below(p, steps, 0, map[], map[])
  {
  }

  /** The reuse decisions of one step carry over. */
  lemma ReuseCarriesOver(st: Store, p: Planner, coords: map<string, Coord>, step: Step, force: bool,
                         dry: Cells, run: Cells, c: Coord)
    requires Comparable(p, coords, step, dry, run) && Plan(p, step, dry).Some? && Plan(p, step, run).Some?
    requires c in Plan(p, step, dry).value && Reuses(st, p, step, force, Plan(p, step, dry).value[c])
    ensures c in Plan(p, step, run).value && Plan(p, step, run).value[c] == Plan(p, step, dry).value[c]
  {
    hide PlanOn, Seen, Usable, IsFiltered, AnyBad, AnyPending, ParentCells;
    if Collective(step) {
      CollectiveSame(p, coords, step, dry, run);
      if AnyPending(ParentCells(step, dry)) {
        NoneBad(step, dry);
        NoneBad(step, run);
        NonePending(step, run);
        CollectivePending(p, step, ParentCells(step, dry), ParentCells(step, run));
      }
    } else {
      LaneKind(p, step, dry, c);
      KnownLane(p, coords, step, dry, run, c);
    }
  }

  /**
   Dry-run soundness.  Whatever plan() calls reuse at a step that a run from the same store and
   arguments gets to plan, the run decides to reuse, at the same address, in whatever order its
   lanes were looked up, provided no executed lane failed.
   */
  lemma PlannedReuseIsReuse(st: Store, p: Planner, steps: seq<Step>, force: bool, x: Execution, n: nat, c: Coord)
    requires Plannable(p, steps) && Comparing(st, p, steps, force, x) && NamesFresh(st, p, steps, force, x)
    requires n < |x.cells| && n < |steps| && Plan(p, steps[n], x.cells[n]).Some?
    requires Dry(st, p, steps[..n + 1], force).Some?
    ensures Dry(st, p, steps[..n], force).Some?
    ensures var dry := Dry(st, p, steps[..n], force).value;
            Plan(p, steps[n], dry).Some?
            && (var planned, decided := Plan(p, steps[n], dry).value, Plan(p, steps[n], x.cells[n]).value;
                c in planned && Reuses(st, p, steps[n], force, planned[c]) ==>
                  c in decided && decided[c] == planned[c] && Reuses(x.stores[n](c), p, steps[n], force, decided[c]))
  {
    hide PlanOn, Noted, RunStep, RunStepAt, FreshNames, Below, DryCells, AnyBad, KeepsGate, Reuses, Addressed, BelowAt;
    DryNext(st, p, steps, force, n);
    DryRunBelowRun(st, p, steps, force, x, n);
    var dry, run := Dry(st, p, steps[..n], force).value, x.cells[n];
    var planned := Plan(p, steps[n], dry).value;
    if c in planned && Reuses(st, p, steps[n], force, planned[c]) {
      ComparableNext(p, steps, n, dry, run);
      ReuseCarriesOver(st, p, CoordsOf(steps[..n]), steps[n], force, dry, run, c);
      PlansOwnAddresses(p, steps[n], dry);
      KeptDecision(st, x.stores[n](c), p, steps[n], force, planned[c]);
    }
  }

  // ---------------------------------------------------------------------------
  // deterministic runs are among the runs the theorem is about
  // ---------------------------------------------------------------------------

  ghost predicate NamedApart(w: World, ts: map<Coord, Target>) {
    forall c, h :: c in ts && h in AllChildren(w, ts) ==> c != Row(h)
  }

  /** No lane row is where a lane of this plan has its anchor. */
  ghost predicate AnchorsFree(st: Store, ts: map<Coord, Target>) {
    forall c :: c in ts && ts[c].ToMint? ==> LatestRow(st, ts[c].anchor).None?
  }

  /** A row found at an address holds the cell that executing the address would leave. */
  lemma ReusedIsOutcome(w: World, st: Store, a: Address)
    requires StoreInv(w, st) && Hit(st, a).Some?
    ensures ReusedCell(st, a) == OutcomeCell(w, a, Expected(w, a))
  {
    hide StoreInv, Expected;
    HitIsExpected(w, st, a);
  }

  lemma ReplayIsMinting(w: World, st: Store, p: Planner, step: Step, force: bool, t: Target)
    requires StoreInv(w, st) && FansOut(st, p, step, force, t) && LatestRow(st, t.anchor).None?
    ensures Minting(w, t).Some? && forall h :: h in ReusedChildren(st, p, step, t) <==> h in Minting(w, t).value
  {
    hide StoreInv, AnchorOf, LatestRow, ReplayedChildren;
    AnchorIsListed(st, p, step.Identity(), t.anchor);
    AnchorHitIsExpected(w, st, t.anchor);
  }

  ghost predicate Holds(after: Cells, own: Cells, name: string) {
    && (forall k: Key :: k.1 == name ==> (k in after <==> k in own))
    && (forall k :: k in own ==> k in after && after[k] == own[k])
  }

  lemma HeldThere(after: Cells, own: Cells, k: Key)
    requires Holds(after, own, k.1) && k in after
    ensures k in own
  {
  }

  lemma DeterministicReplay(w: World, st: Store, p: Planner, step: Step, force: bool, ts: map<Coord, Target>, c: Coord, after: Cells)
    requires StoreInv(w, st) && Apart(w, ts) && NamedApart(w, ts) && AnchorsFree(st, ts) && c in ts
    requires Holds(after, StepCells(w, p.pipe, step, ts), step.name) && FansOut(st, p, step, force, ts[c])
    ensures LaneRan(st, p, step, force, c, ts[c], after)
  {
    hide StoreInv, AnchorOf, Expected, Hit, ReplayedChildren, ReusedChildren, ReusedCell, StepCells, ChildCell, Apart, LatestRow;
    ReplayIsMinting(w, st, p, step, force, ts[c]);
    NoLaneThere(w, p.pipe, step, ts, c);
    forall h | h in ReusedChildren(st, p, step, ts[c])
      ensures (Row(h), step.name) in after
      ensures after[(Row(h), step.name)] == ReusedCell(st, ChildAddress(p.pipe, step.Identity(), h))
    {
      ProducedInStep(w, p.pipe, step, ts, c, (Row(h), step.name));
      ReplayedHit(st, p, step, ts[c], h);
      ReusedIsOutcome(w, st, ChildAddress(p.pipe, step.Identity(), h));
      ChildIsOutcome(w, p.pipe, step, h);
    }
  }

  lemma ChildIsOutcome(w: World, pipe: string, step: Step, h: Hash)
    ensures var a := ChildAddress(pipe, step.Identity(), h);
            ChildCell(w, pipe, step.Identity(), h) == OutcomeCell(w, a, Expected(w, a))
  {
  }

  lemma NoLaneThere(w: World, pipe: string, step: Step, ts: map<Coord, Target>, c: Coord)
    requires NamedApart(w, ts) && c in ts && Minting(w, ts[c]).Some?
    ensures (c, step.name) !in StepCells(w, pipe, step, ts)
  {
    hide AnchorOf, ChildCell, LaneCell;
  }

  lemma DeterministicLane(w: World, st: Store, p: Planner, step: Step, force: bool, ts: map<Coord, Target>, c: Coord, after: Cells)
    requires StoreInv(w, st) && Apart(w, ts) && NamedApart(w, ts) && AnchorsFree(st, ts) && c in ts
    requires Holds(after, StepCells(w, p.pipe, step, ts), step.name)
    ensures LaneRan(st, p, step, force, c, ts[c], after)
  {
    hide StoreInv, AnchorOf, Expected, Hit, ReplayedChildren, ReusedChildren, ReusedCell, StepCells, Apart, NamedApart, AnchorsFree, ChildCell, OutcomeCell;
    var k := (c, step.name);
    if FansOut(st, p, step, force, ts[c]) {
      DeterministicReplay(w, st, p, step, force, ts, c, after);
    } else if Minting(w, ts[c]).None? {
      ProducedInStep(w, p.pipe, step, ts, c, k);
      if ts[c].ToWork? && Reuses(st, p, step, force, ts[c]) {
        ReusedIsOutcome(w, st, ts[c].address);
      }
    } else {
      NoLaneThere(w, p.pipe, step, ts, c);
    }
  }

  lemma ReplayedHit(st: Store, p: Planner, step: Step, t: Target, h: Hash)
    requires t.ToMint? && h in ReusedChildren(st, p, step, t)
    ensures Hit(st, ChildAddress(p.pipe, step.Identity(), h)).Some?
  {
    hide Hit, ReplayedChildren;
    ReplayedAreLive(st, p, step.Identity(), t.anchor);
  }

  lemma DeterministicCell(w: World, st: Store, p: Planner, step: Step, force: bool, ts: map<Coord, Target>, c: Coord, after: Cells)
    requires StoreInv(w, st) && NamedApart(w, ts) && AnchorsFree(st, ts)
    requires Holds(after, StepCells(w, p.pipe, step, ts), step.name)
    requires (c, step.name) in after
    ensures LaneCame(st, p, step, force, ts, c, after)
  {
    hide StoreInv, AnchorOf, Expected, ReplayedChildren, ReusedChildren, ChildCell, LaneCell, LatestRow, Hit, NamedApart, StepCells, Holds;
    assert (c, step.name) in StepCells(w, p.pipe, step, ts) by { HeldThere(after, StepCells(w, p.pipe, step, ts), (c, step.name)); }
    var e := StepIsProduced(w, p.pipe, step, ts, (c, step.name));
    if FansOut(st, p, step, force, ts[e]) {
      ReplayIsMinting(w, st, p, step, force, ts[e]);
      assert c.Row? && c.h in ReusedChildren(st, p, step, ts[e]);
      assert c.h in DryChildren(st, p, step, force, ts);
    } else if Minting(w, ts[e]).Some? {
      assert Executes(st, p, step, force, ts[e]);
    }
  }

  /** A step of the deterministic run is such a step, whatever the store holds. */
  lemma DeterministicRunStep(w: World, st: Store, p: Planner, step: Step, force: bool, before: Cells)
    requires StoreInv(w, st) && Plan(p, step, before).Some? && !AnyPending(before)
    requires Apart(w, Plan(p, step, before).value) && NamedApart(w, Plan(p, step, before).value)
    requires AnchorsFree(st, Plan(p, step, before).value)
    requires forall k :: k in before ==> k.1 != step.name
    ensures RunStep(st, p, step, force, before, before + StepCells(w, p.pipe, step, Plan(p, step, before).value))
  {
    hide PlanOn, StoreInv, Apart, NamedApart, AnchorsFree, LaneRan, LaneCame, StepCells, AnyPending;
    var ts := Plan(p, step, before).value;
    var own := StepCells(w, p.pipe, step, ts);
    var after := before + own;
    forall c | c in ts ensures LaneRan(st, p, step, force, c, ts[c], after) {
      DeterministicLane(w, st, p, step, force, ts, c, after);
    }
    forall c | (c, step.name) in after ensures LaneCame(st, p, step, force, ts, c, after) {
      DeterministicCell(w, st, p, step, force, ts, c, after);
    }
    PlanNeverPends(p, step, before);
    TargetsUtil(p, step, before);
    StepCellsNeverPend(w, p.pipe, step, before, ts);
    NoneOfThem(after);
  }

  lemma NoneOfThem(cells: Cells)
    requires !AnyPending(cells)
    ensures forall k :: k in cells ==> !cells[k].Pending?
  {
  }
}
