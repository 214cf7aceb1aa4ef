/**
 How far a segment has come: which of its cells are planned, in flight, settled, or owed.

 Everything here is about values; the `Scheduler` module keeps `Progress` as the invariant
 of the segment executor.
 */
module Progress {
  import opened Model
  import opened Meaning
  import opened Ledger
  import opened Determined
  import opened Planning
  import opened Clean
  import opened Script

  /** A planned cell of the segment: (step index, lane). */
  type Slot = (nat, Coord)

  datatype Job = Job(step: nat, coord: Coord, target: Target)
  {
    function Slot(): Slot {
      (step, coord)
    }
  }

  /**
   What planning one slot came to: its target, whether that was reused, and how many events the
   run had caused when it looked the target up.
   */
  datatype Decision = Decision(slot: Slot, target: Target, reused: bool, at: nat)

  /**
   The fixed part of a segment's execution; `past` holds the decisions of earlier segments, and
   `from` is the store they left.
   */
  datatype Segment = Segment(w: World, p: Planner, steps: seq<Step>, lo: nat, hi: nat, plans: Plans, goal: Cells,
                             past: seq<Decision>, from: Store)
  {
    predicate Bounds() {
      lo < hi <= |steps| && forall i :: lo <= i < hi ==> i in plans
    }

    ghost predicate Valid() {
      && Bounds()
      && SegmentOk(steps, lo, hi)
      && Ordered(steps)
      && Scripted(w, p, steps, lo, hi, plans, goal)
      && Uniform(p.singles, goal)
    }

    function Names(): set<string>
      requires hi <= |steps|
    {
      set i | lo <= i < hi :: steps[i].name
    }

    predicate HasSlot(s: Slot) {
      lo <= s.0 < hi <= |steps| && s.0 in plans && s.1 in plans[s.0]
    }

    function Cells(s: Slot): Cells
      requires HasSlot(s)
    {
      Produced(w, p.pipe, steps[s.0], s.1, plans[s.0][s.1])
    }

    /** Slots of the segment that read a cell of step i. */
    predicate Reads(i: nat, s: Slot)
      requires hi <= |steps|
    {
      lo <= i < hi && HasSlot(s) && Feeds(steps, i, s.0)
    }
  }

  datatype State = State(cells: Cells, planned: set<Slot>, jobs: set<Job>, todo: set<Slot>)

  predicate InFlight(st: State, s: Slot) {
    exists j :: j in st.jobs && j.Slot() == s
  }

  /** Not settled yet: still to be planned, or planned and in flight. */
  predicate Open(st: State, s: Slot) {
    s !in st.planned || InFlight(st, s)
  }

  /** The cells so far are the goal's. */
  ghost predicate WithinGoal(g: Segment, st: State) {
    forall k :: k in st.cells ==> k in g.goal && g.goal[k] == st.cells[k]
  }

  ghost predicate SlotsKnown(g: Segment, st: State) {
    && (forall s :: s in st.planned + st.todo ==> g.HasSlot(s))
    && st.todo !! st.planned
    && (forall j :: j in st.jobs ==>
          j.Slot() in st.planned && g.HasSlot(j.Slot()) && j.target == g.plans[j.step][j.coord]
          && (j.target.ToWork? || j.target.ToMint?))
  }

  /** A planned slot that is not in flight has left all its cells. */
  ghost predicate Settled(g: Segment, st: State) {
    forall s :: s in st.planned && g.HasSlot(s) && !InFlight(st, s) ==> g.Cells(s).Keys <= st.cells.Keys
  }

  /** An open slot has left none (an expand fed by other lanes may share children). */
  ghost predicate Unsettled(g: Segment, st: State) {
    forall s: Slot :: g.HasSlot(s) && !g.steps[s.0].DependentExpand() && Open(st, s) ==> g.Cells(s).Keys !! st.cells.Keys
  }

  /** A lane's consumers are planned, or owed, exactly when the lane's cell is there. */
  ghost predicate Covered(g: Segment, st: State)
    requires g.Bounds()
  {
    forall i: nat, s: Slot :: g.Reads(i, s) ==>
      (s in st.planned + st.todo <==> (s.1, g.steps[i].name) in st.cells)
  }

  ghost predicate Invariant(g: Segment, st: State) {
    && g.Valid()
    && WithinGoal(g, st)
    && SlotsKnown(g, st)
    && Settled(g, st)
    && Unsettled(g, st)
    && Covered(g, st)
  }

  /** The consumer slots unblocked by new cells of step i. */
  ghost function Unblocked(g: Segment, i: nat, cells: Cells): set<Slot>
    requires g.Bounds()
  {
    set k, j | k in cells && g.lo <= j < g.hi && g.Reads(i, (j, k.0)) && k.1 == g.steps[i].name :: (j, k.0)
  }

  ghost function Dispatched(g: Segment, st: State, s: Slot): State
    requires g.HasSlot(s)
  {
    State(st.cells, st.planned + {s}, st.jobs + {Job(s.0, s.1, g.plans[s.0][s.1])}, st.todo - {s})
  }

  ghost function Settle(g: Segment, st: State, s: Slot): State
    requires g.Bounds() && g.HasSlot(s)
  {
    var own := g.Cells(s);
    State(st.cells + own, st.planned + {s}, st.jobs - {Job(s.0, s.1, g.plans[s.0][s.1])},
          st.todo - {s} + Unblocked(g, s.0, own))
  }

  // ---------------------------------------------------------------------------
  // planning a slot that has to execute
  // ---------------------------------------------------------------------------

  lemma DispatchKeeps(g: Segment, st: State, s: Slot)
    requires Invariant(g, st) && g.HasSlot(s) && s !in st.planned
    requires g.plans[s.0][s.1].ToWork? || g.plans[s.0][s.1].ToMint?
    requires s in st.todo || !Inner(g.steps, g.lo, g.hi, s.0)
    ensures Invariant(g, Dispatched(g, st, s))
  {
    hide Scripted, SegmentOk, Ordered, Produced;
    var job := Job(s.0, s.1, g.plans[s.0][s.1]);
    var next := Dispatched(g, st, s);
    assert job in next.jobs && job.Slot() == s;
    forall s' | InFlight(st, s') ensures InFlight(next, s') {
      var j :| j in st.jobs && j.Slot() == s';
      assert j in next.jobs;
    }
    forall i: nat, r: Slot | g.Reads(i, r) && r == s ensures s in st.todo {
      assert Feeds(g.steps, i, s.0);
    }
  }

  // ---------------------------------------------------------------------------
  // settling a slot
  // ---------------------------------------------------------------------------

  /** The goal has the slot's cells. */
  lemma SlotInGoal(g: Segment, s: Slot)
    requires g.Valid() && g.HasSlot(s)
    ensures forall k :: k in g.Cells(s) ==> k.1 == g.steps[s.0].name && k in g.goal && g.goal[k] == g.Cells(s)[k]
  {
    hide StepCells, Apart, SegmentOk, Ordered, PlanOn, Separated, LaneScript;
    var step, ts := g.steps[s.0], g.plans[s.0];
    assert StepScript(g.w, g.p, step, ts, g.goal);
    forall k | k in g.Cells(s)
      ensures k.1 == step.name && k in g.goal && g.goal[k] == g.Cells(s)[k]
    {
      ProducedInStep(g.w, g.p.pipe, step, ts, s.1, k);
      assert k in CellsAt(g.goal, step.name);
      assert CellsAt(g.goal, step.name)[k] == g.goal[k];
    }
  }

  /** Slots do not share cells, except children of an expand fed by other lanes. */
  lemma SlotsApart(g: Segment, s: Slot, r: Slot, k: Key)
    requires g.Valid() && g.HasSlot(s) && g.HasSlot(r) && s != r && !g.steps[r.0].DependentExpand()
    requires k in g.Cells(s)
    ensures k !in g.Cells(r)
  {
    hide Apart, SegmentOk, PlanOn, LaneScript, Produced;
    SlotInGoal(g, s);
    SlotInGoal(g, r);
    assert StepScript(g.w, g.p, g.steps[r.0], g.plans[r.0], g.goal);
    if s.0 == r.0 {
      assert s.1 != r.1;
    } else {
      assert g.steps[s.0].name != g.steps[r.0].name;
    }
  }

  lemma SettleFlight(g: Segment, st: State, s: Slot)
    requires g.Bounds() && SlotsKnown(g, st) && g.HasSlot(s)
    ensures !InFlight(Settle(g, st, s), s)
    ensures forall r :: r != s ==> (InFlight(Settle(g, st, s), r) <==> InFlight(st, r))
  {
    hide Produced, Unblocked;
    var job := Job(s.0, s.1, g.plans[s.0][s.1]);
    var next := Settle(g, st, s);
    assert next.jobs == st.jobs - {job};
    forall r | r != s && InFlight(st, r) ensures InFlight(next, r) {
      var j :| j in st.jobs && j.Slot() == r;
      assert j in next.jobs;
    }
  }

  lemma SettleKeepsGoal(g: Segment, st: State, s: Slot)
    requires Invariant(g, st) && g.HasSlot(s)
    ensures WithinGoal(g, Settle(g, st, s))
  {
    hide Produced, Unblocked, Settled, Unsettled, Covered;
    SlotInGoal(g, s);
  }

  lemma SettleKeepsSettled(g: Segment, st: State, s: Slot)
    requires Invariant(g, st) && g.HasSlot(s)
    ensures Settled(g, Settle(g, st, s)) && Unsettled(g, Settle(g, st, s))
  {
    hide Produced, Unblocked, Scripted, SegmentOk, Ordered, Covered;
    SettleFlight(g, st, s);
    var next := Settle(g, st, s);
    assert next.cells == st.cells + g.Cells(s);
    forall r: Slot | g.HasSlot(r) && !g.steps[r.0].DependentExpand() && Open(next, r)
      ensures g.Cells(r).Keys !! next.cells.Keys
    {
      assert r != s && Open(st, r);
      forall k | k in g.Cells(s) ensures k !in g.Cells(r) {
        SlotsApart(g, s, r, k);
      }
    }
  }

  /** In a segment of several steps, an open slot's cells are all new. */
  lemma NewCells(g: Segment, st: State, s: Slot, i: nat, r: Slot)
    requires Invariant(g, st) && g.HasSlot(s) && Open(st, s) && g.Reads(s.0, r)
    ensures g.Cells(s).Keys !! st.cells.Keys
  {
    hide Produced, Scripted, Settled, Covered, WithinGoal;
    InnerIsLane(g.steps, g.lo, g.hi, s.0, r.0);
    assert !g.steps[s.0].DependentExpand();
  }

  lemma SettleKeepsSlots(g: Segment, st: State, s: Slot)
    requires Invariant(g, st) && g.HasSlot(s) && Open(st, s)
    ensures SlotsKnown(g, Settle(g, st, s))
  {
    hide Produced, Scripted, SegmentOk, Ordered, WithinGoal, Settled, Unsettled;
    var next := Settle(g, st, s);
    var unlocked := Unblocked(g, s.0, g.Cells(s));
    forall r | r in unlocked ensures g.HasSlot(r) && r !in st.planned && r != s {
      FreshConsumer(g, st, s, r);
    }
    assert next.planned == st.planned + {s} && next.todo == st.todo - {s} + unlocked;
  }

  lemma FreshConsumer(g: Segment, st: State, s: Slot, r: Slot)
    requires Invariant(g, st) && g.HasSlot(s) && Open(st, s) && r in Unblocked(g, s.0, g.Cells(s))
    ensures g.HasSlot(r) && r !in st.planned && r != s
  {
    hide Produced, Scripted, WithinGoal, Settled, Unsettled, SegmentOk, Ordered;
    var k :| k in g.Cells(s) && g.Reads(s.0, (r.0, k.0)) && k.1 == g.steps[s.0].name && r == (r.0, k.0);
    NewCells(g, st, s, s.0, r);
    InnerIsLane(g.steps, g.lo, g.hi, s.0, r.0);
    assert (r.1, g.steps[s.0].name) !in st.cells;
  }

  lemma SettleKeepsCovered(g: Segment, st: State, s: Slot)
    requires Invariant(g, st) && g.HasSlot(s) && Open(st, s)
    requires s in st.planned + st.todo || !Inner(g.steps, g.lo, g.hi, s.0)
    ensures Covered(g, Settle(g, st, s))
  {
    hide Produced, Scripted, SegmentOk, WithinGoal, Settled, Unsettled, SlotsKnown;
    var next := Settle(g, st, s);
    SlotInGoal(g, s);
    forall i: nat, r: Slot | g.Reads(i, r)
      ensures r in next.planned + next.todo <==> (r.1, g.steps[i].name) in next.cells
    {
      assert Feeds(g.steps, i, r.0);
      InnerIsLane(g.steps, g.lo, g.hi, i, r.0);
      CoveredAfter(g, st, s, i, r);
    }
  }

  lemma CoveredAfter(g: Segment, st: State, s: Slot, i: nat, r: Slot)
    requires Invariant(g, st) && g.HasSlot(s) && Open(st, s) && g.Reads(i, r)
    requires s in st.planned + st.todo || !Inner(g.steps, g.lo, g.hi, s.0)
    requires i < r.0 && g.steps[r.0].deps == [g.steps[i].name]
    requires forall k :: k in g.Cells(s) ==> k.1 == g.steps[s.0].name
    ensures var next := Settle(g, st, s);
            r in next.planned + next.todo <==> (r.1, g.steps[i].name) in next.cells
  {
    hide Produced, Scripted, SegmentOk, WithinGoal, Settled, Unsettled, SlotsKnown;
    var key := (r.1, g.steps[i].name);
    var own := g.Cells(s);
    if key in own {
      assert i == s.0;
      assert r in Unblocked(g, s.0, own);
    }
    if r in Unblocked(g, s.0, own) {
      var k :| k in own && g.Reads(s.0, (r.0, k.0)) && k.1 == g.steps[s.0].name && r == (r.0, k.0);
      assert g.steps[s.0].name == g.steps[i].name;
      assert k == key;
    }
    if r == s {
      assert Feeds(g.steps, i, s.0);
    }
  }

  /** Settling an open slot with the cells the clean run gives it keeps the invariant. */
  lemma SettleKeeps(g: Segment, st: State, s: Slot)
    requires Invariant(g, st) && g.HasSlot(s) && Open(st, s)
    requires s in st.planned + st.todo || !Inner(g.steps, g.lo, g.hi, s.0)
    ensures Invariant(g, Settle(g, st, s))
  {
    hide Produced, Scripted, SegmentOk, Ordered, Settle, WithinGoal, Settled, Unsettled, Covered, SlotsKnown;
    SettleKeepsGoal(g, st, s);
    SettleKeepsSettled(g, st, s);
    SettleKeepsSlots(g, st, s);
    SettleKeepsCovered(g, st, s);
  }

  // ---------------------------------------------------------------------------
  // the end of the segment
  // ---------------------------------------------------------------------------

  /** The heads of the segment, whose parents all lie outside it, have been planned whole. */
  ghost predicate HeadsPlanned(g: Segment, st: State, upTo: nat)
    requires g.Bounds() && upTo <= g.hi
  {
    forall s: Slot :: g.HasSlot(s) && s.0 < upTo && !Inner(g.steps, g.lo, g.hi, s.0) ==> s in st.planned
  }

  /** Nothing owed and nothing in flight: every cell of the goal is there. */
  lemma {:induction false} SegmentDone(g: Segment, st: State, n: nat)
    requires Invariant(g, st) && HeadsPlanned(g, st, g.hi) && st.jobs == {} && st.todo == {}
    requires g.lo <= n <= g.hi
    ensures forall i, k :: g.lo <= i < n && k in g.goal && k.1 == g.steps[i].name ==> k in st.cells
    ensures forall s: Slot :: g.HasSlot(s) && s.0 < n ==> s in st.planned
  {
    hide Produced, Scripted, SegmentOk, Ordered, Settled, Unsettled, Covered, SlotsKnown;
    if n > g.lo {
      var i := n - 1;
      SegmentDone(g, st, i);
      forall s: Slot | g.HasSlot(s) && s.0 == i ensures s in st.planned {
        if Inner(g.steps, g.lo, g.hi, i) {
          var h :| g.lo <= h < g.hi && g.steps[h].name in g.steps[i].deps;
          SlotPlanned(g, st, h, s);
        }
      }
      forall k | k in g.goal && k.1 == g.steps[i].name ensures k in st.cells {
        CellSettled(g, st, i, k);
      }
    }
  }

  lemma SlotPlanned(g: Segment, st: State, h: nat, s: Slot)
    requires Invariant(g, st) && st.todo == {} && g.Reads(h, s)
    requires forall k :: k in g.goal && k.1 == g.steps[h].name && h < s.0 ==> k in st.cells
    ensures s in st.planned
  {
    hide Produced, SegmentOk, Ordered, Settled, Unsettled, SlotsKnown, StepScript;
    InnerIsLane(g.steps, g.lo, g.hi, h, s.0);
    assert LaneScript(g.p, g.steps[s.0], g.steps[h].name, g.plans[s.0], g.goal);
    assert (s.1, g.steps[h].name) in g.goal;
  }

  lemma CellSettled(g: Segment, st: State, i: nat, k: Key)
    requires Invariant(g, st) && st.jobs == {} && g.lo <= i < g.hi
    requires k in g.goal && k.1 == g.steps[i].name
    requires forall s: Slot :: g.HasSlot(s) && s.0 == i ==> s in st.planned
    ensures k in st.cells
  {
    hide Produced, SegmentOk, Ordered, Unsettled, Covered, SlotsKnown, LaneScript, Apart, Separated, PlanOn, StepCells;
    assert StepScript(g.w, g.p, g.steps[i], g.plans[i], g.goal);
    assert k in CellsAt(g.goal, g.steps[i].name);
    var c := StepIsProduced(g.w, g.p.pipe, g.steps[i], g.plans[i], k);
    assert g.HasSlot((i, c)) && !InFlight(st, (i, c));
    assert k in g.Cells((i, c));
  }

  // ---------------------------------------------------------------------------
  // every slot is planned once
  // ---------------------------------------------------------------------------

  predicate NoRepeats(decided: seq<Decision>) {
    forall m, n :: 0 <= m < n < |decided| ==> decided[m].slot != decided[n].slot
  }

  /** These decisions are those of the planned slots, one each, and each met the slot's target. */
  ghost predicate Matched(g: Segment, planned: set<Slot>, decided: seq<Decision>) {
    && NoRepeats(decided)
    && (forall n :: 0 <= n < |decided| ==>
          decided[n].slot in planned && g.HasSlot(decided[n].slot)
          && decided[n].target == g.plans[decided[n].slot.0][decided[n].slot.1])
    && (forall s :: s in planned ==> exists n :: 0 <= n < |decided| && decided[n].slot == s)
  }

  lemma MatchedNext(g: Segment, planned: set<Slot>, decided: seq<Decision>, d: Decision)
    requires Matched(g, planned, decided) && d.slot !in planned && g.HasSlot(d.slot)
    requires d.target == g.plans[d.slot.0][d.slot.1]
    ensures Matched(g, planned + {d.slot}, decided + [d])
  {
    var more := decided + [d];
    forall s | s in planned + {d.slot} ensures exists n :: 0 <= n < |more| && more[n].slot == s {
      if s == d.slot {
        assert more[|decided|].slot == s;
      } else {
        var n :| 0 <= n < |decided| && decided[n].slot == s;
        assert more[n].slot == s;
      }
    }
  }

  /**
   Every slot that the clean run plans for steps lo to hi is decided, once, on the clean run's
   target, and nothing else is.
   */
  ghost predicate PlannedOnce(p: Planner, steps: seq<Step>, lo: nat, hi: nat, goal: Cells, decided: seq<Decision>)
    requires hi <= |steps|
  {
    && NoRepeats(decided)
    && (forall n :: 0 <= n < |decided| ==> DecidedAs(p, steps, lo, hi, goal, decided[n]))
    && (forall i, c :: lo <= i < hi && Plan(p, steps[i], goal).Some? && c in Plan(p, steps[i], goal).value
          ==> exists n :: 0 <= n < |decided| && decided[n].slot == (i, c))
  }

  ghost predicate DecidedAs(p: Planner, steps: seq<Step>, lo: nat, hi: nat, goal: Cells, d: Decision)
    requires hi <= |steps|
  {
    && lo <= d.slot.0 < hi && Plan(p, steps[d.slot.0], goal).Some?
    && d.slot.1 in Plan(p, steps[d.slot.0], goal).value
    && d.target == Plan(p, steps[d.slot.0], goal).value[d.slot.1]
  }

  /** At the end of a segment the decisions are those of its steps' plans. */
  lemma SegmentPlannedOnce(g: Segment, planned: set<Slot>, decided: seq<Decision>)
    requires g.Bounds() && Matched(g, planned, decided) && forall s: Slot :: g.HasSlot(s) ==> s in planned
    requires forall i :: g.lo <= i < g.hi ==> Plan(g.p, g.steps[i], g.goal) == Some(g.plans[i])
    ensures PlannedOnce(g.p, g.steps, g.lo, g.hi, g.goal, decided)
  {
    hide PlanOn;
    forall i, c | g.lo <= i < g.hi && Plan(g.p, g.steps[i], g.goal).Some? && c in Plan(g.p, g.steps[i], g.goal).value
      ensures exists n :: 0 <= n < |decided| && decided[n].slot == (i, c)
    {
      assert g.HasSlot((i, c));
    }
  }

  /** Two stretches of the order, each planned once. */
  lemma PlannedInTurn(p: Planner, steps: seq<Step>, mid: nat, hi: nat, goal: Cells, first: seq<Decision>, rest: seq<Decision>)
    requires mid <= hi <= |steps|
    requires PlannedOnce(p, steps, 0, mid, goal, first) && PlannedOnce(p, steps, mid, hi, goal, rest)
    ensures PlannedOnce(p, steps, 0, hi, goal, first + rest)
  {
    hide PlanOn;
    var all := first + rest;
    forall n | 0 <= n < |all| ensures DecidedAs(p, steps, 0, hi, goal, all[n]) {
      if n < |first| {
        assert DecidedAs(p, steps, 0, mid, goal, first[n]);
      } else {
        assert DecidedAs(p, steps, mid, hi, goal, rest[n - |first|]);
      }
    }
    forall m, n | 0 <= m < n < |all| ensures all[m].slot != all[n].slot {
      if m < |first| && n >= |first| {
        assert DecidedAs(p, steps, 0, mid, goal, first[m]) && DecidedAs(p, steps, mid, hi, goal, rest[n - |first|]);
      }
    }
    forall i, c | 0 <= i < hi && Plan(p, steps[i], goal).Some? && c in Plan(p, steps[i], goal).value
      ensures exists n :: 0 <= n < |all| && all[n].slot == (i, c)
    {
      if i < mid {
        var n :| 0 <= n < |first| && first[n].slot == (i, c);
        assert all[n].slot == (i, c);
      } else {
        var n :| 0 <= n < |rest| && rest[n].slot == (i, c);
        assert all[|first| + n].slot == (i, c);
      }
    }
  }

  /** Planning once against the cells so far is planning once against those of the longer run. */
  lemma PlannedAlike(p: Planner, steps: seq<Step>, hi: nat, part: Cells, goal: Cells, decided: seq<Decision>)
    requires hi <= |steps| && PlannedOnce(p, steps, 0, hi, part, decided)
    requires forall i :: 0 <= i < hi ==> Plan(p, steps[i], goal) == Plan(p, steps[i], part)
    ensures PlannedOnce(p, steps, 0, hi, goal, decided)
  {
    hide PlanOn;
    forall n | 0 <= n < |decided| ensures DecidedAs(p, steps, 0, hi, goal, decided[n]) {
      assert DecidedAs(p, steps, 0, hi, part, decided[n]);
    }
  }

  /** Steps planned from the cells of a prefix of the run are planned alike from the whole. */
  lemma SamePlans(w: World, p: Planner, steps: seq<Step>, n: nat)
    requires Ordered(steps) && n <= |steps| && CleanRun(w, p, steps).Some?
    ensures CleanRun(w, p, steps[..n]).Some?
    ensures forall i :: 0 <= i < n ==>
              Plan(p, steps[i], CleanRun(w, p, steps).value) == Plan(p, steps[i], CleanRun(w, p, steps[..n]).value)
  {
    hide PlanOn, CleanRun;
    PrefixAgrees(w, p, steps, n);
    var part, whole := CleanRun(w, p, steps[..n]).value, CleanRun(w, p, steps).value;
    forall i | 0 <= i < n ensures ParentCells(steps[i], whole) == ParentCells(steps[i], part) {
      forall k | k in whole && k.1 in steps[i].deps ensures k in part {
        var j :| 0 <= j < i && steps[j].name == k.1;
        assert steps[..n][j].name == k.1;
      }
    }
  }
}
