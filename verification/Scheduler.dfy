/**
 The segment executor: the one scheduler that drives the (lane, step) cells of a run.

 The head steps of a segment are planned whole.  Whatever has to execute goes in flight, and
 every completion, in whatever order completions arrive, is committed and lets its lane
 advance through the segment at once.  The order of completions is an arbitrary choice here,
 so what `RunSegment` and `RunAll` promise holds for every order.
 */
module Scheduler {
  import opened Model
  import opened Meaning
  import opened Ledger
  import opened History
  import opened Determined
  import opened Planning
  import opened Clean
  import opened Script
  import opened Progress
  import opened Books
  import opened Durability
  import opened Semantics
  import opened Adequacy
  import opened Segments

  /** by_step at the start of a run: an entry for every stored step. */
  function Zeroes(steps: seq<Step>): (tally: map<string, Tally>)
    ensures forall i :: 0 <= i < |steps| && steps[i].cached ==> steps[i].name in tally
    ensures forall name :: name in tally ==> tally[name] == NOTHING
  {
    if steps == [] then map[]
    else if steps[0].cached then Zeroes(steps[1..])[steps[0].name := NOTHING]
    else Zeroes(steps[1..])
  }

  class Run {
    const w: World
    const p: Planner
    const steps: seq<Step>
    const force: bool
    ghost const origin: Store

    var cells: Cells                  // coord_step_mats
    var store: Store                  // liveness, lane store and object store
    var jobs: set<Job>                // in_flight
    var tally: map<string, Tally>     // by_step
    ghost var planned: set<Slot>      // the slots planned so far in this segment
    ghost var todo: set<Slot>         // the slots owed to lanes that have just resolved
    ghost var log: seq<Event>         // the legal history this run has made so far
    ghost var decided: seq<Decision>  // what planning each slot came to, in order
    ghost var ran: seq<Job>           // the jobs whose functions have been called, in order

    constructor (w: World, p: Planner, steps: seq<Step>, force: bool, store: Store)
      requires StoreInv(w, store) && Ordered(steps) && Fits(w, p.pipe, steps) && p.singles == Singles(steps)
      ensures this.w == w && this.p == p && this.steps == steps && this.force == force
      ensures this.store == store && origin == store && cells == map[] && jobs == {} && todo == {} && log == []
      ensures decided == [] && ran == [] && Pipeline() && Booked()
    {
      this.w, this.p, this.steps, this.force := w, p, steps, force;
      this.store, this.origin := store, store;
      cells, jobs := map[], {};
      tally := Zeroes(steps);
      planned, todo, log, decided, ran := {}, {}, [], [], [];
      new;
      assert forall name :: Tallied(origin, cells, name, NOTHING) by {
        forall name ensures Tallied(origin, cells, name, NOTHING) {
          assert KeysOf(map[], name, KOk) == {} && KeysOf(map[], name, KFiltered) == {}
              && KeysOf(map[], name, KFailed) == {} && KeysOf(map[], name, KBlocked) == {};
          assert OkAddresses(map[], name) == {};
          assert NewAddresses(origin, map[], name) == {};
        }
      }
    }

    /** The pipeline this run is for: fixed. */
    predicate Pipeline() {
      Ordered(steps) && Fits(w, p.pipe, steps) && p.singles == Singles(steps)
    }

    ghost predicate Booked()
      reads this
    {
      && StoreInv(w, origin) && StoreBooked(w, origin, store, log)
      && DecisionsBooked(w.spills, origin, log, p, steps, force, decided)
      && CellsBooked(w, p.pipe, origin, store, cells)
      && JobsBooked(w, p.pipe, steps, store, jobs)
      && AllTallied(origin, steps, cells, tally)
    }

    ghost function Now(): State
      reads this
    {
      State(cells, planned, jobs, todo)
    }

    /** This segment belongs to this run. */
    ghost predicate Mine(g: Segment) {
      && g.Valid() && g.w == w && g.p == p && g.steps == steps
      && (forall i :: g.lo <= i < g.hi ==> Vacant(origin, g.plans[i]))
      && (forall n :: 0 <= n < |g.past| ==> g.past[n].slot.0 < g.lo)
    }

    /** What has been sent has run or is in flight; earlier steps' tables are as they were left. */
    ghost predicate Kept(g: Segment)
      reads this`decided, this`jobs, this`ran, this`store
    {
      && g.hi <= |g.steps| && Onward(g.from, store, g.Names())
      && Accounted(decided, jobs, ran) && AnchorsKept(w, store, decided, ran)
    }

    ghost predicate Inv(g: Segment)
      reads this
    {
      Pipeline() && Mine(g) && Booked() && Invariant(g, Now()) && Noted(g, planned) && Kept(g)
    }

    /** The decisions of this segment are those of its planned slots, one each. */
    ghost predicate Noted(g: Segment, slots: set<Slot>)
      reads this`decided
    {
      g.past <= decided && Matched(g, slots, decided[|g.past|..])
    }

    // -------------------------------------------------------------------------
    // single cells
    // -------------------------------------------------------------------------

    /** Commit one outcome and record its cell and its count. */
    method CommitLane(i: nat, k: Key, a: Address, o: Outcome)
      requires Pipeline() && Booked() && i < |steps| && k.1 == steps[i].name
      requires o == Expected(w, a) && !o.Fail? && a.pipeline == p.pipe && a.code == steps[i].Identity()
      requires k in cells ==> cells[k] == OutcomeCell(w, a, o) && !Counted(steps[i])
      modifies this`cells, this`store, this`tally, this`log
      ensures Booked() && cells == old(cells)[k := OutcomeCell(w, a, o)]
      ensures Onward(old(store), store, {steps[i].name})
    {
      hide Onward, StoreInv, Hit, ReadableCells, HitsTracked, AllTallied, Expected, FaithfulHistory, Legal,
           Committed, TargetOk, Form, Ident, KindOf, Replay, Counting, IsNew;
      var created := !AlreadyLive(w.spills, store, a, o);
      var cell := OutcomeCell(w, a, o);
      ghost var before, counts, olds := store, tally, cells;
      CommitIsSafe(w, store, a, o);
      Extend(w, origin, store, log, Commit(a, o));
      DecisionsKept(w.spills, origin, log, p, steps, force, decided, Commit(a, o));
      store, log := Apply(w.spills, store, Commit(a, o)), log + [Commit(a, o)];
      CommitGrows(w.spills, before, a, o);
      EventOnward(w.spills, before, Commit(a, o), steps[i].name);
      cells := cells[k := cell];
      tally := Counting(steps[i], tally, cell, created);
      LiveIsHit(w, before, a);
      PutMat(w, p.pipe, origin, before, store, olds, k, a);
      MoreObjectsJobs(w, p.pipe, steps, before, store, jobs);
      CountCommitted(w, p.pipe, origin, steps, before, olds, counts, i, k, a, created);
    }

    /** Record the cell of a reuse hit; the hit was there before or this run committed it. */
    method Reuse(i: nat, k: Key, a: Address)
      requires Pipeline() && Booked() && i < |steps| && k.1 == steps[i].name
      requires Hit(store, a).Some? && a.pipeline == p.pipe && a.code == steps[i].Identity()
      requires k in cells ==> cells[k] == OutcomeCell(w, a, Expected(w, a)) && !Counted(steps[i])
      modifies this`cells, this`tally
      ensures Booked() && cells == old(cells)[k := OutcomeCell(w, a, Expected(w, a))]
    {
      hide StoreInv, Hit, ReadableCells, HitsTracked, AllTallied, Expected, FaithfulHistory,
           TargetOk, Form, Ident, KindOf, Replay, Counting, IsNew;
      HitCell(w, store, a);
      ghost var counts, olds := tally, cells;
      var cell := CellOfRow(Hit(store, a).value);
      cells := cells[k := cell];
      tally := Counting(steps[i], tally, cell, false);
      PutMat(w, p.pipe, origin, store, store, olds, k, a);
      CountCommitted(w, p.pipe, origin, steps, store, olds, counts, i, k, a, false);
    }

    /** Record a cell that carries no output: blocked, filtered, failed, or a fused step. */
    method Mark(i: nat, k: Key, cell: Cell)
      requires Pipeline() && Booked() && i < |steps| && k.1 == steps[i].name
      requires !cell.Mat? && (k in cells ==> !cells[k].Mat? && !Counted(steps[i]))
      requires Usable(cell) ==> Readable(w, store.objects, cell)
      modifies this`cells, this`tally
      ensures Booked() && cells == old(cells)[k := cell]
    {
      hide StoreInv, Hit, ReadableCells, HitsTracked, AllTallied, Expected, FaithfulHistory,
           TargetOk, Form, Ident, Replay, Counting, IsNew, Readable;
      ghost var counts, olds := tally, cells;
      cells := cells[k := cell];
      tally := Counting(steps[i], tally, cell, false);
      PutMark(w, p.pipe, origin, store, olds, k, cell);
      CountCell(origin, steps, olds, counts, i, k, cell, false);
    }

    method CommitAnchorRow(a: Address, children: seq<Hash>)
      requires Pipeline() && Booked()
      requires w.mints(a.pipeline, a.code) && AnchorOf(w, a) == Some(children) && LatestRow(store, a).None?
      modifies this`store, this`log
      ensures Booked() && store.objects == old(store).objects
      ensures Onward(old(store), store, {a.code.step}) && AnchorThere(store, a)
    {
      hide Onward, AnchorThere, StoreInv, Hit, ReadableCells, AllTallied, Expected, FaithfulHistory, TargetOk, Replay, AnchorHit;
      ghost var before := store;
      Extend(w, origin, store, log, CommitAnchor(a, children));
      DecisionsKept(w.spills, origin, log, p, steps, force, decided, CommitAnchor(a, children));
      store, log := Apply(w.spills, store, CommitAnchor(a, children)), log + [CommitAnchor(a, children)];
      SameHits(w, p.pipe, origin, before, store, cells, CommitAnchor(a, children));
      EventOnward(w.spills, before, CommitAnchor(a, children), a.code.step);
      AnchorCommittedThere(w.spills, before, a, children);
      MoreObjectsJobs(w, p.pipe, steps, before, store, jobs);
    }

    /** The children of an expand lane, one commit each. */
    method CommitChildren(ghost g: Segment, ghost start: State, ghost s: Slot, i: nat, hs: seq<Hash>)
      requires Pipeline() && Mine(g) && Booked() && Invariant(g, start) && cells == start.cells
      requires g.HasSlot(s) && s.0 == i && Open(start, s)
      requires Minting(w, g.plans[i][s.1]) == Some(hs)
      requires w.mints(p.pipe, steps[i].Identity())
      requires forall h :: h in hs ==> PayloadOf(h).Some?
      requires forall m, n :: 0 <= m < n < |hs| ==> hs[m] != hs[n]
      modifies this`cells, this`store, this`tally, this`log
      ensures Booked() && cells == old(cells) + g.Cells(s)
      ensures Onward(old(store), store, {steps[i].name})
    {
      hide Onward, StoreInv, Hit, Scripted, Invariant, StoreBooked, CellsBooked, JobsBooked, AllTallied, AnchorOf,
           Children, Minting, Open, Expected, OutcomeCell, Counted;
      NoChildrenYet(w, p.pipe, steps[i], cells);
      OnwardSelf(store, {steps[i].name});
      for n := 0 to |hs|
        invariant Booked()
        invariant cells == start.cells + Children(w, p.pipe, steps[i], hs[..n])
        invariant Onward(old(store), store, {steps[i].name})
      {
        var k, a := (Row(hs[n]), steps[i].name), ChildAddress(p.pipe, steps[i].Identity(), hs[n]);
        ghost var before := store;
        NextChild(g, start, s, hs, n);
        LaneOfPayload(w, a);
        CommitLane(i, k, a, Expected(w, a));
        OnwardOn(old(store), before, store, {steps[i].name}, {steps[i].name});
      }
      assert hs[..|hs|] == hs;
      AllChildrenThere(g, s, hs);
    }

    /** Replay the children an anchor lists: every one of them is a hit. */
    method ReuseChildren(ghost g: Segment, ghost start: State, ghost s: Slot, i: nat, hs: seq<Hash>)
      requires Pipeline() && Mine(g) && Booked() && Invariant(g, start) && cells == start.cells
      requires g.HasSlot(s) && s.0 == i && Open(start, s)
      requires Minting(w, g.plans[i][s.1]) == Some(hs)
      requires forall h :: h in hs ==> Hit(store, ChildAddress(p.pipe, steps[i].Identity(), h)).Some?
      requires forall m, n :: 0 <= m < n < |hs| ==> hs[m] != hs[n]
      modifies this`cells, this`tally
      ensures Booked() && cells == old(cells) + g.Cells(s)
    {
      hide StoreInv, Hit, Scripted, Invariant, StoreBooked, CellsBooked, JobsBooked, AllTallied, AnchorOf,
           Children, Minting, Open, Expected, OutcomeCell, Counted;
      NoChildrenYet(w, p.pipe, steps[i], cells);
      for n := 0 to |hs|
        invariant Booked()
        invariant cells == start.cells + Children(w, p.pipe, steps[i], hs[..n])
      {
        var k, a := (Row(hs[n]), steps[i].name), ChildAddress(p.pipe, steps[i].Identity(), hs[n]);
        NextChild(g, start, s, hs, n);
        Reuse(i, k, a);
      }
      assert hs[..|hs|] == hs;
      AllChildrenThere(g, s, hs);
    }

    // -------------------------------------------------------------------------
    // plan, dispatch, complete
    // -------------------------------------------------------------------------

    /** Act on one planned target: record what needs no execution, put the rest in flight. */
    method Record(ghost g: Segment, i: nat, c: Coord, t: Target)
      requires Inv(g) && g.HasSlot((i, c)) && t == g.plans[i][c] && (i, c) !in planned
      requires (i, c) in todo || !Inner(steps, g.lo, g.hi, i)
      requires TargetOk(w, store.objects, p.pipe, steps[i], t) && !t.ToPending?
      modifies this
      ensures Inv(g)
      ensures Now() == Settle(g, old(Now()), (i, c)) || Now() == Dispatched(g, old(Now()), (i, c))
      ensures store == old(store)
      ensures decided == old(decided) + [Decision((i, c), t, Reuses(old(store), p, steps[i], force, t), |old(log)|)]
    {
      hide StoreInv, Hit, AnchorHit, Scripted, Invariant, Booked, AnchorOf, Expected, OutcomeCell, TargetOk, Noted,
           ReplayedChildren, Produced, Settle, Dispatched, SegmentOk, LaneCell, Minting, Reuses, Onward, AnchorThere, Accounted,
           AnchorsKept, NotYetDecided, Matched, Kept;
      ghost var s, start, earlier := (i, c), Now(), decided;
      var k, reuse := (c, steps[i].name), Reuses(store, p, steps[i], force, t);
      Unplanned(g, start, s);
      BooksBefore(g, s);
      Decide(g, i, c, t);
      KeepDecision(g, earlier, s, t, reuse);
      if t.ToBlocked? || t.ToSkipped? || t.ToUtil? {
        OwnCell(g, start, s, t);
        var cell := if t.ToBlocked? then Blocked else if t.ToSkipped? then Skipped else t.cell;
        MarkCell(w, store.objects, p.pipe, steps[i], t);
        Mark(i, k, cell);
        SettleNow(g, start, s);
      } else if t.ToWork? && reuse {
        OwnCell(g, start, s, t);
        WorkAddress(w, store.objects, p.pipe, steps[i], t);
        ReusedWork(store, p, steps[i], force, t);
        Reuse(i, k, t.address);
        SettleNow(g, start, s);
      } else if t.ToMint? && reuse {
        ReusedMint(store, p, steps[i], force, t);
        var hs := ReplayedChildren(store, p, steps[i].Identity(), t.anchor).value;
        GateIsOpen();
        ReplayIsMinting(w, store, p, steps[i].Identity(), t);
        ReuseChildren(g, start, s, i, hs);
        SettleNow(g, start, s);
      } else {
        Dispatch(g, i, c, t);
      }
    }

    lemma BooksBefore(g: Segment, s: Slot)
      requires Inv(g) && g.HasSlot(s) && s !in planned
      ensures NotYetDecided(decided, s) && Accounted(decided, jobs, ran) && AnchorsKept(w, store, decided, ran)
      ensures g.hi <= |g.steps| && Onward(g.from, store, g.Names())
    {
      hide Invariant, Booked, Scripted, Onward, Accounted, AnchorsKept, NotYetDecided, Matched;
      SlotNotDecided(g, planned, decided, s);
    }

    /** One more decision on the books. */
    lemma KeepDecision(g: Segment, earlier: seq<Decision>, s: Slot, t: Target, reuse: bool)
      requires g.hi <= |g.steps| && Onward(g.from, store, g.Names()) && s.0 < |steps|
      requires Accounted(earlier, jobs, ran) && AnchorsKept(w, store, earlier, ran) && NotYetDecided(earlier, s)
      requires |decided| == |earlier| + 1 && decided == earlier + [Decision(s, t, reuse, decided[|earlier|].at)]
      requires reuse ==> Reuses(store, p, steps[s.0], force, t)
      requires t.ToMint? ==> LatestRow(store, t.anchor).None?
      ensures AnchorsKept(w, store, decided, ran) && Onward(g.from, store, g.Names())
      ensures if reuse || !(t.ToWork? || t.ToMint?) then Kept(g) else Accounted(decided, jobs + {Job(s.0, s.1, t)}, ran)
    {
      hide Onward, Accounted, AnchorsKept, NotYetDecided, AnchorThere, Reuses, LatestRow;
      var d := decided[|earlier|];
      if reuse && t.ToMint? {
        ReplayedAnchorThere(store, p, steps[s.0], force, t);
      }
      AnchorsKeptDecided(w, store, earlier, ran, d);
      if reuse || !(t.ToWork? || t.ToMint?) {
        AccountedQuiet(earlier, jobs, ran, d);
      } else {
        AccountedSent(earlier, jobs, ran, d);
      }
    }

    /** Note what the lookup of one slot says. */
    ghost method Decide(g: Segment, i: nat, c: Coord, t: Target)
      requires Inv(g) && g.HasSlot((i, c)) && t == g.plans[i][c] && (i, c) !in planned
      requires TargetOk(w, store.objects, p.pipe, steps[i], t)
      modifies this`decided
      ensures Booked() && Noted(g, planned + {(i, c)})
      ensures t.ToMint? ==> LatestRow(store, t.anchor).None? && !LookupRaises(store, p, steps[i], force, t)
      ensures decided == old(decided) + [Decision((i, c), t, Reuses(store, p, steps[i], force, t), |log|)]
    {
      hide Kept, StoreInv, Invariant, CellsBooked, JobsBooked, AllTallied, AllGrow, FaithfulHistory, Reuses, LatestRow,
           TargetOk, Scripted, Matched;
      ghost var d := Decision((i, c), t, Reuses(store, p, steps[i], force, t), |log|);
      if t.ToMint? {
        MintsHere(w, p.pipe, store.objects, steps, i, t);
        SpotIsFree(g, Now(), (i, c), origin, store);
        AnchorIsListed(store, p, steps[i].Identity(), t.anchor);
      }
      assert HitsTracked(origin, store, cells) by { HitsAreTracked(); }
      GateStaysOpen(w, origin, store, log, cells, p, steps[i], force, t);
      assert log[..|log|] == log;
      assert DecisionOk(w.spills, origin, log, p, steps, force, d);
      MatchedNext(g, planned, decided[|g.past|..], d);
      assert (decided + [d])[|g.past|..] == decided[|g.past|..] + [d];
      decided := decided + [d];
    }

    lemma HitsAreTracked()
      requires Booked()
      ensures HitsTracked(origin, store, cells)
    {
      hide StoreBooked, JobsBooked, AllTallied, DecisionsBooked;
    }

    lemma GateIsOpen()
      requires Booked()
      ensures StoreInv(w, origin) && StoreInv(w, store) && CellsBooked(w, p.pipe, origin, store, cells)
    {
      hide StoreInv, CellsBooked, JobsBooked, AllTallied, DecisionsBooked;
    }

    method Dispatch(ghost g: Segment, i: nat, c: Coord, t: Target)
      requires Pipeline() && Mine(g) && Booked() && Invariant(g, Now()) && Noted(g, planned + {(i, c)})
      requires g.HasSlot((i, c)) && t == g.plans[i][c] && (i, c) !in planned
      requires (i, c) in todo || !Inner(steps, g.lo, g.hi, i)
      requires TargetOk(w, store.objects, p.pipe, steps[i], t) && (t.ToWork? || t.ToMint?)
      requires Accounted(decided, jobs + {Job(i, c, t)}, ran) && AnchorsKept(w, store, decided, ran)
      requires Onward(g.from, store, g.Names())
      modifies this`jobs, this`planned, this`todo
      ensures Inv(g) && Now() == Dispatched(g, old(Now()), (i, c))
    {
      hide Onward, Accounted, AnchorsKept, Invariant, StoreBooked, CellsBooked, AllTallied, TargetOk, Scripted, StoreInv, DecisionsBooked, Matched;
      ghost var s, start := (i, c), Now();
      jobs := jobs + {Job(i, c, t)};
      planned, todo := planned + {s}, todo - {s};
      DispatchKeeps(g, start, s);
    }

    ghost method SettleNow(g: Segment, start: State, s: Slot)
      requires Pipeline() && Mine(g) && Booked() && Invariant(g, start) && g.HasSlot(s) && Open(start, s)
      requires Noted(g, start.planned + {s})
      requires s in start.planned + start.todo || !Inner(g.steps, g.lo, g.hi, s.0)
      requires cells == start.cells + g.Cells(s) && planned == start.planned && todo == start.todo
      requires jobs == start.jobs - {Job(s.0, s.1, g.plans[s.0][s.1])} && Kept(g)
      modifies this`planned, this`todo
      ensures Inv(g) && Now() == Settle(g, start, s)
    {
      hide Kept, Invariant, Produced, StoreBooked, CellsBooked, JobsBooked, AllTallied, Scripted, StoreInv, DecisionsBooked, Matched;
      planned, todo := planned + {s}, todo - {s} + Unblocked(g, s.0, g.Cells(s));
      SettleKeeps(g, start, s);
    }

    /** Run one job, whichever completes next, and commit what it returns. */
    method Complete(ghost g: Segment, j: Job) returns (lanes: set<Coord>)
      requires Inv(g) && j in jobs
      modifies this
      ensures Inv(g) && Now() == Settle(g, old(Now()), j.Slot())
      ensures forall c :: c in lanes <==> (c, steps[j.step].name) in g.Cells(j.Slot())
    {
      hide StoreInv, Hit, Scripted, Invariant, StoreBooked, CellsBooked, AllTallied, AnchorOf, Expected,
           OutcomeCell, TargetOk, Produced, Settle, SegmentOk, LaneCell, Minting, ReadArgs, ArgsOf, Call, Generate,
           ChildHashes, Yielded, Open, OwnCellIs, Onward, Accounted, AnchorsKept, AnchorThere, Kept;
      ghost var s, start, before := j.Slot(), Now(), store;
      JobKnown(g, start, j);
      BooksRan(g, j);
      assert Noted(g, planned + {s}) by { assert planned + {s} == planned; }
      var step, k := steps[j.step], (j.coord, steps[j.step].name);
      var args := ReadArgs(w, p.pipe, store.objects, j.target.parents);
      jobs, ran := jobs - {j}, ran + [j];
      if j.target.ToWork? {
        var o := Call(w, p.pipe, step.Identity(), args);
        ExecuteWork(w, p.pipe, store.objects, steps, j.step, j.target);
        lanes := CompleteWork(g, start, j, o);
      } else {
        var ys := Generate(w, p.pipe, step.Identity(), args);
        ExecuteMint(w, p.pipe, store.objects, steps, j.step, j.target);
        SpotIsFree(g, start, s, origin, store) by { GateIsOpen(); }
        lanes := CompleteMint(g, start, j, ys);
      }
      KeepRun(g, before, j);
      SettleNow(g, start, s);
    }

    lemma BooksRan(g: Segment, j: Job)
      requires Inv(g) && j in jobs
      ensures Accounted(decided, jobs - {j}, ran + [j]) && AnchorsKept(w, store, decided, ran)
      ensures Onward(g.from, store, g.Names())
    {
      hide Invariant, Booked, Scripted, Onward, Accounted, AnchorsKept, Matched;
      AccountedRan(decided, jobs, ran, j);
    }

    /** One more job has run. */
    lemma KeepRun(g: Segment, before: Store, j: Job)
      requires g.lo <= j.step < g.hi <= |g.steps| && g.steps == steps && ran != [] && ran[|ran| - 1] == j
      requires Onward(g.from, before, g.Names()) && Onward(before, store, {steps[j.step].name})
      requires Accounted(decided, jobs, ran) && AnchorsKept(w, before, decided, ran[..|ran| - 1])
      requires j.target.ToMint? && Minting(w, j.target).Some? ==> AnchorThere(store, j.target.anchor)
      ensures Kept(g)
    {
      hide Onward, Accounted, AnchorsKept, AnchorThere, Minting;
      OnwardOn(g.from, before, store, g.Names(), {steps[j.step].name});
      AnchorsKeptOn(w, before, store, {steps[j.step].name}, decided, ran[..|ran| - 1]);
      AnchorsKeptRan(w, store, decided, ran[..|ran| - 1], j);
      assert ran == ran[..|ran| - 1] + [j];
    }

    method CompleteWork(ghost g: Segment, ghost start: State, j: Job, o: Outcome) returns (lanes: set<Coord>)
      requires Pipeline() && Mine(g) && Booked() && Invariant(g, start) && cells == start.cells
      requires g.HasSlot(j.Slot()) && Open(start, j.Slot()) && j.target == g.plans[j.step][j.coord]
      requires j.target.ToWork? && o == Expected(w, j.target.address)
      requires j.target.address.pipeline == p.pipe && j.target.address.code == steps[j.step].Identity()
      requires !w.mints(p.pipe, steps[j.step].Identity())
      modifies this`cells, this`store, this`tally, this`log
      ensures Booked() && cells == start.cells + g.Cells(j.Slot())
      ensures forall c :: c in lanes <==> (c, steps[j.step].name) in g.Cells(j.Slot())
      ensures Onward(old(store), store, {steps[j.step].name})
    {
      hide Onward, StoreInv, Scripted, Invariant, Booked, Expected, Produced, SegmentOk, LaneCell, Open, OutcomeCell;
      OnwardSelf(store, {steps[j.step].name});
      var k := (j.coord, steps[j.step].name);
      OwnCell(g, start, j.Slot(), j.target);
      WorkCell(w, j.target);
      lanes := {j.coord};
      if o.Fail? {
        Mark(j.step, k, Failed);
      } else {
        CommitLane(j.step, k, j.target.address, o);
      }
    }

    method CompleteMint(ghost g: Segment, ghost start: State, j: Job, ys: Option<seq<Json>>) returns (lanes: set<Coord>)
      requires Pipeline() && Mine(g) && Booked() && Invariant(g, start) && cells == start.cells
      requires g.HasSlot(j.Slot()) && Open(start, j.Slot()) && j.target == g.plans[j.step][j.coord]
      requires j.target.ToMint? && MintsAs(w, p.pipe, steps[j.step].Identity(), j.target, ys)
      requires LatestRow(store, j.target.anchor).None?
      modifies this`cells, this`store, this`tally, this`log
      ensures Booked() && cells == start.cells + g.Cells(j.Slot())
      ensures forall c :: c in lanes <==> (c, steps[j.step].name) in g.Cells(j.Slot())
      ensures Onward(old(store), store, {steps[j.step].name})
      ensures Minting(w, j.target).Some? ==> AnchorThere(store, j.target.anchor)
    {
      hide Onward, AnchorThere, StoreInv, Scripted, Invariant, Booked, Expected, Produced, SegmentOk, LaneCell, Open, AnchorOf,
           ChildHashes;
      OnwardSelf(store, {steps[j.step].name});
      var s, k := j.Slot(), (j.coord, steps[j.step].name);
      if ys.None? {
        OwnCellFailed(g, start, s, j.target);
        lanes := {j.coord};
        Mark(j.step, k, Failed);
      } else {
        var hs := ChildHashes(ys.value);
        lanes := set h | h in hs :: Row(h);
        LanesOfChildren(g, s, hs);
        DistinctChildren(ys.value);
        CommitAnchorRow(j.target.anchor, hs);
        ghost var anchored := store;
        CommitChildren(g, start, s, j.step, hs);
        OnwardOn(old(store), anchored, store, {steps[j.step].name}, {steps[j.step].name});
        AnchorStaysOnward(anchored, store, {steps[j.step].name}, j.target.anchor);
      }
    }

    // -------------------------------------------------------------------------
    // lanes advancing through a segment
    // -------------------------------------------------------------------------

    /** (c, step i) has resolved: plan the lane's consumers inside the segment. */
    method Advance(ghost g: Segment, lo: nat, hi: nat, i: nat, c: Coord)
      requires Inv(g) && lo == g.lo && hi == g.hi && lo <= i < hi
      requires (c, steps[i].name) in cells && Readers(g, i, c) <= todo
      modifies this
      ensures Inv(g) && store == old(store)
      ensures old(planned) <= planned && old(cells).Keys <= cells.Keys
      ensures OpenSlots(g, Now()) <= OpenSlots(g, old(Now()))
      ensures todo == old(todo) - Readers(g, i, c)
      ensures forall s :: s in planned - old(planned) ==> s.1 == c && Inner(steps, lo, hi, s.0)
      decreases |steps| - i, 0
    {
      hide Kept, Invariant, Booked, Scripted, OpenSlots, SegmentOk;
      for j := lo to hi
        invariant Inv(g) && store == old(store)
        invariant old(planned) <= planned && old(cells).Keys <= cells.Keys
        invariant OpenSlots(g, Now()) <= OpenSlots(g, old(Now()))
        invariant todo == old(todo) - ReadersBelow(g, i, c, j)
        invariant forall s :: s in planned - old(planned) ==> s.1 == c && Inner(steps, lo, hi, s.0)
      {
        ReadersStep(g, i, c, j);
        if Feeds(steps, i, j) && p.scope.Admits(steps[j].name, c) {
          ConsumerAwaits(g, Now(), i, j, c);
          PlanLane(g, lo, hi, i, j, c);
        } else {
          ReadersAreFed(g, i, j, c);
        }
      }
    }

    /** Plan one owed cell of a consumer, and go on if it resolves at once. */
    method PlanLane(ghost g: Segment, lo: nat, hi: nat, i: nat, j: nat, c: Coord)
      requires Inv(g) && lo == g.lo && hi == g.hi && g.Reads(i, (j, c)) && (j, c) in todo
      modifies this
      ensures Inv(g) && store == old(store)
      ensures old(planned) <= planned && old(cells).Keys <= cells.Keys
      ensures OpenSlots(g, Now()) <= OpenSlots(g, old(Now()))
      ensures todo == old(todo) - {(j, c)}
      ensures forall s :: s in planned - old(planned) ==> s.1 == c && Inner(steps, lo, hi, s.0)
      decreases |steps| - j, 1
    {
      hide Kept, Invariant, Booked, Scripted, OpenSlots, SegmentOk, Classify, TargetOk, MapTarget, Settle, Dispatched;
      ghost var start := Now();
      var bcast := FindBroadcast(steps[j]);
      LaneIsReady(g, start, store.objects, bcast, i, j, c) by { BookedCells(); }
      var t := MapTarget(p, steps[j], cells, bcast, c).value;
      Record(g, j, c, t);
      AfterRecord(g, start, Now(), (j, c));
      LaneAfterRecord(g, start, Now(), i, (j, c));
      if (c, steps[j].name) in cells {
        Advance(g, lo, hi, j, c);
      }
    }

    lemma BookedCells()
      requires Booked()
      ensures ReadableCells(w, store.objects, cells)
    {
    }

    /** Resolve each broadcast dependency of a step once: any of its cells will do. */
    method FindBroadcast(step: Step) returns (bcast: map<string, Cell>)
      ensures IsBroadcast(p, step, cells, bcast)
    {
      bcast := map[];
      var rest := BroadcastDeps(p, step);
      while rest != {}
        invariant rest <= BroadcastDeps(p, step)
        invariant forall d :: d in bcast <==> d in BroadcastDeps(p, step) - rest && exists c :: (c, d) in cells
        invariant forall d :: d in bcast ==> exists c :: (c, d) in cells && cells[(c, d)] == bcast[d]
      {
        var d :| d in rest;
        var found := set k | k in cells && k.1 == d;
        if found != {} {
          var k :| k in found;
          assert (k.0, d) in cells;
          bcast := bcast[d := cells[k]];
        } else {
          forall c ensures (c, d) !in cells {
            assert (c, d) in cells ==> (c, d) in found;
          }
        }
        rest := rest - {d};
      }
    }

    // -------------------------------------------------------------------------
    // whole steps and whole segments
    // -------------------------------------------------------------------------

    /** Plan every coordinate of a step from the cells of its parents. */
    method PlanWhole(i: nat, ghost goal: Cells) returns (ts: Option<map<Coord, Target>>)
      requires Pipeline() && i < |steps| && Uniform(p.singles, goal)
      requires forall k :: k in cells ==> k in goal && goal[k] == cells[k]
      ensures ts == Plan(p, steps[i], cells)
    {
      hide AggregatePlan, JoinPlan, MapTarget, Broadcast, Uniform, IsBroadcast;
      var step := steps[i];
      var own := ParentCells(step, cells);
      match step.shape {
        case Aggregate => ts := AggregatePlan(p, step, own);
        case Join => ts := JoinPlan(p, step, own);
        case _ =>
          var bcast := FindBroadcast(step);
          BroadcastOfParents(p, step, cells, bcast);
          BroadcastUnique(p, step, own, goal, bcast);
          ts := PlanMap(step, own, bcast);
      }
    }

    /** One target per coordinate, or None as soon as one coordinate cannot be planned. */
    method PlanMap(step: Step, own: Cells, bcast: map<string, Cell>) returns (ts: Option<map<Coord, Target>>)
      ensures ts == MapPlan(p, step, own, bcast)
    {
      hide MapTarget, MapCoords;
      var coords := MapCoords(p, step, own);
      var rest, planned := coords, map[];
      while rest != {}
        invariant rest <= coords
        invariant planned.Keys == coords - rest
        invariant forall c :: c in planned ==> MapTarget(p, step, own, bcast, c) == Some(planned[c])
      {
        var c :| c in rest;
        var t := MapTarget(p, step, own, bcast, c);
        if t.None? {
          return None;
        }
        planned, rest := planned[c := t.value], rest - {c};
      }
      assert forall c :: c in coords ==> MapTarget(p, step, own, bcast, c).Some?;
      assert planned == MapPlan(p, step, own, bcast).value;
      ts := Some(planned);
    }

    /** Record or dispatch every target of a head step, then let its resolved lanes advance. */
    method ActOn(ghost g: Segment, lo: nat, hi: nat, i: nat, ts: map<Coord, Target>)
      requires Inv(g) && lo == g.lo && hi == g.hi && lo <= i < hi && ts == g.plans[i]
      requires !Inner(steps, lo, hi, i) && todo == {} && (forall c :: c in ts ==> (i, c) !in planned)
      requires forall c :: c in ts ==> TargetOk(w, store.objects, p.pipe, steps[i], ts[c]) && !ts[c].ToPending?
      modifies this
      ensures Inv(g) && store == old(store) && todo == {}
      ensures old(planned) <= planned && old(cells).Keys <= cells.Keys
      ensures OpenSlots(g, Now()) <= OpenSlots(g, old(Now()))
      ensures forall c :: c in ts ==> (i, c) in planned
      ensures forall s :: s in planned - old(planned) ==> s.0 == i || Inner(steps, lo, hi, s.0)
    {
      hide Kept, Invariant, Booked, Scripted, OpenSlots, SegmentOk, TargetOk, Settle, Dispatched;
      ghost var start := Now();
      HeadFresh(g, start, i);
      var rest := ts.Keys;
      while rest != {}
        invariant Inv(g) && store == old(store) && rest <= ts.Keys
        invariant old(cells).Keys <= cells.Keys && OpenSlots(g, Now()) <= OpenSlots(g, start)
        invariant forall s :: s in planned <==> s in start.planned || (s.0 == i && s.1 in ts.Keys - rest)
        invariant forall s :: s in todo ==> g.Reads(i, s)
      {
        var c :| c in rest;
        ghost var before := Now();
        Record(g, i, c, ts[c]);
        AfterRecord(g, before, Now(), (i, c));
        HeadAfterRecord(g, before, Now(), (i, c));
        rest := rest - {c};
      }
      var resolved := set k | k in cells && k.1 == steps[i].name :: k.0;
      HeadOwes(g, start, Now(), i, resolved);
      AdvanceAll(g, lo, hi, i, resolved);
    }

    /** Let a set of lanes that have resolved at step i advance, one after another. */
    method AdvanceAll(ghost g: Segment, lo: nat, hi: nat, i: nat, lanes: set<Coord>)
      requires Inv(g) && lo == g.lo && hi == g.hi && lo <= i < hi
      requires forall c :: c in lanes ==> (c, steps[i].name) in cells && Readers(g, i, c) <= todo
      requires forall s :: s in todo ==> g.Reads(i, s) && s.1 in lanes
      modifies this
      ensures Inv(g) && store == old(store) && todo == {}
      ensures old(planned) <= planned && old(cells).Keys <= cells.Keys
      ensures OpenSlots(g, Now()) <= OpenSlots(g, old(Now()))
      ensures forall s :: s in planned - old(planned) ==> Inner(steps, lo, hi, s.0)
    {
      hide Kept, Invariant, Booked, Scripted, OpenSlots, SegmentOk, Readers, Inner;
      var rest := lanes;
      while rest != {}
        invariant Inv(g) && store == old(store) && rest <= lanes
        invariant old(planned) <= planned && old(cells).Keys <= cells.Keys
        invariant OpenSlots(g, Now()) <= OpenSlots(g, old(Now()))
        invariant forall c :: c in rest ==> (c, steps[i].name) in cells && Readers(g, i, c) <= todo
        invariant forall s :: s in todo ==> g.Reads(i, s) && s.1 in rest
        invariant forall s :: s in planned - old(planned) ==> Inner(steps, lo, hi, s.0)
      {
        var c :| c in rest;
        ReadersApart(g, i, c);
        Advance(g, lo, hi, i, c);
        rest := rest - {c};
      }
    }

    /** One completion: commit it, then let its lanes advance. */
    method Finish(ghost g: Segment, lo: nat, hi: nat, j: Job)
      requires Inv(g) && lo == g.lo && hi == g.hi && j in jobs && todo == {}
      modifies this
      ensures Inv(g) && todo == {}
      ensures old(planned) <= planned && old(cells).Keys <= cells.Keys
      ensures OpenSlots(g, Now()) < OpenSlots(g, old(Now()))
    {
      hide Kept, Invariant, Booked, Scripted, OpenSlots, SegmentOk, Settle, Inner;
      ghost var start := Now();
      JobKnown(g, start, j);
      var lanes := Complete(g, j);
      AfterRecord(g, start, Now(), j.Slot());
      StartedOpen(g, start, j);
      CompletionOwes(g, start, Now(), j.Slot(), lanes);
      AdvanceAll(g, lo, hi, j.step, lanes);
    }

    /** The lane file of a step, then its anchor file. */
    method FlushStep(i: nat)
      requires Pipeline() && Booked() && i < |steps|
      modifies this`store, this`log
      ensures Booked() && NothingBuffered(store, (p.pipe, steps[i].name))
      ensures forall k :: NothingBuffered(old(store), k) ==> NothingBuffered(store, k)
      ensures Onward(old(store), store, {steps[i].name})
      ensures forall a :: LatestRow(store, a) == LatestRow(old(store), a)
    {
      hide Booked, NothingBuffered, Onward, LatestRow, Effect;
      ghost var first := store;
      var k := (p.pipe, steps[i].name);
      FlushFile(Flush(k));
      ghost var next := store;
      FlushFile(FlushAnchors(k));
      StepFlushed(w.spills, first, k);
      EventOnward(w.spills, first, Flush(k), steps[i].name);
      EventOnward(w.spills, next, FlushAnchors(k), steps[i].name);
      OnwardOn(first, next, store, {steps[i].name}, {steps[i].name});
      forall a ensures LatestRow(store, a) == LatestRow(first, a) {
        LatestUnchanged(w.spills, first, Flush(k), a);
        LatestUnchanged(w.spills, next, FlushAnchors(k), a);
      }
    }

    method FlushFile(e: Event)
      requires Pipeline() && Booked() && (e.Flush? || e.FlushAnchors?)
      modifies this`store, this`log
      ensures Booked() && store == Apply(w.spills, old(store), e)
    {
      hide StoreInv, Hit, ReadableCells, AllTallied, FaithfulHistory, TargetOk, Replay, MatDetermined;
      ghost var before := store;
      FlushIsSafe(w, store, e);
      Extend(w, origin, store, log, e);
      DecisionsKept(w.spills, origin, log, p, steps, force, decided, e);
      store, log := Apply(w.spills, store, e), log + [e];
      SameHits(w, p.pipe, origin, before, store, cells, e);
      MoreObjectsJobs(w, p.pipe, steps, before, store, jobs);
    }

    /**
     What the first n steps have left, with nothing in flight: everything decided for them has run or
     was reused, their buffers are flushed, and their fan-outs can be replayed.
     */
    ghost predicate Left(n: nat)
      reads this`decided, this`ran, this`store
    {
      && n <= |steps| && (forall m :: 0 <= m < |decided| ==> decided[m].slot.0 < n)
      && Accounted(decided, {}, ran) && AnchorsKept(w, store, decided, ran)
      && AnchorsAlone(store, p.pipe, steps, decided) && OnDisk(store, p.pipe, steps, n)
    }

    /**
     Drive one segment to completion.  Whatever order completions arrive in, it ends with the
     cells of the clean run, or (planning a barrier step raised) exactly when the clean run
     raises there.
     */
    method RunSegment(lo: nat, hi: nat) returns (ok: bool)
      requires Pipeline() && Booked() && lo < hi <= |steps| && SegmentOk(steps, lo, hi) && jobs == {} && todo == {}
      requires CleanRun(w, p, steps[..lo]) == Some(cells)
      requires CleanRun(w, p, steps[..hi]).Some? ==> ApartRun(w, origin, p, steps[..hi], CleanRun(w, p, steps[..hi]).value)
      requires Left(lo)
      modifies this
      ensures Booked() && jobs == {} && todo == {} && Left(if ok then hi else lo)
      ensures ok <==> CleanRun(w, p, steps[..hi]).Some?
      ensures ok ==> cells == CleanRun(w, p, steps[..hi]).value
      ensures old(decided) <= decided
      ensures !ok ==> decided == old(decided) && cells == old(cells) && hi == lo + 1
      ensures ok ==> PlannedOnce(p, steps, lo, hi, cells, decided[|old(decided)|..])
    {
      hide StoreInv, DecisionsBooked, Matched, PlannedOnce, Noted, Invariant, StoreBooked, CellsBooked, JobsBooked, AllTallied, Scripted, OpenSlots, SegmentOk, Ordered,
           CleanRun, PlanOn, Fits, TargetOk, Uniform, Inner, Left, Onward, Accounted, AnchorsKept, AnchorsAlone, OnDisk, NothingBuffered,
           LatestRow;
      planned := {};
      ghost var whole := CleanRun(w, p, steps[..hi]);
      ghost var g := Segment(w, p, steps, lo, hi, map[], cells, decided, store);
      if whole.Some? {
        g := Segment(w, p, steps, lo, hi, PlansOf(p, steps, hi, whole.value), whole.value, decided, store);
        SegmentStarts(g, origin, Now());
        KeptAtStart(g);
        NothingDecided(g);
      } else {
        OnlyBarriersRaise(w, p, steps, lo, hi, cells);
        UniformGoal(w, p, steps, lo);
      }
      for i := lo to hi
        invariant jobs == old(jobs) || whole.Some?
        invariant whole.None? ==> i == lo && hi == lo + 1 && cells == old(cells) && Booked() && todo == {} && jobs == {}
        invariant whole.None? ==> decided == old(decided) && Left(lo)
        invariant whole.Some? ==> Inv(g) && todo == {} && HeadsPlanned(g, Now(), i) && old(cells).Keys <= cells.Keys
        invariant whole.Some? ==> forall s :: s in planned ==> s.0 < i || Inner(steps, lo, hi, s.0)
      {
        if !Inner(steps, lo, hi, i) {
          ghost var goal := if whole.Some? then whole.value else cells;
          if whole.Some? {
            GoalSoFar(g, Now());
          }
          var ts := PlanWhole(i, goal);
          if whole.Some? {
            HeadPlan(g, Now(), store.objects, i, old(cells)) by { BookedCells(); }
          }
          if ts.None? {
            return false;
          }
          ActOn(g, lo, hi, i, ts.value);
        }
      }
      while jobs != {}
        invariant Inv(g) && todo == {} && HeadsPlanned(g, Now(), hi) && old(cells).Keys <= cells.Keys
        decreases OpenSlots(g, Now())
      {
        var j :| j in jobs;
        Finish(g, lo, hi, j);
      }
      SegmentEnds(g, Now(), old(cells));
      SlotsDecided(g);
      FlushSegment(g, lo, hi);
      ok := true;
    }

    /** Flush every step of a finished segment. */
    method FlushSegment(ghost g: Segment, lo: nat, hi: nat)
      requires Inv(g) && jobs == {} && lo == g.lo && hi == g.hi
      requires AnchorsAlone(g.from, p.pipe, steps, g.past) && OnDisk(g.from, p.pipe, steps, g.lo)
      modifies this`store, this`log
      ensures Booked() && Left(hi)
    {
      hide Invariant, Booked, Scripted, SegmentOk, Uniform, Left, Onward, Accounted, AnchorsKept, AnchorsAlone, OnDisk, NothingBuffered,
           LatestRow, Noted;
      AloneAtEnd(g);
      ghost var last := store;
      OnwardSelf(last, g.Names());
      for i := lo to hi
        invariant Booked() && Onward(last, store, g.Names()) && forall a :: LatestRow(store, a) == LatestRow(last, a)
        invariant forall m :: lo <= m < i ==> NothingBuffered(store, (p.pipe, steps[m].name))
      {
        ghost var before := store;
        FlushStep(i);
        OnwardOn(last, before, store, g.Names(), {steps[i].name});
      }
      LeftAtEnd(g, last);
    }

    lemma NothingLeft()
      requires decided == [] && ran == []
      ensures Left(0)
    {
      NoneSent();
    }

    lemma KeptAtStart(g: Segment)
      requires Left(g.lo) && g.from == store && g.past == decided && jobs == {} && g.hi <= |g.steps|
      ensures Kept(g) && forall n :: 0 <= n < |g.past| ==> g.past[n].slot.0 < g.lo
      ensures AnchorsAlone(g.from, p.pipe, steps, g.past) && OnDisk(g.from, p.pipe, steps, g.lo)
    {
      hide Onward, Accounted, AnchorsKept, AnchorsAlone, OnDisk;
      OnwardSelf(store, g.Names());
    }

    /** No lane row has come up where a fan-out of this segment has its anchor. */
    lemma AloneAtEnd(g: Segment)
      requires Inv(g) && AnchorsAlone(g.from, p.pipe, steps, g.past)
      ensures AnchorsAlone(store, p.pipe, steps, decided) && forall m :: 0 <= m < |decided| ==> decided[m].slot.0 < g.hi
    {
      hide Invariant, Booked, Scripted, LatestRow, Onward, PlanOn, Vacant, Accounted, AnchorsKept, StoreInv;
      forall n | 0 <= n < |g.past| ensures steps[g.past[n].slot.0].name !in g.Names() {
        BeforeSegment(g, g.past[n].slot.0);
      }
      StillAlone(g.from, store, p.pipe, steps, g.past, g.Names());
      PlansAreScripted(g, Now());
      forall n | |g.past| <= n < |decided|
        ensures decided[n].slot.0 < g.hi
        ensures decided[n].target.ToMint? ==>
                  TableOf(decided[n].target.anchor) == (p.pipe, steps[decided[n].slot.0].name)
                  && LatestRow(store, decided[n].target.anchor).None?
      {
        var d := decided[|g.past|..][n - |g.past|];
        assert d == decided[n] && g.HasSlot(d.slot);
        if d.target.ToMint? {
          PlansOwnAddresses(p, steps[d.slot.0], g.goal);
          SpotIsFree(g, Now(), d.slot, origin, store) by { GateIsOpen(); }
        }
      }
      forall n | 0 <= n < |g.past| ensures decided[n] == g.past[n] {
      }
    }

    lemma LeftAtEnd(g: Segment, last: Store)
      requires g.Valid() && g.steps == steps && g.p == p && OnDisk(g.from, p.pipe, steps, g.lo)
      requires Onward(g.from, last, g.Names()) && Onward(last, store, g.Names())
      requires Accounted(decided, {}, ran) && AnchorsKept(w, last, decided, ran)
      requires AnchorsAlone(last, p.pipe, steps, decided) && forall m :: 0 <= m < |decided| ==> decided[m].slot.0 < g.hi
      requires forall a :: LatestRow(store, a) == LatestRow(last, a)
      requires forall m :: g.lo <= m < g.hi ==> NothingBuffered(store, (p.pipe, steps[m].name))
      ensures Left(g.hi)
    {
      hide Onward, LatestRow, Accounted, AnchorsKept, NothingBuffered, Scripted, SegmentOk, Uniform;
      OnwardOn(g.from, last, store, g.Names(), g.Names());
      forall i | 0 <= i < g.lo ensures steps[i].name !in g.Names() {
        BeforeSegment(g, i);
      }
      StillFlushed(g.from, store, p.pipe, steps, g.lo, g.Names());
      AnchorsKeptOn(w, last, store, g.Names(), decided, ran);
    }

    lemma NothingDecided(g: Segment)
      requires g.past == decided
      ensures Noted(g, {})
    {
    }

    /** A finished segment has decided each of its slots once. */
    lemma SlotsDecided(g: Segment)
      requires Inv(g) && HeadsPlanned(g, Now(), g.hi) && jobs == {} && todo == {}
      ensures g.past <= decided && PlannedOnce(p, steps, g.lo, g.hi, g.goal, decided[|g.past|..])
    {
      hide Invariant, Booked, Matched, PlannedOnce, Scripted, PlanOn, HeadsPlanned, SegmentOk, Ordered;
      SegmentDone(g, Now(), g.hi);
      PlansAreScripted(g, Now());
      SegmentPlannedOnce(g, planned, decided[|g.past|..]);
    }

    /**
     A whole run, under either schedule.  The schedules cut the order into different segments
     and completions arrive in any order, but the cells are those of the clean run, up to the
     step whose planning raises, if one does, and the counts are the ones the cells determine.
     Each slot of those steps is planned exactly once, on the clean run's target, and what was a
     hit when the run started is reused; what is not reused is executed, once.  The cells are what the
     steps' declarations mean.  What the run did to the store is a legal history, so it leaves the
     store in a state any later run can start from, and all it computed survives a crash.
     */
    method RunAll(deep: bool) returns (ok: bool, ghost upTo: nat)
      requires Pipeline() && Booked() && cells == map[] && jobs == {} && todo == {} && decided == [] && ran == []
      requires ApartAlways(w, origin, p, steps) && (deep ==> ExpandsAlone(steps))
      modifies this
      ensures ok <==> CleanRun(w, p, steps).Some?
      ensures ok ==> upTo == |steps|
      ensures !ok ==> upTo < |steps| && CleanRun(w, p, steps[..upTo + 1]).None?
      ensures upTo <= |steps| && CleanRun(w, p, steps[..upTo]) == Some(cells) && AllTallied(origin, steps, cells, tally)
      ensures PlannedOnce(p, steps, 0, upTo, cells, decided)
      ensures DecisionsBooked(w.spills, origin, log, p, steps, force, decided)
      ensures StoreBooked(w, origin, store, log) && jobs == {}
      ensures AllMeant(w, p, steps, upTo, cells) && (!ok ==> Raises(p, steps[upTo], cells))
      ensures Durable(w, store, p.pipe, steps, upTo, cells, decided) && Executed(decided, ran)
    {
      hide AllMeant, Raises, Durable, Executed, DecisionsBooked, PlannedOnce, NoRepeats, StoreInv, StoreBooked, CellsBooked, JobsBooked, AllTallied, Ordered,
           CleanRun, PlanOn, Fits, SegmentOk, ExpandsAlone, ApartAlways, Deep, Left;
      var segments := Partition(steps, deep);
      var lo := 0;
      NothingRun(w, p, steps);
      NothingPlanned(p, steps);
      NothingLeft();
      for n := 0 to |segments|
        invariant Booked() && jobs == {} && todo == {} && lo <= |steps|
        invariant lo == |Flatten(segments[..n])| && CleanRun(w, p, steps[..lo]) == Some(cells)
        invariant PlannedOnce(p, steps, 0, lo, cells, decided) && Left(lo)
      {
        NextSegment(steps, segments, n, deep);
        var hi := lo + |segments[n]|;
        ApartSoFar(w, origin, p, steps, hi);
        ghost var before, first := cells, decided;
        ok := RunSegment(lo, hi);
        if !ok {
          RaisedStays(w, p, steps, hi);
          RaisesWhen(w, p, steps, lo);
          upTo := lo;
          RunDone(upTo);
          return;
        }
        PlannedOn(w, p, steps, lo, hi, before, first, decided);
        lo := hi;
      }
      assert segments[..|segments|] == segments && steps[..|steps|] == steps;
      ok, upTo := true, lo;
      RunDone(upTo);
    }

    /** What a run has found, left on disk and executed. */
    lemma RunDone(n: nat)
      requires Pipeline() && Booked() && Left(n) && CleanRun(w, p, steps[..n]) == Some(cells) && ApartAlways(w, origin, p, steps)
      ensures AllMeant(w, p, steps, n, cells)
      ensures Durable(w, store, p.pipe, steps, n, cells, decided) && Executed(decided, ran)
    {
      hide AllMeant, Durable, Executed, CleanRun, ApartAlways, ApartRun, DecisionsBooked, JobsBooked, AllTallied, CellsBooked, StoreInv,
           FaithfulHistory, AnchorsAlone, OnDisk, Accounted, AnchorsKept, KeysWithin;
      ApartSoFar(w, origin, p, steps, n);
      RunMeans(w, origin, p, steps, n);
      PrefixOrdered(steps, n);
      CleanKeys(w, p, steps[..n]);
      LeavesDurable(w, origin, store, p, steps, n, cells, decided, ran);
      AccountedIsExecuted(decided, ran);
    }
  }

  // ---------------------------------------------------------------------------
  // steps of the proofs above
  // ---------------------------------------------------------------------------

  lemma ReusedWork(st: Store, p: Planner, step: Step, force: bool, t: Target)
    requires Reuses(st, p, step, force, t) && t.ToWork?
    ensures Hit(st, t.address).Some?
  {
    hide Hit;
  }

  lemma ReusedMint(st: Store, p: Planner, step: Step, force: bool, t: Target)
    requires Reuses(st, p, step, force, t) && t.ToMint?
    ensures ReplayedChildren(st, p, step.Identity(), t.anchor).Some?
  {
    hide ReplayedChildren;
  }

  /** A step before the segment is called like none of its steps. */
  lemma BeforeSegment(g: Segment, i: nat)
    requires Ordered(g.steps) && i < g.lo <= g.hi <= |g.steps|
    ensures g.steps[i].name !in g.Names()
  {
  }

  /** A slot that is not planned yet has not been decided. */
  lemma SlotNotDecided(g: Segment, planned: set<Slot>, decided: seq<Decision>, s: Slot)
    requires g.past <= decided && Matched(g, planned, decided[|g.past|..]) && s !in planned && g.lo <= s.0
    requires forall n :: 0 <= n < |g.past| ==> g.past[n].slot.0 < g.lo
    ensures NotYetDecided(decided, s)
  {
    forall n | 0 <= n < |decided| ensures decided[n].slot != s {
      if n < |g.past| {
        assert decided[n] == g.past[n];
      } else {
        assert decided[|g.past|..][n - |g.past|] == decided[n];
      }
    }
  }

  lemma ReplayedAnchorThere(st: Store, p: Planner, step: Step, force: bool, t: Target)
    requires Reuses(st, p, step, force, t) && t.ToMint? && LatestRow(st, t.anchor).None?
    ensures AnchorThere(st, t.anchor)
  {
    hide LatestRow, ReplayedChildren, AnchorThere, AnchorHit;
    AnchorIsListed(st, p, step.Identity(), t.anchor);
    AnchorServed(st, t.anchor);
  }

  lemma AnchorStaysOnward(st: Store, next: Store, names: set<string>, a: Address)
    requires Onward(st, next, names) && AnchorThere(st, a)
    ensures AnchorThere(next, a)
  {
    hide AnchorThere;
  }

  lemma NothingPlanned(p: Planner, steps: seq<Step>)
    ensures PlannedOnce(p, steps, 0, 0, map[], [])
  {
    hide PlanOn;
  }

  /** The decisions of one more segment. */
  lemma PlannedOn(w: World, p: Planner, steps: seq<Step>, lo: nat, hi: nat, before: Cells, first: seq<Decision>, decided: seq<Decision>)
    requires Ordered(steps) && lo <= hi <= |steps| && first <= decided
    requires CleanRun(w, p, steps[..lo]) == Some(before) && CleanRun(w, p, steps[..hi]).Some?
    requires PlannedOnce(p, steps, 0, lo, before, first)
    requires PlannedOnce(p, steps, lo, hi, CleanRun(w, p, steps[..hi]).value, decided[|first|..])
    ensures PlannedOnce(p, steps, 0, hi, CleanRun(w, p, steps[..hi]).value, decided)
  {
    hide PlannedOnce, CleanRun, PlanOn, Ordered;
    var after := CleanRun(w, p, steps[..hi]).value;
    PrefixOrdered(steps, hi);
    SamePlans(w, p, steps[..hi], lo);
    assert steps[..hi][..lo] == steps[..lo];
    assert forall i :: 0 <= i < lo ==> steps[..hi][i] == steps[i];
    PlannedAlike(p, steps, lo, before, after, first);
    PlannedInTurn(p, steps, lo, hi, after, first, decided[|first|..]);
    assert first + decided[|first|..] == decided;
  }

  lemma PlansAreScripted(g: Segment, st: State)
    requires Invariant(g, st)
    ensures forall i :: g.lo <= i < g.hi ==> Plan(g.p, g.steps[i], g.goal) == Some(g.plans[i])
  {
    hide PlanOn, StepCells, Apart, Separated, LaneScript, Settled, Unsettled, Covered, SlotsKnown, WithinGoal;
    forall i | g.lo <= i < g.hi ensures Plan(g.p, g.steps[i], g.goal) == Some(g.plans[i]) {
      assert StepScript(g.w, g.p, g.steps[i], g.plans[i], g.goal);
    }
  }

  lemma MintsHere(w: World, pipe: string, objects: set<Json>, steps: seq<Step>, i: nat, t: Target)
    requires i < |steps| && Fits(w, pipe, steps) && TargetOk(w, objects, pipe, steps[i], t) && t.ToMint?
    ensures steps[i].shape.Expand? && t.anchor.code == steps[i].Identity()
    ensures w.mints(t.anchor.pipeline, t.anchor.code)
  {
    hide ArgsOf, ParentsReadable;
  }

  lemma CommitIsSafe(w: World, st: Store, a: Address, o: Outcome)
    requires o == Expected(w, a) && !o.Fail?
    ensures Legal(st, Commit(a, o)) && Faithful(w, Commit(a, o)) && Separate(st, Commit(a, o))
  {
  }

  lemma CommitGrows(spills: Json -> bool, st: Store, a: Address, o: Outcome)
    requires !o.Fail?
    ensures var next := Apply(spills, st, Commit(a, o));
            next.objects == st.objects + SpilledTo(spills, Payload(o))
            && (forall b :: Hit(next, b).Some? <==> Hit(st, b).Some? || b == a)
            && (forall b :: LatestRow(next, b).Some? ==> LatestRow(st, b).Some? || b == a)
  {
    hide Hit, LatestRow, Effect;
    var next := Apply(spills, st, Commit(a, o));
    CommitStores(spills, st, a, o);
    forall b ensures Hit(next, b).Some? <==> Hit(st, b).Some? || b == a {
      CommitHits(spills, st, a, o, b);
    }
    forall b ensures LatestRow(next, b).Some? ==> LatestRow(st, b).Some? || b == a {
      if b != a {
        LatestUnchanged(spills, st, Commit(a, o), b);
      }
    }
  }

  lemma CommitStores(spills: Json -> bool, st: Store, a: Address, o: Outcome)
    requires !o.Fail?
    ensures Apply(spills, st, Commit(a, o)).objects == st.objects + SpilledTo(spills, Payload(o))
  {
  }

  lemma CountCommitted(w: World, pipe: string, origin: Store, steps: seq<Step>, store: Store, cells: Cells,
                       tally: map<string, Tally>, i: nat, k: Key, a: Address, created: bool)
    requires Ordered(steps) && i < |steps| && AllTallied(origin, steps, cells, tally)
    requires CellsBooked(w, pipe, origin, store, cells)
    requires k.1 == steps[i].name && (k in cells ==> !Counted(steps[i]))
    requires a.code == steps[i].Identity() && !Expected(w, a).Fail?
    requires created <==> Hit(store, a).None?
    ensures var cell := OutcomeCell(w, a, Expected(w, a));
            AllTallied(origin, steps, cells[k := cell], Counting(steps[i], tally, cell, created))
  {
    hide Hit, AllTallied, Expected, CellsBooked, Counting, IsNew, Form, Ident;
    var cell := OutcomeCell(w, a, Expected(w, a));
    if Expected(w, a).Ok? {
      CreatedIsNew(w, pipe, origin, store, cells, steps[i].name, a);
    }
    CountCell(origin, steps, cells, tally, i, k, cell, created);
  }

  /** A hit's row is the cell its address determines, and it is readable. */
  lemma HitCell(w: World, st: Store, a: Address)
    requires StoreInv(w, st) && Hit(st, a).Some?
    ensures !Expected(w, a).Fail?
    ensures CellOfRow(Hit(st, a).value) == OutcomeCell(w, a, Expected(w, a))
    ensures SpilledTo(w.spills, Payload(Expected(w, a))) <= st.objects
  {
    HitIsExpected(w, st, a);
  }

  /** The cells of the first few children of an expand lane. */
  function Children(w: World, pipe: string, step: Step, hs: seq<Hash>): Cells {
    map h | h in hs :: (Row(h), step.name) := ChildCell(w, pipe, step.Identity(), h)
  }

  lemma SameHits(w: World, pipe: string, origin: Store, before: Store, after: Store, cells: Cells, e: Event)
    requires CellsBooked(w, pipe, origin, before, cells) && after == Apply(w.spills, before, e)
    requires e.Flush? || e.FlushAnchors? || (e.CommitAnchor? && LatestRow(before, e.address).None?)
    ensures CellsBooked(w, pipe, origin, after, cells) && after.objects == before.objects
  {
    hide Hit, LatestRow, ReadableCells, MatDetermined, AnchorHit;
    forall b ensures Hit(after, b).Some? <==> Hit(before, b).Some? {
      if e.CommitAnchor? {
        AnchorHits(w.spills, before, e.address, e.children, b);
      } else {
        FlushHits(w.spills, before, e, b);
      }
    }
    forall b ensures LatestRow(after, b) == LatestRow(before, b) {
      LatestUnchanged(w.spills, before, e, b);
    }
  }

  /** A key of an open slot is new, or (a shared child) already holds the same cell. */
  lemma SlotKey(g: Segment, st: State, s: Slot, k: Key)
    requires Invariant(g, st) && g.HasSlot(s) && Open(st, s) && k in g.Cells(s)
    ensures k.1 == g.steps[s.0].name
    ensures k in st.cells ==> st.cells[k] == g.Cells(s)[k] && !Counted(g.steps[s.0])
  {
    hide Produced, Scripted, Settled, Covered, SlotsKnown;
    SlotInGoal(g, s);
    if k in st.cells {
      assert k in g.Cells(s).Keys && k in st.cells.Keys;
    }
  }

  lemma NoChildrenYet(w: World, pipe: string, step: Step, cells: Cells)
    ensures cells == cells + Children(w, pipe, step, [])
  {
  }

  lemma LanesOfChildren(g: Segment, s: Slot, hs: seq<Hash>)
    requires g.HasSlot(s) && Minting(g.w, g.plans[s.0][s.1]) == Some(hs)
    ensures forall c :: (exists h :: h in hs && c == Row(h)) <==> (c, g.steps[s.0].name) in g.Cells(s)
  {
    hide Minting, ChildCell;
  }

  lemma NextChild(g: Segment, st: State, s: Slot, hs: seq<Hash>, n: nat)
    requires Invariant(g, st) && g.HasSlot(s) && Open(st, s) && n < |hs|
    requires Minting(g.w, g.plans[s.0][s.1]) == Some(hs)
    requires forall m, n :: 0 <= m < n < |hs| ==> hs[m] != hs[n]
    ensures var step := g.steps[s.0];
            var k, cell := (Row(hs[n]), step.name), ChildCell(g.w, g.p.pipe, step.Identity(), hs[n]);
            var before := st.cells + Children(g.w, g.p.pipe, step, hs[..n]);
            (k in before ==> before[k] == cell && !Counted(step))
            && before[k := cell] == st.cells + Children(g.w, g.p.pipe, step, hs[..n + 1])
  {
    hide Invariant, ChildCell, Minting, Open, Counted, Children;
    var step := g.steps[s.0];
    var k := (Row(hs[n]), step.name);
    AllChildrenThere(g, s, hs);
    OneMoreChild(g.w, g.p.pipe, step, hs, n);
    SlotKey(g, st, s, k);
    var some := Children(g.w, g.p.pipe, step, hs[..n]);
    var cell := ChildCell(g.w, g.p.pipe, step.Identity(), hs[n]);
    assert (st.cells + some)[k := cell] == st.cells + some[k := cell];
  }

  lemma OneMoreChild(w: World, pipe: string, step: Step, hs: seq<Hash>, n: nat)
    requires n < |hs| && forall m, n :: 0 <= m < n < |hs| ==> hs[m] != hs[n]
    ensures var k, cell := (Row(hs[n]), step.name), ChildCell(w, pipe, step.Identity(), hs[n]);
            k !in Children(w, pipe, step, hs[..n])
            && k in Children(w, pipe, step, hs) && Children(w, pipe, step, hs)[k] == cell
            && Children(w, pipe, step, hs[..n])[k := cell] == Children(w, pipe, step, hs[..n + 1])
  {
    hide ChildCell;
    assert hs[..n + 1] == hs[..n] + [hs[n]];
    assert hs[n] !in hs[..n];
  }

  lemma AllChildrenThere(g: Segment, s: Slot, hs: seq<Hash>)
    requires g.HasSlot(s) && Minting(g.w, g.plans[s.0][s.1]) == Some(hs)
    ensures Children(g.w, g.p.pipe, g.steps[s.0], hs) == g.Cells(s)
  {
    hide Minting, ChildCell;
  }

  lemma LaneOfPayload(w: World, a: Address)
    requires w.mints(a.pipeline, a.code) && a.input.Of? && PayloadOf(a.input.h).Some?
    ensures Expected(w, a) == Ok(PayloadOf(a.input.h).value)
  {
  }

  lemma Unplanned(g: Segment, st: State, s: Slot)
    requires Invariant(g, st) && g.HasSlot(s) && s !in st.planned
    ensures Open(st, s) && Job(s.0, s.1, g.plans[s.0][s.1]) !in st.jobs
  {
    hide Scripted, Settled, Unsettled, Covered, WithinGoal;
  }

  lemma JobKnown(g: Segment, st: State, j: Job)
    requires Invariant(g, st) && j in st.jobs
    ensures g.HasSlot(j.Slot()) && Open(st, j.Slot()) && j.Slot() in st.planned
    ensures j.target == g.plans[j.step][j.coord] && (j.target.ToWork? || j.target.ToMint?)
    ensures j == Job(j.step, j.coord, g.plans[j.step][j.coord])
  {
    hide Scripted, Settled, Unsettled, Covered, WithinGoal;
  }

  ghost predicate OwnCellIs(g: Segment, st: State, s: Slot, cell: Cell)
    requires g.HasSlot(s)
  {
    var k := (s.1, g.steps[s.0].name);
    && (k in st.cells ==> st.cells[k] == cell && !Counted(g.steps[s.0]))
    && st.cells[k := cell] == st.cells + g.Cells(s)
    && g.Cells(s).Keys == {k}
  }

  /** A target that does not fan out has one cell, its own. */
  lemma OneCell(g: Segment, st: State, s: Slot, t: Target)
    requires Invariant(g, st) && g.HasSlot(s) && Open(st, s) && t == g.plans[s.0][s.1] && Minting(g.w, t).None?
    ensures OwnCellIs(g, st, s, LaneCell(g.w, t))
  {
    hide Invariant, LaneCell, Open, Minting;
    var k := (s.1, g.steps[s.0].name);
    assert k in g.Cells(s);
    SlotKey(g, st, s, k);
  }

  lemma OwnCell(g: Segment, st: State, s: Slot, t: Target)
    requires Invariant(g, st) && g.HasSlot(s) && Open(st, s) && t == g.plans[s.0][s.1] && !t.ToMint?
    ensures OwnCellIs(g, st, s, LaneCell(g.w, t))
  {
    hide Invariant, LaneCell, Open, OwnCellIs;
    OneCell(g, st, s, t);
  }

  lemma OwnCellFailed(g: Segment, st: State, s: Slot, t: Target)
    requires Invariant(g, st) && g.HasSlot(s) && Open(st, s) && t == g.plans[s.0][s.1] && t.ToMint?
    requires AnchorOf(g.w, t.anchor).None?
    ensures OwnCellIs(g, st, s, Failed)
  {
    hide Invariant, Open, AnchorOf, OwnCellIs;
    OneCell(g, st, s, t);
  }

  lemma MarkCell(w: World, objects: set<Json>, pipe: string, step: Step, t: Target)
    requires TargetOk(w, objects, pipe, step, t) && (t.ToBlocked? || t.ToSkipped? || t.ToUtil?)
    ensures !LaneCell(w, t).Mat? && (Usable(LaneCell(w, t)) ==> Readable(w, objects, LaneCell(w, t)))
    ensures LaneCell(w, t) == if t.ToBlocked? then Blocked else if t.ToSkipped? then Skipped else t.cell
  {
    hide Sound, Present;
  }

  lemma WorkAddress(w: World, objects: set<Json>, pipe: string, step: Step, t: Target)
    requires TargetOk(w, objects, pipe, step, t) && t.ToWork?
    ensures t.address.pipeline == pipe && t.address.code == step.Identity()
    ensures LaneCell(w, t) == OutcomeCell(w, t.address, Expected(w, t.address))
  {
    hide Readable, Expected, ParentsReadable, ArgsOf;
  }

  lemma WorkCell(w: World, t: Target)
    requires t.ToWork?
    ensures LaneCell(w, t) == OutcomeCell(w, t.address, Expected(w, t.address))
    ensures Expected(w, t.address).Fail? ==> LaneCell(w, t) == Failed
  {
    hide Expected;
  }

  /** Executing from the parents' cells returns what the address means. */
  lemma ExecuteWork(w: World, pipe: string, objects: set<Json>, steps: seq<Step>, i: nat, t: Target)
    requires i < |steps| && Fits(w, pipe, steps) && TargetOk(w, objects, pipe, steps[i], t) && t.ToWork?
    ensures Call(w, pipe, steps[i].Identity(), ReadArgs(w, pipe, objects, t.parents)) == Expected(w, t.address)
    ensures t.address.pipeline == pipe && t.address.code == steps[i].Identity()
    ensures !w.mints(pipe, steps[i].Identity())
  {
    hide ReadArgs, ArgsOf, ParentsReadable, Call;
    ReadMatches(w, pipe, objects, t.parents);
  }

  /** What a generator's result means at the anchor address of its target. */
  ghost predicate MintsAs(w: World, pipe: string, code: Code, t: Target, ys: Option<seq<Json>>)
    requires t.ToMint?
  {
    && t.anchor.pipeline == pipe && t.anchor.code == code && w.mints(pipe, code)
    && Minting(w, t) == AnchorOf(w, t.anchor)
    && AnchorOf(w, t.anchor) == (if ys.None? then None else Some(ChildHashes(ys.value)))
    && (ys.Some? ==> forall h :: h in ChildHashes(ys.value) ==> PayloadOf(h).Some?)
  }

  lemma ExecuteMint(w: World, pipe: string, objects: set<Json>, steps: seq<Step>, i: nat, t: Target)
    requires i < |steps| && Fits(w, pipe, steps) && TargetOk(w, objects, pipe, steps[i], t) && t.ToMint?
    ensures MintsAs(w, pipe, steps[i].Identity(), t,
              Generate(w, pipe, steps[i].Identity(), ReadArgs(w, pipe, objects, t.parents)))
  {
    hide ReadArgs, ArgsOf, ParentsReadable;
    ReadMatches(w, pipe, objects, t.parents);
    var ys := Generate(w, pipe, steps[i].Identity(), ReadArgs(w, pipe, objects, t.parents));
    if ys.Some? {
      PayloadsOfChildren(ys.value);
    }
  }

  lemma PayloadsOfChildren(ys: seq<Json>)
    ensures forall h :: h in ChildHashes(ys) ==> PayloadOf(h).Some?
  {
  }

  lemma DistinctChildren(ys: seq<Json>)
    ensures forall m, n :: 0 <= m < n < |ChildHashes(ys)| ==> ChildHashes(ys)[m] != ChildHashes(ys)[n]
  {
  }

  /** The child lanes of a fan-out in this run are not where one of its anchors goes. */
  lemma NoChildAtAnchor(g: Segment, s: Slot, k: Key)
    requires g.Valid() && g.HasSlot(s) && g.plans[s.0][s.1].ToMint?
    requires k in g.goal && k.1 == g.steps[s.0].name && g.goal[k].Mat?
    requires g.steps[s.0].shape.Expand?
    ensures g.goal[k].address != g.plans[s.0][s.1].anchor
  {
    hide SegmentOk, Ordered, PlanOn, StepCells, Separated, LaneScript, Expected, AnchorOf;
    var step, ts := g.steps[s.0], g.plans[s.0];
    assert StepScript(g.w, g.p, step, ts, g.goal);
    assert k in CellsAt(g.goal, step.name);
    var c := StepIsProduced(g.w, g.p.pipe, step, ts, k);
    ProducedInStep(g.w, g.p.pipe, step, ts, c, k);
    assert g.goal[k] == CellsAt(g.goal, step.name)[k] == Produced(g.w, g.p.pipe, step, c, ts[c])[k];
    ExpandsOnlyMint(g.p, step, g.goal);
    if Minting(g.w, ts[c]).Some? {
      assert k.0.h in AllChildren(g.w, ts);
    }
  }

  lemma ExpandsOnlyMint(p: Planner, step: Step, cells: Cells)
    requires step.shape.Expand? && Plan(p, step, cells).Some?
    ensures forall c :: c in Plan(p, step, cells).value ==>
              var t := Plan(p, step, cells).value[c];
              !t.ToWork? && (t.ToUtil? ==> t.cell.Util?)
  {
    hide AggregatePlan, JoinPlan, MapCoords, Broadcast, ParentsAt, Arrange, InputOf;
  }

  /** When an anchor is committed, no lane row is at its address. */
  lemma SpotIsFree(g: Segment, st: State, s: Slot, origin: Store, store: Store)
    requires Invariant(g, st) && g.HasSlot(s) && g.plans[s.0][s.1].ToMint? && g.steps[s.0].shape.Expand?
    requires StoreInv(g.w, origin) && StoreInv(g.w, store) && CellsBooked(g.w, g.p.pipe, origin, store, st.cells)
    requires Vacant(origin, g.plans[s.0])
    requires g.plans[s.0][s.1].anchor.code == g.steps[s.0].Identity()
    requires g.w.mints(g.plans[s.0][s.1].anchor.pipeline, g.plans[s.0][s.1].anchor.code)
    ensures LatestRow(origin, g.plans[s.0][s.1].anchor).None? && LatestRow(store, g.plans[s.0][s.1].anchor).None?
  {
    hide StoreInv, Scripted, Settled, Unsettled, Covered, SlotsKnown, LatestRow, ReadableCells, HitsTracked;
    var anchor := g.plans[s.0][s.1].anchor;
    RowHasOutcome(g.w, origin, anchor);
    RowHasOutcome(g.w, store, anchor);
    if anchor.input != RootLane {
      assert LatestRow(origin, anchor).None?;
      forall k | k in st.cells && st.cells[k].Mat? ensures st.cells[k].address != anchor {
        assert MatDetermined(g.w, g.p.pipe, k, st.cells[k]);
        assert g.goal[k] == st.cells[k];
        if k.1 == g.steps[s.0].name {
          NoChildAtAnchor(g, s, k);
        }
      }
    }
  }

  /** A replayed anchor lists exactly the children executing would mint, all of them hits. */
  lemma ReplayIsMinting(w: World, st: Store, p: Planner, code: Code, t: Target)
    requires StoreInv(w, st) && t.ToMint? && ReplayedChildren(st, p, code, t.anchor).Some?
    requires LatestRow(st, t.anchor).None?
    ensures var hs := ReplayedChildren(st, p, code, t.anchor).value;
            Minting(w, t) == Some(hs)
            && (forall h :: h in hs ==> Hit(st, ChildAddress(p.pipe, code, h)).Some?)
            && (forall m, n :: 0 <= m < n < |hs| ==> hs[m] != hs[n])
  {
    hide StoreInv, Hit, AnchorHit, Yielded, LatestRow, ReplayedChildren;
    AnchorIsListed(st, p, code, t.anchor);
    AnchorHitIsExpected(w, st, t.anchor);
    DistinctChildren(Yielded(w, t.anchor).value);
  }

  // ---------------------------------------------------------------------------
  // lanes
  // ---------------------------------------------------------------------------

  ghost function ReadersBelow(g: Segment, i: nat, c: Coord, n: nat): set<Slot>
    requires g.Bounds()
  {
    set j | g.lo <= j < n && g.Reads(i, (j, c)) :: (j, c)
  }

  /** The slots waiting for the cell of step i in lane c. */
  ghost function Readers(g: Segment, i: nat, c: Coord): set<Slot>
    requires g.Bounds()
  {
    ReadersBelow(g, i, c, g.hi)
  }

  lemma ReadersStep(g: Segment, i: nat, c: Coord, j: nat)
    requires g.Bounds() && g.lo <= j < g.hi
    ensures ReadersBelow(g, i, c, j + 1) == ReadersBelow(g, i, c, j) + (if g.Reads(i, (j, c)) then {(j, c)} else {})
    ensures (j, c) !in ReadersBelow(g, i, c, j)
    ensures g.Reads(i, (j, c)) ==> (j, c) in Readers(g, i, c)
  {
  }

  lemma ConsumerAwaits(g: Segment, st: State, i: nat, j: nat, c: Coord)
    requires Invariant(g, st) && g.lo <= i < g.hi && g.lo <= j < g.hi
    requires Feeds(g.steps, i, j) && g.p.scope.Admits(g.steps[j].name, c) && (c, g.steps[i].name) in st.cells
    ensures g.Reads(i, (j, c)) && i < j
  {
    hide SegmentOk, Ordered, StepScript, Settled, Unsettled, SlotsKnown, Covered;
    InnerIsLane(g.steps, g.lo, g.hi, i, j);
    assert LaneScript(g.p, g.steps[j], g.steps[i].name, g.plans[j], g.goal);
  }

  lemma ReadersAreFed(g: Segment, i: nat, j: nat, c: Coord)
    requires g.Valid() && g.lo <= i < g.hi && g.lo <= j < g.hi
    ensures g.Reads(i, (j, c)) ==> Feeds(g.steps, i, j) && g.p.scope.Admits(g.steps[j].name, c)
  {
    hide SegmentOk, Ordered, StepScript;
    if g.Reads(i, (j, c)) {
      assert LaneScript(g.p, g.steps[j], g.steps[i].name, g.plans[j], g.goal);
    }
  }

  /** A lane's owed slot is planned exactly as the clean run plans it, and can be executed. */
  lemma LaneIsReady(g: Segment, st: State, objects: set<Json>, bcast: map<string, Cell>, i: nat, j: nat, c: Coord)
    requires Invariant(g, st) && g.Reads(i, (j, c)) && (j, c) in st.todo && ReadableCells(g.w, objects, st.cells)
    requires IsBroadcast(g.p, g.steps[j], st.cells, bcast)
    ensures MapTarget(g.p, g.steps[j], st.cells, bcast, c) == Some(g.plans[j][c])
    ensures TargetOk(g.w, objects, g.p.pipe, g.steps[j], g.plans[j][c]) && !g.plans[j][c].ToPending?
    ensures (j, c) !in st.planned && i < j
  {
    hide Classify, TargetOk, Settled, Unsettled, MapTarget, Readable, Uniform, IsBroadcast, PlanOn, StepCells, Apart,
         Separated, SegmentOk, Ordered, Usable;
    InnerIsLane(g.steps, g.lo, g.hi, i, j);
    var d := g.steps[i].name;
    assert LaneScript(g.p, g.steps[j], d, g.plans[j], g.goal);
    assert StepScript(g.w, g.p, g.steps[j], g.plans[j], g.goal);
    assert (c, d) in st.cells;
    LaneTarget(g.p, g.steps[j], d, st.cells, g.goal, bcast, c);
    ClassifyOk(g.w, objects, g.p.pipe, g.steps[j], map[d := g.goal[(c, d)]]);
  }

  /** The slots that are not settled yet. */
  ghost function OpenSlots(g: Segment, st: State): set<Slot>
    requires g.Bounds()
  {
    set i, c | g.lo <= i < g.hi && c in g.plans[i] && Open(st, (i, c)) :: (i, c)
  }

  /** Planning a slot opens nothing. */
  lemma AfterRecord(g: Segment, st: State, next: State, s: Slot)
    requires Invariant(g, st) && g.HasSlot(s)
    requires next == Settle(g, st, s) || (next == Dispatched(g, st, s) && s !in st.planned)
    ensures OpenSlots(g, next) <= OpenSlots(g, st)
    ensures next == Settle(g, st, s) ==> s !in OpenSlots(g, next)
    ensures st.planned <= next.planned && st.cells.Keys <= next.cells.Keys && next.planned == st.planned + {s}
  {
    hide Scripted, Produced, Unblocked, Settled, Unsettled, Covered, WithinGoal, SegmentOk, Ordered;
    if next == Settle(g, st, s) {
      SettleFlight(g, st, s);
    } else {
      forall r: Slot | g.HasSlot(r) && Open(next, r) ensures Open(st, r) {
        if InFlight(next, r) {
          var j :| j in next.jobs && j.Slot() == r;
        }
      }
    }
  }

  /** After planning a lane's slot, what is owed next is exactly its own consumers. */
  lemma LaneAfterRecord(g: Segment, st: State, next: State, i: nat, s: Slot)
    requires Invariant(g, st) && Invariant(g, next) && g.Reads(i, s) && s in st.todo
    requires next == Settle(g, st, s) || next == Dispatched(g, st, s)
    ensures var key := (s.1, g.steps[s.0].name);
            if key in next.cells then
              next.todo == st.todo - {s} + Readers(g, s.0, s.1) && st.todo !! Readers(g, s.0, s.1)
            else next.todo == st.todo - {s}
  {
    hide Scripted, Settled, SegmentOk, Ordered, WithinGoal, Minting;
    InnerIsLane(g.steps, g.lo, g.hi, i, s.0);
    LaneSlotCell(g, i, s);
  }

  /** The slot of a single-parent map has one cell, in its own lane. */
  lemma LaneSlotCell(g: Segment, i: nat, s: Slot)
    requires g.Valid() && g.Reads(i, s)
    ensures g.Cells(s).Keys == {(s.1, g.steps[s.0].name)}
  {
    hide Classify, SegmentOk, Ordered, StepScript, LaneCell, AnchorOf, Uniform;
    assert LaneScript(g.p, g.steps[s.0], g.steps[i].name, g.plans[s.0], g.goal);
    MapsDoNotMint(g.p.pipe, g.steps[s.0], map[g.steps[i].name := g.goal[(s.1, g.steps[i].name)]]);
  }

  // ---------------------------------------------------------------------------
  // heads
  // ---------------------------------------------------------------------------

  lemma BroadcastOfParents(p: Planner, step: Step, cells: Cells, bcast: map<string, Cell>)
    requires IsBroadcast(p, step, cells, bcast)
    ensures IsBroadcast(p, step, ParentCells(step, cells), bcast)
  {
    var own := ParentCells(step, cells);
    forall d | d in BroadcastDeps(p, step)
      ensures (exists c :: (c, d) in cells) <==> (exists c :: (c, d) in own)
    {
      if c :| (c, d) in cells {
        assert (c, d) in own;
      }
    }
    forall d | d in bcast ensures exists c :: (c, d) in own && own[(c, d)] == bcast[d] {
      var c :| (c, d) in cells && cells[(c, d)] == bcast[d];
      assert (c, d) in own;
    }
  }

  /** Before a head is planned, none of its consumers has been touched. */
  lemma HeadFresh(g: Segment, st: State, i: nat)
    requires Invariant(g, st) && st.todo == {} && g.lo <= i < g.hi
    requires forall c :: c in g.plans[i] ==> (i, c) !in st.planned
    ensures forall r: Slot :: g.Reads(i, r) ==> (r.1, g.steps[i].name) !in st.cells && r !in st.planned && r.0 != i
  {
    hide StepCells, Apart, Separated, PlanOn, LaneScript, Produced, Settled, SlotsKnown, Uniform, Ordered, SegmentOk;
    forall r: Slot | g.Reads(i, r) ensures (r.1, g.steps[i].name) !in st.cells && r !in st.planned && r.0 != i {
      var k := (r.1, g.steps[i].name);
      InnerIsLane(g.steps, g.lo, g.hi, i, r.0);
      if k in st.cells {
        assert StepScript(g.w, g.p, g.steps[i], g.plans[i], g.goal);
        assert k in CellsAt(g.goal, g.steps[i].name);
        var c := StepIsProduced(g.w, g.p.pipe, g.steps[i], g.plans[i], k);
        assert g.HasSlot((i, c)) && Open(st, (i, c));
        NewCells(g, st, (i, c), i, r);
      }
    }
  }

  lemma HeadAfterRecord(g: Segment, st: State, next: State, s: Slot)
    requires g.Bounds() && g.HasSlot(s)
    requires next == Settle(g, st, s) || next == Dispatched(g, st, s)
    ensures forall r :: r in next.todo ==> r in st.todo || g.Reads(s.0, r)
  {
  }

  /** Once a head is planned, its resolved lanes owe exactly their consumers. */
  lemma HeadOwes(g: Segment, start: State, st: State, i: nat, resolved: set<Coord>)
    requires Invariant(g, st) && g.lo <= i < g.hi
    requires forall r: Slot :: g.Reads(i, r) ==> r !in start.planned && r.0 != i
    requires forall s :: s in st.planned ==> s in start.planned || s.0 == i
    requires forall s :: s in st.todo ==> g.Reads(i, s)
    requires resolved == set k | k in st.cells && k.1 == g.steps[i].name :: k.0
    ensures forall c :: c in resolved ==> (c, g.steps[i].name) in st.cells && Readers(g, i, c) <= st.todo
    ensures forall s :: s in st.todo ==> g.Reads(i, s) && s.1 in resolved
  {
    hide Scripted, Settled, Unsettled, WithinGoal, SlotsKnown, Uniform, Ordered, SegmentOk;
    forall s | s in st.todo ensures s.1 in resolved {
      assert g.Reads(i, s);
      assert (s.1, g.steps[i].name) in st.cells;
    }
    forall c, r | c in resolved && r in Readers(g, i, c) ensures r in st.todo {
      assert g.Reads(i, r) && r.1 == c;
      assert (c, g.steps[i].name) in st.cells;
    }
  }

  lemma ReadersApart(g: Segment, i: nat, c: Coord)
    requires g.Bounds()
    ensures forall s :: s in Readers(g, i, c) <==> g.Reads(i, s) && s.1 == c
    ensures forall c', s :: c' != c && s in Readers(g, i, c') ==> s !in Readers(g, i, c)
  {
  }

  lemma StartedOpen(g: Segment, st: State, j: Job)
    requires g.Bounds() && j in st.jobs && g.HasSlot(j.Slot())
    ensures j.Slot() in OpenSlots(g, st)
  {
    assert InFlight(st, j.Slot());
  }

  lemma CompletionOwes(g: Segment, start: State, st: State, s: Slot, lanes: set<Coord>)
    requires g.Valid() && g.HasSlot(s) && start.todo == {} && st == Settle(g, start, s)
    requires forall c :: c in lanes <==> (c, g.steps[s.0].name) in g.Cells(s)
    ensures forall c :: c in lanes ==> (c, g.steps[s.0].name) in st.cells && Readers(g, s.0, c) <= st.todo
    ensures forall r :: r in st.todo ==> g.Reads(s.0, r) && r.1 in lanes
  {
    hide Scripted, Produced, SegmentOk, Ordered, Uniform;
    var own := g.Cells(s);
    forall c, r | c in lanes && r in Readers(g, s.0, c) ensures r in st.todo {
      var k := (c, g.steps[s.0].name);
      assert k in own && g.Reads(s.0, (r.0, k.0));
    }
  }

  lemma FlushIsSafe(w: World, st: Store, e: Event)
    requires e.Flush? || e.FlushAnchors?
    ensures Legal(st, e) && Faithful(w, e) && Separate(st, e)
  {
  }

  // ---------------------------------------------------------------------------
  // segments
  // ---------------------------------------------------------------------------

  /** The state at the start of a segment: all earlier steps done, nothing planned. */
  lemma SegmentStarts(g: Segment, origin: Store, st: State)
    requires Ordered(g.steps) && g.p.singles == Singles(g.steps) && SegmentOk(g.steps, g.lo, g.hi)
    requires CleanRun(g.w, g.p, g.steps[..g.lo]) == Some(st.cells)
    requires CleanRun(g.w, g.p, g.steps[..g.hi]) == Some(g.goal)
    requires ApartRun(g.w, origin, g.p, g.steps[..g.hi], g.goal)
    requires g.plans == PlansOf(g.p, g.steps, g.hi, g.goal)
    requires st.planned == {} && st.jobs == {} && st.todo == {}
    ensures g.Valid() && Invariant(g, st)
    ensures forall i :: g.lo <= i < g.hi ==> Vacant(origin, g.plans[i])
  {
    hide Vacant, Ordered, CleanRun, PlanOn, StepScript, LaneScript, Uniform, Produced, Deep;
    ScriptHolds(g.w, origin, g.p, g.steps, g.lo, g.hi);
    UniformGoal(g.w, g.p, g.steps, g.hi);
    PrefixOrdered(g.steps, g.hi);
    PrefixAgrees(g.w, g.p, g.steps[..g.hi], g.lo);
    assert g.steps[..g.hi][..g.lo] == g.steps[..g.lo];
    NothingOfSegment(g, st);
  }

  lemma NothingOfSegment(g: Segment, st: State)
    requires g.Valid() && Agrees(g.steps[..g.lo], st.cells, g.goal)
    requires st.planned == {} && st.jobs == {} && st.todo == {}
    ensures Invariant(g, st)
  {
    hide Scripted, Produced, SegmentOk, Uniform;
    forall k, i | k in st.cells && g.lo <= i < g.hi ensures k.1 != g.steps[i].name {
      var n :| 0 <= n < g.lo && g.steps[..g.lo][n].name == k.1;
      assert g.steps[n].name != g.steps[i].name;
    }
    assert Unsettled(g, st) by {
      forall s: Slot | g.HasSlot(s) ensures g.Cells(s).Keys !! st.cells.Keys {
        SlotInGoal(g, s);
      }
    }
  }

  lemma GoalSoFar(g: Segment, st: State)
    requires Invariant(g, st)
    ensures Uniform(g.p.singles, g.goal)
    ensures forall k :: k in st.cells ==> k in g.goal && g.goal[k] == st.cells[k]
  {
    hide Scripted, Uniform, Settled, Unsettled, Covered, SlotsKnown, SegmentOk;
  }

  /** A head step is planned exactly as in the clean run, and its targets can be executed. */
  lemma HeadPlan(g: Segment, st: State, objects: set<Json>, i: nat, before: Cells)
    requires Invariant(g, st) && g.lo <= i < g.hi && !Inner(g.steps, g.lo, g.hi, i)
    requires CleanRun(g.w, g.p, g.steps[..g.lo]) == Some(before) && before.Keys <= st.cells.Keys
    requires CleanRun(g.w, g.p, g.steps[..g.hi]) == Some(g.goal)
    requires ReadableCells(g.w, objects, st.cells)
    ensures Plan(g.p, g.steps[i], st.cells) == Some(g.plans[i])
    ensures forall c :: c in g.plans[i] ==>
              TargetOk(g.w, objects, g.p.pipe, g.steps[i], g.plans[i][c]) && !g.plans[i][c].ToPending?
  {
    hide CleanRun, PlanOn, StepCells, Apart, Separated, LaneScript, Readable, TargetOk, Settled, Unsettled, Covered,
         SlotsKnown, SegmentOk, Uniform;
    assert StepScript(g.w, g.p, g.steps[i], g.plans[i], g.goal);
    PrefixOrdered(g.steps, g.hi);
    PrefixAgrees(g.w, g.p, g.steps[..g.hi], g.lo);
    assert g.steps[..g.hi][..g.lo] == g.steps[..g.lo];
    HeadParents(g, st, i, before);
    PlanOk(g.w, objects, g.p, g.steps[i], st.cells);
  }

  lemma HeadParents(g: Segment, st: State, i: nat, before: Cells)
    requires Invariant(g, st) && g.lo <= i < g.hi && !Inner(g.steps, g.lo, g.hi, i)
    requires Agrees(g.steps[..g.lo], before, g.goal) && before.Keys <= st.cells.Keys
    ensures ParentCells(g.steps[i], st.cells) == ParentCells(g.steps[i], g.goal)
  {
    hide Scripted, Settled, Unsettled, Covered, SlotsKnown, SegmentOk, Uniform;
    forall k | k in ParentCells(g.steps[i], g.goal) ensures k in st.cells {
      var j :| 0 <= j < i && g.steps[j].name == k.1;
      assert j < g.lo;
      assert g.steps[..g.lo][j].name == k.1;
    }
  }

  lemma NotOwnParent(steps: seq<Step>, i: nat)
    requires Ordered(steps) && i < |steps|
    ensures steps[i].name !in steps[i].deps
  {
    forall d | d in steps[i].deps ensures d != steps[i].name {
      var j :| 0 <= j < i && steps[j].name == d;
    }
  }

  /** At the end of a segment the cells are the clean run's. */
  lemma SegmentEnds(g: Segment, st: State, before: Cells)
    requires Invariant(g, st) && HeadsPlanned(g, st, g.hi) && st.jobs == {} && st.todo == {}
    requires Ordered(g.steps) && CleanRun(g.w, g.p, g.steps[..g.hi]) == Some(g.goal)
    requires CleanRun(g.w, g.p, g.steps[..g.lo]) == Some(before) && before.Keys <= st.cells.Keys
    ensures st.cells == g.goal
  {
    hide CleanRun, Scripted, Settled, Unsettled, Covered, SlotsKnown, SegmentOk, Uniform, Ordered, HeadsPlanned, IsRun;
    SegmentDone(g, st, g.hi);
    PrefixOrdered(g.steps, g.hi);
    CleanKeys(g.w, g.p, g.steps[..g.hi]);
    PrefixAgrees(g.w, g.p, g.steps[..g.hi], g.lo);
    assert g.steps[..g.hi][..g.lo] == g.steps[..g.lo];
    AllGoalThere(g, st, before);
  }

  lemma CleanKeys(w: World, p: Planner, steps: seq<Step>)
    requires Ordered(steps) && CleanRun(w, p, steps).Some?
    ensures KeysWithin(steps, CleanRun(w, p, steps).value)
  {
    hide CleanRun, StepHolds, Ordered;
    CleanIsRun(w, p, steps);
  }

  lemma AllGoalThere(g: Segment, st: State, before: Cells)
    requires g.lo < g.hi <= |g.steps| && WithinGoal(g, st)
    requires KeysWithin(g.steps[..g.hi], g.goal) && Agrees(g.steps[..g.lo], before, g.goal)
    requires before.Keys <= st.cells.Keys
    requires forall i, k :: g.lo <= i < g.hi && k in g.goal && k.1 == g.steps[i].name ==> k in st.cells
    ensures st.cells == g.goal
  {
    forall k | k in g.goal ensures k in st.cells {
      var n :| 0 <= n < g.hi && g.steps[..g.hi][n].name == k.1;
      if n < g.lo {
        assert g.steps[..g.lo][n].name == k.1;
        assert k in before.Keys;
      }
    }
  }

  /** Only a barrier step can raise: lanes of single-parent steps always line up. */
  lemma {:induction false} DeepNeverRaises(w: World, p: Planner, steps: seq<Step>, lo: nat, hi: nat)
    requires Ordered(steps) && lo <= hi <= |steps| && (forall i :: lo <= i < hi ==> Deep(steps[i]))
    requires CleanRun(w, p, steps[..lo]).Some?
    ensures CleanRun(w, p, steps[..hi]).Some?
  {
    hide PlanOn, StepCells;
    if lo < hi {
      DeepNeverRaises(w, p, steps, lo, hi - 1);
      assert steps[..hi][..hi - 1] == steps[..hi - 1];
      DeepPlans(p, steps[hi - 1], CleanRun(w, p, steps[..hi - 1]).value);
    }
  }

  lemma DeepPlans(p: Planner, step: Step, cells: Cells)
    requires step.WellFormed() && Deep(step)
    ensures Plan(p, step, cells).Some?
  {
    hide Classify, AggregatePlan, JoinPlan, Broadcast;
    var own := ParentCells(step, cells);
    var bcast := Broadcast(p, step, own);
    forall c | c in MapCoords(p, step, own) ensures MapTarget(p, step, own, bcast, c).Some? {
      if step.deps != [] {
        var d := step.deps[0];
        assert step.deps == [d];
        assert ScanDeps(p, step) == {d};
        assert (c, d) in own;
      }
    }
  }

  lemma OnlyBarriersRaise(w: World, p: Planner, steps: seq<Step>, lo: nat, hi: nat, cells: Cells)
    requires Ordered(steps) && SegmentOk(steps, lo, hi)
    requires CleanRun(w, p, steps[..lo]) == Some(cells) && CleanRun(w, p, steps[..hi]).None?
    ensures hi == lo + 1 && Plan(p, steps[lo], cells).None? && !Inner(steps, lo, hi, lo)
  {
    hide PlanOn, StepCells;
    if hi != lo + 1 {
      DeepNeverRaises(w, p, steps, lo, hi);
    } else {
      assert steps[..hi][..lo] == steps[..lo] && steps[..hi][lo] == steps[lo];
      NotOwnParent(steps, lo);
    }
  }

  // ---------------------------------------------------------------------------
  // whole runs
  // ---------------------------------------------------------------------------

  /**
   The side conditions on expand steps that are fed by other lanes, wherever planning gets to
   from a given store.
   */
  ghost predicate ApartAlways(w: World, origin: Store, p: Planner, steps: seq<Step>) {
    forall n :: 0 <= n <= |steps| && CleanRun(w, p, steps[..n]).Some?
      ==> ApartRun(w, origin, p, steps[..n], CleanRun(w, p, steps[..n]).value)
  }

  lemma ApartSoFar(w: World, origin: Store, p: Planner, steps: seq<Step>, n: nat)
    requires ApartAlways(w, origin, p, steps) && n <= |steps|
    ensures CleanRun(w, p, steps[..n]).Some? ==> ApartRun(w, origin, p, steps[..n], CleanRun(w, p, steps[..n]).value)
  {
    hide CleanRun, ApartRun;
  }

  /** Under the deep schedule, an expand fed by other lanes does not share its segment. */
  predicate ExpandsAlone(steps: seq<Step>) {
    forall i :: 0 <= i < |steps| && steps[i].DependentExpand() ==>
      (i > 0 ==> !Deep(steps[i - 1])) && (i + 1 < |steps| ==> !Deep(steps[i + 1]))
  }

  lemma NothingRun(w: World, p: Planner, steps: seq<Step>)
    ensures CleanRun(w, p, steps[..0]) == Some(map[])
  {
  }

  /** Pipelines whose expands are all root sources need no side conditions. */
  lemma RootSourcesOnly(w: World, origin: Store, p: Planner, steps: seq<Step>)
    requires forall i :: 0 <= i < |steps| ==> !steps[i].DependentExpand()
    ensures ApartAlways(w, origin, p, steps) && ExpandsAlone(steps)
  {
    hide CleanRun, PlanOn, Apart, Vacant;
  }

  lemma {:induction false} FlattenPrefix(segments: seq<seq<Step>>, n: nat)
    requires n <= |segments|
    ensures Flatten(segments[..n]) <= Flatten(segments)
  {
    if n < |segments| {
      var m := |segments| - 1;
      FlattenPrefix(segments[..m], n);
      assert segments[..m][..n] == segments[..n];
    } else {
      assert segments[..n] == segments;
    }
  }

  /** The n-th segment is the next slice of the order, and fit for the segment executor. */
  lemma NextSegment(steps: seq<Step>, segments: seq<seq<Step>>, n: nat, deep: bool)
    requires IsPartition(segments, steps, deep) && n < |segments| && (deep ==> ExpandsAlone(steps))
    ensures var lo := |Flatten(segments[..n])|;
            var hi := lo + |segments[n]|;
            SegmentOk(steps, lo, hi) && hi <= |steps| && |Flatten(segments[..n + 1])| == hi
  {
    hide Deep, Maximal, DeepSegment, ExpandsAlone;
    var lo := |Flatten(segments[..n])|;
    var hi := lo + |segments[n]|;
    assert segments[..n + 1][..n] == segments[..n] && segments[..n + 1][n] == segments[n];
    FlattenPrefix(segments, n + 1);
    assert steps[..hi] == Flatten(segments[..n]) + segments[n];
    assert steps[lo..hi] == segments[n];
    if deep {
      assert DeepSegment(segments[n]);
      DeepSlice(steps, lo, hi);
    }
  }

  lemma DeepSlice(steps: seq<Step>, lo: nat, hi: nat)
    requires lo <= hi <= |steps| && DeepSegment(steps[lo..hi]) && ExpandsAlone(steps)
    ensures SegmentOk(steps, lo, hi)
  {
    hide Deep;
    var segment := steps[lo..hi];
    if |segment| != 1 {
      forall i | lo <= i < hi ensures Deep(steps[i]) && !steps[i].DependentExpand() {
        assert segment[i - lo] == steps[i];
        if i > lo {
          assert segment[i - 1 - lo] == steps[i - 1];
        } else {
          assert segment[1] == steps[i + 1];
        }
      }
    }
  }

  /** A run that raises at some step has no cells for the whole pipeline. */
  lemma {:induction false} RaisedStays(w: World, p: Planner, steps: seq<Step>, n: nat)
    requires n <= |steps| && CleanRun(w, p, steps[..n]).None?
    ensures CleanRun(w, p, steps).None?
  {
    hide PlanOn, StepCells;
    if n < |steps| {
      var m := |steps| - 1;
      assert steps[..m][..n] == steps[..n];
      RaisedStays(w, p, steps[..m], n);
    } else {
      assert steps[..n] == steps;
    }
  }

  /** The counts of a step are a function of its cells and of what was live at the start. */
  lemma CountsAreDetermined(origin: Store, cells: Cells, name: string, t1: Tally, t2: Tally)
    requires Tallied(origin, cells, name, t1) && Tallied(origin, cells, name, t2)
    ensures t1 == t2
  {
    hide KeysOf, NewAddresses;
  }
}
