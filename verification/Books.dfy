/**
 The bookkeeping a run does next to its cells: the durable store, and the per-step counts.
 */
module Books {
  import opened Model
  import opened Meaning
  import opened Ledger
  import opened History
  import opened Determined
  import opened Planning
  import opened Clean
  import opened Script
  import opened Progress

  datatype Tally = Tally(created: nat, reused: nat, failed: nat, blocked: nat, filtered: nat)

  const NOTHING := Tally(0, 0, 0, 0, 0)

  datatype Kind = KOk | KFiltered | KFailed | KBlocked | KUtil | KPending

  function KindOf(cell: Cell): Kind {
    match cell
    case Mat(_, _, _, filtered) => if filtered then KFiltered else KOk
    case Util(_, _) => KUtil
    case Blocked => KBlocked
    case Failed => KFailed
    case Pending => KPending
    case Skipped => KFiltered
  }

  function KeysOf(cells: Cells, name: string, kind: Kind): set<Key> {
    set k | k in cells && k.1 == name && KindOf(cells[k]) == kind
  }

  /** The addresses a step's successful cells live at. */
  function OkAddresses(cells: Cells, name: string): set<Address> {
    set k | k in KeysOf(cells, name, KOk) && k in cells && cells[k].Mat? :: cells[k].address
  }

  /** Those that were no reuse hit when the run started. */
  function NewAddresses(origin: Store, cells: Cells, name: string): set<Address> {
    set a | a in OkAddresses(cells, name) && Hit(origin, a).None?
  }

  /**
   The counts of a step: one "created" per address that was not live before, and one
   "reused" for every other successful cell, no matter which of several lanes with the same
   address executed first.
   */
  predicate Tallied(origin: Store, cells: Cells, name: string, t: Tally) {
    && t.created == |NewAddresses(origin, cells, name)|
    && t.created + t.reused == |KeysOf(cells, name, KOk)|
    && t.filtered == |KeysOf(cells, name, KFiltered)|
    && t.failed == |KeysOf(cells, name, KFailed)|
    && t.blocked == |KeysOf(cells, name, KBlocked)|
  }

  /** Counts are kept for stored steps, and match cells unless lanes may share children. */
  predicate Counted(step: Step) {
    step.cached && !step.DependentExpand()
  }

  predicate AllTallied(origin: Store, steps: seq<Step>, cells: Cells, tally: map<string, Tally>) {
    forall i :: 0 <= i < |steps| && steps[i].cached ==>
      && steps[i].name in tally
      && (Counted(steps[i]) ==> Tallied(origin, cells, steps[i].name, tally[steps[i].name]))
  }

  /** What a run does to the store: it stages, commits and flushes; it flips and loses nothing. */
  predicate Grows(e: Event) {
    e.Stage? || e.Commit? || e.CommitAnchor? || e.Flush? || e.FlushAnchors?
  }

  predicate AllGrow(log: seq<Event>) {
    forall i :: 0 <= i < |log| ==> Grows(log[i])
  }

  /** The store is what the run's own legal history has made of the store it started from. */
  ghost predicate StoreBooked(w: World, origin: Store, store: Store, log: seq<Event>) {
    && StoreInv(w, store)
    && FaithfulHistory(w, origin, log)
    && AllGrow(log)
    && store == Replay(w.spills, origin, log)
  }

  /** A materialized cell is the outcome its address determines, in its own step's table. */
  ghost predicate MatDetermined(w: World, pipe: string, k: Key, cell: Cell) {
    cell.Mat? ==>
      && cell.address.code.step == k.1 && cell.address.pipeline == pipe
      && !Expected(w, cell.address).Fail?
      && cell == OutcomeCell(w, cell.address, Expected(w, cell.address))
  }

  predicate HasMat(cells: Cells, a: Address) {
    exists k :: k in cells && cells[k].Mat? && cells[k].address == a
  }

  /** An address is a hit exactly if it was one at the start or this run has a cell for it. */
  ghost predicate HitsTracked(origin: Store, store: Store, cells: Cells) {
    forall a :: Hit(store, a).Some? <==> Hit(origin, a).Some? || HasMat(cells, a)
  }

  /** Lane rows appear only where this run has a cell. */
  ghost predicate RowsTracked(origin: Store, store: Store, cells: Cells) {
    forall a :: LatestRow(store, a).Some? ==> LatestRow(origin, a).Some? || HasMat(cells, a)
  }

  ghost predicate CellsBooked(w: World, pipe: string, origin: Store, store: Store, cells: Cells) {
    && ReadableCells(w, store.objects, cells)
    && (forall k :: k in cells ==> MatDetermined(w, pipe, k, cells[k]))
    && HitsTracked(origin, store, cells)
    && RowsTracked(origin, store, cells)
  }

  ghost predicate JobsBooked(w: World, pipe: string, steps: seq<Step>, store: Store, jobs: set<Job>) {
    forall j :: j in jobs ==> j.step < |steps| && TargetOk(w, store.objects, pipe, steps[j.step], j.target)
  }

  // ---------------------------------------------------------------------------
  // the store
  // ---------------------------------------------------------------------------

  /** An event that is safe at this point extends the run's history. */
  lemma Extend(w: World, origin: Store, store: Store, log: seq<Event>, e: Event)
    requires StoreBooked(w, origin, store, log)
    requires Legal(store, e) && Faithful(w, e) && Separate(store, e) && Grows(e)
    ensures StoreBooked(w, origin, Apply(w.spills, store, e), log + [e])
  {
    hide Grows, Legal, Faithful, LanesDetermined, AnchorsDetermined, LiveReadable, Effect;
    var next := log + [e];
    ReplayAppend(w.spills, origin, log, e);
    forall i | 0 <= i < |next|
      ensures var before := Replay(w.spills, origin, next[..i]);
              Legal(before, next[i]) && Faithful(w, next[i]) && Separate(before, next[i])
    {
      if i < |log| {
        assert next[..i] == log[..i] && next[i] == log[i];
      } else {
        assert next[..i] == log;
      }
    }
    StepKeepsInv(w, store, e);
  }

  lemma StepKeepsInv(w: World, st: Store, e: Event)
    requires StoreInv(w, st) && Legal(st, e) && Faithful(w, e) && Separate(st, e)
    ensures StoreInv(w, Apply(w.spills, st, e))
  {
    LanesStep(w, st, e);
    AnchorsStep(w, st, e);
    ReadableStep(w, st, e);
  }

  /** What a commit does to the reuse gate. */
  lemma CommitHits(spills: Json -> bool, st: Store, a: Address, o: Outcome, b: Address)
    requires !o.Fail?
    ensures Hit(Apply(spills, st, Commit(a, o)), b).Some? <==> Hit(st, b).Some? || b == a
  {
    if a == b {
      LatestAfterCommit(spills, st, a, o);
    } else {
      LatestUnchanged(spills, st, Commit(a, o), b);
    }
  }

  lemma AnchorHits(spills: Json -> bool, st: Store, a: Address, children: seq<Hash>, b: Address)
    requires LatestRow(st, a).None?
    ensures Hit(Apply(spills, st, CommitAnchor(a, children)), b).Some? <==> Hit(st, b).Some?
  {
  }

  /** A flush does not change what a lookup of a lane returns. */
  lemma FlushHits(spills: Json -> bool, st: Store, e: Event, b: Address)
    requires e.Flush? || e.FlushAnchors?
    ensures Hit(Apply(spills, st, e), b) == Hit(st, b)
  {
    if e.Flush? {
      FlushKeepsRows(st, spills, e.table, TableOf(b));
    }
  }

  /** With determined rows, a live address always already holds what is being committed. */
  lemma LiveIsHit(w: World, st: Store, a: Address)
    requires StoreInv(w, st) && !Expected(w, a).Fail?
    ensures AlreadyLive(w.spills, st, a, Expected(w, a)) <==> Hit(st, a).Some?
  {
    if Hit(st, a).Some? {
      HitIsExpected(w, st, a);
    }
  }

  /** A lane row is only at an address that determines an outcome; a root source's anchor is not. */
  lemma RowHasOutcome(w: World, st: Store, a: Address)
    requires StoreInv(w, st)
    ensures LatestRow(st, a).Some? ==> !Expected(w, a).Fail?
  {
    if LatestRow(st, a).Some? {
      assert LatestRow(st, a).value in Rows(st, TableOf(a));
      assert LaneOk(w, TableOf(a), LatestRow(st, a).value);
    }
  }

  // ---------------------------------------------------------------------------
  // the cells
  // ---------------------------------------------------------------------------

  lemma MoreObjectsCells(w: World, objects: set<Json>, more: set<Json>, cells: Cells)
    requires objects <= more && ReadableCells(w, objects, cells)
    ensures ReadableCells(w, more, cells)
  {
    hide Sound, Present;
    forall k | k in cells && Usable(cells[k]) ensures Readable(w, more, cells[k]) {
      StillPresent(objects, more, cells[k]);
    }
  }

  lemma MoreObjectsJobs(w: World, pipe: string, steps: seq<Step>, store: Store, more: Store, jobs: set<Job>)
    requires store.objects <= more.objects && JobsBooked(w, pipe, steps, store, jobs)
    ensures JobsBooked(w, pipe, steps, more, jobs)
  {
    hide TargetOk;
    forall j | j in jobs ensures TargetOk(w, more.objects, pipe, steps[j.step], j.target) {
      MoreObjects(w, store.objects, more.objects, pipe, steps[j.step], j.target);
    }
  }

  lemma OutcomeReadable(w: World, objects: set<Json>, a: Address, o: Outcome)
    requires !o.Fail? && SpilledTo(w.spills, Payload(o)) <= objects
    ensures Usable(OutcomeCell(w, a, o)) ==> Readable(w, objects, OutcomeCell(w, a, o))
  {
  }

  /** Writing the cell of an address that is a hit by now keeps the cells booked. */
  lemma PutMat(w: World, pipe: string, origin: Store, before: Store, after: Store, cells: Cells, k: Key, a: Address)
    requires CellsBooked(w, pipe, origin, before, cells) && before.objects <= after.objects
    requires forall b :: Hit(after, b).Some? <==> Hit(before, b).Some? || b == a
    requires forall b :: LatestRow(after, b).Some? ==> LatestRow(before, b).Some? || b == a
    requires !Expected(w, a).Fail? && a.code.step == k.1 && a.pipeline == pipe
    requires SpilledTo(w.spills, Payload(Expected(w, a))) <= after.objects
    requires k in cells ==> cells[k] == OutcomeCell(w, a, Expected(w, a)) || !cells[k].Mat?
    ensures CellsBooked(w, pipe, origin, after, cells[k := OutcomeCell(w, a, Expected(w, a))])
  {
    hide Readable, Hit, LatestRow, Expected, Form, Ident;
    var cell := OutcomeCell(w, a, Expected(w, a));
    var next := cells[k := cell];
    MoreObjectsCells(w, before.objects, after.objects, cells);
    OutcomeReadable(w, after.objects, a, Expected(w, a));
    forall b ensures HasMat(next, b) <==> HasMat(cells, b) || b == a {
      if HasMat(cells, b) {
        var k' :| k' in cells && cells[k'].Mat? && cells[k'].address == b;
        assert k' in next && next[k'].Mat? && next[k'].address == b;
      }
      if b == a {
        assert next[k].Mat? && next[k].address == a;
      }
    }
  }

  /** Writing a cell that holds no materialization. */
  lemma PutMark(w: World, pipe: string, origin: Store, store: Store, cells: Cells, k: Key, cell: Cell)
    requires CellsBooked(w, pipe, origin, store, cells)
    requires !cell.Mat? && (k in cells ==> !cells[k].Mat?)
    requires Usable(cell) ==> Readable(w, store.objects, cell)
    ensures CellsBooked(w, pipe, origin, store, cells[k := cell])
  {
    hide Readable, Hit, LatestRow, Expected, Form, Ident;
    var next := cells[k := cell];
    forall b ensures HasMat(next, b) <==> HasMat(cells, b) {
      if HasMat(cells, b) {
        var k' :| k' in cells && cells[k'].Mat? && cells[k'].address == b;
        assert k' in next && next[k'].Mat? && next[k'].address == b;
      }
    }
  }

  // ---------------------------------------------------------------------------
  // the counts
  // ---------------------------------------------------------------------------

  function Bump(t: Tally, kind: Kind, created: bool): Tally {
    match kind
    case KOk => if created then t.(created := t.created + 1) else t.(reused := t.reused + 1)
    case KFiltered => t.(filtered := t.filtered + 1)
    case KFailed => t.(failed := t.failed + 1)
    case KBlocked => t.(blocked := t.blocked + 1)
    case _ => t
  }

  lemma KeysAfterPut(cells: Cells, k: Key, cell: Cell, name: string, kind: Kind)
    requires k !in cells || k.1 != name
    ensures KeysOf(cells[k := cell], name, kind)
              == KeysOf(cells, name, kind) + (if k.1 == name && KindOf(cell) == kind then {k} else {})
    ensures k !in KeysOf(cells, name, kind)
    ensures |KeysOf(cells[k := cell], name, kind)|
              == |KeysOf(cells, name, kind)| + (if k.1 == name && KindOf(cell) == kind then 1 else 0)
  {
    hide KindOf;
    assert k !in KeysOf(cells, name, kind);
    var next, mine := KeysOf(cells[k := cell], name, kind), k.1 == name && KindOf(cell) == kind;
    assert forall k' :: k' != k ==> (k' in next <==> k' in KeysOf(cells, name, kind));
    assert k in next <==> mine;
    if mine {
      assert next == KeysOf(cells, name, kind) + {k};
    } else {
      assert next == KeysOf(cells, name, kind);
    }
  }

  lemma AddressesAfterPut(cells: Cells, k: Key, cell: Cell, name: string)
    requires k !in cells || k.1 != name
    ensures OkAddresses(cells[k := cell], name)
              == OkAddresses(cells, name) + (if k.1 == name && KindOf(cell).KOk? then {cell.address} else {})
  {
    hide KindOf, KeysOf;
    var next := cells[k := cell];
    KeysAfterPut(cells, k, cell, name, KOk);
    OkCellsAreMats(cells, name);
    OkCellsAreMats(next, name);
    var extra := if k.1 == name && KindOf(cell).KOk? then {cell.address} else {};
    forall a | a in OkAddresses(cells, name) ensures a in OkAddresses(next, name) {
      var k' :| k' in KeysOf(cells, name, KOk) && k' in cells && cells[k'].Mat? && cells[k'].address == a;
      assert k' in KeysOf(next, name, KOk) && k' != k && next[k'] == cells[k'];
    }
    forall a | a in OkAddresses(next, name) ensures a in OkAddresses(cells, name) + extra {
      var k' :| k' in KeysOf(next, name, KOk) && k' in next && next[k'].Mat? && next[k'].address == a;
      if k' != k {
        assert k' in KeysOf(cells, name, KOk) && next[k'] == cells[k'];
      }
    }
    if k.1 == name && KindOf(cell).KOk? {
      assert k in KeysOf(next, name, KOk) && next[k].address == cell.address;
    }
  }

  lemma OkCellsAreMats(cells: Cells, name: string)
    ensures forall k :: k in KeysOf(cells, name, KOk) ==> k in cells && k.1 == name && cells[k].Mat?
  {
  }

  /** Is this the first successful cell at an address that was not live before? */
  predicate IsNew(origin: Store, cells: Cells, name: string, cell: Cell) {
    KindOf(cell).KOk? && Hit(origin, cell.address).None? && cell.address !in OkAddresses(cells, name)
  }

  lemma NewAfterPut(origin: Store, cells: Cells, k: Key, cell: Cell, name: string)
    requires k !in cells || k.1 != name
    ensures |NewAddresses(origin, cells[k := cell], name)|
              == |NewAddresses(origin, cells, name)| + (if k.1 == name && IsNew(origin, cells, name, cell) then 1 else 0)
  {
    hide Hit, OkAddresses;
    AddressesAfterPut(cells, k, cell, name);
    var was, now := NewAddresses(origin, cells, name), NewAddresses(origin, cells[k := cell], name);
    if k.1 == name && IsNew(origin, cells, name, cell) {
      assert now == was + {cell.address};
    } else {
      assert now == was;
    }
  }

  lemma BumpCounts(t: Tally, kind: Kind, created: bool)
    ensures var u := Bump(t, kind, created);
            && u.created == t.created + (if kind.KOk? && created then 1 else 0)
            && u.created + u.reused == t.created + t.reused + (if kind.KOk? then 1 else 0)
            && u.filtered == t.filtered + (if kind.KFiltered? then 1 else 0)
            && u.failed == t.failed + (if kind.KFailed? then 1 else 0)
            && u.blocked == t.blocked + (if kind.KBlocked? then 1 else 0)
  {
  }

  lemma NewIsOk(origin: Store, cells: Cells, name: string, cell: Cell)
    ensures IsNew(origin, cells, name, cell) ==> KindOf(cell).KOk?
  {
    hide Hit, OkAddresses;
  }

  /** Counting one fresh cell. */
  lemma BumpTally(origin: Store, cells: Cells, name: string, t: Tally, k: Key, cell: Cell, created: bool)
    requires Tallied(origin, cells, name, t) && k.1 == name && k !in cells
    requires KindOf(cell).KOk? ==> (created <==> IsNew(origin, cells, name, cell))
    ensures Tallied(origin, cells[k := cell], name, Bump(t, KindOf(cell), created))
  {
    hide Hit, KeysOf, OkAddresses, NewAddresses, IsNew, KindOf, Bump;
    KeysAfterPut(cells, k, cell, name, KOk);
    KeysAfterPut(cells, k, cell, name, KFiltered);
    KeysAfterPut(cells, k, cell, name, KFailed);
    KeysAfterPut(cells, k, cell, name, KBlocked);
    NewAfterPut(origin, cells, k, cell, name);
    NewIsOk(origin, cells, name, cell);
    BumpCounts(t, KindOf(cell), created);
  }

  lemma OtherTally(origin: Store, cells: Cells, name: string, t: Tally, k: Key, cell: Cell)
    requires Tallied(origin, cells, name, t) && k.1 != name
    ensures Tallied(origin, cells[k := cell], name, t)
  {
    hide Hit, KeysOf, OkAddresses, NewAddresses;
    var next := cells[k := cell];
    KeysAfterPut(cells, k, cell, name, KOk);
    KeysAfterPut(cells, k, cell, name, KFiltered);
    KeysAfterPut(cells, k, cell, name, KFailed);
    KeysAfterPut(cells, k, cell, name, KBlocked);
    NewAfterPut(origin, cells, k, cell, name);
  }

  function Counting(step: Step, tally: map<string, Tally>, cell: Cell, created: bool): map<string, Tally>
  {
    if step.cached && step.name in tally
    then tally[step.name := Bump(tally[step.name], KindOf(cell), created)]
    else tally
  }

  lemma CountCell(origin: Store, steps: seq<Step>, cells: Cells, tally: map<string, Tally>,
                  i: nat, k: Key, cell: Cell, created: bool)
    requires Ordered(steps) && i < |steps| && AllTallied(origin, steps, cells, tally)
    requires k.1 == steps[i].name && (k in cells ==> !Counted(steps[i]))
    requires KindOf(cell).KOk? ==> (created <==> IsNew(origin, cells, steps[i].name, cell))
    ensures AllTallied(origin, steps, cells[k := cell], Counting(steps[i], tally, cell, created))
  {
    hide Hit, KeysOf, OkAddresses, Tallied, Bump, IsNew;
    var next, counts := cells[k := cell], Counting(steps[i], tally, cell, created);
    forall n | 0 <= n < |steps| && steps[n].cached
      ensures steps[n].name in counts
      ensures Counted(steps[n]) ==> Tallied(origin, next, steps[n].name, counts[steps[n].name])
    {
      if n == i {
        if Counted(steps[i]) {
          BumpTally(origin, cells, steps[i].name, tally[steps[i].name], k, cell, created);
        }
      } else {
        assert steps[n].name != steps[i].name;
        if Counted(steps[n]) {
          OtherTally(origin, cells, steps[n].name, tally[steps[n].name], k, cell);
        }
      }
    }
  }

  /** "created" means the same at the gate and in the counts. */
  lemma CreatedIsNew(w: World, pipe: string, origin: Store, store: Store, cells: Cells, name: string, a: Address)
    requires CellsBooked(w, pipe, origin, store, cells) && a.code.step == name && Expected(w, a).Ok?
    ensures Hit(store, a).None? <==> IsNew(origin, cells, name, OutcomeCell(w, a, Expected(w, a)))
  {
    hide Hit, LatestRow, Readable, ReadableCells, Form, Ident, Expected;
    if HasMat(cells, a) {
      var k :| k in cells && cells[k].Mat? && cells[k].address == a;
      assert MatDetermined(w, pipe, k, cells[k]);
      assert k in KeysOf(cells, name, KOk);
    }
  }

  // ---------------------------------------------------------------------------
  // the decisions
  // ---------------------------------------------------------------------------

  /**
   A decision is the gate's answer at the moment the slot was looked up; and what could be
   reused when the run started was reused.
   */
  ghost predicate DecisionOk(spills: Json -> bool, origin: Store, log: seq<Event>, p: Planner, steps: seq<Step>,
                             force: bool, d: Decision)
  {
    && d.slot.0 < |steps| && d.at <= |log|
    && (d.reused <==> Reuses(Replay(spills, origin, log[..d.at]), p, steps[d.slot.0], force, d.target))
    && (d.target.ToMint? ==> LatestRow(Replay(spills, origin, log[..d.at]), d.target.anchor).None?)
    && (Reuses(origin, p, steps[d.slot.0], force, d.target) ==> d.reused)
  }

  ghost predicate DecisionsBooked(spills: Json -> bool, origin: Store, log: seq<Event>, p: Planner, steps: seq<Step>,
                                  force: bool, decided: seq<Decision>)
  {
    forall n :: 0 <= n < |decided| ==> DecisionOk(spills, origin, log, p, steps, force, decided[n])
  }

  lemma DecisionsKept(spills: Json -> bool, origin: Store, log: seq<Event>, p: Planner, steps: seq<Step>,
                      force: bool, decided: seq<Decision>, e: Event)
    requires DecisionsBooked(spills, origin, log, p, steps, force, decided)
    ensures DecisionsBooked(spills, origin, log + [e], p, steps, force, decided)
  {
    hide Reuses, Replay, LatestRow;
    forall n | 0 <= n < |decided| ensures DecisionOk(spills, origin, log + [e], p, steps, force, decided[n]) {
      assert DecisionOk(spills, origin, log, p, steps, force, decided[n]);
      assert (log + [e])[..decided[n].at] == log[..decided[n].at];
    }
  }

  /** A live anchor. */
  ghost predicate AnchorThere(st: Store, a: Address) {
    && a in st.live
    && exists row :: (row in Table(st.anchorDisk, TableOf(a)) || row in Table(st.anchorBuffer, TableOf(a))) && row.address == a
  }

  lemma AnchorServed(st: Store, a: Address)
    ensures AnchorHit(st, a).Some? <==> AnchorThere(st, a) && LatestRow(st, a).None?
  {
    hide LatestRow;
    if AnchorHit(st, a).Some? {
      ServedAnchorIsThere(st, a);
    }
  }

  lemma AnchorStays(spills: Json -> bool, st: Store, e: Event, a: Address)
    requires Grows(e) && AnchorThere(st, a)
    ensures AnchorThere(Apply(spills, st, e), a)
  {
    hide AlreadyLive, AnchorHit, RowFor;
    var next, k := Apply(spills, st, e), TableOf(a);
    var row :| (row in Table(st.anchorDisk, k) || row in Table(st.anchorBuffer, k)) && row.address == a;
    assert row in Table(next.anchorDisk, k) || row in Table(next.anchorBuffer, k);
  }

  lemma {:induction false} AnchorsStay(spills: Json -> bool, st: Store, log: seq<Event>, a: Address)
    requires AllGrow(log) && AnchorThere(st, a)
    ensures AnchorThere(Replay(spills, st, log), a)
  {
    hide AnchorThere, Apply, Grows;
    if log != [] {
      AnchorsStay(spills, st, log[..|log| - 1], a);
      AnchorStays(spills, Replay(spills, st, log[..|log| - 1]), log[|log| - 1], a);
    }
  }

  /** What the gate would have reused at the start of the run, it still reuses. */
  lemma GateStaysOpen(w: World, origin: Store, store: Store, log: seq<Event>, cells: Cells,
                      p: Planner, step: Step, force: bool, t: Target)
    requires StoreInv(w, origin) && StoreBooked(w, origin, store, log) && HitsTracked(origin, store, cells)
    requires t.ToMint? ==> LatestRow(origin, t.anchor).None? && LatestRow(store, t.anchor).None?
    ensures Reuses(origin, p, step, force, t) ==> Reuses(store, p, step, force, t)
  {
    hide StoreInv, FaithfulHistory, Hit, AnchorHit, AnchorThere, LatestRow, Replay, HasMat, AnchorOf, Grows, ReplayedChildren;
    if t.ToMint? && Reuses(origin, p, step, force, t) {
      AnchorIsListed(origin, p, step.Identity(), t.anchor);
      AnchorIsListed(store, p, step.Identity(), t.anchor);
      AnchorServed(origin, t.anchor);
      AnchorsStay(w.spills, origin, log, t.anchor);
      AnchorServed(store, t.anchor);
      AnchorHitIsExpected(w, origin, t.anchor);
      AnchorHitIsExpected(w, store, t.anchor);
    }
  }
}
