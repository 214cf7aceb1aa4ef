/**
 What a run leaves on disk, and what it has executed: the parts of the scheduler's bookkeeping that
 the next run depends on.
 */
module Durability {
  import opened Model
  import opened Meaning
  import opened Ledger
  import opened History
  import opened Determined
  import opened Planning
  import opened Clean
  import opened Script
  import opened Progress
  import opened Books

  // ---------------------------------------------------------------------------
  // what a run's own events leave alone
  // ---------------------------------------------------------------------------

  ghost predicate SameTables(st: Store, next: Store, k: TableKey) {
    && Table(next.disk, k) == Table(st.disk, k) && Table(next.buffer, k) == Table(st.buffer, k)
    && Table(next.anchorDisk, k) == Table(st.anchorDisk, k) && Table(next.anchorBuffer, k) == Table(st.anchorBuffer, k)
  }

  /** Only tables of these steps have changed; nothing has gone dead and no live anchor is lost. */
  ghost predicate Onward(st: Store, next: Store, names: set<string>) {
    && st.live <= next.live
    && (forall k: TableKey :: k.1 !in names ==> SameTables(st, next, k))
    && (forall a :: AnchorThere(st, a) ==> AnchorThere(next, a))
  }

  lemma OnwardSelf(st: Store, names: set<string>)
    ensures Onward(st, st, names)
  {
    hide AnchorThere;
  }

  lemma OnwardOn(st: Store, next: Store, last: Store, names: set<string>, more: set<string>)
    requires Onward(st, next, names) && Onward(next, last, more) && more <= names
    ensures Onward(st, last, names)
  {
    hide AnchorThere;
  }

  lemma EventOnward(spills: Json -> bool, st: Store, e: Event, name: string)
    requires Grows(e)
    requires match e
             case Commit(a, _) => a.code.step == name
             case CommitAnchor(a, _) => a.code.step == name
             case Flush(k) => k.1 == name
             case FlushAnchors(k) => k.1 == name
             case _ => true
    ensures Onward(st, Apply(spills, st, e), {name})
  {
    hide AlreadyLive, AnchorHit, RowFor, AnchorThere;
    forall a | AnchorThere(st, a) ensures AnchorThere(Apply(spills, st, e), a) {
      AnchorStays(spills, st, e, a);
    }
  }

  lemma AnchorCommittedThere(spills: Json -> bool, st: Store, a: Address, children: seq<Hash>)
    requires LatestRow(st, a).None?
    ensures AnchorThere(Apply(spills, st, CommitAnchor(a, children)), a)
  {
    hide LatestRow, LastAnchor;
    var next, k := Apply(spills, st, CommitAnchor(a, children)), TableOf(a);
    if AnchorHit(st, a) == Some(children) {
      ServedAnchorIsThere(st, a);
      var row := AnchorRowHit(st, a).value;
      assert row in Table(next.anchorDisk, k) || row in Table(next.anchorBuffer, k);
    } else {
      var row := AnchorRow(a, children, st.clock);
      assert row in Table(next.anchorBuffer, k);
    }
  }

  // ---------------------------------------------------------------------------
  // flushed steps
  // ---------------------------------------------------------------------------

  ghost predicate NothingBuffered(st: Store, k: TableKey) {
    Table(st.buffer, k) == [] && Table(st.anchorBuffer, k) == []
  }

  /** The first n steps have nothing left in their buffers. */
  ghost predicate OnDisk(st: Store, pipe: string, steps: seq<Step>, n: nat)
    requires n <= |steps|
  {
    forall i :: 0 <= i < n ==> NothingBuffered(st, (pipe, steps[i].name))
  }

  /** Flushing a step empties its buffers and moves no other step's rows. */
  lemma StepFlushed(spills: Json -> bool, st: Store, k: TableKey)
    ensures var next := Apply(spills, Apply(spills, st, Flush(k)), FlushAnchors(k));
            NothingBuffered(next, k) && forall k' :: NothingBuffered(st, k') ==> NothingBuffered(next, k')
  {
  }

  lemma StillFlushed(st: Store, next: Store, pipe: string, steps: seq<Step>, n: nat, names: set<string>)
    requires n <= |steps| && OnDisk(st, pipe, steps, n) && Onward(st, next, names)
    requires forall i :: 0 <= i < n ==> steps[i].name !in names
    ensures OnDisk(next, pipe, steps, n)
  {
    hide AnchorThere;
    forall i | 0 <= i < n ensures NothingBuffered(next, (pipe, steps[i].name)) {
      assert SameTables(st, next, (pipe, steps[i].name));
    }
  }

  /** What is on disk when the process dies is served again. */
  lemma CrashKeepsFlushed(spills: Json -> bool, st: Store, a: Address)
    requires NothingBuffered(st, TableOf(a))
    ensures var after := Apply(spills, st, Crash);
            Hit(after, a) == Hit(st, a) && LatestRow(after, a) == LatestRow(st, a) && AnchorHit(after, a) == AnchorHit(st, a)
  {
    hide Last, LastAnchor;
    var after := Apply(spills, st, Crash);
    assert Rows(after, TableOf(a)) == Rows(st, TableOf(a));
  }

  // ---------------------------------------------------------------------------
  // what was executed
  // ---------------------------------------------------------------------------

  /** A decision that sends this job to be executed. */
  predicate Sends(d: Decision, j: Job) {
    !d.reused && (d.target.ToWork? || d.target.ToMint?) && j == Job(d.slot.0, d.slot.1, d.target)
  }

  ghost predicate Sent(decided: seq<Decision>, j: Job) {
    exists n :: 0 <= n < |decided| && Sends(decided[n], j)
  }

  /** Everything decided to be executed is in flight or has run, once; nothing else has. */
  ghost predicate Accounted(decided: seq<Decision>, jobs: set<Job>, ran: seq<Job>) {
    && (forall m, n :: 0 <= m < n < |ran| ==> ran[m] != ran[n])
    && (forall j :: j in jobs ==> j !in ran)
    && (forall j :: j in jobs || j in ran <==> Sent(decided, j))
  }

  /** Every fan-out that was replayed or has run has its anchor. */
  ghost predicate AnchorsKept(w: World, st: Store, decided: seq<Decision>, ran: seq<Job>) {
    && (forall n :: 0 <= n < |decided| && decided[n].reused && decided[n].target.ToMint? ==> AnchorThere(st, decided[n].target.anchor))
    && (forall j :: j in ran && j.target.ToMint? && Minting(w, j.target).Some? ==> AnchorThere(st, j.target.anchor))
  }

  ghost predicate NotYetDecided(decided: seq<Decision>, s: Slot) {
    forall n :: 0 <= n < |decided| ==> decided[n].slot != s
  }

  lemma NoneSent()
    ensures Accounted([], {}, [])
  {
  }

  lemma SentAppend(decided: seq<Decision>, d: Decision)
    ensures forall j :: Sent(decided + [d], j) <==> Sent(decided, j) || Sends(d, j)
  {
    hide Sends;
    var all := decided + [d];
    forall j ensures Sent(all, j) <==> Sent(decided, j) || Sends(d, j) {
      if Sent(decided, j) {
        var n :| 0 <= n < |decided| && Sends(decided[n], j);
        assert all[n] == decided[n];
      }
      assert all[|decided|] == d;
    }
  }

  /** A decision that sends nothing. */
  lemma AccountedQuiet(decided: seq<Decision>, jobs: set<Job>, ran: seq<Job>, d: Decision)
    requires Accounted(decided, jobs, ran) && (d.reused || !(d.target.ToWork? || d.target.ToMint?))
    ensures Accounted(decided + [d], jobs, ran)
  {
    hide Sent;
    SentAppend(decided, d);
  }

  /** A decision that puts a job in flight. */
  lemma AccountedSent(decided: seq<Decision>, jobs: set<Job>, ran: seq<Job>, d: Decision)
    requires Accounted(decided, jobs, ran) && NotYetDecided(decided, d.slot)
    requires !d.reused && (d.target.ToWork? || d.target.ToMint?)
    ensures Accounted(decided + [d], jobs + {Job(d.slot.0, d.slot.1, d.target)}, ran)
  {
    hide Sent;
    SentAppend(decided, d);
    NeverSent(decided, Job(d.slot.0, d.slot.1, d.target));
  }

  lemma NeverSent(decided: seq<Decision>, j: Job)
    requires NotYetDecided(decided, j.Slot())
    ensures !Sent(decided, j)
  {
  }

  /** A job that completes. */
  lemma AccountedRan(decided: seq<Decision>, jobs: set<Job>, ran: seq<Job>, j: Job)
    requires Accounted(decided, jobs, ran) && j in jobs
    ensures Accounted(decided, jobs - {j}, ran + [j])
  {
    hide Sent;
    forall m, n | 0 <= m < n < |ran| + 1 ensures (ran + [j])[m] != (ran + [j])[n] {
      if n == |ran| { assert ran[m] in ran; }
    }
  }

  lemma AnchorsKeptOn(w: World, st: Store, next: Store, names: set<string>, decided: seq<Decision>, ran: seq<Job>)
    requires AnchorsKept(w, st, decided, ran) && Onward(st, next, names)
    ensures AnchorsKept(w, next, decided, ran)
  {
    hide AnchorThere, Minting;
  }

  lemma AnchorsKeptDecided(w: World, st: Store, decided: seq<Decision>, ran: seq<Job>, d: Decision)
    requires AnchorsKept(w, st, decided, ran) && (d.reused && d.target.ToMint? ==> AnchorThere(st, d.target.anchor))
    ensures AnchorsKept(w, st, decided + [d], ran)
  {
    hide AnchorThere, Minting;
  }

  lemma AnchorsKeptRan(w: World, st: Store, decided: seq<Decision>, ran: seq<Job>, j: Job)
    requires AnchorsKept(w, st, decided, ran)
    requires j.target.ToMint? && Minting(w, j.target).Some? ==> AnchorThere(st, j.target.anchor)
    ensures AnchorsKept(w, st, decided, ran + [j])
  {
    hide AnchorThere, Minting;
  }

  /** No lane row is where a decided fan-out has its anchor, in the table of its own step. */
  ghost predicate AnchorsAlone(st: Store, pipe: string, steps: seq<Step>, decided: seq<Decision>) {
    forall n :: 0 <= n < |decided| && decided[n].target.ToMint? ==>
      decided[n].slot.0 < |steps| && TableOf(decided[n].target.anchor) == (pipe, steps[decided[n].slot.0].name)
      && LatestRow(st, decided[n].target.anchor).None?
  }

  lemma StillAlone(st: Store, next: Store, pipe: string, steps: seq<Step>, decided: seq<Decision>, names: set<string>)
    requires AnchorsAlone(st, pipe, steps, decided) && Onward(st, next, names)
    requires forall n :: 0 <= n < |decided| && decided[n].slot.0 < |steps| ==> steps[decided[n].slot.0].name !in names
    ensures AnchorsAlone(next, pipe, steps, decided)
  {
    hide AnchorThere, Last;
    forall n | 0 <= n < |decided| && decided[n].target.ToMint?
      ensures LatestRow(next, decided[n].target.anchor).None?
    {
      assert SameTables(st, next, TableOf(decided[n].target.anchor));
    }
  }

  /** With nothing in flight, each decided fan-out that has children is served, from its anchor. */
  lemma FanOutServed(w: World, st: Store, p: Planner, steps: seq<Step>, decided: seq<Decision>, ran: seq<Job>, d: Decision)
    requires StoreInv(w, st) && Accounted(decided, {}, ran) && AnchorsKept(w, st, decided, ran) && AnchorsAlone(st, p.pipe, steps, decided)
    requires d in decided && d.target.ToMint? && Minting(w, d.target).Some?
    ensures AnchorHit(st, d.target.anchor) == Minting(w, d.target)
  {
    hide StoreInv, AnchorThere, LatestRow, AnchorOf, AnchorHit;
    var n :| 0 <= n < |decided| && decided[n] == d;
    if !d.reused {
      var j := Job(d.slot.0, d.slot.1, d.target);
      assert Sends(decided[n], j) && Sent(decided, j);
    }
    AnchorServed(st, d.target.anchor);
    AnchorHitIsExpected(w, st, d.target.anchor);
  }

  // ---------------------------------------------------------------------------
  // what survives the process
  // ---------------------------------------------------------------------------

  /**
   What the first n steps leave behind when the process dies right now: empty buffers, a reuse hit for
   every output, and for every fan-out the anchor that lists its children, with no lane row in its way.
   */
  ghost predicate Durable(w: World, st: Store, pipe: string, steps: seq<Step>, n: nat, cells: Cells, decided: seq<Decision>)
    requires n <= |steps|
  {
    var after := Apply(w.spills, st, Crash);
    && (forall i :: 0 <= i < n ==>
          Table(st.buffer, (pipe, steps[i].name)) == [] && Table(st.anchorBuffer, (pipe, steps[i].name)) == [])
    && (forall k :: k in cells && cells[k].Mat? ==> Hit(after, cells[k].address).Some?)
    && (forall d :: d in decided && d.target.ToMint? ==>
          LatestRow(after, d.target.anchor).None?
          && (Minting(w, d.target).Some? ==> AnchorHit(after, d.target.anchor) == Minting(w, d.target)))
  }

  /** What ran is what was decided to be executed, each once. */
  ghost predicate Executed(decided: seq<Decision>, ran: seq<Job>) {
    && (forall m, n :: 0 <= m < n < |ran| ==> ran[m] != ran[n])
    && (forall j :: j in ran <==>
          exists d :: d in decided && !d.reused && (d.target.ToWork? || d.target.ToMint?) && j == Job(d.slot.0, d.slot.1, d.target))
  }

  lemma AccountedIsExecuted(decided: seq<Decision>, ran: seq<Job>)
    requires Accounted(decided, {}, ran)
    ensures Executed(decided, ran)
  {
    forall j ensures j in ran <==>
      exists d :: d in decided && !d.reused && (d.target.ToWork? || d.target.ToMint?) && j == Job(d.slot.0, d.slot.1, d.target)
    {
      if Sent(decided, j) {
        var n :| 0 <= n < |decided| && Sends(decided[n], j);
        assert decided[n] in decided;
      }
      if d :| d in decided && !d.reused && (d.target.ToWork? || d.target.ToMint?) && j == Job(d.slot.0, d.slot.1, d.target) {
        var n :| 0 <= n < |decided| && decided[n] == d;
        assert Sends(decided[n], j);
      }
    }
  }

  lemma LeavesDurable(w: World, origin: Store, st: Store, p: Planner, steps: seq<Step>, n: nat, cells: Cells, decided: seq<Decision>, ran: seq<Job>)
    requires n <= |steps| && StoreInv(w, st) && CellsBooked(w, p.pipe, origin, st, cells) && KeysWithin(steps[..n], cells)
    requires Accounted(decided, {}, ran) && AnchorsKept(w, st, decided, ran) && AnchorsAlone(st, p.pipe, steps, decided)
    requires OnDisk(st, p.pipe, steps, n) && forall m :: 0 <= m < |decided| ==> decided[m].slot.0 < n
    ensures Durable(w, st, p.pipe, steps, n, cells, decided)
  {
    hide StoreInv, ReadableCells, RowsTracked, Accounted, AnchorsKept, Hit, LatestRow, AnchorHit, AnchorOf, Expected, OutcomeCell, Apply;
    var after := Apply(w.spills, st, Crash);
    forall k | k in cells && cells[k].Mat? ensures Hit(after, cells[k].address).Some? {
      assert MatDetermined(w, p.pipe, k, cells[k]) && HasMat(cells, cells[k].address);
      var i :| 0 <= i < n && steps[..n][i].name == k.1;
      assert NothingBuffered(st, (p.pipe, steps[i].name));
      CrashKeepsFlushed(w.spills, st, cells[k].address);
    }
    forall d | d in decided && d.target.ToMint?
      ensures LatestRow(after, d.target.anchor).None?
      ensures Minting(w, d.target).Some? ==> AnchorHit(after, d.target.anchor) == Minting(w, d.target)
    {
      var m :| 0 <= m < |decided| && decided[m] == d;
      assert NothingBuffered(st, (p.pipe, steps[d.slot.0].name));
      CrashKeepsFlushed(w.spills, st, d.target.anchor);
      if Minting(w, d.target).Some? {
        FanOutServed(w, st, p, steps, decided, ran, d);
      }
    }
    forall i | 0 <= i < n
      ensures Table(st.buffer, (p.pipe, steps[i].name)) == [] && Table(st.anchorBuffer, (p.pipe, steps[i].name)) == []
    {
      assert NothingBuffered(st, (p.pipe, steps[i].name));
    }
  }
}
