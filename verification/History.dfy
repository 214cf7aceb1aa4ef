/**
 What holds of the durable state after every legal history, crashes included.
 */
module History {
  import opened Model
  import opened Meaning
  import opened Ledger

  // ---------------------------------------------------------------------------
  // The reuse gate
  // ---------------------------------------------------------------------------

  predicate Fulfils(e: Event, a: Address) {
    (e.Commit? || e.CommitAnchor?) && e.address == a
  }

  predicate Flips(e: Event, a: Address) {
    (e.Invalidate? && a in e.addresses) || (e.Collect? && a in e.demote)
  }

  predicate Loses(e: Event) {
    e.Crash? || e.Corrupt?
  }

  /** The time of a commit is its position in the history. */
  lemma {:induction false} ClockIsLength(spills: Json -> bool, h: seq<Event>)
    ensures Replay(spills, EMPTY, h).clock == |h|
  {
    if h != [] {
      ClockIsLength(spills, h[..|h| - 1]);
    }
  }

  /** The row was written by the commit at its own timestamp. */
  ghost predicate WrittenBy(spills: Json -> bool, h: seq<Event>, row: LaneRow) {
    && row.ts < |h|
    && h[row.ts].Commit?
    && !h[row.ts].outcome.Fail?
    && row == RowFor(spills, h[row.ts].address, h[row.ts].outcome, row.ts)
  }

  ghost predicate AllWritten(spills: Json -> bool, h: seq<Event>, st: Store) {
    forall k, row :: row in Rows(st, k) ==> TableOf(row.address) == k && WrittenBy(spills, h, row)
  }

  lemma {:induction false} EveryRowWasCommitted(spills: Json -> bool, h: seq<Event>)
    requires LegalHistory(spills, EMPTY, h)
    ensures AllWritten(spills, h, Replay(spills, EMPTY, h))
  {
    hide Effect, Apply, Legal, WrittenBy, RowFor;
    if h != [] {
      var g, e := h[..|h| - 1], h[|h| - 1];
      assert LegalHistory(spills, EMPTY, g) by {
        assert forall i :: 0 <= i < |g| ==> g[..i] == h[..i];
      }
      EveryRowWasCommitted(spills, g);
      ClockIsLength(spills, g);
      var st := Replay(spills, EMPTY, g);
      var next := Apply(spills, st, e);
      forall k, row | row in Rows(next, k)
        ensures TableOf(row.address) == k && WrittenBy(spills, h, row)
      {
        RowOrigin(spills, st, e, k, row);
        OriginIsWritten(spills, h, k, row);
      }
    }
  }

  lemma OriginIsWritten(spills: Json -> bool, h: seq<Event>, k: TableKey, row: LaneRow)
    requires h != []
    requires var n := |h| - 1;
             (TableOf(row.address) == k && WrittenBy(spills, h[..n], row))
             || (h[n].Commit? && !h[n].outcome.Fail? && k == TableOf(h[n].address)
                 && row == RowFor(spills, h[n].address, h[n].outcome, n))
    ensures TableOf(row.address) == k && WrittenBy(spills, h, row)
  {
  }

  /** A step adds at most the row of its own commit. */
  lemma RowOrigin(spills: Json -> bool, st: Store, e: Event, k: TableKey, row: LaneRow)
    requires row in Rows(Apply(spills, st, e), k)
    ensures row in Rows(st, k)
         || (e.Commit? && !e.outcome.Fail? && k == TableOf(e.address)
             && row == RowFor(spills, e.address, e.outcome, st.clock))
  {
  }

  /**
   In every reachable state a reuse hit is a live address: some commit fulfilled it and
   nothing has flipped it since.  The row served was written by an execution committed at that
   very address.
   */
  lemma {:induction false} ReuseGate(spills: Json -> bool, h: seq<Event>, a: Address)
    requires LegalHistory(spills, EMPTY, h)
    requires Hit(Replay(spills, EMPTY, h), a).Some?
    ensures exists j :: 0 <= j < |h| && Fulfils(h[j], a) && forall m :: j < m < |h| ==> !Flips(h[m], a)
    ensures var row := Hit(Replay(spills, EMPTY, h), a).value;
            row.address == a && WrittenBy(spills, h, row) && h[row.ts].address == a
  {
    LiveSinceCommit(spills, h, a);
    EveryRowWasCommitted(spills, h);
    var st := Replay(spills, EMPTY, h);
    assert Hit(st, a).value in Rows(st, TableOf(a));
  }

  lemma LiveStep(spills: Json -> bool, st: Store, e: Event, a: Address)
    requires a in Apply(spills, st, e).live
    ensures Fulfils(e, a) || (a in st.live && !Flips(e, a))
  {
    hide AlreadyLive, AnchorHit, RowFor;
  }

  lemma {:induction false} LiveSinceCommit(spills: Json -> bool, h: seq<Event>, a: Address)
    requires a in Replay(spills, EMPTY, h).live
    ensures exists j :: 0 <= j < |h| && Fulfils(h[j], a) && forall m :: j < m < |h| ==> !Flips(h[m], a)
  {
    hide Effect, Apply, Fulfils, Flips;
    var g, e := h[..|h| - 1], h[|h| - 1];
    LiveStep(spills, Replay(spills, EMPTY, g), e, a);
    if Fulfils(e, a) {
      assert Fulfils(h[|h| - 1], a);
    } else {
      LiveSinceCommit(spills, g, a);
      var j :| 0 <= j < |g| && Fulfils(g[j], a) && forall m :: j < m < |g| ==> !Flips(g[m], a);
      assert Fulfils(h[j], a);
      assert !Flips(e, a);
      forall m | j < m < |h| ensures !Flips(h[m], a) {
        if m < |g| { assert h[m] == g[m]; }
      }
    }
  }

  /** The anchor was written by the anchor commit at its own timestamp. */
  ghost predicate AnchorWrittenBy(h: seq<Event>, row: AnchorRow) {
    row.ts < |h| && h[row.ts] == CommitAnchor(row.address, row.children)
  }

  ghost predicate AllAnchorsWritten(h: seq<Event>, st: Store) {
    forall k, row :: row in Table(st.anchorDisk, k) || row in Table(st.anchorBuffer, k) ==>
      TableOf(row.address) == k && AnchorWrittenBy(h, row)
  }

  lemma {:induction false} EveryAnchorWasCommitted(spills: Json -> bool, h: seq<Event>)
    ensures AllAnchorsWritten(h, Replay(spills, EMPTY, h))
  {
    hide Effect, Apply;
    if h != [] {
      var g, e := h[..|h| - 1], h[|h| - 1];
      EveryAnchorWasCommitted(spills, g);
      ClockIsLength(spills, g);
      var st := Replay(spills, EMPTY, g);
      var next := Apply(spills, st, e);
      forall k, row | row in Table(next.anchorDisk, k) || row in Table(next.anchorBuffer, k)
        ensures TableOf(row.address) == k && AnchorWrittenBy(h, row)
      {
        AnchorOrigin(spills, st, e, k, row);
        if row in Table(st.anchorDisk, k) || row in Table(st.anchorBuffer, k) {
          assert AnchorWrittenBy(g, row);
        }
      }
    }
  }

  /** A step adds at most the anchor of its own commit. */
  lemma AnchorOrigin(spills: Json -> bool, st: Store, e: Event, k: TableKey, row: AnchorRow)
    requires row in Table(Apply(spills, st, e).anchorDisk, k) || row in Table(Apply(spills, st, e).anchorBuffer, k)
    ensures (row in Table(st.anchorDisk, k) || row in Table(st.anchorBuffer, k))
         || (e.CommitAnchor? && k == TableOf(e.address) && row == AnchorRow(e.address, e.children, st.clock))
  {
    hide AlreadyLive, AnchorHit, RowFor;
  }

  /**
   The gate of a replay: the anchor it rests on is at a live address that no flip has touched
   since some commit fulfilled it, and it was written by an anchor commit at that very address,
   with those very children.
   */
  lemma AnchorGate(spills: Json -> bool, h: seq<Event>, a: Address)
    requires AnchorRowHit(Replay(spills, EMPTY, h), a).Some?
    ensures exists j :: 0 <= j < |h| && Fulfils(h[j], a) && forall m :: j < m < |h| ==> !Flips(h[m], a)
    ensures var row := AnchorRowHit(Replay(spills, EMPTY, h), a).value;
            row.address == a && row.ts < |h| && h[row.ts] == CommitAnchor(a, row.children)
  {
    hide LatestRow, Effect, Replay, Apply, AnchorRowHit, Fulfils, Flips;
    var st := Replay(spills, EMPTY, h);
    ServedAnchorIsThere(st, a);
    LiveSinceCommit(spills, h, a);
    EveryAnchorWasCommitted(spills, h);
  }

  lemma ServedAnchorIsThere(st: Store, a: Address)
    requires AnchorRowHit(st, a).Some?
    ensures a in st.live
    ensures var row := AnchorRowHit(st, a).value;
            row.address == a && (row in Table(st.anchorDisk, TableOf(a)) || row in Table(st.anchorBuffer, TableOf(a)))
  {
    hide LatestRow;
  }

  /** Nothing lost a row after position f, and no anchor was committed at this address. */
  predicate KeptSince(h: seq<Event>, f: nat, a: Address) {
    && (forall i :: f < i < |h| ==> !Loses(h[i]))
    && (forall i :: f < i < |h| ==> !(h[i].CommitAnchor? && h[i].address == a))
  }

  ghost predicate Fresh(st: Store, a: Address, f: nat) {
    a in st.live ==> LatestRow(st, a).Some? && LatestRow(st, a).value.ts > f
  }

  /**
   After an address is flipped at position f, any later reuse serves a row committed after
   the flip, as long as no row was lost since.
   */
  lemma {:induction false} FreshAfterFlip(spills: Json -> bool, h: seq<Event>, f: nat, a: Address)
    requires f < |h| && Flips(h[f], a) && KeptSince(h, f, a)
    ensures Fresh(Replay(spills, EMPTY, h), a, f)
  {
    var g, e := h[..|h| - 1], h[|h| - 1];
    if f < |g| {
      FreshAfterFlip(spills, g, f, a);
      ClockIsLength(spills, g);
      FreshStep(spills, Replay(spills, EMPTY, g), e, a, f);
    }
  }

  lemma FreshStep(spills: Json -> bool, st: Store, e: Event, a: Address, f: nat)
    requires Fresh(st, a, f) && f < st.clock
    requires !Loses(e) && !(e.CommitAnchor? && e.address == a)
    ensures Fresh(Apply(spills, st, e), a, f)
  {
    if e.Commit? && e.address == a {
      if !e.outcome.Fail? {
        LatestAfterCommit(spills, st, a, e.outcome);
      }
    } else {
      LatestUnchanged(spills, st, e, a);
    }
  }

  /** The newest anchor of an address, counting the file and then the buffer. */
  function NewestAnchor(st: Store, a: Address): Option<AnchorRow> {
    LastAnchor(Table(st.anchorDisk, TableOf(a)) + Table(st.anchorBuffer, TableOf(a)), a)
  }

  ghost predicate FreshAnchor(st: Store, a: Address, f: nat) {
    a in st.live ==> NewestAnchor(st, a).Some? && NewestAnchor(st, a).value.ts > f
  }

  /** Nothing lost an anchor after position f, and no lane was committed at this address. */
  predicate AnchorKeptSince(h: seq<Event>, f: nat, a: Address) {
    && (forall i :: f < i < |h| ==> !Loses(h[i]))
    && (forall i :: f < i < |h| ==> !(h[i].Commit? && h[i].address == a))
  }

  /**
   After an anchor's address is flipped at position f, the newest anchor of the address, once it
   is live again, was committed after the flip.  A replay serves it as soon as it is flushed;
   before that it serves an older one exactly when one is left on disk.
   */
  lemma {:induction false} AnchorFreshAfterFlip(spills: Json -> bool, h: seq<Event>, f: nat, a: Address)
    requires f < |h| && Flips(h[f], a) && AnchorKeptSince(h, f, a)
    ensures FreshAnchor(Replay(spills, EMPTY, h), a, f)
    ensures var st := Replay(spills, EMPTY, h);
            var onDisk := LastAnchor(Table(st.anchorDisk, TableOf(a)), a);
            AnchorRowHit(st, a).Some? ==>
              && (AnchorRowHit(st, a).value.ts > f <==> onDisk.None? || onDisk.value.ts > f)
              && (LastAnchor(Table(st.anchorBuffer, TableOf(a)), a).None? ==> AnchorRowHit(st, a).value.ts > f)
  {
    hide Effect, Apply, LatestRow, LastAnchor;
    var g, e := h[..|h| - 1], h[|h| - 1];
    if f < |g| {
      AnchorFreshAfterFlip(spills, g, f, a);
      ClockIsLength(spills, g);
      FreshAnchorStep(spills, Replay(spills, EMPTY, g), e, a, f);
    } else {
      FlippedIsNotLive(spills, Replay(spills, EMPTY, g), e, a);
    }
    var st := Replay(spills, EMPTY, h);
    LastAnchorConcat(Table(st.anchorDisk, TableOf(a)), Table(st.anchorBuffer, TableOf(a)), a);
  }

  lemma FlippedIsNotLive(spills: Json -> bool, st: Store, e: Event, a: Address)
    requires Flips(e, a)
    ensures a !in Apply(spills, st, e).live
  {
  }

  lemma FreshAnchorStep(spills: Json -> bool, st: Store, e: Event, a: Address, f: nat)
    requires FreshAnchor(st, a, f) && f < st.clock
    requires !Loses(e) && !(e.Commit? && e.address == a)
    ensures FreshAnchor(Apply(spills, st, e), a, f)
  {
    hide LatestRow, LastAnchor, AlreadyLive, RowFor;
    var k := TableOf(a);
    var next := Apply(spills, st, e);
    if e.CommitAnchor? && TableOf(e.address) == k && AnchorHit(st, e.address) != Some(e.children) {
      var row := AnchorRow(e.address, e.children, st.clock);
      assert Table(next.anchorDisk, k) + Table(next.anchorBuffer, k)
          == Table(st.anchorDisk, k) + Table(st.anchorBuffer, k) + [row];
      LastAnchorAppend(Table(st.anchorDisk, k) + Table(st.anchorBuffer, k), row, a);
    } else {
      assert Table(next.anchorDisk, k) + Table(next.anchorBuffer, k) == Table(st.anchorDisk, k) + Table(st.anchorBuffer, k);
    }
  }

  /** Only a commit at the address itself, or a loss, changes what a lookup of it returns. */
  lemma LatestUnchanged(spills: Json -> bool, st: Store, e: Event, a: Address)
    requires !Loses(e) && !(e.Commit? && e.address == a)
    ensures LatestRow(Apply(spills, st, e), a) == LatestRow(st, a)
  {
    if e.Commit? && !e.outcome.Fail? {
      var k := TableOf(a);
      var row := RowFor(spills, e.address, e.outcome, st.clock);
      if TableOf(e.address) == k && !AlreadyLive(spills, st, e.address, e.outcome) {
        assert Rows(Apply(spills, st, e), k) == Rows(st, k) + [row];
        LastAppend(Rows(st, k), row, a);
      }
    } else if e.Flush? {
      FlushKeepsRows(st, spills, e.table, TableOf(a));
    }
  }

  lemma LatestAfterCommit(spills: Json -> bool, st: Store, a: Address, o: Outcome)
    requires !o.Fail?
    ensures var row := RowFor(spills, a, o, st.clock);
            LatestRow(Apply(spills, st, Commit(a, o)), a)
              == if AlreadyLive(spills, st, a, o) then Hit(st, a) else Some(row)
  {
    var k := TableOf(a);
    var row := RowFor(spills, a, o, st.clock);
    if !AlreadyLive(spills, st, a, o) {
      assert Rows(Apply(spills, st, Commit(a, o)), k) == Rows(st, k) + [row];
      LastAppend(Rows(st, k), row, a);
    }
  }

  /** A pruned lane whose input comes back is recomputed, and a new row is written, even for the same bytes. */
  lemma PrunedLaneIsRecomputed(spills: Json -> bool, st: Store, demote: set<Address>, swept: set<Json>, a: Address, o: Outcome)
    requires a in demote && !o.Fail?
    ensures var pruned := Apply(spills, st, Collect(demote, swept));
            Hit(pruned, a).None?
            && Hit(Apply(spills, pruned, Commit(a, o)), a) == Some(RowFor(spills, a, o, pruned.clock))
  {
    LatestAfterCommit(spills, Apply(spills, st, Collect(demote, swept)), a, o);
  }

  // ---------------------------------------------------------------------------
  // Garbage collection strands nothing
  // ---------------------------------------------------------------------------

  /** If this address is live, the object its latest row refers to can be read. */
  ghost predicate LatestReadable(st: Store, a: Address) {
    var row := LatestRow(st, a);
    a in st.live && row.Some? && row.value.output.Ref? ==> row.value.output.v in st.objects
  }

  /** No anchor was ever committed at this address. */
  predicate LaneOnly(h: seq<Event>, a: Address) {
    forall i :: 0 <= i < |h| ==> !(h[i].CommitAnchor? && h[i].address == a)
  }

  /** Without losses, no history of commits, flips and sweeps strands a live output. */
  lemma {:induction false} SweepNeverStrands(spills: Json -> bool, h: seq<Event>, a: Address)
    requires LegalHistory(spills, EMPTY, h) && Lossless(h) && LaneOnly(h, a)
    ensures LatestReadable(Replay(spills, EMPTY, h), a)
  {
    if h != [] {
      var g, e := h[..|h| - 1], h[|h| - 1];
      assert forall i :: 0 <= i < |g| ==> g[i] == h[i] && g[..i] == h[..i];
      SweepNeverStrands(spills, g, a);
      assert Legal(Replay(spills, EMPTY, h[..|h| - 1]), h[|h| - 1]);
      StillReadable(spills, Replay(spills, EMPTY, g), e, a);
    }
  }

  lemma StillReadable(spills: Json -> bool, st: Store, e: Event, a: Address)
    requires LatestReadable(st, a) && Legal(st, e) && !Loses(e)
    requires !(e.CommitAnchor? && e.address == a)
    ensures LatestReadable(Apply(spills, st, e), a)
  {
    if e.Commit? && e.address == a {
      LatestAfterCommit(spills, st, a, e.outcome);
    } else {
      LatestUnchanged(spills, st, e, a);
      var row := LatestRow(st, a);
      if e.Collect? && a in st.live - e.demote && row.Some? && row.value.output.Ref? {
        assert row.value in Rows(st, TableOf(a));
        assert Referenced(st, a, row.value.output.v);
      }
    }
  }
}
