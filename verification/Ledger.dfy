/**
 The durable state of a home and everything that can happen to it: commits, flushes, process
 crashes, unreadable files, invalidations and garbage collection.

 Liveness (`input_hash_usages.fulfilled`) is committed with each outcome; the row itself sits
 in an in-memory buffer until the step is flushed.  The gap between the two is where a crash
 loses rows that liveness still claims.
 */
module Ledger {
  import opened Model
  import opened Meaning

  /** One lane-store row; `ts` is the time of its commit. */
  datatype LaneRow = LaneRow(address: Address, output: Stored, identity: Hash, filtered: bool, ts: nat)

  /** A cache anchor of an expand step: the child hashes, at an address keyed on the parent. */
  datatype AnchorRow = AnchorRow(address: Address, children: seq<Hash>, ts: nat)

  type TableKey = (string, string)

  datatype Store = Store(
    live: set<Address>,
    disk: map<TableKey, seq<LaneRow>>,
    buffer: map<TableKey, seq<LaneRow>>,
    anchorDisk: map<TableKey, seq<AnchorRow>>,
    anchorBuffer: map<TableKey, seq<AnchorRow>>,
    objects: set<Json>,
    clock: nat)

  datatype Event =
    | Stage(v: Json)
    | Commit(address: Address, outcome: Outcome)
    | CommitAnchor(address: Address, children: seq<Hash>)
    | Flush(table: TableKey)
    | FlushAnchors(table: TableKey)
    | Crash
    | Corrupt(table: TableKey)
    | Invalidate(addresses: set<Address>)
    | Collect(demote: set<Address>, swept: set<Json>)

  const EMPTY := Store({}, map[], map[], map[], map[], {}, 0)

  function TableOf(a: Address): TableKey {
    (a.pipeline, a.code.step)
  }

  function Table<T>(tables: map<TableKey, seq<T>>, k: TableKey): seq<T> {
    if k in tables then tables[k] else []
  }

  /** The rows a lookup sees, oldest first: the disk history, then the unflushed buffer. */
  function Rows(st: Store, k: TableKey): seq<LaneRow> {
    Table(st.disk, k) + Table(st.buffer, k)
  }

  /** The newest row for an address. */
  function Last(rows: seq<LaneRow>, a: Address): (r: Option<LaneRow>)
    ensures r.Some? <==> exists row :: row in rows && row.address == a
    ensures r.Some? ==> r.value in rows && r.value.address == a
  {
    if rows == [] then None
    else
      var row := rows[|rows| - 1];
      assert rows == rows[..|rows| - 1] + [row];
      if row.address == a then Some(row) else Last(rows[..|rows| - 1], a)
  }

  function LatestRow(st: Store, a: Address): Option<LaneRow> {
    Last(Rows(st, TableOf(a)), a)
  }

  /** The reuse gate: a live address with a row. */
  function Hit(st: Store, a: Address): Option<LaneRow> {
    if a in st.live then LatestRow(st, a) else None
  }

  function LastAnchor(rows: seq<AnchorRow>, a: Address): (r: Option<AnchorRow>)
    ensures r.Some? <==> exists row :: row in rows && row.address == a
    ensures r.Some? ==> r.value in rows && r.value.address == a
  {
    if rows == [] then None
    else
      var row := rows[|rows| - 1];
      assert rows == rows[..|rows| - 1] + [row];
      if row.address == a then Some(row) else LastAnchor(rows[..|rows| - 1], a)
  }

  /**
   The anchor lookup: a lane row at the same address shadows every anchor, and anchors on
   disk override the ones still buffered.
   */
  function AnchorRowHit(st: Store, a: Address): Option<AnchorRow> {
    if a !in st.live || LatestRow(st, a).Some? then None
    else
      var onDisk := LastAnchor(Table(st.anchorDisk, TableOf(a)), a);
      if onDisk.Some? then onDisk else LastAnchor(Table(st.anchorBuffer, TableOf(a)), a)
  }

  /** The children such an anchor lists. */
  function AnchorHit(st: Store, a: Address): Option<seq<Hash>> {
    var row := AnchorRowHit(st, a);
    if row.Some? then Some(row.value.children) else None
  }

  function RowFor(spills: Json -> bool, a: Address, o: Outcome, ts: nat): LaneRow
    requires !o.Fail?
  {
    LaneRow(a, Form(spills, Payload(o)), Ident(spills, Payload(o)), o.Filtered?, ts)
  }

  /** Would committing this outcome find the same output already live ("reused")? */
  predicate AlreadyLive(spills: Json -> bool, st: Store, a: Address, o: Outcome)
    requires !o.Fail?
  {
    var hit := Hit(st, a);
    hit.Some? && hit.value.identity == Ident(spills, Payload(o))
  }

  function SpilledTo(spills: Json -> bool, v: Json): set<Json> {
    if spills(v) then {v} else {}
  }

  function Appended<T>(tables: map<TableKey, seq<T>>, k: TableKey, row: T): map<TableKey, seq<T>> {
    tables[k := Table(tables, k) + [row]]
  }

  function Flushed<T>(disk: map<TableKey, seq<T>>, buffer: map<TableKey, seq<T>>, k: TableKey)
    : map<TableKey, seq<T>>
  {
    disk[k := Table(disk, k) + Table(buffer, k)]
  }

  function Committed(spills: Json -> bool, st: Store, a: Address, o: Outcome): Store
    requires !o.Fail?
  {
    st.(objects := st.objects + SpilledTo(spills, Payload(o)),
        buffer := if AlreadyLive(spills, st, a, o) then st.buffer
                  else Appended(st.buffer, TableOf(a), RowFor(spills, a, o, st.clock)),
        live := st.live + {a})
  }

  function AnchorCommitted(st: Store, a: Address, children: seq<Hash>): Store {
    var same := AnchorHit(st, a) == Some(children);
    st.(anchorBuffer := if same then st.anchorBuffer
                        else Appended(st.anchorBuffer, TableOf(a), AnchorRow(a, children, st.clock)),
        live := st.live + {a})
  }

  /** Some row of some table refers to this object. */
  ghost predicate Referenced(st: Store, a: Address, v: Json) {
    exists row :: row in Rows(st, TableOf(a)) && row.address == a && row.output == Ref(v)
  }

  /**
   The sweep's rule.  It may only delete objects all of whose references are non-live once
   the demotion is applied, and it only runs when no run is in flight (nothing is buffered).
   */
  ghost predicate Legal(st: Store, e: Event) {
    match e
    case Commit(_, o) => !o.Fail?
    case Collect(demote, swept) =>
      && (forall k :: k in st.buffer ==> st.buffer[k] == [])
      && (forall k :: k in st.anchorBuffer ==> st.anchorBuffer[k] == [])
      && (forall v, a :: v in swept && Referenced(st, a, v) ==> a !in st.live - demote)
    case _ => true
  }

  function Effect(spills: Json -> bool, st: Store, e: Event): Store {
    match e
    case Stage(v) => st.(objects := st.objects + {v})
    case Commit(a, o) => if o.Fail? then st else Committed(spills, st, a, o)
    case CommitAnchor(a, children) => AnchorCommitted(st, a, children)
    case Flush(k) => st.(disk := Flushed(st.disk, st.buffer, k), buffer := st.buffer[k := []])
    case FlushAnchors(k) =>
      st.(anchorDisk := Flushed(st.anchorDisk, st.anchorBuffer, k), anchorBuffer := st.anchorBuffer[k := []])
    case Crash => st.(buffer := map[], anchorBuffer := map[])
    case Corrupt(k) => st.(disk := st.disk[k := []], anchorDisk := st.anchorDisk[k := []])
    case Invalidate(addresses) => st.(live := st.live - addresses)
    case Collect(demote, swept) => st.(live := st.live - demote, objects := st.objects - swept)
  }

  function Apply(spills: Json -> bool, st: Store, e: Event): Store {
    var next := Effect(spills, st, e);
    next.(clock := st.clock + 1)
  }

  function Replay(spills: Json -> bool, st: Store, h: seq<Event>): Store {
    if h == [] then st else Apply(spills, Replay(spills, st, h[..|h| - 1]), h[|h| - 1])
  }

  ghost predicate LegalHistory(spills: Json -> bool, st: Store, h: seq<Event>) {
    forall i :: 0 <= i < |h| ==> Legal(Replay(spills, st, h[..i]), h[i])
  }

  /** Nothing was lost: no crash and no unreadable file. */
  predicate Lossless(h: seq<Event>) {
    forall i :: 0 <= i < |h| ==> !h[i].Crash? && !h[i].Corrupt?
  }

  // ---------------------------------------------------------------------------
  // Bookkeeping about rows
  // ---------------------------------------------------------------------------

  lemma LastAppend(rows: seq<LaneRow>, row: LaneRow, a: Address)
    ensures Last(rows + [row], a) == if row.address == a then Some(row) else Last(rows, a)
  {
    assert (rows + [row])[..|rows|] == rows;
  }

  lemma LastAnchorAppend(rows: seq<AnchorRow>, row: AnchorRow, a: Address)
    ensures LastAnchor(rows + [row], a) == if row.address == a then Some(row) else LastAnchor(rows, a)
  {
    assert (rows + [row])[..|rows|] == rows;
  }

  lemma {:induction false} LastAnchorConcat(rows: seq<AnchorRow>, more: seq<AnchorRow>, a: Address)
    ensures LastAnchor(rows + more, a) == if LastAnchor(more, a).Some? then LastAnchor(more, a) else LastAnchor(rows, a)
  {
    hide LastAnchor;
    if more == [] {
      assert rows + more == rows;
      NoAnchors(a);
    } else {
      var n := |more| - 1;
      LastAnchorConcat(rows, more[..n], a);
      LastAnchorAppend(rows + more[..n], more[n], a);
      LastAnchorAppend(more[..n], more[n], a);
      assert rows + more == rows + more[..n] + [more[n]] && more == more[..n] + [more[n]];
    }
  }

  lemma NoAnchors(a: Address)
    ensures LastAnchor([], a).None?
  {
  }

  /** A flush moves rows from the buffer to disk without changing what a lookup sees. */
  lemma FlushKeepsRows(st: Store, spills: Json -> bool, k: TableKey, k': TableKey)
    ensures Rows(Apply(spills, st, Flush(k)), k') == Rows(st, k')
  {
  }

  lemma ReplayAppend(spills: Json -> bool, st: Store, h: seq<Event>, e: Event)
    ensures Replay(spills, st, h + [e]) == Apply(spills, Replay(spills, st, h), e)
  {
    assert (h + [e])[..|h|] == h;
  }

  lemma {:induction false} ReplayConcat(spills: Json -> bool, st: Store, g: seq<Event>, h: seq<Event>)
    ensures Replay(spills, st, g + h) == Replay(spills, Replay(spills, st, g), h)
  {
    if h == [] {
      assert g + h == g;
    } else {
      var n := |h| - 1;
      ReplayConcat(spills, st, g, h[..n]);
      assert (g + h)[..|g| + n] == g + h[..n];
    }
  }
}
