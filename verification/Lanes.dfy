/**
 The lane store of one home: files, write buffers, and the read caches in front of the files.

 The planner's lookups go through a bounded table cache and a bounded address index.  They
 refine the lookups of the `Ledger` module, which scan the whole history.
 */
module Lanes {
  import opened Model
  import opened Ledger

  // ---------------------------------------------------------------------------
  // least-recently-used caches
  // ---------------------------------------------------------------------------

  /** An ordered dictionary; the first key is the least recently used one. */
  datatype Lru<K(==,!new), V> = Lru(order: seq<K>, values: map<K, V>)
  {
    ghost predicate Valid() {
      && (forall k :: k in order <==> k in values)
      && (forall i, j :: 0 <= i < j < |order| ==> order[i] != order[j])
    }

    function MoveToEnd(k: K): Lru<K, V> {
      Lru(Without(order, k) + [k], values)
    }

    /** Insert or overwrite, as the most recent entry. */
    function Put(k: K, v: V): Lru<K, V> {
      Lru(Without(order, k) + [k], values[k := v])
    }

    function Pop(k: K): Lru<K, V> {
      Lru(Without(order, k), values - {k})
    }

    /** Drop the least recently used entry of an overfull cache. */
    function Trim(capacity: nat): Lru<K, V> {
      if |order| > capacity then Pop(order[0]) else this
    }

    /** The entry `Trim` drops. */
    function Victim(capacity: nat): Option<K> {
      if |order| > capacity then Some(order[0]) else None
    }
  }

  /** Reading through a cache: a hit becomes the most recent entry, a miss is loaded if it can be. */
  function ReadThrough<K(!new), V>(lru: Lru<K, V>, k: K, content: Option<V>, capacity: nat): Lru<K, V> {
    if k in lru.values then lru.MoveToEnd(k)
    else if content.None? then lru
    else lru.Put(k, content.value).Trim(capacity)
  }

  function Without<K(==,!new)>(order: seq<K>, k: K): (r: seq<K>)
    ensures forall x :: x in r <==> x in order && x != k
    ensures |r| <= |order|
    ensures k !in order ==> r == order
  {
    if order == [] then []
    else
      var n := |order| - 1;
      assert order == order[..n] + [order[n]];
      if order[n] == k then Without(order[..n], k) else Without(order[..n], k) + [order[n]]
  }

  lemma {:induction false} WithoutDistinct<K(!new)>(order: seq<K>, k: K)
    requires forall i, j :: 0 <= i < j < |order| ==> order[i] != order[j]
    ensures forall i, j :: 0 <= i < j < |Without(order, k)| ==> Without(order, k)[i] != Without(order, k)[j]
    ensures k in order ==> |Without(order, k)| == |order| - 1
  {
    if order != [] {
      var n := |order| - 1;
      assert order == order[..n] + [order[n]];
      WithoutDistinct(order[..n], k);
      var rest := Without(order[..n], k);
      forall i | 0 <= i < |rest| ensures rest[i] != order[n] {
        assert rest[i] in rest;
      }
    }
  }

  lemma Moved<K(!new), V>(lru: Lru<K, V>, k: K)
    requires lru.Valid() && k in lru.values
    ensures lru.MoveToEnd(k).Valid() && lru.MoveToEnd(k).values == lru.values
    ensures |lru.MoveToEnd(k).order| == |lru.order|
  {
    WithoutDistinct(lru.order, k);
  }

  lemma Placed<K(!new), V>(lru: Lru<K, V>, k: K, v: V)
    requires lru.Valid()
    ensures var next := lru.Put(k, v);
            next.Valid() && next.values == lru.values[k := v] && next.order[|next.order| - 1] == k
            && |next.order| <= |lru.order| + 1
  {
    WithoutDistinct(lru.order, k);
  }

  lemma Trimmed<K(!new), V>(lru: Lru<K, V>, capacity: nat)
    requires lru.Valid()
    ensures var next := lru.Trim(capacity);
            next.Valid()
            && (forall x :: x in next.values ==> x in lru.values && next.values[x] == lru.values[x])
            && (forall x :: x in lru.values && lru.Victim(capacity) != Some(x) ==> x in next.values)
            && (lru.order != [] && capacity > 0 ==> lru.order[|lru.order| - 1] in next.values)
            && (|lru.order| <= capacity ==> next == lru) && |next.order| <= |lru.order|
  {
    if |lru.order| > capacity {
      Popped(lru, lru.order[0]);
    }
  }

  /** Loading an entry: it is there afterwards, unless the capacity is zero, and one other may be gone. */
  lemma Loaded<K(!new), V>(lru: Lru<K, V>, k: K, v: V, capacity: nat)
    requires lru.Valid()
    ensures var next := lru.Put(k, v).Trim(capacity);
            next.Valid()
            && (forall x :: x in next.values ==> if x == k then next.values[x] == v else x in lru.values && next.values[x] == lru.values[x])
            && (capacity > 0 ==> k in next.values) && |next.order| <= |lru.order| + 1
            && (|lru.order| < capacity ==> next.values == lru.values[k := v])
  {
    Placed(lru, k, v);
    Trimmed(lru.Put(k, v), capacity);
  }

  lemma Popped<K(!new), V>(lru: Lru<K, V>, k: K)
    requires lru.Valid()
    ensures lru.Pop(k).Valid()
  {
    WithoutDistinct(lru.order, k);
  }

  /** The position at which a key was last asked for; -1 if it never was. */
  ghost function LastUse<K>(trace: seq<K>, k: K): int {
    if trace == [] then -1
    else if trace[|trace| - 1] == k then |trace| - 1
    else LastUse(trace[..|trace| - 1], k)
  }

  ghost function UseIn<K(!new)>(trace: seq<K>): K -> int {
    x => LastUse(trace, x)
  }

  ghost predicate Rising<K(!new)>(order: seq<K>, use: K -> int) {
    forall i, j :: 0 <= i < j < |order| ==> use(order[i]) < use(order[j])
  }

  /** The keys used last, as many as fit, in the order of their last uses. */
  ghost predicate MostRecent<K(!new)>(order: seq<K>, use: K -> int, capacity: nat) {
    && Rising(order, use) && |order| <= capacity && (forall x :: x in order ==> use(x) >= 0)
    && forall y :: use(y) >= 0 && y !in order ==> |order| == capacity && forall x :: x in order ==> use(y) < use(x)
  }

  /** A cache after reading these keys. */
  function ReadAll<K(!new), V>(trace: seq<K>, content: K -> V, capacity: nat): Lru<K, V> {
    if trace == [] then Lru([], map[])
    else
      var k := trace[|trace| - 1];
      ReadThrough(ReadAll(trace[..|trace| - 1], content, capacity), k, Some(content(k)), capacity)
  }

  lemma {:induction false} UsedBefore<K>(trace: seq<K>, k: K)
    ensures LastUse(trace, k) < |trace| && (k in trace <==> LastUse(trace, k) >= 0)
  {
    if trace != [] {
      var n := |trace| - 1;
      assert trace == trace[..n] + [trace[n]];
      UsedBefore(trace[..n], k);
    }
  }

  lemma {:induction false} WithoutRises<K(!new)>(order: seq<K>, k: K, use: K -> int)
    requires Rising(order, use)
    ensures Rising(Without(order, k), use)
  {
    if order != [] {
      var n := |order| - 1;
      assert Rising(order[..n], use);
      WithoutRises(order[..n], k, use);
      var rest := Without(order[..n], k);
      forall i | 0 <= i < |rest| ensures use(rest[i]) < use(order[n]) {
        assert rest[i] in rest;
        var j :| 0 <= j < n && order[..n][j] == rest[i];
      }
    }
  }

  /** The key just used comes last, and the rest stay in order. */
  lemma Renewed<K(!new)>(order: seq<K>, k: K, use: K -> int, next: K -> int)
    requires Rising(order, use) && forall x :: x != k ==> next(x) == use(x) < next(k)
    ensures Rising(Without(order, k) + [k], next)
  {
    WithoutRises(order, k, use);
    var rest := Without(order, k);
    forall i | 0 <= i < |rest| ensures rest[i] != k && (rest + [k])[i] == rest[i] {
      assert rest[i] in rest;
    }
  }

  lemma TouchedRecent<K(!new)>(order: seq<K>, k: K, use: K -> int, next: K -> int, capacity: nat)
    requires MostRecent(order, use, capacity) && k in order && forall i, j :: 0 <= i < j < |order| ==> order[i] != order[j]
    requires next(k) >= 0 && forall x :: x != k ==> next(x) == use(x) < next(k)
    ensures MostRecent(Without(order, k) + [k], next, capacity)
  {
    hide Rising;
    Renewed(order, k, use, next);
    WithoutDistinct(order, k);
  }

  lemma LoadedRecent<K(!new)>(order: seq<K>, k: K, use: K -> int, next: K -> int, capacity: nat)
    requires MostRecent(order, use, capacity) && k !in order && capacity > 0
    requires next(k) >= 0 && forall x :: x != k ==> next(x) == use(x) < next(k)
    ensures MostRecent(if |order| + 1 > capacity then order[1..] + [k] else order + [k], next, capacity)
  {
    Renewed(order, k, use, next);
    assert Without(order, k) == order;
    if |order| + 1 > capacity {
      assert Rising(order + [k], next);
      FirstDropped(order + [k], next, capacity);
      assert (order + [k])[1..] == order[1..] + [k];
    }
  }

  /** Dropping the first of one key too many. */
  lemma FirstDropped<K(!new)>(grown: seq<K>, use: K -> int, capacity: nat)
    requires Rising(grown, use) && |grown| == capacity + 1 && forall x :: x in grown ==> use(x) >= 0
    requires forall x, y :: use(y) >= 0 && y !in grown && x in grown[1..] ==> use(y) < use(x)
    ensures MostRecent(grown[1..], use, capacity)
  {
    forall x | x in grown[1..] ensures use(grown[0]) < use(x) && x in grown {
      var i :| 0 <= i < |grown| - 1 && grown[1..][i] == x;
      assert grown[i + 1] == x;
    }
    forall y | use(y) >= 0 && y !in grown[1..] ensures forall x :: x in grown[1..] ==> use(y) < use(x) {
      assert y == grown[0] || y !in grown;
    }
  }

  lemma ReadRecent<K(!new), V>(lru: Lru<K, V>, k: K, v: V, use: K -> int, next: K -> int, capacity: nat)
    requires lru.Valid() && MostRecent(lru.order, use, capacity) && capacity > 0
    requires next(k) >= 0 && forall x :: x != k ==> next(x) == use(x) < next(k)
    ensures ReadThrough(lru, k, Some(v), capacity).Valid()
    ensures MostRecent(ReadThrough(lru, k, Some(v), capacity).order, next, capacity)
  {
    hide MostRecent;
    if k in lru.values {
      Moved(lru, k);
      TouchedRecent(lru.order, k, use, next, capacity);
    } else {
      Loaded(lru, k, v, capacity);
      LoadedRecent(lru.order, k, use, next, capacity);
      LoadedOrder(lru, k, v, capacity);
    }
  }

  lemma ReadHolds<K(!new), V>(lru: Lru<K, V>, k: K, v: V, capacity: nat)
    requires lru.Valid()
    ensures forall x :: x in ReadThrough(lru, k, Some(v), capacity).values ==>
              var got := ReadThrough(lru, k, Some(v), capacity).values[x];
              if x in lru.values then got == lru.values[x] else x == k && got == v
  {
    if k !in lru.values {
      Loaded(lru, k, v, capacity);
    }
  }

  /** A cache through which everything is read keeps exactly the keys used last, as many as fit. */
  lemma {:induction false} CacheKeepsTheMostRecent<K(!new), V>(trace: seq<K>, content: K -> V, capacity: nat)
    requires capacity > 0
    ensures var lru := ReadAll(trace, content, capacity);
            && lru.Valid() && MostRecent(lru.order, UseIn(trace), capacity)
            && forall k :: k in lru.values ==> lru.values[k] == content(k)
  {
    if trace == [] {
      NothingUsed<K>(capacity);
    } else {
      hide MostRecent, UseIn, ReadThrough;
      var n := |trace| - 1;
      var k := trace[n];
      var before := ReadAll(trace[..n], content, capacity);
      CacheKeepsTheMostRecent(trace[..n], content, capacity);
      ghost var use, next := UseIn(trace[..n]), UseIn(trace);
      forall x ensures next(x) == (if x == k then n else use(x)) && use(x) < n {
        UseNext(trace, x);
      }
      ReadRecent(before, k, content(k), use, next, capacity);
      ReadHolds(before, k, content(k), capacity);
    }
  }

  lemma NothingUsed<K(!new)>(capacity: nat)
    ensures MostRecent<K>([], UseIn([]), capacity)
  {
  }

  lemma UseNext<K(!new)>(trace: seq<K>, x: K)
    requires trace != []
    ensures var n := |trace| - 1;
            UseIn(trace)(x) == (if x == trace[n] then n else UseIn(trace[..n])(x)) && UseIn(trace[..n])(x) < n
  {
    UsedBefore(trace[..|trace| - 1], x);
  }

  lemma LoadedOrder<K(!new), V>(lru: Lru<K, V>, k: K, v: V, capacity: nat)
    requires lru.Valid() && k !in lru.values && capacity > 0
    ensures lru.Put(k, v).Trim(capacity).order == if |lru.order| + 1 > capacity then lru.order[1..] + [k] else lru.order + [k]
  {
    var grown := lru.order + [k];
    assert Without(lru.order, k) == lru.order;
    if |grown| > capacity {
      FirstOut(grown);
      assert grown[1..] == lru.order[1..] + [k];
    }
  }

  lemma {:induction false} FirstOut<K(!new)>(order: seq<K>)
    requires order != [] && forall i, j :: 0 <= i < j < |order| ==> order[i] != order[j]
    ensures Without(order, order[0]) == order[1..]
  {
    var n := |order| - 1;
    if n > 0 {
      FirstOut(order[..n]);
      assert order[1..] == order[..n][1..] + [order[n]];
    } else {
      assert order[..0] == [] && order[1..] == [];
    }
  }

  // ---------------------------------------------------------------------------
  // the address index
  // ---------------------------------------------------------------------------

  /** An address index of a table: for every address that occurs, the position of its last row. */
  ghost predicate IsIndex(index: map<Address, nat>, rows: seq<LaneRow>) {
    && (forall a :: a in index ==> index[a] < |rows| && Last(rows, a) == Some(rows[index[a]]))
    && (forall a :: Last(rows, a).Some? ==> a in index)
  }

  method BuildIndex(rows: seq<LaneRow>) returns (index: map<Address, nat>)
    ensures IsIndex(index, rows)
  {
    index := map[];
    for i := 0 to |rows|
      invariant IsIndex(index, rows[..i])
    {
      assert rows[..i + 1] == rows[..i] + [rows[i]];
      forall a ensures Last(rows[..i + 1], a) == if rows[i].address == a then Some(rows[i]) else Last(rows[..i], a) {
        LastAppend(rows[..i], rows[i], a);
      }
      index := index[rows[i].address := i];
    }
    assert rows[..|rows|] == rows;
  }

  lemma {:induction false} LastConcat(rows: seq<LaneRow>, more: seq<LaneRow>, a: Address)
    ensures Last(rows + more, a) == if Last(more, a).Some? then Last(more, a) else Last(rows, a)
  {
    if more == [] {
      assert rows + more == rows;
    } else {
      var n := |more| - 1;
      assert (rows + more)[..|rows| + n] == rows + more[..n];
      LastConcat(rows, more[..n], a);
    }
  }

  // ---------------------------------------------------------------------------
  // the store
  // ---------------------------------------------------------------------------

  datatype CacheKey = MainKey(table: TableKey) | AnchorKey(table: TableKey)

  datatype Content = LaneTable(rows: seq<LaneRow>) | AnchorTable(anchors: seq<AnchorRow>)

  datatype Found = LaneFound(row: LaneRow) | AnchorFound(row': AnchorRow)

  /** A lookup raises KeyError when the index of a table outlived its table in the caches. */
  datatype Lookup = Answers(found: map<Address, Found>) | KeyError

  class LaneStore {
    var disk: map<TableKey, seq<LaneRow>>
    var anchorDisk: map<TableKey, seq<AnchorRow>>
    var buffer: map<TableKey, seq<LaneRow>>
    var anchorBuffer: map<TableKey, seq<AnchorRow>>
    var tables: Lru<CacheKey, Content>
    var indexes: Lru<TableKey, map<Address, nat>>
    var fulfilled: Option<set<Address>>
    const capacity: nat

    constructor (disk: map<TableKey, seq<LaneRow>>, anchorDisk: map<TableKey, seq<AnchorRow>>, capacity: nat)
      ensures Valid() && fulfilled == None
      ensures this.disk == disk && this.anchorDisk == anchorDisk && this.capacity == capacity
      ensures buffer == map[] && anchorBuffer == map[] && tables == Lru([], map[]) && indexes == Lru([], map[])
    {
      this.disk, this.anchorDisk, this.capacity := disk, anchorDisk, capacity;
      buffer, anchorBuffer := map[], map[];
      tables, indexes, fulfilled := Lru([], map[]), Lru([], map[]), None;
    }

    /** The caches agree with the files. */
    ghost predicate Valid()
      reads this
    {
      TablesOk(tables, disk, anchorDisk) && IndexesOk(indexes, disk)
    }

    /** What the files and buffers hold, as the ledger sees it. */
    ghost function View(live: set<Address>): Store
      reads this
    {
      Store(live, disk, buffer, anchorDisk, anchorBuffer, {}, 0)
    }

    /** The table on disk, through the cache. */
    method ReadDiskTable(k: TableKey) returns (table: Option<seq<LaneRow>>)
      requires Valid()
      modifies this`tables
      ensures Valid() && table == if k in disk then Some(disk[k]) else None
      ensures tables == ReadThrough(old(tables), MainKey(k), if k in disk then Some(LaneTable(disk[k])) else None, capacity)
      ensures MainKey(k) in old(tables).values ==> tables.values == old(tables).values
      ensures k in disk && capacity > 0 ==> MainKey(k) in tables.values
      ensures |tables.order| <= |old(tables).order| + (if MainKey(k) in old(tables).values then 0 else 1)
      ensures Paired(old(indexes), old(tables)) && (MainKey(k) in old(tables).values || |old(tables).order| < capacity) ==>
                Paired(indexes, tables)
    {
      hide TablesOk, IndexesOk, Paired;
      var key := MainKey(k);
      if key in tables.values {
        TouchTables(indexes, tables, disk, anchorDisk, key);
        table := Some(tables.values[key].rows);
        tables := tables.MoveToEnd(key);
        return;
      }
      if k !in disk {
        return None;
      }
      LoadTables(indexes, tables, disk, anchorDisk, key, LaneTable(disk[k]), capacity);
      tables := tables.Put(key, LaneTable(disk[k])).Trim(capacity);
      return Some(disk[k]);
    }

    method ReadAnchorTable(k: TableKey) returns (table: Option<seq<AnchorRow>>)
      requires Valid()
      modifies this`tables
      ensures Valid() && table == if k in anchorDisk then Some(anchorDisk[k]) else None
      ensures tables == ReadThrough(old(tables), AnchorKey(k),
                                    if k in anchorDisk then Some(AnchorTable(anchorDisk[k])) else None, capacity)
      ensures |tables.order| <= |old(tables).order| + 1
      ensures Paired(old(indexes), old(tables)) && |old(tables).order| < capacity ==> Paired(indexes, tables)
    {
      hide TablesOk, IndexesOk, Paired;
      var key := AnchorKey(k);
      if key in tables.values {
        TouchTables(indexes, tables, disk, anchorDisk, key);
        table := Some(tables.values[key].anchors);
        tables := tables.MoveToEnd(key);
        return;
      }
      if k !in anchorDisk {
        return None;
      }
      LoadTables(indexes, tables, disk, anchorDisk, key, AnchorTable(anchorDisk[k]), capacity);
      tables := tables.Put(key, AnchorTable(anchorDisk[k])).Trim(capacity);
      return Some(anchorDisk[k]);
    }

    /** The address index of a table; None for the KeyError. */
    method GetAddressIndex(k: TableKey) returns (index: Option<map<Address, nat>>)
      requires Valid()
      modifies this`tables, this`indexes
      ensures Valid()
      ensures index.None? <==> k in old(indexes).values && MainKey(k) !in old(tables).values
      ensures index.Some? ==> IsIndex(index.value, Table(disk, k))
      ensures index.Some? ==>
                tables == ReadThrough(old(tables), MainKey(k), if k in disk then Some(LaneTable(disk[k])) else None, capacity)
      ensures |tables.order| <= |old(tables).order| + 1
      ensures index.Some? && index.value != map[] && capacity > 0 ==> MainKey(k) in tables.values && k in indexes.values
      ensures Paired(old(indexes), old(tables)) && |old(tables).order| < capacity ==> Paired(indexes, tables)
    {
      hide TablesOk, IndexesOk, IsIndex, Paired;
      if k in indexes.values {
        TouchIndexes(indexes, tables, disk, k);
        index := Some(indexes.values[k]);
        indexes := indexes.MoveToEnd(k);
        if MainKey(k) !in tables.values {
          return None;
        }
        TouchTables(indexes, tables, disk, anchorDisk, MainKey(k));
        tables := tables.MoveToEnd(MainKey(k));
        return;
      }
      var table := ReadDiskTable(k);
      if table.None? || table.value == [] {
        EmptyIndex(Table(disk, k));
        return Some(map[]);
      }
      var built := BuildIndex(table.value);
      LoadIndexes(indexes, tables, disk, k, built, capacity);
      indexes := indexes.Put(k, built).Trim(capacity);
      index := Some(built);
    }

    // -------------------------------------------------------------------------
    // lookups
    // -------------------------------------------------------------------------

    /**
     The latest rows of some addresses, whatever is cached: for every address the last lane row
     of the file followed by the buffer, and failing that the anchor.  It raises exactly when
     the table of a cached index has been evicted.
     */
    method RowsByAddress(k: TableKey, addresses: set<Address>) returns (result: Lookup)
      requires Valid()
      modifies this`tables, this`indexes
      ensures Valid()
      ensures result.KeyError? <==> addresses != {} && k in old(indexes).values && MainKey(k) !in old(tables).values
      ensures result.Answers? ==> IsAnswer(result.found, addresses, Table(disk, k), Table(buffer, k),
                                           Table(anchorDisk, k), Table(anchorBuffer, k))
      ensures Paired(old(indexes), old(tables)) && |old(tables).order| + 1 < capacity ==> Paired(indexes, tables)
    {
      hide TablesOk, IndexesOk, IsIndex, MainAnswer, IsAnswer, Paired;
      if addresses == {} {
        NothingAsked(Table(disk, k), Table(buffer, k), Table(anchorDisk, k), Table(anchorBuffer, k));
        return Answers(map[]);
      }
      var index := GetAddressIndex(k);
      if index.None? {
        return KeyError;
      }
      var found: map<Address, Found> := map[];
      if exists a :: a in addresses && a in index.value {
        var table := ReadDiskTable(k);
        IndexedRows(index.value, Table(disk, k));
        if table.Some? {
          found := map a | a in addresses && a in index.value && index.value[a] < |table.value| ::
                     LaneFound(table.value[index.value[a]]);
        }
      }
      ProbedFound(found, addresses, index.value, Table(disk, k));
      found := ScanBuffer(found, addresses, Table(disk, k), Table(buffer, k));
      var missing := addresses - found.Keys;
      ghost var lanes := found;
      NoAnchorsYet(lanes, missing, Table(anchorDisk, k), Table(anchorBuffer, k));
      if missing != {} {
        found := ScanAnchors(found, missing, Table(anchorBuffer, k));
        var anchors := ReadAnchorTable(k);
        if anchors.Some? {
          found := OverrideAnchors(lanes, found, missing, Table(anchorBuffer, k), anchors.value);
        }
      }
      Assembled(lanes, found, addresses, missing, Table(disk, k), Table(buffer, k), Table(anchorDisk, k), Table(anchorBuffer, k));
      return Answers(found);
    }

    // -------------------------------------------------------------------------
    // liveness
    // -------------------------------------------------------------------------

    /** A loaded copy of the live set is the database's. */
    predicate Coherent(db: set<Address>)
      reads this`fulfilled
    {
      fulfilled.Some? ==> fulfilled.value == db
    }

    method GetFulfilled(db: set<Address>) returns (live: set<Address>)
      requires Coherent(db)
      modifies this`fulfilled
      ensures live == db && Coherent(db) && fulfilled.Some?
    {
      if fulfilled.None? {
        fulfilled := Some(db);
      }
      live := fulfilled.value;
    }

    /** A commit: the database row first, then the cached copy. */
    method MarkFulfilled(a: Address, ghost db: set<Address>)
      requires Coherent(db)
      modifies this`fulfilled
      ensures Coherent(db + {a}) && fulfilled.Some? == old(fulfilled).Some?
    {
      if fulfilled.Some? {
        fulfilled := Some(fulfilled.value + {a});
      }
    }

    /** An invalidation or a demotion. */
    method MarkUnfulfilled(a: Address, ghost db: set<Address>)
      requires Coherent(db)
      modifies this`fulfilled
      ensures Coherent(db - {a}) && fulfilled.Some? == old(fulfilled).Some?
    {
      if fulfilled.Some? {
        fulfilled := Some(fulfilled.value - {a});
      }
    }

    method ClearReadCaches()
      requires Valid()
      modifies this`fulfilled, this`tables, this`indexes
      ensures Valid() && Paired(indexes, tables) && forall db :: Coherent(db)
    {
      tables, indexes, fulfilled := Lru([], map[]), Lru([], map[]), None;
    }

    /**
     The planner's batch lookup is the reuse gate of the ledger: it finds exactly the live
     addresses with a row, and serves the row, or the anchor, that the gate serves.
     */
    method BatchLookup(k: TableKey, addresses: set<Address>, db: set<Address>) returns (result: Lookup)
      requires Valid() && Coherent(db) && forall a :: a in addresses ==> TableOf(a) == k
      modifies this`tables, this`indexes, this`fulfilled
      ensures Valid() && Coherent(db)
      ensures result.KeyError? <==>
                (exists a :: a in addresses && a in db) && k in old(indexes).values && MainKey(k) !in old(tables).values
      ensures result.Answers? ==> forall a :: a in result.found ==> a in addresses
      ensures result.Answers? ==> forall a, row :: a in addresses ==>
                (Hit(View(db), a) == Some(row) <==> a in result.found && result.found[a] == LaneFound(row))
      ensures result.Answers? ==> forall a, children :: a in addresses ==>
                (AnchorHit(View(db), a) == Some(children) <==>
                  a in result.found && result.found[a].AnchorFound? && result.found[a].row'.children == children)
    {
      hide TablesOk, IndexesOk, IsAnswer, Last, LastAnchor;
      if addresses == {} {
        return Answers(map[]);
      }
      var live := GetFulfilled(db);
      var asked := addresses * live;
      if asked == {} {
        assert forall a :: a in addresses ==> a !in asked;
        return Answers(map[]);
      }
      result := RowsByAddress(k, asked);
      if result.Answers? {
        AnswersAreHits(View(db), k, result.found, asked);
      }
    }

    // -------------------------------------------------------------------------
    // flushing
    // -------------------------------------------------------------------------

    /** Replace a lane file, its cached table and its index; an index whose table is evicted goes too. */
    method RewriteMain(k: TableKey, combined: seq<LaneRow>)
      requires Valid()
      modifies this`disk, this`tables, this`indexes
      ensures Valid() && disk == old(disk)[k := combined]
      ensures Paired(old(indexes), old(tables)) && 0 < capacity ==> Paired(indexes, tables)
    {
      hide TablesOk, IndexesOk, IsIndex, Paired, KeptIndexes;
      var index := BuildIndex(combined);
      FlushedCaches(indexes, tables, disk, anchorDisk, k, combined, index, capacity);
      var grown := tables.Put(MainKey(k), LaneTable(combined));
      disk := disk[k := combined];
      tables := grown.Trim(capacity);
      indexes := KeptIndexes(indexes, grown.Victim(capacity));
      indexes := indexes.Put(k, index).Trim(capacity);
    }

    /** Append the buffered lane rows to the file. */
    method FlushMain(k: TableKey)
      requires Valid()
      modifies this`disk, this`buffer, this`tables, this`indexes
      ensures Valid()
      ensures forall j :: Table(disk, j) == if j == k then Table(old(disk), k) + Table(old(buffer), k) else Table(old(disk), j)
      ensures forall j :: Table(buffer, j) == if j == k then [] else Table(old(buffer), j)
      ensures Paired(old(indexes), old(tables)) && |old(tables).order| < capacity ==> Paired(indexes, tables)
    {
      hide TablesOk, IndexesOk, IsIndex, Paired;
      if Table(buffer, k) == [] {
        return;
      }
      var existing := ReadDiskTable(k);
      var combined := (if existing.Some? then existing.value else []) + Table(buffer, k);
      assert combined == Table(disk, k) + Table(buffer, k);
      RewriteMain(k, combined);
      buffer := buffer[k := []];
    }

    /** Append the buffered anchors to the anchor file. */
    method FlushAnchors(k: TableKey)
      requires Valid()
      modifies this`anchorDisk, this`anchorBuffer, this`tables, this`indexes
      ensures Valid()
      ensures forall j :: Table(anchorDisk, j) == if j == k then Table(old(anchorDisk), k) + Table(old(anchorBuffer), k) else Table(old(anchorDisk), j)
      ensures forall j :: Table(anchorBuffer, j) == if j == k then [] else Table(old(anchorBuffer), j)
    {
      hide TablesOk, IndexesOk, IsIndex, Paired;
      if Table(anchorBuffer, k) == [] {
        return;
      }
      var existing := ReadAnchorTable(k);
      var combined := (if existing.Some? then existing.value else []) + Table(anchorBuffer, k);
      ghost var before := anchorDisk;
      assert combined == Table(before, k) + Table(anchorBuffer, k);
      anchorDisk := anchorDisk[k := combined];
      FlushedAnchorCaches(indexes, tables, disk, before, k, combined, capacity);
      var grown := tables.Put(AnchorKey(k), AnchorTable(combined));
      var victim := grown.Victim(capacity);
      tables := grown.Trim(capacity);
      indexes := KeptIndexes(indexes, victim);
      anchorBuffer := anchorBuffer[k := []];
    }

    /** A flush empties the step's buffers and leaves every lane lookup as it was. */
    method FlushStep(k: TableKey)
      requires Valid()
      modifies this`disk, this`buffer, this`anchorDisk, this`anchorBuffer, this`tables, this`indexes
      ensures Valid()
      ensures Table(buffer, k) == [] && Table(anchorBuffer, k) == []
      ensures forall j :: Table(disk, j) + Table(buffer, j) == Table(old(disk), j) + Table(old(buffer), j)
      ensures forall j :: j != k ==> Table(anchorDisk, j) == Table(old(anchorDisk), j) && Table(anchorBuffer, j) == Table(old(anchorBuffer), j)
      ensures Table(anchorDisk, k) == Table(old(anchorDisk), k) + Table(old(anchorBuffer), k)
    {
      hide TablesOk, IndexesOk;
      FlushMain(k);
      FlushAnchors(k);
    }
  }

  // ---------------------------------------------------------------------------
  // what a lookup answers
  // ---------------------------------------------------------------------------

  /** The anchor a lookup serves: the newest on disk, and only then the newest in the buffer. */
  function PickAnchor(onDisk: seq<AnchorRow>, buffered: seq<AnchorRow>, a: Address): Option<AnchorRow> {
    if LastAnchor(onDisk, a).Some? then LastAnchor(onDisk, a) else LastAnchor(buffered, a)
  }

  ghost predicate MainAnswer(found: map<Address, Found>, addresses: set<Address>, rows: seq<LaneRow>) {
    forall a :: (a in found <==> a in addresses && Last(rows, a).Some?)
             && (a in found ==> found[a] == LaneFound(Last(rows, a).value))
  }

  /** Anchors for the missing addresses, on top of the lane rows. */
  ghost predicate AnchorAnswer(lanes: map<Address, Found>, found: map<Address, Found>, missing: set<Address>,
                               onDisk: seq<AnchorRow>, buffered: seq<AnchorRow>)
  {
    && (forall a :: a in found <==> a in lanes || (a in missing && PickAnchor(onDisk, buffered, a).Some?))
    && (forall a :: a in lanes ==> a in found && found[a] == lanes[a])
    && (forall a :: a in missing && a !in lanes && a in found ==>
          PickAnchor(onDisk, buffered, a).Some? && found[a] == AnchorFound(PickAnchor(onDisk, buffered, a).value))
  }

  /** The whole answer. */
  ghost predicate IsAnswer(found: map<Address, Found>, addresses: set<Address>, disk: seq<LaneRow>, buffer: seq<LaneRow>,
                           onDisk: seq<AnchorRow>, buffered: seq<AnchorRow>)
  {
    forall a ::
      var row := Last(disk + buffer, a);
      if a !in addresses then a !in found
      else if row.Some? then a in found && found[a] == LaneFound(row.value)
      else if PickAnchor(onDisk, buffered, a).Some? then a in found && found[a] == AnchorFound(PickAnchor(onDisk, buffered, a).value)
      else a !in found
  }

  lemma NothingAsked(disk: seq<LaneRow>, buffer: seq<LaneRow>, onDisk: seq<AnchorRow>, buffered: seq<AnchorRow>)
    ensures IsAnswer(map[], {}, disk, buffer, onDisk, buffered)
  {
  }

  lemma IndexedRows(index: map<Address, nat>, rows: seq<LaneRow>)
    requires IsIndex(index, rows)
    ensures forall a :: a in index ==> index[a] < |rows|
  {
  }

  /** Probing the index finds the last row on disk. */
  lemma ProbedFound(found: map<Address, Found>, addresses: set<Address>, index: map<Address, nat>, rows: seq<LaneRow>)
    requires IsIndex(index, rows)
    requires forall a :: a in found <==> a in addresses && a in index
    requires forall a :: a in found ==> index[a] < |rows| && found[a] == LaneFound(rows[index[a]])
    ensures MainAnswer(found, addresses, rows)
  {
    hide Last;
  }

  /** One more buffered row overrides what is older. */
  lemma ScanNext(found: map<Address, Found>, addresses: set<Address>, rows: seq<LaneRow>, row: LaneRow)
    requires MainAnswer(found, addresses, rows)
    ensures MainAnswer(if row.address in addresses then found[row.address := LaneFound(row)] else found, addresses, rows + [row])
  {
    hide Last;
    forall a ensures Last(rows + [row], a) == if row.address == a then Some(row) else Last(rows, a) {
      LastAppend(rows, row, a);
    }
  }

  /** Buffered rows override the file's. */
  method ScanBuffer(start: map<Address, Found>, addresses: set<Address>, ghost rows: seq<LaneRow>, buffer: seq<LaneRow>)
    returns (found: map<Address, Found>)
    requires MainAnswer(start, addresses, rows)
    ensures MainAnswer(found, addresses, rows + buffer)
  {
    hide Last, MainAnswer;
    found := start;
    assert rows + buffer[..0] == rows;
    for i := 0 to |buffer|
      invariant MainAnswer(found, addresses, rows + buffer[..i])
    {
      assert rows + buffer[..i + 1] == rows + buffer[..i] + [buffer[i]];
      ScanNext(found, addresses, rows + buffer[..i], buffer[i]);
      if buffer[i].address in addresses {
        found := found[buffer[i].address := LaneFound(buffer[i])];
      }
    }
    assert buffer[..|buffer|] == buffer;
  }

  lemma NoAnchorsYet(lanes: map<Address, Found>, missing: set<Address>, onDisk: seq<AnchorRow>, buffered: seq<AnchorRow>)
    ensures missing == {} ==> AnchorAnswer(lanes, lanes, missing, onDisk, buffered)
  {
  }

  lemma PickBuffered(buffered: seq<AnchorRow>, n: nat)
    requires n < |buffered|
    ensures forall a :: PickAnchor([], buffered[..n + 1], a)
                     == if buffered[n].address == a then Some(buffered[n]) else PickAnchor([], buffered[..n], a)
  {
    hide LastAnchor;
    assert buffered[..n + 1] == buffered[..n] + [buffered[n]];
    forall a ensures PickAnchor([], buffered[..n + 1], a)
                  == if buffered[n].address == a then Some(buffered[n]) else PickAnchor([], buffered[..n], a) {
      LastAnchorAppend(buffered[..n], buffered[n], a);
      assert LastAnchor([], a).None?;
    }
  }

  lemma NothingPicked()
    ensures forall a :: PickAnchor([], [], a) == None
  {
  }

  method ScanAnchors(lanes: map<Address, Found>, missing: set<Address>, buffered: seq<AnchorRow>)
    returns (found: map<Address, Found>)
    requires missing !! lanes.Keys
    ensures AnchorAnswer(lanes, found, missing, [], buffered)
  {
    hide LastAnchor, PickAnchor;
    found := lanes;
    NothingPicked();
    for i := 0 to |buffered|
      invariant AnchorAnswer(lanes, found, missing, [], buffered[..i])
    {
      PickBuffered(buffered, i);
      if buffered[i].address in missing {
        found := found[buffered[i].address := AnchorFound(buffered[i])];
      }
    }
    assert buffered[..|buffered|] == buffered;
  }

  lemma PickAppend(onDisk: seq<AnchorRow>, buffered: seq<AnchorRow>, n: nat)
    requires n < |onDisk|
    ensures forall a :: PickAnchor(onDisk[..n + 1], buffered, a)
                     == if onDisk[n].address == a then Some(onDisk[n]) else PickAnchor(onDisk[..n], buffered, a)
  {
    hide LastAnchor;
    assert onDisk[..n + 1] == onDisk[..n] + [onDisk[n]];
    forall a ensures PickAnchor(onDisk[..n + 1], buffered, a)
                  == if onDisk[n].address == a then Some(onDisk[n]) else PickAnchor(onDisk[..n], buffered, a) {
      LastAnchorAppend(onDisk[..n], onDisk[n], a);
    }
  }

  /** The anchor file is scanned last, so it overrides the buffer. */
  method OverrideAnchors(ghost lanes: map<Address, Found>, start: map<Address, Found>, missing: set<Address>,
                         ghost buffered: seq<AnchorRow>, onDisk: seq<AnchorRow>)
    returns (found: map<Address, Found>)
    requires missing !! lanes.Keys && AnchorAnswer(lanes, start, missing, [], buffered)
    ensures AnchorAnswer(lanes, found, missing, onDisk, buffered)
  {
    hide LastAnchor, PickAnchor;
    found := start;
    for i := 0 to |onDisk|
      invariant AnchorAnswer(lanes, found, missing, onDisk[..i], buffered)
    {
      PickAppend(onDisk, buffered, i);
      if onDisk[i].address in missing {
        found := found[onDisk[i].address := AnchorFound(onDisk[i])];
      }
    }
    assert onDisk[..|onDisk|] == onDisk;
  }

  lemma Assembled(lanes: map<Address, Found>, found: map<Address, Found>, addresses: set<Address>, missing: set<Address>,
                  disk: seq<LaneRow>, buffer: seq<LaneRow>, onDisk: seq<AnchorRow>, buffered: seq<AnchorRow>)
    requires MainAnswer(lanes, addresses, disk + buffer) && missing == addresses - lanes.Keys
    requires AnchorAnswer(lanes, found, missing, onDisk, buffered)
    ensures IsAnswer(found, addresses, disk, buffer, onDisk, buffered)
  {
    hide Last, PickAnchor;
  }

  /** An answer over the live addresses is the ledger's gate. */
  lemma AnswersAreHits(st: Store, k: TableKey, found: map<Address, Found>, asked: set<Address>)
    requires IsAnswer(found, asked, Table(st.disk, k), Table(st.buffer, k), Table(st.anchorDisk, k), Table(st.anchorBuffer, k))
    requires forall a :: a in asked ==> TableOf(a) == k && a in st.live
    ensures forall a :: a in found ==> a in asked
    ensures forall a :: a in asked ==>
              (if a in found && found[a].LaneFound? then Hit(st, a) == Some(found[a].row) else Hit(st, a) == None)
    ensures forall a :: a in asked ==>
              (if a in found && found[a].AnchorFound? then AnchorHit(st, a) == Some(found[a].row'.children)
               else AnchorHit(st, a) == None)
  {
    hide Last, LastAnchor;
  }

  /** The children a replay is given. */
  function ChildrenServed(onDisk: seq<AnchorRow>, buffered: seq<AnchorRow>, a: Address): Option<seq<Hash>> {
    var row := PickAnchor(onDisk, buffered, a);
    if row.Some? then Some(row.value.children) else None
  }

  /**
   A flush may change which children an anchor lookup serves: it does exactly when the address has
   an anchor on disk and another one, with other children, last in the buffer.
   */
  lemma FlushChangesAnchor(onDisk: seq<AnchorRow>, buffered: seq<AnchorRow>, a: Address)
    ensures ChildrenServed(onDisk + buffered, [], a) != ChildrenServed(onDisk, buffered, a) <==>
              LastAnchor(onDisk, a).Some? && LastAnchor(buffered, a).Some?
              && LastAnchor(buffered, a).value.children != LastAnchor(onDisk, a).value.children
  {
    hide LastAnchor;
    LastAnchorConcat(onDisk, buffered, a);
    NoAnchors(a);
  }

  /** The table cache after a file was rewritten. */
  lemma RewrittenTables(tables: Lru<CacheKey, Content>, disk: map<TableKey, seq<LaneRow>>, anchorDisk: map<TableKey, seq<AnchorRow>>,
                        disk': map<TableKey, seq<LaneRow>>, anchorDisk': map<TableKey, seq<AnchorRow>>,
                        key: CacheKey, content: Content, capacity: nat)
    requires TablesOk(tables, disk, anchorDisk) && ContentOk(key, content, disk', anchorDisk')
    requires forall other, c :: other != key && ContentOk(other, c, disk, anchorDisk) ==> ContentOk(other, c, disk', anchorDisk')
    ensures TablesOk(tables.Put(key, content).Trim(capacity), disk', anchorDisk')
    ensures forall other :: other in tables.values && tables.Put(key, content).Victim(capacity) != Some(other) ==>
              other in tables.Put(key, content).Trim(capacity).values
    ensures capacity > 0 ==> key in tables.Put(key, content).Trim(capacity).values
  {
    hide ContentOk;
    Placed(tables, key, content);
    Trimmed(tables.Put(key, content), capacity);
  }

  /** The indexes left when the index of an evicted table goes with it. */
  function KeptIndexes(indexes: Lru<TableKey, map<Address, nat>>, victim: Option<CacheKey>): Lru<TableKey, map<Address, nat>> {
    if victim.Some? && victim.value.MainKey? then indexes.Pop(victim.value.table) else indexes
  }

  lemma KeptOk(indexes: Lru<TableKey, map<Address, nat>>, disk: map<TableKey, seq<LaneRow>>, victim: Option<CacheKey>)
    requires IndexesOk(indexes, disk)
    ensures IndexesOk(KeptIndexes(indexes, victim), disk)
    ensures forall k :: k in KeptIndexes(indexes, victim).values <==> k in indexes.values && victim != Some(MainKey(k))
  {
    hide IsIndex;
    if victim.Some? && victim.value.MainKey? {
      Popped(indexes, victim.value.table);
    }
  }

  /** The address index of the rewritten file joins the others. */
  lemma ReindexedOk(indexes: Lru<TableKey, map<Address, nat>>, disk: map<TableKey, seq<LaneRow>>,
                    k: TableKey, combined: seq<LaneRow>, index: map<Address, nat>, capacity: nat)
    requires IndexesOk(indexes, disk) && IsIndex(index, combined)
    ensures IndexesOk(indexes.Put(k, index).Trim(capacity), disk[k := combined])
    ensures forall j :: j in indexes.Put(k, index).Trim(capacity).values ==> j == k || j in indexes.values
  {
    hide IsIndex;
    Loaded(indexes, k, index, capacity);
    ReindexedEach(indexes, indexes.Put(k, index).Trim(capacity), disk, k, combined, index);
  }

  lemma ReindexedEach(indexes: Lru<TableKey, map<Address, nat>>, next: Lru<TableKey, map<Address, nat>>,
                      disk: map<TableKey, seq<LaneRow>>, k: TableKey, combined: seq<LaneRow>, index: map<Address, nat>)
    requires IndexesOk(indexes, disk) && IsIndex(index, combined) && next.Valid()
    requires forall x :: x in next.values ==>
               if x == k then next.values[x] == index else x in indexes.values && next.values[x] == indexes.values[x]
    ensures IndexesOk(next, disk[k := combined])
  {
    hide IsIndex;
    forall x | x in next.values ensures x in disk[k := combined] && IsIndex(next.values[x], disk[k := combined][x]) {
    }
  }

  /** The caches after a flush agree with the new file. */
  lemma FlushedCaches(indexes: Lru<TableKey, map<Address, nat>>, tables: Lru<CacheKey, Content>,
                      disk: map<TableKey, seq<LaneRow>>, anchorDisk: map<TableKey, seq<AnchorRow>>,
                      k: TableKey, combined: seq<LaneRow>, index: map<Address, nat>, capacity: nat)
    requires TablesOk(tables, disk, anchorDisk) && IndexesOk(indexes, disk) && IsIndex(index, combined)
    ensures var grown := tables.Put(MainKey(k), LaneTable(combined));
            var kept := KeptIndexes(indexes, grown.Victim(capacity));
            TablesOk(grown.Trim(capacity), disk[k := combined], anchorDisk)
            && IndexesOk(kept.Put(k, index).Trim(capacity), disk[k := combined])
            && (Paired(indexes, tables) && capacity > 0 ==> Paired(kept.Put(k, index).Trim(capacity), grown.Trim(capacity)))
  {
    hide IsIndex, TablesOk, IndexesOk, KeptIndexes;
    var grown := tables.Put(MainKey(k), LaneTable(combined));
    RewrittenTables(tables, disk, anchorDisk, disk[k := combined], anchorDisk, MainKey(k), LaneTable(combined), capacity);
    KeptOk(indexes, disk, grown.Victim(capacity));
    ReindexedOk(KeptIndexes(indexes, grown.Victim(capacity)), disk, k, combined, index, capacity);
  }

  lemma FlushedAnchorCaches(indexes: Lru<TableKey, map<Address, nat>>, tables: Lru<CacheKey, Content>,
                            disk: map<TableKey, seq<LaneRow>>, anchorDisk: map<TableKey, seq<AnchorRow>>,
                            k: TableKey, combined: seq<AnchorRow>, capacity: nat)
    requires TablesOk(tables, disk, anchorDisk) && IndexesOk(indexes, disk)
    ensures var grown := tables.Put(AnchorKey(k), AnchorTable(combined));
            TablesOk(grown.Trim(capacity), disk, anchorDisk[k := combined])
            && IndexesOk(KeptIndexes(indexes, grown.Victim(capacity)), disk)
  {
    hide IsIndex, TablesOk, IndexesOk, KeptIndexes;
    var grown := tables.Put(AnchorKey(k), AnchorTable(combined));
    RewrittenTables(tables, disk, anchorDisk, disk, anchorDisk[k := combined], AnchorKey(k), AnchorTable(combined), capacity);
    KeptOk(indexes, disk, grown.Victim(capacity));
  }

  /**
   The KeyError does happen: with room for one table, reading another step's anchors between
   two lookups evicts the table and leaves its index behind.
   */
  method EvictionBreaksLookup(row: LaneRow, anchor: AnchorRow, k: TableKey, other: TableKey)
    returns (result: Lookup)
    requires TableOf(row.address) == k
    ensures result.KeyError?
  {
    hide TablesOk, IndexesOk, IsIndex, IsAnswer, Paired;
    var store := new LaneStore(map[k := [row]], map[other := [anchor]], 1);
    var index := store.GetAddressIndex(k);
    RowIsIndexed(index.value, row);
    OneSlot(MainKey(k), LaneTable([row]), AnchorKey(other), AnchorTable([anchor]));
    var _ := store.ReadAnchorTable(other);
    result := store.RowsByAddress(k, {row.address});
  }

  /** A cache of one entry keeps only the last one read. */
  lemma OneSlot(k1: CacheKey, v1: Content, k2: CacheKey, v2: Content)
    requires k1 != k2
    ensures k1 !in ReadThrough(ReadThrough(Lru([], map[]), k1, Some(v1), 1), k2, Some(v2), 1).values
  {
    var one := ReadThrough(Lru([], map[]), k1, Some(v1), 1);
    assert one == Lru([k1], map[k1 := v1]);
    var two := one.Put(k2, v2);
    assert Without([k1], k2) == [k1] && two.order == [k1, k2];
  }

  lemma RowIsIndexed(index: map<Address, nat>, row: LaneRow)
    requires IsIndex(index, [row])
    ensures index != map[]
  {
    assert Last([row], row.address).Some?;
  }

  /** Cached tables are the files' tables. */
  ghost predicate TablesOk(tables: Lru<CacheKey, Content>, disk: map<TableKey, seq<LaneRow>>, anchorDisk: map<TableKey, seq<AnchorRow>>)
    ensures TablesOk(tables, disk, anchorDisk) ==> forall key :: key in tables.values ==> ContentOk(key, tables.values[key], disk, anchorDisk)
  {
    tables.Valid() && forall key :: key in tables.values ==> ContentOk(key, tables.values[key], disk, anchorDisk)
  }

  ghost predicate ContentOk(key: CacheKey, content: Content, disk: map<TableKey, seq<LaneRow>>, anchorDisk: map<TableKey, seq<AnchorRow>>) {
    match key
    case MainKey(k) => k in disk && content == LaneTable(disk[k])
    case AnchorKey(k) => k in anchorDisk && content == AnchorTable(anchorDisk[k])
  }

  ghost predicate IndexesOk(indexes: Lru<TableKey, map<Address, nat>>, disk: map<TableKey, seq<LaneRow>>)
    ensures IndexesOk(indexes, disk) ==> forall k :: k in indexes.values ==> k in disk && IsIndex(indexes.values[k], disk[k])
  {
    indexes.Valid() && forall k :: k in indexes.values ==> k in disk && IsIndex(indexes.values[k], disk[k])
  }

  /** Every cached index still has its table. */
  ghost predicate Paired(indexes: Lru<TableKey, map<Address, nat>>, tables: Lru<CacheKey, Content>) {
    forall k :: k in indexes.values ==> MainKey(k) in tables.values
  }

  lemma TouchTables(indexes: Lru<TableKey, map<Address, nat>>, tables: Lru<CacheKey, Content>,
                    disk: map<TableKey, seq<LaneRow>>, anchorDisk: map<TableKey, seq<AnchorRow>>, key: CacheKey)
    requires TablesOk(tables, disk, anchorDisk) && key in tables.values
    ensures TablesOk(tables.MoveToEnd(key), disk, anchorDisk)
    ensures tables.MoveToEnd(key).values == tables.values && |tables.MoveToEnd(key).order| == |tables.order|
    ensures Paired(indexes, tables) ==> Paired(indexes, tables.MoveToEnd(key))
  {
    Moved(tables, key);
  }

  lemma LoadTables(indexes: Lru<TableKey, map<Address, nat>>, tables: Lru<CacheKey, Content>,
                   disk: map<TableKey, seq<LaneRow>>, anchorDisk: map<TableKey, seq<AnchorRow>>,
                   key: CacheKey, content: Content, capacity: nat)
    requires TablesOk(tables, disk, anchorDisk) && key !in tables.values && ContentOk(key, content, disk, anchorDisk)
    ensures var next := tables.Put(key, content).Trim(capacity);
            TablesOk(next, disk, anchorDisk) && (capacity > 0 ==> key in next.values) && |next.order| <= |tables.order| + 1
            && (Paired(indexes, tables) && |tables.order| < capacity ==> Paired(indexes, next))
  {
    hide ContentOk;
    Loaded(tables, key, content, capacity);
  }

  lemma TouchIndexes(indexes: Lru<TableKey, map<Address, nat>>, tables: Lru<CacheKey, Content>,
                     disk: map<TableKey, seq<LaneRow>>, k: TableKey)
    requires IndexesOk(indexes, disk) && k in indexes.values
    ensures IndexesOk(indexes.MoveToEnd(k), disk) && indexes.MoveToEnd(k).values == indexes.values
    ensures Paired(indexes, tables) ==> Paired(indexes.MoveToEnd(k), tables)
  {
    hide IsIndex;
    Moved(indexes, k);
  }

  lemma LoadIndexes(indexes: Lru<TableKey, map<Address, nat>>, tables: Lru<CacheKey, Content>,
                    disk: map<TableKey, seq<LaneRow>>, k: TableKey, index: map<Address, nat>, capacity: nat)
    requires IndexesOk(indexes, disk) && k in disk && IsIndex(index, disk[k])
    ensures IndexesOk(indexes.Put(k, index).Trim(capacity), disk)
    ensures Paired(indexes, tables) && MainKey(k) in tables.values ==> Paired(indexes.Put(k, index).Trim(capacity), tables)
  {
    hide IsIndex;
    Loaded(indexes, k, index, capacity);
  }

  lemma EmptyIndex(rows: seq<LaneRow>)
    ensures rows == [] ==> IsIndex(map[], rows)
  {
  }
}
