/**
 Compaction of a step's cloud segments: every row of every listed segment is written once into
 a base segment, and then the listed segments are deleted one by one.  It may stop anywhere.
 */
module Compaction {
  import opened Model

  /** A lane-store row as far as compaction looks at it. */
  datatype CloudRow = CloudRow(id: string, address: string, ts: int, body: Json)

  type SegmentKey = string

  /** A segment is an immutable object; None is one that cannot be decoded. */
  type Bucket = map<SegmentKey, Option<seq<CloudRow>>>

  // ---------------------------------------------------------------------------
  // deduplication
  // ---------------------------------------------------------------------------

  /** The row ids in order of first appearance. */
  function Ids(rows: seq<CloudRow>): (ids: seq<string>)
    ensures forall id :: id in ids <==> exists row :: row in rows && row.id == id
    ensures forall i, j :: 0 <= i < j < |ids| ==> ids[i] != ids[j]
  {
    if rows == [] then []
    else
      var before, row := Ids(rows[..|rows| - 1]), rows[|rows| - 1];
      assert rows == rows[..|rows| - 1] + [row];
      if row.id in before then before else before + [row.id]
  }

  /** The newest version of a row; of two equally new ones, the later in the table. */
  function Newest(rows: seq<CloudRow>, id: string): (r: Option<CloudRow>)
    ensures r.Some? <==> exists row :: row in rows && row.id == id
    ensures r.Some? ==> r.value in rows && r.value.id == id
    ensures r.Some? ==> forall row :: row in rows && row.id == id ==> row.ts <= r.value.ts
  {
    if rows == [] then None
    else
      var before, row := Newest(rows[..|rows| - 1], id), rows[|rows| - 1];
      assert rows == rows[..|rows| - 1] + [row];
      if row.id == id && (before.None? || row.ts >= before.value.ts) then Some(row) else before
  }

  predicate SortedByTs(rows: seq<CloudRow>) {
    forall i, j :: 0 <= i < j < |rows| ==> rows[i].ts <= rows[j].ts
  }

  /** Stable insertion: after every row that is not newer. */
  function Insert(rows: seq<CloudRow>, row: CloudRow): seq<CloudRow> {
    if rows == [] || rows[|rows| - 1].ts <= row.ts then rows + [row]
    else Insert(rows[..|rows| - 1], row) + [rows[|rows| - 1]]
  }

  /** A stable sort by timestamp. */
  function Sort(rows: seq<CloudRow>): seq<CloudRow> {
    if rows == [] then []
    else Insert(Sort(rows[..|rows| - 1]), rows[|rows| - 1])
  }

  function NewestOf(rows: seq<CloudRow>, ids: seq<string>): (r: seq<CloudRow>)
    requires forall id :: id in ids ==> Newest(rows, id).Some?
    ensures |r| == |ids| && forall i :: 0 <= i < |ids| ==> Newest(rows, ids[i]) == Some(r[i]) && r[i].id == ids[i]
  {
    if ids == [] then []
    else
      var id := ids[|ids| - 1];
      assert id in ids && forall x :: x in ids[..|ids| - 1] ==> x in ids;
      NewestOf(rows, ids[..|ids| - 1]) + [Newest(rows, id).value]
  }

  function Deduped(rows: seq<CloudRow>): seq<CloudRow> {
    Sort(NewestOf(rows, Ids(rows)))
  }

  lemma OneMoreId(rows: seq<CloudRow>, n: nat)
    requires n < |rows|
    ensures var before, row := Ids(rows[..n]), rows[n];
            Ids(rows[..n + 1]) == if row.id in before then before else before + [row.id]
  {
    assert rows[..n + 1][..n] == rows[..n] && rows[..n + 1][n] == rows[n];
  }

  lemma OneMoreRow(rows: seq<CloudRow>, n: nat, id: string)
    requires n < |rows|
    ensures var before, row := Newest(rows[..n], id), rows[n];
            Newest(rows[..n + 1], id)
              == if row.id == id && (before.None? || row.ts >= before.value.ts) then Some(row) else before
  {
    assert rows[..n + 1][..n] == rows[..n] && rows[..n + 1][n] == rows[n];
  }

  lemma SeenOrNot(rows: seq<CloudRow>, id: string)
    ensures id in Ids(rows) <==> Newest(rows, id).Some?
  {
  }

  /** The loop has seen n rows: the ids in order, and the position of the newest row of each. */
  ghost predicate Tracks(rows: seq<CloudRow>, n: nat, ids: seq<string>, latest: map<string, nat>)
    requires n <= |rows|
  {
    && ids == Ids(rows[..n]) && latest.Keys == (set id | id in ids)
    && forall id :: id in latest ==> latest[id] < n && Newest(rows[..n], id) == Some(rows[latest[id]])
  }

  lemma TracksNext(rows: seq<CloudRow>, n: nat, ids: seq<string>, latest: map<string, nat>)
    requires n < |rows| && Tracks(rows, n, ids, latest)
    ensures var id := rows[n].id;
            var ids' := if id in latest then ids else ids + [id];
            var latest' := if id !in latest || rows[n].ts >= rows[latest[id]].ts then latest[id := n] else latest;
            Tracks(rows, n + 1, ids', latest')
  {
    hide Newest, Ids;
    var id := rows[n].id;
    var latest' := if id !in latest || rows[n].ts >= rows[latest[id]].ts then latest[id := n] else latest;
    OneMoreId(rows, n);
    SeenOrNot(rows[..n], id);
    forall x | x in latest' ensures latest'[x] < n + 1 && Newest(rows[..n + 1], x) == Some(rows[latest'[x]]) {
      OneMoreRow(rows, n, x);
    }
  }

  lemma TracksNothing(rows: seq<CloudRow>)
    ensures Tracks(rows, 0, [], map[])
  {
  }

  lemma TracksAll(rows: seq<CloudRow>, ids: seq<string>, latest: map<string, nat>)
    requires Tracks(rows, |rows|, ids, latest)
    ensures ids == Ids(rows) && forall id :: id in ids ==> id in latest && latest[id] < |rows| && Newest(rows, id) == Some(rows[latest[id]])
  {
    hide Newest, Ids;
    assert rows[..|rows|] == rows;
  }

  /** The loop over the table: remember the best index for every row id, then sort the survivors. */
  method Dedupe(rows: seq<CloudRow>) returns (out: seq<CloudRow>)
    ensures out == Deduped(rows)
  {
    hide Newest, Sort, Ids, Tracks;
    var ids: seq<string> := [];
    var latest: map<string, nat> := map[];
    TracksNothing(rows);
    for i := 0 to |rows|
      invariant Tracks(rows, i, ids, latest)
      invariant forall id :: id in latest ==> latest[id] < |rows|
    {
      TracksNext(rows, i, ids, latest);
      var id := rows[i].id;
      if id !in latest {
        ids := ids + [id];
      }
      if id !in latest || rows[i].ts >= rows[latest[id]].ts {
        latest := latest[id := i];
      }
    }
    TracksAll(rows, ids, latest);
    out := seq(|ids|, k requires 0 <= k < |ids| => assert ids[k] in ids; rows[latest[ids[k]]]);
    assert out == NewestOf(rows, ids);
    out := Sort(out);
  }

  // ---------------------------------------------------------------------------
  // what deduplication means
  // ---------------------------------------------------------------------------

  predicate DistinctIds(rows: seq<CloudRow>) {
    forall i, j :: 0 <= i < j < |rows| ==> rows[i].id != rows[j].id
  }

  /** Segments only ever repeat a row, they never change it. */
  ghost predicate Consistent(rows: seq<CloudRow>) {
    forall a, b :: a in rows && b in rows && a.id == b.id ==> a == b
  }

  ghost predicate SameRows(rows1: seq<CloudRow>, rows2: seq<CloudRow>) {
    forall row :: row in rows1 <==> row in rows2
  }

  lemma {:induction false} InsertSorted(rows: seq<CloudRow>, row: CloudRow)
    requires SortedByTs(rows)
    ensures SortedByTs(Insert(rows, row))
  {
    if rows == [] || rows[|rows| - 1].ts <= row.ts {
    } else {
      var n := |rows| - 1;
      InsertSorted(rows[..n], row);
      InsertMembers(rows[..n], row);
      var r := Insert(rows[..n], row);
      forall i | 0 <= i < |r| ensures r[i].ts <= rows[n].ts {
        assert r[i] in r;
      }
    }
  }

  lemma {:induction false} InsertMembers(rows: seq<CloudRow>, row: CloudRow)
    ensures forall x :: x in Insert(rows, row) <==> x in rows || x == row
  {
    if rows != [] {
      var n := |rows| - 1;
      assert rows == rows[..n] + [rows[n]];
      InsertMembers(rows[..n], row);
    }
  }

  lemma {:induction false} SortSorts(rows: seq<CloudRow>)
    ensures SortedByTs(Sort(rows))
  {
    if rows != [] {
      SortSorts(rows[..|rows| - 1]);
      InsertSorted(Sort(rows[..|rows| - 1]), rows[|rows| - 1]);
    }
  }

  lemma {:induction false} SortMembers(rows: seq<CloudRow>)
    ensures forall x :: x in Sort(rows) <==> x in rows
  {
    if rows != [] {
      var n := |rows| - 1;
      assert rows == rows[..n] + [rows[n]];
      SortMembers(rows[..n]);
      InsertMembers(Sort(rows[..n]), rows[n]);
    }
  }

  /** A sorted table is left as it is. */
  lemma {:induction false} SortFixes(rows: seq<CloudRow>)
    requires SortedByTs(rows)
    ensures Sort(rows) == rows
  {
    if rows != [] {
      var n := |rows| - 1;
      SortFixes(rows[..n]);
      assert n == 0 || rows[..n][n - 1].ts <= rows[n].ts;
      assert Insert(rows[..n], rows[n]) == rows[..n] + [rows[n]] == rows;
    }
  }

  /** No two entries of the sorted table share an id if no two of the unsorted one do. */
  lemma {:induction false} InsertDistinct(rows: seq<CloudRow>, row: CloudRow)
    requires DistinctIds(rows) && forall x :: x in rows ==> x.id != row.id
    ensures DistinctIds(Insert(rows, row))
  {
    if rows == [] || rows[|rows| - 1].ts <= row.ts {
    } else {
      var n := |rows| - 1;
      InsertDistinct(rows[..n], row);
      InsertMembers(rows[..n], row);
      var r := Insert(rows[..n], row);
      forall i | 0 <= i < |r| ensures r[i].id != rows[n].id {
        assert r[i] in r;
      }
    }
  }

  lemma {:induction false} SortDistinct(rows: seq<CloudRow>)
    requires DistinctIds(rows)
    ensures DistinctIds(Sort(rows))
  {
    if rows != [] {
      var n := |rows| - 1;
      SortDistinct(rows[..n]);
      SortMembers(rows[..n]);
      InsertDistinct(Sort(rows[..n]), rows[n]);
    }
  }

  /** The deduplicated table: each row id once, with its newest version, oldest first. */
  lemma DedupedMeans(rows: seq<CloudRow>)
    ensures DistinctIds(Deduped(rows)) && SortedByTs(Deduped(rows))
    ensures forall row :: row in Deduped(rows) <==> Newest(rows, row.id) == Some(row)
  {
    var ids := Ids(rows);
    var picked := NewestOf(rows, ids);
    SortSorts(picked);
    SortMembers(picked);
    SortDistinct(picked);
    forall row: CloudRow | Newest(rows, row.id) == Some(row) ensures row in picked {
      assert row in rows && row.id in ids;
      var i :| 0 <= i < |ids| && ids[i] == row.id;
      assert picked[i] == row;
    }
  }

  /** Where rows never change, deduplication keeps exactly the rows. */
  lemma DedupedKeepsRows(rows: seq<CloudRow>)
    requires Consistent(rows)
    ensures SameRows(Deduped(rows), rows)
  {
    DedupedMeans(rows);
    forall row | row in rows ensures Newest(rows, row.id) == Some(row) {
      assert Newest(rows, row.id).Some?;
    }
  }

  lemma {:induction false} IdsOfDistinct(rows: seq<CloudRow>)
    requires DistinctIds(rows)
    ensures |Ids(rows)| == |rows| && forall i :: 0 <= i < |rows| ==> Ids(rows)[i] == rows[i].id
  {
    if rows != [] {
      var n := |rows| - 1;
      IdsOfDistinct(rows[..n]);
      assert forall row :: row in rows[..n] ==> row.id != rows[n].id;
    }
  }

  /** Deduplicating twice is deduplicating once. */
  lemma DedupedIdempotent(rows: seq<CloudRow>)
    ensures Deduped(Deduped(rows)) == Deduped(rows)
  {
    var once := Deduped(rows);
    DedupedMeans(rows);
    IdsOfDistinct(once);
    var ids := Ids(once);
    forall i | 0 <= i < |once| ensures NewestOf(once, ids)[i] == once[i] {
      assert once[i] in once;
      var newest := Newest(once, once[i].id).value;
      assert newest in once && newest.id == once[i].id;
    }
    assert NewestOf(once, ids) == once;
    SortFixes(once);
  }

  // ---------------------------------------------------------------------------
  // the newest row of an address
  // ---------------------------------------------------------------------------

  /** The row a lookup serves: the last one of the table at this address. */
  function LatestAt(rows: seq<CloudRow>, address: string): (r: Option<CloudRow>)
    ensures r.Some? <==> exists row :: row in rows && row.address == address
    ensures r.Some? ==> r.value in rows && r.value.address == address
  {
    if rows == [] then None
    else
      var row := rows[|rows| - 1];
      assert rows == rows[..|rows| - 1] + [row];
      if row.address == address then Some(row) else LatestAt(rows[..|rows| - 1], address)
  }

  ghost predicate DistinctTimes(rows: seq<CloudRow>, address: string) {
    forall a, b :: a in rows && b in rows && a.address == address == b.address && a.ts == b.ts ==> a == b
  }

  lemma {:induction false} LatestIsNewest(rows: seq<CloudRow>, address: string)
    requires SortedByTs(rows) && LatestAt(rows, address).Some?
    ensures forall row :: row in rows && row.address == address ==> row.ts <= LatestAt(rows, address).value.ts
  {
    var n := |rows| - 1;
    assert rows == rows[..n] + [rows[n]];
    if rows[n].address != address {
      LatestIsNewest(rows[..n], address);
    }
  }

  /** Two tables of the same rows, oldest first, serve the same row where timestamps are distinct. */
  lemma SameLatest(table1: seq<CloudRow>, table2: seq<CloudRow>, address: string)
    requires SortedByTs(table1) && SortedByTs(table2) && SameRows(table1, table2) && DistinctTimes(table1, address)
    ensures LatestAt(table1, address) == LatestAt(table2, address)
  {
    hide LatestAt, SortedByTs;
    var a, b := LatestAt(table1, address), LatestAt(table2, address);
    assert a.Some? <==> b.Some?;
    if a.Some? {
      LatestIsNewest(table1, address);
      LatestIsNewest(table2, address);
      assert a.value.ts == b.value.ts;
    }
  }

  /**
   Two listings of the same rows, in whatever segments and whatever order, deduplicate to the
   same rows, and serve the same newest row at every address whose timestamps are distinct.
   */
  lemma SegmentOrderDoesNotMatter(rows1: seq<CloudRow>, rows2: seq<CloudRow>)
    requires Consistent(rows1) && SameRows(rows1, rows2)
    ensures SameRows(Deduped(rows1), Deduped(rows2))
    ensures forall address :: DistinctTimes(rows1, address) ==>
              LatestAt(Deduped(rows1), address) == LatestAt(Deduped(rows2), address)
  {
    hide Deduped, LatestAt, SortedByTs, DistinctIds;
    DedupedKeepsRows(rows1);
    DedupedKeepsRows(rows2);
    DedupedMeans(rows1);
    DedupedMeans(rows2);
    forall address | DistinctTimes(rows1, address)
      ensures LatestAt(Deduped(rows1), address) == LatestAt(Deduped(rows2), address)
    {
      SameLatest(Deduped(rows1), Deduped(rows2), address);
    }
  }

  // ---------------------------------------------------------------------------
  // segments
  // ---------------------------------------------------------------------------

  function SegmentRows(bucket: Bucket, key: SegmentKey): seq<CloudRow> {
    if key in bucket && bucket[key].Some? then bucket[key].value else []
  }

  /** The rows of the listed segments, in listing order; missing and undecodable ones have none. */
  function Concat(bucket: Bucket, keys: seq<SegmentKey>): (rows: seq<CloudRow>)
    ensures forall row :: row in rows <==> exists key :: key in keys && row in SegmentRows(bucket, key)
  {
    if keys == [] then []
    else
      assert keys == keys[..|keys| - 1] + [keys[|keys| - 1]];
      Concat(bucket, keys[..|keys| - 1]) + SegmentRows(bucket, keys[|keys| - 1])
  }

  /** A complete listing. */
  ghost predicate Lists(bucket: Bucket, keys: seq<SegmentKey>) {
    && (forall key :: key in keys <==> key in bucket)
    && (forall i, j :: 0 <= i < j < |keys| ==> keys[i] != keys[j])
  }

  ghost predicate InBucket(bucket: Bucket, row: CloudRow) {
    exists key :: key in bucket && row in SegmentRows(bucket, key)
  }

  function Without(bucket: Bucket, keys: seq<SegmentKey>): Bucket {
    map key | key in bucket && key !in keys :: bucket[key]
  }

  /** The bucket after the base has been written and the first n listed segments deleted. */
  function Midway(bucket: Bucket, keys: seq<SegmentKey>, base: SegmentKey, n: nat): Bucket
    requires n <= |keys|
  {
    Without(bucket, keys[..n])[base := Some(Deduped(Concat(bucket, keys)))]
  }

  datatype CompactionResult = LeaseLost | NotNeeded | Collision | NotBegun | Stopped | Done

  class CloudTable {
    var bucket: Bucket

    constructor (bucket: Bucket)
      ensures this.bucket == bucket
    {
      this.bucket := bucket;
    }

    /** Reading a step's table through one complete listing. */
    method ReadTable(keys: seq<SegmentKey>) returns (rows: seq<CloudRow>)
      requires Lists(bucket, keys)
      ensures rows == Deduped(Concat(bucket, keys))
    {
      var all: seq<CloudRow> := [];
      for i := 0 to |keys|
        invariant all == Concat(bucket, keys[..i])
      {
        assert keys[..i + 1][..i] == keys[..i] && keys[..i + 1][i] == keys[i];
        all := all + SegmentRows(bucket, keys[i]);
      }
      assert keys[..|keys|] == keys;
      rows := Dedupe(all);
    }

    /**
     Compaction, cut short after `budget` object-store writes: it leaves the rows of the step
     as they were wherever it stops.
     */
    method Compact(keys: seq<SegmentKey>, base: SegmentKey, threshold: nat, lost: bool, budget: nat)
      returns (result: CompactionResult)
      requires Lists(bucket, keys) && Consistent(Concat(bucket, keys))
      modifies this
      ensures result.NotNeeded? <==> |keys| <= threshold || forall key :: key in keys ==> key !in old(bucket) || old(bucket)[key].None?
      ensures result.LeaseLost? <==> !result.NotNeeded? && lost
      ensures result.Collision? <==> !result.NotNeeded? && !lost && base in old(bucket)
      ensures result.Done? || result.Stopped? || result.NotBegun? <==> !result.NotNeeded? && !lost && base !in old(bucket)
      ensures result.NotBegun? ==> budget == 0
      ensures result.Stopped? ==> 0 < budget <= |keys| && bucket == Midway(old(bucket), keys, base, budget - 1)
      ensures result.Done? ==> |keys| < budget && bucket == map[base := Some(Deduped(Concat(old(bucket), keys)))]
      ensures !result.Done? && !result.Stopped? ==> bucket == old(bucket)
      ensures forall row :: InBucket(bucket, row) <==> old(InBucket(bucket, row))
    {
      hide Deduped, Concat, Lists, Consistent, InBucket, Without;
      ghost var before := bucket;
      if |keys| <= threshold || forall key :: key in keys ==> key !in bucket || bucket[key].None? {
        return NotNeeded;
      }
      var table := ReadTable(keys);
      if lost {
        return LeaseLost;
      }
      if base in bucket {
        return Collision;
      }
      if budget == 0 {
        return NotBegun;
      }
      bucket := bucket[base := Some(table)];
      MidwayStarts(before, keys, base);
      for n := 0 to |keys|
        invariant n < budget && bucket == Midway(before, keys, base, n)
      {
        if n + 1 >= budget {
          MidwayKeepsRows(before, keys, base, n);
          return Stopped;
        }
        MidwayStep(before, keys, base, n);
        bucket := bucket - {keys[n]};
      }
      MidwayKeepsRows(before, keys, base, |keys|);
      MidwayEnds(before, keys, base);
      return Done;
    }
  }

  lemma MidwayStarts(bucket: Bucket, keys: seq<SegmentKey>, base: SegmentKey)
    ensures Midway(bucket, keys, base, 0) == bucket[base := Some(Deduped(Concat(bucket, keys)))]
  {
    hide Deduped, Concat;
    assert Without(bucket, []) == bucket;
  }

  lemma MidwayStep(bucket: Bucket, keys: seq<SegmentKey>, base: SegmentKey, n: nat)
    requires Lists(bucket, keys) && base !in bucket && n < |keys|
    ensures Midway(bucket, keys, base, n) - {keys[n]} == Midway(bucket, keys, base, n + 1)
  {
    hide Deduped, Concat;
    assert keys[..n + 1] == keys[..n] + [keys[n]];
    assert keys[n] in keys && keys[n] != base;
    assert Without(bucket, keys[..n]) - {keys[n]} == Without(bucket, keys[..n + 1]);
  }

  lemma MidwayEnds(bucket: Bucket, keys: seq<SegmentKey>, base: SegmentKey)
    requires Lists(bucket, keys) && base !in bucket
    ensures Midway(bucket, keys, base, |keys|) == map[base := Some(Deduped(Concat(bucket, keys)))]
  {
    hide Deduped, Concat;
    assert keys[..|keys|] == keys;
    assert Without(bucket, keys) == map[];
  }

  /** Wherever compaction stops, the rows of the step are the ones it had. */
  lemma MidwayKeepsRows(bucket: Bucket, keys: seq<SegmentKey>, base: SegmentKey, n: nat)
    requires Lists(bucket, keys) && Consistent(Concat(bucket, keys)) && base !in bucket && n <= |keys|
    ensures forall row :: InBucket(Midway(bucket, keys, base, n), row) <==> InBucket(bucket, row)
  {
    hide Deduped, Concat, Consistent;
    var all := Concat(bucket, keys);
    DedupedKeepsRows(all);
    var midway := Midway(bucket, keys, base, n);
    forall row | InBucket(bucket, row) ensures InBucket(midway, row) {
      assert row in all;
      assert base in midway && row in SegmentRows(midway, base);
    }
    forall row | InBucket(midway, row) ensures InBucket(bucket, row) {
      var key :| key in midway && row in SegmentRows(midway, key);
      if key == base {
        assert row in all;
      } else {
        assert key in bucket && SegmentRows(midway, key) == SegmentRows(bucket, key);
      }
    }
  }

  /**
   What a reader of the whole step gets is the same wherever compaction stops: the same rows, and
   the same row served at every address whose timestamps are distinct.
   */
  lemma MidwayReadsAlike(bucket: Bucket, keys: seq<SegmentKey>, base: SegmentKey, n: nat, seen: seq<SegmentKey>)
    requires Lists(bucket, keys) && Consistent(Concat(bucket, keys)) && base !in bucket && n <= |keys|
    requires Lists(Midway(bucket, keys, base, n), seen)
    ensures var before, after := Concat(bucket, keys), Concat(Midway(bucket, keys, base, n), seen);
            && SameRows(Deduped(before), Deduped(after))
            && forall address :: DistinctTimes(before, address) ==>
                 LatestAt(Deduped(before), address) == LatestAt(Deduped(after), address)
  {
    hide Deduped, Consistent, LatestAt, Midway;
    var midway := Midway(bucket, keys, base, n);
    var before, after := Concat(bucket, keys), Concat(midway, seen);
    MidwayKeepsRows(bucket, keys, base, n);
    ListedRows(bucket, keys);
    ListedRows(midway, seen);
    SegmentOrderDoesNotMatter(before, after);
  }

  /** A complete listing finds exactly the rows in the bucket. */
  lemma ListedRows(bucket: Bucket, keys: seq<SegmentKey>)
    requires Lists(bucket, keys)
    ensures forall row :: row in Concat(bucket, keys) <==> InBucket(bucket, row)
  {
    forall row | InBucket(bucket, row) ensures row in Concat(bucket, keys) {
      var key :| key in bucket && row in SegmentRows(bucket, key);
      assert key in keys;
    }
  }

  // ---------------------------------------------------------------------------
  // readers racing the compaction
  // ---------------------------------------------------------------------------

  /** The bucket at each moment of an undisturbed compaction: untouched, with the base, then shrinking. */
  function Moment(bucket: Bucket, keys: seq<SegmentKey>, base: SegmentKey, t: nat): Bucket
    requires t <= |keys| + 1
  {
    if t == 0 then bucket else Midway(bucket, keys, base, t - 1)
  }

  /** What a reader gets that listed `seen` and fetched each listed object at a moment of its own. */
  function Fetched(bucket: Bucket, keys: seq<SegmentKey>, base: SegmentKey, seen: seq<SegmentKey>, at: seq<nat>)
    : seq<CloudRow>
    requires |at| == |seen| && forall i :: 0 <= i < |at| ==> at[i] <= |keys| + 1
  {
    if seen == [] then []
    else
      var n := |seen| - 1;
      Fetched(bucket, keys, base, seen[..n], at[..n]) + SegmentRows(Moment(bucket, keys, base, at[n]), seen[n])
  }

  lemma {:induction false} FetchedRows(bucket: Bucket, keys: seq<SegmentKey>, base: SegmentKey,
                                       seen: seq<SegmentKey>, at: seq<nat>)
    requires |at| == |seen| && forall i :: 0 <= i < |at| ==> at[i] <= |keys| + 1
    ensures forall row :: row in Fetched(bucket, keys, base, seen, at) <==>
              exists i :: 0 <= i < |seen| && row in SegmentRows(Moment(bucket, keys, base, at[i]), seen[i])
  {
    hide Moment, SegmentRows;
    if seen != [] {
      var n := |seen| - 1;
      FetchedRows(bucket, keys, base, seen[..n], at[..n]);
      forall row, i | 0 <= i < |seen| && row in SegmentRows(Moment(bucket, keys, base, at[i]), seen[i])
        ensures row in Fetched(bucket, keys, base, seen, at)
      {
        if i < n {
          assert row in SegmentRows(Moment(bucket, keys, base, at[..n][i]), seen[..n][i]);
        }
      }
    }
  }

  /** Nothing but true rows can be found in any segment at any moment. */
  lemma MomentHasTrueRows(bucket: Bucket, keys: seq<SegmentKey>, base: SegmentKey, t: nat, key: SegmentKey, row: CloudRow)
    requires Lists(bucket, keys) && Consistent(Concat(bucket, keys)) && base !in bucket && t <= |keys| + 1
    requires row in SegmentRows(Moment(bucket, keys, base, t), key)
    ensures InBucket(bucket, row)
  {
    hide Deduped;
    var moment := Moment(bucket, keys, base, t);
    assert key in moment;
    if t > 0 {
      assert InBucket(moment, row);
      MidwayKeepsRows(bucket, keys, base, t - 1);
    }
  }

  /** The base, once written, holds every true row at every later moment. */
  lemma BaseHasEveryRow(bucket: Bucket, keys: seq<SegmentKey>, base: SegmentKey, t: nat, row: CloudRow)
    requires Lists(bucket, keys) && Consistent(Concat(bucket, keys)) && base !in bucket && 0 < t <= |keys| + 1
    requires InBucket(bucket, row)
    ensures row in SegmentRows(Moment(bucket, keys, base, t), base)
  {
    hide Deduped;
    DedupedKeepsRows(Concat(bucket, keys));
    assert row in Concat(bucket, keys);
  }

  /**
   A reader that races the deletions sees a subset of the true rows.  It sees all of them if
   its listing was made after the base was written, or if it fetched everything before the
   first deletion.
   */
  lemma RacingReaderSeesTrueRows(bucket: Bucket, keys: seq<SegmentKey>, base: SegmentKey,
                                 listed: nat, seen: seq<SegmentKey>, at: seq<nat>)
    requires Lists(bucket, keys) && Consistent(Concat(bucket, keys)) && base !in bucket
    requires listed <= |keys| + 1 && Lists(Moment(bucket, keys, base, listed), seen)
    requires |at| == |seen| && forall i :: 0 <= i < |at| ==> listed <= at[i] <= |keys| + 1
    ensures forall row :: row in Deduped(Fetched(bucket, keys, base, seen, at)) ==> InBucket(bucket, row)
    ensures listed > 0 || (forall i :: 0 <= i < |at| ==> at[i] <= 1) ==>
              forall row :: InBucket(bucket, row) ==> row in Deduped(Fetched(bucket, keys, base, seen, at))
  {
    hide Deduped, Moment, Consistent, Fetched;
    var rows := Fetched(bucket, keys, base, seen, at);
    FetchedRows(bucket, keys, base, seen, at);
    forall row | row in rows ensures InBucket(bucket, row) {
      var i :| 0 <= i < |seen| && row in SegmentRows(Moment(bucket, keys, base, at[i]), seen[i]);
      MomentHasTrueRows(bucket, keys, base, at[i], seen[i], row);
    }
    assert Consistent(rows) by { TrueRowsConsistent(bucket, keys, rows); }
    DedupedKeepsRows(rows);
    if listed > 0 || forall i :: 0 <= i < |at| ==> at[i] <= 1 {
      forall row | InBucket(bucket, row) ensures row in rows {
        EveryRowFetched(bucket, keys, base, listed, seen, at, row);
      }
    }
  }

  lemma TrueRowsConsistent(bucket: Bucket, keys: seq<SegmentKey>, rows: seq<CloudRow>)
    requires Lists(bucket, keys) && Consistent(Concat(bucket, keys))
    requires forall row :: row in rows ==> InBucket(bucket, row)
    ensures Consistent(rows)
  {
    forall row | row in rows ensures row in Concat(bucket, keys) {
      var key :| key in bucket && row in SegmentRows(bucket, key);
      assert key in keys;
    }
  }

  lemma EveryRowFetched(bucket: Bucket, keys: seq<SegmentKey>, base: SegmentKey,
                        listed: nat, seen: seq<SegmentKey>, at: seq<nat>, row: CloudRow)
    requires Lists(bucket, keys) && Consistent(Concat(bucket, keys)) && base !in bucket
    requires listed <= |keys| + 1 && Lists(Moment(bucket, keys, base, listed), seen)
    requires |at| == |seen| && forall i :: 0 <= i < |at| ==> listed <= at[i] <= |keys| + 1
    requires listed > 0 || forall i :: 0 <= i < |at| ==> at[i] <= 1
    requires InBucket(bucket, row)
    ensures row in Fetched(bucket, keys, base, seen, at)
  {
    hide Deduped, Consistent, Fetched;
    FetchedRows(bucket, keys, base, seen, at);
    if listed > 0 {
      assert base in Moment(bucket, keys, base, listed);
      var i :| 0 <= i < |seen| && seen[i] == base;
      BaseHasEveryRow(bucket, keys, base, at[i], row);
    } else {
      var key :| key in bucket && row in SegmentRows(bucket, key);
      var i :| 0 <= i < |seen| && seen[i] == key;
      assert keys[..0] == [];
      assert row in SegmentRows(Moment(bucket, keys, base, at[i]), seen[i]);
    }
  }

  /** A reader that listed before the base was written and fetched after the deletions sees nothing. */
  lemma LateReaderMayMissRows(bucket: Bucket, keys: seq<SegmentKey>, base: SegmentKey)
    requires Lists(bucket, keys) && base !in bucket
    ensures Fetched(bucket, keys, base, keys, seq(|keys|, _ => |keys| + 1)) == []
  {
    hide Deduped;
    MidwayEnds(bucket, keys, base);
    forall i | 0 <= i < |keys| ensures SegmentRows(Moment(bucket, keys, base, |keys| + 1), keys[i]) == [] {
      assert keys[i] in bucket;
    }
    NothingFetched(bucket, keys, base, keys, seq(|keys|, _ => |keys| + 1));
  }

  lemma {:induction false} NothingFetched(bucket: Bucket, keys: seq<SegmentKey>, base: SegmentKey,
                                          seen: seq<SegmentKey>, at: seq<nat>)
    requires |at| == |seen| && forall i :: 0 <= i < |at| ==> at[i] <= |keys| + 1
    requires forall i :: 0 <= i < |seen| ==> SegmentRows(Moment(bucket, keys, base, at[i]), seen[i]) == []
    ensures Fetched(bucket, keys, base, seen, at) == []
  {
    hide Moment, SegmentRows;
    if seen != [] {
      NothingFetched(bucket, keys, base, seen[..|seen| - 1], at[..|at| - 1]);
    }
  }
}
