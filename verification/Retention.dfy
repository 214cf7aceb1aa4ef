/**
 Garbage collection: which live addresses the retention policies and the byte budget demote,
 which objects may then be swept, and in what order.
 */
module Retention {
  import opened Model
  import opened Ledger

  // ---------------------------------------------------------------------------
  // the run ledger
  // ---------------------------------------------------------------------------

  datatype Kind = Process | Partial | Other

  datatype RunRow = RunRow(id: nat, pipeline: string, kind: Kind, terminal: bool, started: nat)

  /** The runs, and which addresses each run's coordinates refer to. */
  datatype Books = Books(runs: set<RunRow>, refs: set<(nat, Address)>)
  {
    /** Run ids are keys, and a run only records addresses of its own pipeline. */
    ghost predicate Valid() {
      && (forall r, q :: r in runs && q in runs && r.id == q.id ==> r == q)
      && (forall x, r :: x in refs && r in runs && r.id == x.0 ==> x.1.pipeline == r.pipeline)
    }
  }

  predicate Newer(a: RunRow, b: RunRow) {
    a.started > b.started || (a.started == b.started && a.id > b.id)
  }

  /** The terminal executions of a pipeline, full and partial. */
  function TerminalRuns(db: Books, p: string): set<RunRow> {
    set r | r in db.runs && r.pipeline == p && r.terminal && !r.kind.Other?
  }

  /** The n newest of them. */
  function Recent(db: Books, p: string, n: nat): set<RunRow> {
    var all := TerminalRuns(db, p);
    set r | r in all && |set q | q in all && Newer(q, r)| < n
  }

  /** The newest terminal full run, if there is one. */
  function LatestFull(db: Books, p: string): set<RunRow> {
    var full := set r | r in TerminalRuns(db, p) && r.kind.Process?;
    set r | r in full && forall q :: q in full ==> !Newer(q, r)
  }

  /** The addresses any of these runs refers to. */
  function ReferredBy(db: Books, runs: set<RunRow>): set<Address> {
    set x | x in db.refs && (exists r :: r in runs && r.id == x.0) :: x.1
  }

  /** Live addresses no run coordinate refers to: the anchors of expand steps. */
  function Anchors(db: Books, live: set<Address>): set<Address> {
    live - set x | x in db.refs :: x.1
  }

  // ---------------------------------------------------------------------------
  // what is to be kept, in terms of start times and run ids
  // ---------------------------------------------------------------------------

  /** The terminal executions of its pipeline that started after a run, or with it and under a greater id. */
  ghost function LaterRuns(db: Books, r: RunRow): set<RunRow> {
    set q | q in db.runs && q.pipeline == r.pipeline && q.terminal && (q.kind.Process? || q.kind.Partial?)
            && (q.started > r.started || (q.started == r.started && q.id > r.id))
  }

  /** The terminal full run of a pipeline that started last; of several, the one with the greatest id. */
  ghost predicate NewestFull(db: Books, p: string, r: RunRow) {
    && r in db.runs && r.pipeline == p && r.terminal && r.kind.Process?
    && forall q :: q in db.runs && q.pipeline == p && q.terminal && q.kind.Process? ==>
         q.started < r.started || (q.started == r.started && q.id <= r.id)
  }

  /** No coordinate of any run refers to the address: it is an anchor's. */
  ghost predicate Unrecorded(db: Books, a: Address) {
    forall x :: x in db.refs ==> x.1 != a
  }

  /** The addresses no collection may demote: anchors, and what the newest full run of the pipeline refers to. */
  ghost predicate Protected(db: Books, a: Address) {
    Unrecorded(db, a) || exists r :: NewestFull(db, a.pipeline, r) && (r.id, a) in db.refs
  }

  /**
   A policy that keeps n runs gives an address up: it is live and has a row, it is not protected,
   and each terminal execution of its pipeline that refers to it has at least n later ones.
   */
  ghost predicate Outdated(db: Books, rows: seq<LaneRow>, live: set<Address>, n: nat, a: Address) {
    && a in live && (exists row :: row in rows && row.address == a) && !Protected(db, a)
    && forall r :: (r in db.runs && r.pipeline == a.pipeline && r.terminal && (r.kind.Process? || r.kind.Partial?)
                    && (r.id, a) in db.refs) ==> |LaterRuns(db, r)| >= n
  }

  /** The policy of the address's own pipeline, if there is one, gives it up. */
  ghost predicate OutOfDate(db: Books, rows: seq<LaneRow>, live: set<Address>, policies: map<string, nat>, a: Address) {
    a.pipeline in policies && Outdated(db, rows, live, policies[a.pipeline], a)
  }

  /**
   What the byte budget may give up: the newest terminal execution of a pipeline does not refer to
   it, nor does the newest full one, and it is no anchor's.
   */
  ghost predicate Spare(db: Books, a: Address) {
    && !Unrecorded(db, a)
    && forall r :: r in db.runs && r.terminal && (r.id, a) in db.refs ==>
         !(NewestFull(db, r.pipeline, r) || (!r.kind.Other? && LaterRuns(db, r) == {}))
  }

  lemma RecentMeans(db: Books, p: string, n: nat, r: RunRow)
    ensures r in Recent(db, p, n) <==> r in TerminalRuns(db, p) && |LaterRuns(db, r)| < n
  {
    var all := TerminalRuns(db, p);
    if r in all {
      assert LaterRuns(db, r) == set q | q in all && Newer(q, r);
    }
  }

  lemma LatestFullMeans(db: Books, p: string, r: RunRow)
    ensures r in LatestFull(db, p) <==> NewestFull(db, p, r)
  {
    var full := set q | q in TerminalRuns(db, p) && q.kind.Process?;
    assert forall q :: q in full <==> q in db.runs && q.pipeline == p && q.terminal && q.kind.Process?;
    assert r in LatestFull(db, p) <==> r in full && forall q :: q in full ==> !Newer(q, r);
  }

  lemma ReferredByMeans(db: Books, runs: set<RunRow>, a: Address)
    ensures a in ReferredBy(db, runs) <==> exists r :: r in runs && (r.id, a) in db.refs
  {
    if r :| r in runs && (r.id, a) in db.refs {
      assert (r.id, a).1 == a;
    }
  }

  lemma AnchorsMean(db: Books, live: set<Address>, a: Address)
    ensures a in Anchors(db, live) <==> a in live && Unrecorded(db, a)
  {
  }

  // ---------------------------------------------------------------------------
  // retention
  // ---------------------------------------------------------------------------

  /** The live addresses with rows in one pipeline's tables. */
  function LiveIn(rows: seq<LaneRow>, live: set<Address>, p: string): set<Address> {
    set row | row in rows && row.address in live && row.address.pipeline == p :: row.address
  }

  function Kept(db: Books, p: string, n: nat, anchors: set<Address>): set<Address> {
    ReferredBy(db, Recent(db, p, n)) + anchors + ReferredBy(db, LatestFull(db, p))
  }

  function Expired(db: Books, rows: seq<LaneRow>, live: set<Address>, p: string, n: nat): set<Address> {
    LiveIn(rows, live, p) - Kept(db, p, n, Anchors(db, live))
  }

  lemma ExpiredMeans(db: Books, rows: seq<LaneRow>, live: set<Address>, p: string, n: nat, a: Address)
    ensures a in Expired(db, rows, live, p, n) <==> a.pipeline == p && Outdated(db, rows, live, n, a)
  {
    hide Recent, LatestFull, ReferredBy, Anchors, TerminalRuns, LaterRuns, NewestFull, Unrecorded;
    AnchorsMean(db, live, a);
    ReferredByMeans(db, Recent(db, p, n), a);
    ReferredByMeans(db, LatestFull(db, p), a);
    forall r ensures r in LatestFull(db, p) <==> NewestFull(db, p, r) {
      LatestFullMeans(db, p, r);
    }
    forall r
      ensures r in Recent(db, p, n) <==>
                r in db.runs && r.pipeline == p && r.terminal && (r.kind.Process? || r.kind.Partial?) && |LaterRuns(db, r)| < n
    {
      RecentMeans(db, p, n, r);
      TerminalMeans(db, p, r);
    }
  }

  lemma TerminalMeans(db: Books, p: string, r: RunRow)
    ensures r in TerminalRuns(db, p) <==> r in db.runs && r.pipeline == p && r.terminal && (r.kind.Process? || r.kind.Partial?)
  {
  }

  /** What every policy together demotes. */
  function Retired(db: Books, rows: seq<LaneRow>, live: set<Address>, policies: map<string, nat>): set<Address> {
    set p, a | p in policies && a in Expired(db, rows, live, p, policies[p]) :: a
  }

  method RetentionDemote(db: Books, rows: seq<LaneRow>, live: set<Address>, policies: map<string, nat>)
    returns (demote: set<Address>)
    ensures demote == Retired(db, rows, live, policies)
    ensures forall a :: a in demote <==> OutOfDate(db, rows, live, policies, a)
  {
    hide Expired, OutOfDate;
    demote := {};
    var left := policies.Keys;
    while left != {}
      invariant left <= policies.Keys
      invariant demote == set p, a | p in policies && p !in left && a in Expired(db, rows, live, p, policies[p]) :: a
      decreases left
    {
      var p :| p in left;
      demote := demote + Expired(db, rows, live, p, policies[p]);
      left := left - {p};
    }
    forall a ensures a in Retired(db, rows, live, policies) <==> OutOfDate(db, rows, live, policies, a) {
      RetiredMeans(db, rows, live, policies, a);
    }
  }

  /** The policies demote exactly the addresses the policy of their pipeline gives up. */
  lemma RetiredMeans(db: Books, rows: seq<LaneRow>, live: set<Address>, policies: map<string, nat>, a: Address)
    ensures a in Retired(db, rows, live, policies) <==> OutOfDate(db, rows, live, policies, a)
  {
    hide Expired, Outdated;
    forall p | p in policies
      ensures a in Expired(db, rows, live, p, policies[p]) <==> a.pipeline == p && Outdated(db, rows, live, policies[p], a)
    {
      ExpiredMeans(db, rows, live, p, policies[p], a);
    }
  }

  /** No retention policy demotes an anchor, or anything the latest full run refers to. */
  lemma RetentionRespectsProtection(db: Books, rows: seq<LaneRow>, live: set<Address>, policies: map<string, nat>, a: Address)
    requires a in Retired(db, rows, live, policies)
    ensures a in live && !Protected(db, a)
  {
    hide Retired, Protected;
    RetiredMeans(db, rows, live, policies, a);
  }

  // ---------------------------------------------------------------------------
  // objects and the references to them
  // ---------------------------------------------------------------------------

  type Refs = map<Json, seq<(Address, bool)>>

  /** The references to one object among the first rows, each with its address's liveness. */
  function RefsTo(rows: seq<LaneRow>, live: set<Address>, object': Json): (refs: seq<(Address, bool)>)
    ensures forall x :: x in refs <==> exists row :: row in rows && row.output == Ref(object') && x == (row.address, row.address in live)
  {
    if rows == [] then []
    else
      var before, row := RefsTo(rows[..|rows| - 1], live, object'), rows[|rows| - 1];
      assert rows == rows[..|rows| - 1] + [row];
      if row.output == Ref(object') then before + [(row.address, row.address in live)] else before
  }

  /** The objects in order of their first reference. */
  function ObjectsOf(rows: seq<LaneRow>): (order: seq<Json>)
    ensures forall o :: o in order <==> exists row :: row in rows && row.output == Ref(o)
    ensures forall i, j :: 0 <= i < j < |order| ==> order[i] != order[j]
  {
    if rows == [] then []
    else
      var before, row := ObjectsOf(rows[..|rows| - 1]), rows[|rows| - 1];
      assert rows == rows[..|rows| - 1] + [row];
      if row.output.Ref? && row.output.v !in before then before + [row.output.v] else before
  }

  function Found(refs: Refs, o: Json): seq<(Address, bool)> {
    if o in refs then refs[o] else []
  }

  lemma FoundIs(refs: Refs)
    ensures forall o :: Found(refs, o) == if o in refs then refs[o] else []
  {
  }

  lemma FoundAfter(refs: Refs, o: Json, x: (Address, bool))
    ensures forall p :: Found(refs[o := Found(refs, o) + [x]], p) == Found(refs, p) + (if p == o then [x] else [])
  {
  }

  lemma NoReferences(live: set<Address>)
    ensures ObjectsOf([]) == [] && forall o :: RefsTo([], live, o) == []
  {
  }

  method CollectRefs(rows: seq<LaneRow>, live: set<Address>) returns (order: seq<Json>, refs: Refs)
    ensures order == ObjectsOf(rows)
    ensures (forall o :: o in refs <==> o in order) && forall o :: o in refs ==> refs[o] == RefsTo(rows, live, o)
  {
    hide ObjectsOf, RefsTo, Found;
    order, refs := [], map[];
    NoReferences(live);
    FoundIs(refs);
    for i := 0 to |rows|
      invariant order == ObjectsOf(rows[..i])
      invariant forall o :: o in refs <==> o in order
      invariant forall o :: Found(refs, o) == RefsTo(rows[..i], live, o)
    {
      OneMoreReference(rows, live, i);
      var row := rows[i];
      if row.output.Ref? {
        var o := row.output.v;
        if o !in refs {
          order := order + [o];
        }
        FoundAfter(refs, o, (row.address, row.address in live));
        refs := refs[o := Found(refs, o) + [(row.address, row.address in live)]];
      }
    }
    assert rows[..|rows|] == rows;
    FoundIs(refs);
  }

  lemma OneMoreReference(rows: seq<LaneRow>, live: set<Address>, n: nat)
    requires n < |rows|
    ensures var before, row := rows[..n], rows[n];
            ObjectsOf(rows[..n + 1]) == (if row.output.Ref? && row.output.v !in ObjectsOf(before)
                                         then ObjectsOf(before) + [row.output.v] else ObjectsOf(before))
            && forall o :: RefsTo(rows[..n + 1], live, o) == RefsTo(before, live, o)
                             + (if row.output == Ref(o) then [(row.address, row.address in live)] else [])
  {
    assert rows[..n + 1][..n] == rows[..n] && rows[..n + 1][n] == rows[n];
  }

  predicate StillLive(refs: seq<(Address, bool)>, demote: set<Address>) {
    exists x :: x in refs && x.1 && x.0 !in demote
  }

  /** Is every reference to this object non-live once the demotions are applied? */
  predicate Unreferenced(refs: Refs, sizes: map<Json, nat>, demote: set<Address>, o: Json) {
    o in refs && o in sizes && !StillLive(refs[o], demote)
  }

  /** The objects on disk that the demotions free. */
  function Reclaimable(order: seq<Json>, refs: Refs, sizes: map<Json, nat>, demote: set<Address>): (out: seq<Json>)
    ensures forall o :: o in out <==> o in order && Unreferenced(refs, sizes, demote, o)
  {
    if order == [] then []
    else
      var before, o := Reclaimable(order[..|order| - 1], refs, sizes, demote), order[|order| - 1];
      assert order == order[..|order| - 1] + [o];
      if Unreferenced(refs, sizes, demote, o) then before + [o] else before
  }

  /** An object on disk that some row refers to, and every such row is at an address that is not live, or demoted now. */
  ghost predicate Freed(rows: seq<LaneRow>, sizes: map<Json, nat>, live: set<Address>, demote: set<Address>, o: Json) {
    && o in sizes && (exists row :: row in rows && row.output == Ref(o))
    && forall row :: row in rows && row.output == Ref(o) ==> row.address !in live || row.address in demote
  }

  /** What is reclaimed are exactly the freed objects. */
  lemma ReclaimableMeans(rows: seq<LaneRow>, live: set<Address>, sizes: map<Json, nat>, demote: set<Address>, o: Json)
    ensures o in Reclaimable(ObjectsOf(rows), FoundIn(rows, live), sizes, demote) <==> Freed(rows, sizes, live, demote, o)
  {
    hide Reclaimable, ObjectsOf, RefsTo;
    if o in ObjectsOf(rows) {
      assert forall row :: row in rows && row.output == Ref(o) ==> (row.address, row.address in live) in RefsTo(rows, live, o);
    }
  }

  function Bytes(sizes: map<Json, nat>, objects: seq<Json>): nat {
    if objects == [] then 0
    else
      var o := objects[|objects| - 1];
      Bytes(sizes, objects[..|objects| - 1]) + (if o in sizes then sizes[o] else 0)
  }

  /** Demoting more never reclaims less, however objects are shared. */
  lemma {:induction false} ReclaimMonotone(order: seq<Json>, refs: Refs, sizes: map<Json, nat>, less: set<Address>, more: set<Address>)
    requires less <= more
    ensures forall o :: o in Reclaimable(order, refs, sizes, less) ==> o in Reclaimable(order, refs, sizes, more)
    ensures Bytes(sizes, Reclaimable(order, refs, sizes, less)) <= Bytes(sizes, Reclaimable(order, refs, sizes, more))
  {
    if order != [] {
      ReclaimMonotone(order[..|order| - 1], refs, sizes, less, more);
    }
  }

  /** The bytes of a set of objects. */
  ghost function Weight(sizes: map<Json, nat>, objects: set<Json>): nat
    requires objects <= sizes.Keys
    decreases objects
  {
    if objects == {} then 0 else var o :| o in objects; sizes[o] + Weight(sizes, objects - {o})
  }

  lemma {:induction false} WeightWithout(sizes: map<Json, nat>, objects: set<Json>, o: Json)
    requires o in objects && objects <= sizes.Keys
    ensures Weight(sizes, objects) == sizes[o] + Weight(sizes, objects - {o})
    decreases objects
  {
    var p :| p in objects && Weight(sizes, objects) == sizes[p] + Weight(sizes, objects - {p});
    if p != o {
      WeightWithout(sizes, objects - {p}, o);
      WeightWithout(sizes, objects - {o}, p);
      assert objects - {p} - {o} == objects - {o} - {p};
    }
  }

  /** Of these objects, the ones on disk that the demotions do not free. */
  ghost function Staying(order: seq<Json>, refs: Refs, sizes: map<Json, nat>, demote: set<Address>): (r: set<Json>)
    ensures r <= sizes.Keys
  {
    set o | o in order && o in sizes && !Unreferenced(refs, sizes, demote, o)
  }

  lemma {:induction false} StayingBytes(order: seq<Json>, refs: Refs, sizes: map<Json, nat>, demote: set<Address>)
    requires forall i, j :: 0 <= i < j < |order| ==> order[i] != order[j]
    ensures Bytes(sizes, order) - Bytes(sizes, Reclaimable(order, refs, sizes, demote))
         == Weight(sizes, Staying(order, refs, sizes, demote))
  {
    hide Unreferenced, Staying;
    if order == [] {
      assert Staying([], refs, sizes, demote) == {} by { NothingStays(refs, sizes, demote); }
    } else {
      var before, o := order[..|order| - 1], order[|order| - 1];
      StayingBytes(before, refs, sizes, demote);
      OneMoreStays(order, refs, sizes, demote);
    }
  }

  lemma NothingStays(refs: Refs, sizes: map<Json, nat>, demote: set<Address>)
    ensures Staying([], refs, sizes, demote) == {}
  {
  }

  lemma OneMoreStays(order: seq<Json>, refs: Refs, sizes: map<Json, nat>, demote: set<Address>)
    requires order != [] && forall i, j :: 0 <= i < j < |order| ==> order[i] != order[j]
    ensures var before, o := order[..|order| - 1], order[|order| - 1];
            Weight(sizes, Staying(order, refs, sizes, demote))
              == Weight(sizes, Staying(before, refs, sizes, demote))
                 + (if o in sizes && !Unreferenced(refs, sizes, demote, o) then sizes[o] else 0)
  {
    hide Unreferenced, Weight;
    var before, o := order[..|order| - 1], order[|order| - 1];
    assert order == before + [o];
    assert o !in before;
    var staying := Staying(order, refs, sizes, demote);
    if o in staying {
      assert staying - {o} == Staying(before, refs, sizes, demote);
      WeightWithout(sizes, staying, o);
    } else {
      assert staying == Staying(before, refs, sizes, demote);
    }
  }

  method ReclaimableObjects(order: seq<Json>, refs: Refs, sizes: map<Json, nat>, demote: set<Address>)
    returns (out: seq<Json>, bytes: nat)
    ensures out == Reclaimable(order, refs, sizes, demote) && bytes == Bytes(sizes, out)
  {
    out, bytes := [], 0;
    for i := 0 to |order|
      invariant out == Reclaimable(order[..i], refs, sizes, demote) && bytes == Bytes(sizes, out)
    {
      assert order[..i + 1][..i] == order[..i] && order[..i + 1][i] == order[i];
      var o := order[i];
      if o in refs && o in sizes {
        if !StillLive(refs[o], demote) {
          assert (out + [o])[..|out|] == out;
          out, bytes := out + [o], bytes + sizes[o];
        }
      }
    }
    assert order[..|order|] == order;
  }

  // ---------------------------------------------------------------------------
  // the byte budget
  // ---------------------------------------------------------------------------

  /** Would the store be within budget after these demotions? */
  predicate Fits(order: seq<Json>, refs: Refs, sizes: map<Json, nat>, max: nat, demote: set<Address>) {
    Bytes(sizes, order) - Bytes(sizes, Reclaimable(order, refs, sizes, demote)) <= max
  }

  /** The objects on disk that rows refer to and the demotions do not free. */
  ghost function Remaining(rows: seq<LaneRow>, sizes: map<Json, nat>, live: set<Address>, demote: set<Address>): (r: set<Json>)
    ensures r <= sizes.Keys
  {
    set o | o in sizes && (exists row :: row in rows && row.output == Ref(o)) && !Freed(rows, sizes, live, demote, o)
  }

  /** The store fits exactly if what remains of it is within the budget. */
  lemma FitsMeans(rows: seq<LaneRow>, live: set<Address>, sizes: map<Json, nat>, max: nat, demote: set<Address>)
    ensures var remaining := Weight(sizes, Remaining(rows, sizes, live, demote));
            Fits(ObjectsOf(rows), FoundIn(rows, live), sizes, max, demote) <==> remaining <= max
  {
    hide ObjectsOf, Reclaimable, FoundIn, Unreferenced, Freed, Weight;
    var order, refs := ObjectsOf(rows), FoundIn(rows, live);
    StayingBytes(order, refs, sizes, demote);
    forall o | o in order && o in sizes
      ensures Unreferenced(refs, sizes, demote, o) <==> Freed(rows, sizes, live, demote, o)
    {
      ReclaimableMeans(rows, live, sizes, demote, o);
    }
    assert Staying(order, refs, sizes, demote) == Remaining(rows, sizes, live, demote);
  }

  /** The latest start among the runs that refer to an address; -1 if there is none. */
  ghost predicate LastReferred(db: Books, a: Address, at: int) {
    && (forall x, r :: x in db.refs && r in db.runs && r.id == x.0 && x.1 == a ==> r.started <= at)
    && (at == -1 || exists x, r :: x in db.refs && r in db.runs && r.id == x.0 && x.1 == a && r.started == at)
  }

  /** What the budget may not demote, on top of the anchors. */
  function InUse(db: Books): set<Address> {
    set r, a | r in db.runs && r.terminal
            && a in ReferredBy(db, Recent(db, r.pipeline, 1)) + ReferredBy(db, LatestFull(db, r.pipeline)) :: a
  }

  function Candidates(db: Books, live: set<Address>, demoted: set<Address>): set<Address> {
    live - demoted - InUse(db) - Anchors(db, live)
  }

  lemma InUseMeans(db: Books, a: Address)
    ensures a in InUse(db) <==>
              exists r :: r in db.runs && r.terminal && (r.id, a) in db.refs
                && (NewestFull(db, r.pipeline, r) || (!r.kind.Other? && LaterRuns(db, r) == {}))
  {
    hide Recent, LatestFull, ReferredBy, LaterRuns;
    forall p ensures a in ReferredBy(db, Recent(db, p, 1)) <==> exists r :: r in Recent(db, p, 1) && (r.id, a) in db.refs {
      ReferredByMeans(db, Recent(db, p, 1), a);
    }
    forall p ensures a in ReferredBy(db, LatestFull(db, p)) <==> exists r :: r in LatestFull(db, p) && (r.id, a) in db.refs {
      ReferredByMeans(db, LatestFull(db, p), a);
    }
    forall p, r ensures r in LatestFull(db, p) <==> NewestFull(db, p, r) {
      LatestFullMeans(db, p, r);
    }
    forall p, r
      ensures r in Recent(db, p, 1) <==> r in db.runs && r.pipeline == p && r.terminal && !r.kind.Other? && LaterRuns(db, r) == {}
    {
      RecentMeans(db, p, 1, r);
    }
    if r :| r in db.runs && r.terminal && (r.id, a) in db.refs
            && (NewestFull(db, r.pipeline, r) || (!r.kind.Other? && LaterRuns(db, r) == {})) {
      assert a in ReferredBy(db, Recent(db, r.pipeline, 1)) + ReferredBy(db, LatestFull(db, r.pipeline));
    }
  }

  /** The candidates are exactly the live addresses, not demoted yet, that the budget may give up. */
  lemma CandidatesMean(db: Books, live: set<Address>, demoted: set<Address>, a: Address)
    ensures a in Candidates(db, live, demoted) <==> a in live && a !in demoted && Spare(db, a)
  {
    hide InUse, Anchors, NewestFull, LaterRuns, Unrecorded;
    InUseMeans(db, a);
    AnchorsMean(db, live, a);
  }

  /** Oldest last reference first; ties in the order of the addresses themselves. */
  predicate Before(at: map<Address, int>, rank: Address -> nat, a: Address, b: Address)
    requires a in at && b in at
  {
    at[a] < at[b] || (at[a] == at[b] && rank(a) < rank(b))
  }

  ghost predicate OldestFirst(at: map<Address, int>, rank: Address -> nat, list: seq<Address>) {
    && (forall a :: a in list ==> a in at)
    && (forall i, j :: 0 <= i < j < |list| ==> Before(at, rank, list[i], list[j]))
  }

  function SetOf(list: seq<Address>): set<Address> {
    set a | a in list
  }

  /** Sorted insertion. */
  function Placed(at: map<Address, int>, rank: Address -> nat, list: seq<Address>, a: Address): (r: seq<Address>)
    requires a in at && forall b :: b in list ==> b in at
    ensures forall b :: b in r <==> b in list || b == a
  {
    if list == [] || Before(at, rank, list[|list| - 1], a) then list + [a]
    else
      var last := list[|list| - 1];
      assert list == list[..|list| - 1] + [last];
      Placed(at, rank, list[..|list| - 1], a) + [last]
  }

  lemma {:induction false} PlacedInOrder(at: map<Address, int>, rank: Address -> nat, list: seq<Address>, a: Address)
    requires a in at && OldestFirst(at, rank, list) && a !in list
    requires forall b, c :: b in at && c in at && rank(b) == rank(c) ==> b == c
    ensures OldestFirst(at, rank, Placed(at, rank, list, a))
  {
    if list == [] || Before(at, rank, list[|list| - 1], a) {
    } else {
      var n := |list| - 1;
      PlacedInOrder(at, rank, list[..n], a);
      var r := Placed(at, rank, list[..n], a);
      forall i | 0 <= i < |r| ensures Before(at, rank, r[i], list[n]) {
        assert r[i] in r;
      }
    }
  }

  /** The candidates in the order they are given up. */
  method Sorted(candidates: set<Address>, at: map<Address, int>, rank: Address -> nat) returns (list: seq<Address>)
    requires at.Keys == candidates
    requires forall b, c :: b in at && c in at && rank(b) == rank(c) ==> b == c
    ensures OldestFirst(at, rank, list) && SetOf(list) == candidates
  {
    hide Before, OldestFirst;
    list := [];
    var left := candidates;
    assert OldestFirst(at, rank, []) by { NothingToOrder(at, rank); }
    while left != {}
      invariant left <= candidates && OldestFirst(at, rank, list)
      invariant forall a :: a in list <==> a in candidates && a !in left
      decreases left
    {
      var a :| a in left;
      PlacedInOrder(at, rank, list, a);
      list := Placed(at, rank, list, a);
      left := left - {a};
    }
  }

  lemma NothingToOrder(at: map<Address, int>, rank: Address -> nat)
    ensures OldestFirst(at, rank, [])
  {
  }

  /** The start of the run with this id. */
  function Starts(db: Books, id: nat): set<nat> {
    set r | r in db.runs && r.id == id :: r.started
  }

  /** When each address was last referred to. */
  method LastReferences(db: Books, addresses: set<Address>) returns (at: map<Address, int>)
    requires db.Valid()
    ensures at.Keys == addresses && forall a :: a in at ==> LastReferred(db, a, at[a])
  {
    hide LastReferred, Starts;
    at := map a | a in addresses :: -1;
    var left := db.refs;
    ghost var none: set<(nat, Address)> := {};
    forall a | a in at ensures LastReferred(db.(refs := none), a, at[a]) {
      NeverReferred(db, a);
    }
    assert db.refs - left == none;
    while left != {}
      invariant left <= db.refs && at.Keys == addresses
      invariant forall a :: a in at ==> LastReferred(db.(refs := db.refs - left), a, at[a])
      decreases left
    {
      var x :| x in left;
      ghost var done := db.refs - left;
      ghost var before := at;
      left := left - {x};
      assert db.refs - left == done + {x};
      var started := Starts(db, x.0);
      OneStart(db, x.0);
      if x.1 in at && started != {} {
        var s :| s in started;
        if s > at[x.1] {
          at := at[x.1 := s];
        }
      }
      forall a | a in at ensures LastReferred(db.(refs := done + {x}), a, at[a]) {
        OneMoreUse(db, done, x, a, before[a], at[a]);
      }
    }
    assert db.refs - left == db.refs;
    assert db.(refs := db.refs) == db;
  }

  lemma NeverReferred(db: Books, a: Address)
    ensures LastReferred(db.(refs := {}), a, -1)
  {
  }

  lemma OneStart(db: Books, id: nat)
    requires db.Valid()
    ensures forall s, t :: s in Starts(db, id) && t in Starts(db, id) ==> s == t
  {
  }

  lemma OneMoreUse(db: Books, done: set<(nat, Address)>, x: (nat, Address), a: Address, was: int, now: int)
    requires db.Valid() && LastReferred(db.(refs := done), a, was)
    requires if a == x.1 && exists s :: s in Starts(db, x.0) && s > was then now in Starts(db, x.0) else now == was
    ensures LastReferred(db.(refs := done + {x}), a, now)
  {
    var next := db.(refs := done + {x});
    assert forall r :: r in db.runs && r.id == x.0 ==> r.started in Starts(db, x.0);
    OneStart(db, x.0);
    if now != was {
      var r :| r in db.runs && r.id == x.0 && r.started == now;
      assert x in next.refs && r in next.runs;
    } else if was != -1 {
      var y, r :| y in done && r in db.runs && r.id == y.0 && y.1 == a && r.started == was;
      assert y in next.refs && r in next.runs;
    }
  }

  /**
   A set of candidates that is given up oldest first: every one it leaves out was last referred
   to later, or at the same time and comes later among the addresses.
   */
  ghost predicate OlderFirst(db: Books, rank: Address -> nat, candidates: set<Address>, some: set<Address>) {
    && some <= candidates
    && forall a, b, s, t :: a in some && b in candidates && b !in some && LastReferred(db, a, s) && LastReferred(db, b, t) ==>
         s < t || (s == t && rank(a) < rank(b))
  }

  /**
   The byte budget.  What it adds to the demotions are unprotected live addresses, oldest last
   reference first; on exit the store fits, or every candidate has been given up; and giving up
   any fewer of them, oldest first, would not have fitted.
   */
  method BudgetDemote(db: Books, live: set<Address>, demoted: set<Address>, order: seq<Json>, refs: Refs,
                      sizes: map<Json, nat>, max: nat, rank: Address -> nat)
    returns (added: set<Address>)
    requires db.Valid()
    requires forall b, c :: b in live && c in live && rank(b) == rank(c) ==> b == c
    ensures forall a :: a in added ==> a in live && a !in demoted && Spare(db, a) && !Protected(db, a)
    ensures OlderFirst(db, rank, Candidates(db, live, demoted), added)
    ensures Fits(order, refs, sizes, max, demoted + added) || added == Candidates(db, live, demoted)
    ensures forall fewer :: OlderFirst(db, rank, Candidates(db, live, demoted), fewer) && fewer < added ==>
              !Fits(order, refs, sizes, max, demoted + fewer)
  {
    hide Fits, LastReferred, OldestFirst, Candidates, Reclaimable, Bytes, SetOf, OlderFirst, Spare, Protected;
    var candidates := Candidates(db, live, demoted);
    assert candidates <= live by { CandidatesAreLive(db, live, demoted); }
    var at := LastReferences(db, candidates);
    var list := Sorted(candidates, at, rank);
    NothingAdded(demoted, list);
    PrefixIsOlderFirst(db, rank, at, list, 0);
    var fits := WithinBudget(order, refs, sizes, max, demoted);
    if fits {
      return {};
    }
    var demote := demoted;
    var i := 0;
    while i < |list|
      invariant i <= |list| && demote == demoted + SetOf(list[..i])
      invariant forall j :: 0 <= j <= i ==> !Fits(order, refs, sizes, max, demoted + SetOf(list[..j]))
    {
      OneMoreGiven(demoted, list, i);
      demote := demote + {list[i]};
      i := i + 1;
      fits := WithinBudget(order, refs, sizes, max, demote);
      if fits {
        break;
      }
    }
    added := demote - demoted;
    AddedOnly(db, live, demoted, list, i);
    assert list[..|list|] == list;
    PrefixIsOlderFirst(db, rank, at, list, i);
    AddedAreSpare(db, live, demoted, list, i);
    forall fewer | OlderFirst(db, rank, candidates, fewer) && fewer < added
      ensures !Fits(order, refs, sizes, max, demoted + fewer)
    {
      FewerIsShorter(db, rank, at, list, i, fewer);
    }
  }

  lemma LastReferredOnce(db: Books, a: Address, s: int, t: int)
    requires LastReferred(db, a, s) && LastReferred(db, a, t)
    ensures s == t
  {
  }

  /** What the sorted list gives up first is older than the rest. */
  lemma PrefixIsOlderFirst(db: Books, rank: Address -> nat, at: map<Address, int>, list: seq<Address>, k: nat)
    requires OldestFirst(at, rank, list) && k <= |list| && forall a :: a in at ==> LastReferred(db, a, at[a])
    ensures OlderFirst(db, rank, SetOf(list), SetOf(list[..k]))
  {
    hide LastReferred;
    assert forall a :: a in list[..k] ==> a in list;
    forall a, b, s, t | a in list[..k] && b in list && b !in list[..k] && LastReferred(db, a, s) && LastReferred(db, b, t)
      ensures s < t || (s == t && rank(a) < rank(b))
    {
      LastReferredOnce(db, a, s, at[a]);
      LastReferredOnce(db, b, t, at[b]);
      var i :| 0 <= i < k && list[..k][i] == a;
      var j :| 0 <= j < |list| && list[j] == b;
      assert j >= k;
      assert Before(at, rank, list[i], list[j]);
    }
  }

  /** Any other set given up oldest first is a prefix of the list, too; a smaller one is a shorter prefix. */
  lemma FewerIsShorter(db: Books, rank: Address -> nat, at: map<Address, int>, list: seq<Address>, k: nat, fewer: set<Address>)
    requires OldestFirst(at, rank, list) && k <= |list| && forall a :: a in at ==> LastReferred(db, a, at[a])
    requires OlderFirst(db, rank, SetOf(list), fewer) && fewer < SetOf(list[..k])
    ensures exists j :: 0 <= j < k && fewer == SetOf(list[..j])
  {
    hide LastReferred;
    var j := FirstKept(list, k, fewer);
    forall a | a in fewer ensures a in list[..j] {
      assert a in SetOf(list[..k]);
      var i :| 0 <= i < k && list[..k][i] == a;
      if i > j {
        YoungerIsKept(db, rank, at, list, fewer, j, i);
      }
      assert i < j;
      assert list[..j][i] == a;
    }
    assert fewer == SetOf(list[..j]);
  }

  /** The oldest address of the prefix that the smaller set leaves out. */
  lemma FirstKept(list: seq<Address>, k: nat, fewer: set<Address>) returns (j: nat)
    requires k <= |list| && fewer < SetOf(list[..k])
    ensures j < k && list[j] !in fewer && forall i :: 0 <= i < j ==> list[i] in fewer
  {
    j := 0;
    while j < k && list[j] in fewer
      invariant j <= k && forall i :: 0 <= i < j ==> list[i] in fewer
    {
      j := j + 1;
    }
    WholePrefix(list, k, fewer);
  }

  lemma WholePrefix(list: seq<Address>, k: nat, fewer: set<Address>)
    requires k <= |list|
    ensures (forall i :: 0 <= i < k ==> list[i] in fewer) ==> SetOf(list[..k]) <= fewer
  {
  }

  /** Behind an address that is kept, every address is kept. */
  lemma YoungerIsKept(db: Books, rank: Address -> nat, at: map<Address, int>, list: seq<Address>, fewer: set<Address>, j: nat, i: nat)
    requires OldestFirst(at, rank, list) && OlderFirst(db, rank, SetOf(list), fewer) && j < i < |list|
    requires (forall a :: a in at ==> LastReferred(db, a, at[a])) && list[j] !in fewer
    ensures list[i] !in fewer
  {
    hide LastReferred;
    assert Before(at, rank, list[j], list[i]);
    assert list[i] in SetOf(list) && list[j] in SetOf(list);
    assert LastReferred(db, list[i], at[list[i]]) && LastReferred(db, list[j], at[list[j]]);
  }

  method WithinBudget(order: seq<Json>, refs: Refs, sizes: map<Json, nat>, max: nat, demote: set<Address>) returns (fits: bool)
    ensures fits == Fits(order, refs, sizes, max, demote)
  {
    var _, reclaimed := ReclaimableObjects(order, refs, sizes, demote);
    var total := Bytes(sizes, order);
    fits := total - reclaimed <= max;
  }

  lemma CandidatesAreLive(db: Books, live: set<Address>, demoted: set<Address>)
    ensures Candidates(db, live, demoted) <= live && Candidates(db, live, demoted) !! demoted
  {
  }

  lemma NothingAdded(demoted: set<Address>, list: seq<Address>)
    ensures SetOf(list[..0]) == {} && demoted + SetOf(list[..0]) == demoted
  {
  }

  lemma OneMoreGiven(demoted: set<Address>, list: seq<Address>, n: nat)
    requires n < |list|
    ensures demoted + SetOf(list[..n + 1]) == demoted + SetOf(list[..n]) + {list[n]}
  {
    assert list[..n + 1] == list[..n] + [list[n]];
  }

  lemma AddedOnly(db: Books, live: set<Address>, demoted: set<Address>, list: seq<Address>, k: nat)
    requires SetOf(list) == Candidates(db, live, demoted) && k <= |list|
    ensures demoted + SetOf(list[..k]) - demoted == SetOf(list[..k])
  {
    CandidatesAreLive(db, live, demoted);
    hide Candidates;
    assert forall a :: a in SetOf(list[..k]) ==> a in SetOf(list);
  }

  lemma AddedAreSpare(db: Books, live: set<Address>, demoted: set<Address>, list: seq<Address>, k: nat)
    requires SetOf(list) == Candidates(db, live, demoted) && k <= |list|
    ensures forall a :: a in SetOf(list[..k]) ==> a in live && a !in demoted && Spare(db, a) && !Protected(db, a)
  {
    hide Candidates, Spare, Protected;
    forall a | a in SetOf(list[..k]) ensures a in live && a !in demoted && Spare(db, a) && !Protected(db, a) {
      assert a in SetOf(list);
      CandidatesMean(db, live, demoted, a);
      BudgetRespectsProtection(db, live, demoted, a);
    }
  }

  /** If giving up some set does not fit, neither does giving up any part of it. */
  lemma FewerNeverFit(order: seq<Json>, refs: Refs, sizes: map<Json, nat>, max: nat, some: set<Address>, part: set<Address>)
    requires !Fits(order, refs, sizes, max, some) && part <= some
    ensures !Fits(order, refs, sizes, max, part)
  {
    ReclaimMonotone(order, refs, sizes, part, some);
  }

  /** The budget, too, leaves anchors and the latest full runs alone. */
  lemma BudgetRespectsProtection(db: Books, live: set<Address>, demoted: set<Address>, a: Address)
    requires a in Candidates(db, live, demoted)
    ensures a in live && !Protected(db, a)
  {
    hide Candidates, LaterRuns, Unrecorded;
    CandidatesMean(db, live, demoted, a);
  }

  // ---------------------------------------------------------------------------
  // collecting
  // ---------------------------------------------------------------------------

  /** All rows of all tables, in any order. */
  ghost predicate AllRows(st: Store, rows: seq<LaneRow>) {
    forall row :: row in rows <==> exists k :: row in Rows(st, k)
  }

  /** No run is in flight: nothing is buffered. */
  ghost predicate Settled(st: Store) {
    && (forall k :: k in st.buffer ==> st.buffer[k] == [])
    && (forall k :: k in st.anchorBuffer ==> st.anchorBuffer[k] == [])
  }

  /** Sweeping what a plan reclaims is what the store's histories allow. */
  lemma PlannedSweepIsLegal(st: Store, rows: seq<LaneRow>, refs: Refs, sizes: map<Json, nat>, demote: set<Address>, swept: set<Json>)
    requires AllRows(st, rows) && Settled(st)
    requires forall o :: o in refs ==> refs[o] == RefsTo(rows, st.live, o)
    requires forall o :: o in swept ==> Unreferenced(refs, sizes, demote, o)
    ensures Legal(st, Collect(demote, swept))
  {
    forall v, a | v in swept && Referenced(st, a, v) ensures a !in st.live - demote {
      var row :| row in Rows(st, TableOf(a)) && row.address == a && row.output == Ref(v);
      assert row in rows;
      assert (a, a in st.live) in RefsTo(rows, st.live, v);
    }
  }

  /**
   The budget's part: oldest last reference first, no more than needed, and enough unless everything
   it may give up is gone.
   */
  ghost predicate GivenUp(db: Books, rank: Address -> nat, rows: seq<LaneRow>, sizes: map<Json, nat>, live: set<Address>,
                          max: nat, retired: set<Address>, added: set<Address>)
  {
    var spare := set a | a in live && a !in retired && Spare(db, a);
    && OlderFirst(db, rank, spare, added)
    && (Weight(sizes, Remaining(rows, sizes, live, retired + added)) <= max || added == spare)
    && forall fewer :: OlderFirst(db, rank, spare, fewer) && fewer < added ==>
         Weight(sizes, Remaining(rows, sizes, live, retired + fewer)) > max
  }

  /** What a collection is to demote and to delete. */
  ghost predicate Planned(db: Books, rank: Address -> nat, policies: map<string, nat>, max: Option<nat>, rows: seq<LaneRow>,
                          sizes: map<Json, nat>, live: set<Address>, demote: set<Address>, reclaimed: seq<Json>)
  {
    var retired := set a | a in live && OutOfDate(db, rows, live, policies, a);
    && retired <= demote <= live
    && (forall a :: a in demote ==> !Protected(db, a))
    && (if max.None? then demote == retired else GivenUp(db, rank, rows, sizes, live, max.value, retired, demote - retired))
    && (forall o :: o in reclaimed <==> Freed(rows, sizes, live, demote, o))
  }

  lemma RetiredIs(db: Books, rows: seq<LaneRow>, live: set<Address>, policies: map<string, nat>)
    ensures Retired(db, rows, live, policies) == set a | a in live && OutOfDate(db, rows, live, policies, a)
  {
    hide Retired, Protected, LaterRuns;
    forall a ensures a in Retired(db, rows, live, policies) <==> a in live && OutOfDate(db, rows, live, policies, a) {
      RetiredMeans(db, rows, live, policies, a);
    }
  }

  lemma BudgetGivesUp(db: Books, rank: Address -> nat, rows: seq<LaneRow>, sizes: map<Json, nat>, live: set<Address>,
                      max: nat, retired: set<Address>, added: set<Address>)
    requires var order, refs, candidates := ObjectsOf(rows), FoundIn(rows, live), Candidates(db, live, retired);
             && OlderFirst(db, rank, candidates, added)
             && (Fits(order, refs, sizes, max, retired + added) || added == candidates)
             && forall fewer :: OlderFirst(db, rank, candidates, fewer) && fewer < added ==>
                  !Fits(order, refs, sizes, max, retired + fewer)
    ensures GivenUp(db, rank, rows, sizes, live, max, retired, added)
  {
    hide Candidates, OlderFirst, Fits, ObjectsOf, FoundIn, Weight, Remaining, Spare;
    forall a ensures a in Candidates(db, live, retired) <==> a in live && a !in retired && Spare(db, a) {
      CandidatesMean(db, live, retired, a);
    }
    assert Candidates(db, live, retired) == set a | a in live && a !in retired && Spare(db, a);
    forall some: set<Address>
      ensures var remaining := Weight(sizes, Remaining(rows, sizes, live, retired + some));
              Fits(ObjectsOf(rows), FoundIn(rows, live), sizes, max, retired + some) <==> remaining <= max
    {
      FitsMeans(rows, live, sizes, max, retired + some);
    }
  }

  datatype Report = Report(applied: bool, refused: bool, demoted: set<Address>, reclaimed: seq<Json>)

  /** The objects gone after this many deletes. */
  function Deleted(reclaimed: seq<Json>, stop: nat): set<Json> {
    var gone := if stop <= |reclaimed| then reclaimed[..stop] else reclaimed;
    set o | o in gone
  }

  lemma NothingDeleted(reclaimed: seq<Json>)
    ensures Deleted(reclaimed, 0) == {}
  {
  }

  lemma OneMoreDeleted(reclaimed: seq<Json>, n: nat)
    requires n < |reclaimed|
    ensures Deleted(reclaimed, n + 1) == Deleted(reclaimed, n) + {reclaimed[n]}
  {
    assert reclaimed[..n + 1] == reclaimed[..n] + [reclaimed[n]];
  }

  lemma AllDeleted(reclaimed: seq<Json>, stop: nat)
    requires |reclaimed| <= stop
    ensures Deleted(reclaimed, stop) == Deleted(reclaimed, |reclaimed|)
  {
  }

  /** A collection that dies between two deletes is a legal one that deleted less. */
  lemma FewerDeletesAreLegal(st: Store, demote: set<Address>, reclaimed: seq<Json>, stop: nat)
    requires Legal(st, Collect(demote, set o | o in reclaimed))
    ensures Legal(st, Collect(demote, Deleted(reclaimed, stop)))
  {
    assert Deleted(reclaimed, stop) <= set o | o in reclaimed;
  }

  class Home {
    var store: Store
    var db: Books
    const spills: Json -> bool
    const rank: Address -> nat

    constructor (store: Store, db: Books, spills: Json -> bool, rank: Address -> nat)
      ensures this.store == store && this.db == db && this.spills == spills && this.rank == rank
    {
      this.store, this.db, this.spills, this.rank := store, db, spills, rank;
    }

    ghost predicate Valid()
      reads this
    {
      db.Valid() && forall b, c :: b in store.live && c in store.live && rank(b) == rank(c) ==> b == c
    }

    /** What a collection would do: the demotions, then the objects they free. */
    method Plan(policies: map<string, nat>, max: Option<nat>, rows: seq<LaneRow>, sizes: map<Json, nat>)
      returns (demote: set<Address>, reclaimed: seq<Json>)
      requires Valid() && AllRows(store, rows)
      ensures Planned(db, rank, policies, max, rows, sizes, store.live, demote, reclaimed)
      ensures Settled(store) ==> Legal(store, Collect(demote, set o | o in reclaimed))
    {
      hide Legal, Settled, Candidates, Protected, Retired, Fits, LastReferred, OlderFirst, ObjectsOf, RefsTo,
           AllRows, Unreferenced, Reclaimable, OutOfDate, GivenUp, Freed;
      demote := RetentionDemote(db, rows, store.live, policies);
      ghost var retired := demote;
      RetiredAreFree(db, rows, store.live, policies);
      RetiredIs(db, rows, store.live, policies);
      var order, refs := CollectRefs(rows, store.live);
      assert refs == FoundIn(rows, store.live);
      if max.Some? {
        var added := BudgetDemote(db, store.live, demote, order, refs, sizes, max.value, rank);
        AddedAreFree(db, store.live, demote, rank, added);
        BudgetGivesUp(db, rank, rows, sizes, store.live, max.value, demote, added);
        demote := demote + added;
        assert demote - retired == added;
      }
      var bytes;
      reclaimed, bytes := ReclaimableObjects(order, refs, sizes, demote);
      forall o ensures o in reclaimed <==> Freed(rows, sizes, store.live, demote, o) {
        ReclaimableMeans(rows, store.live, sizes, demote, o);
      }
      if Settled(store) {
        PlannedSweepIsLegal(store, rows, refs, sizes, demote, set o | o in reclaimed);
      }
    }

    /**
     Flip the demoted addresses, then delete the reclaimed objects one by one if the store allows it.
     The process may die after any number of deletes (`stop`); the flips are committed before the first.
     */
    method Perform(demote: set<Address>, reclaimed: seq<Json>, destructive: bool, stop: nat)
      modifies this`store
      ensures store == Apply(spills, old(store), Collect(demote, if destructive then Deleted(reclaimed, stop) else {}))
    {
      ghost var before := store;
      NothingDeleted(reclaimed);
      assert store.objects - {} == store.objects;
      store := store.(live := store.live - demote, clock := store.clock + 1);
      if destructive {
        for n := 0 to |reclaimed|
          invariant n <= stop && store == Apply(spills, before, Collect(demote, Deleted(reclaimed, n)))
        {
          if n == stop {
            return;
          }
          OneMoreDeleted(reclaimed, n);
          assert before.objects - Deleted(reclaimed, n) - {reclaimed[n]} == before.objects - Deleted(reclaimed, n + 1);
          store := store.(objects := store.objects - {reclaimed[n]});
        }
        AllDeleted(reclaimed, stop);
      }
    }

    /**
     The operator's collection.  It refuses while a run is in flight and on stores that must not
     delete; otherwise what it applies is a legal event of the store's history that demotes
     nothing protected, even if the process dies between two deletes.
     */
    method Gc(policies: map<string, nat>, max: Option<nat>, rows: seq<LaneRow>, sizes: map<Json, nat>,
              delete: bool, running: bool, destructive: bool, stop: nat)
      returns (report: Report)
      requires Valid() && AllRows(store, rows) && (!running ==> Settled(store))
      modifies this`store
      ensures delete && (running || !destructive) <==> report.refused
      ensures report.applied <==> delete && !running && destructive
      ensures !report.applied || (report.demoted == {} && report.reclaimed == []) ==> store == old(store)
      ensures !report.refused ==>
                Planned(db, rank, policies, max, rows, sizes, old(store).live, report.demoted, report.reclaimed)
      ensures report.applied && (report.demoted != {} || report.reclaimed != []) ==>
                var e := Collect(report.demoted, Deleted(report.reclaimed, stop));
                Legal(old(store), e) && store == Apply(spills, old(store), e)
      ensures forall a :: a in old(store).live && Protected(db, a) ==> a in store.live
    {
      hide Legal, Settled, Protected, AllRows, Valid, GivenUp, OutOfDate, Freed;
      if delete && (running || !destructive) {
        return Report(false, true, {}, []);
      }
      var demote, reclaimed := Plan(policies, max, rows, sizes);
      if delete && (demote != {} || reclaimed != []) {
        FewerDeletesAreLegal(store, demote, reclaimed, stop);
        Perform(demote, reclaimed, true, stop);
      }
      report := Report(delete, false, demote, reclaimed);
    }

    /** The end-of-run hook: one pipeline's policy, no budget, bytes only where the store allows it. */
    method AutoPrune(pipeline: string, retention: nat, rows: seq<LaneRow>, sizes: map<Json, nat>,
                     othersRunning: bool, destructive: bool, stop: nat)
      returns (report: Option<Report>)
      requires Valid() && AllRows(store, rows) && (!othersRunning ==> Settled(store))
      modifies this`store
      ensures othersRunning <==> report.None?
      ensures report.None? ==> store == old(store)
      ensures report.Some? ==>
                && (forall a :: a in report.value.demoted <==>
                      a in old(store).live && OutOfDate(db, rows, old(store).live, map[pipeline := retention], a))
                && (forall o :: o in report.value.reclaimed <==>
                      destructive && Freed(rows, sizes, old(store).live, report.value.demoted, o))
                && ((report.value.demoted == {} && report.value.reclaimed == [] && store == old(store))
                    || (var e := Collect(report.value.demoted, Deleted(report.value.reclaimed, stop));
                        Legal(old(store), e) && store == Apply(spills, old(store), e)))
      ensures forall a :: a in old(store).live && Protected(db, a) ==> a in store.live
    {
      hide Settled, Protected, AllRows, Valid, GivenUp, OutOfDate, Freed;
      if othersRunning {
        return None;
      }
      var demote, reclaimed := Plan(map[pipeline := retention], None, rows, sizes);
      if !destructive {
        reclaimed := [];
      }
      if demote != {} || reclaimed != [] {
        FewerDeletesAreLegal(store, demote, reclaimed, stop);
        Perform(demote, reclaimed, true, stop);
      }
      report := Some(Report(true, false, demote, reclaimed));
    }
  }

  ghost function FoundIn(rows: seq<LaneRow>, live: set<Address>): Refs {
    map o | o in ObjectsOf(rows) :: RefsTo(rows, live, o)
  }

  lemma RetiredAreFree(db: Books, rows: seq<LaneRow>, live: set<Address>, policies: map<string, nat>)
    ensures Retired(db, rows, live, policies) <= live
    ensures forall a :: a in Retired(db, rows, live, policies) ==> !Protected(db, a)
  {
    hide Retired, Protected;
    forall a | a in Retired(db, rows, live, policies) ensures a in live && !Protected(db, a) {
      RetentionRespectsProtection(db, rows, live, policies, a);
    }
  }

  lemma AddedAreFree(db: Books, live: set<Address>, demoted: set<Address>, rank: Address -> nat, added: set<Address>)
    requires OlderFirst(db, rank, Candidates(db, live, demoted), added)
    ensures added <= live && added !! demoted
    ensures forall a :: a in added ==> !Protected(db, a)
  {
    hide Candidates, Protected;
    CandidatesAreLive(db, live, demoted);
    forall a | a in added ensures a in live && !Protected(db, a) {
      BudgetRespectsProtection(db, live, demoted, a);
    }
  }
}
