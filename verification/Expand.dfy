/**
 Expand steps: fanning a generator's payloads out into lanes, and replaying the fan-out from
 its anchor.
 */
module Expand {
  import opened Model
  import opened Meaning
  import opened Ledger
  import opened History
  import opened Planning

  // ---------------------------------------------------------------------------
  // fanning out
  // ---------------------------------------------------------------------------

  datatype Child = Child(h: Hash, payload: Json)

  datatype FanOut = FannedOut(children: seq<Child>) | NotARow | MissingKey | DuplicateKey

  function HashesOf(children: seq<Child>): (hs: seq<Hash>)
    ensures |hs| == |children| && forall i :: 0 <= i < |hs| ==> hs[i] == children[i].h
  {
    if children == [] then [] else HashesOf(children[..|children| - 1]) + [children[|children| - 1].h]
  }

  /** A payload's key, where the step names a key field. */
  function KeyOf(field: string, payload: Json): Option<Json> {
    if payload.Obj? && field in payload.fields && payload.fields[field] != Null then Some(payload.fields[field]) else None
  }

  /** Without a key field: one lane per distinct payload, in the order of first yield. */
  method FanOutByContent(payloads: seq<Json>) returns (children: seq<Child>)
    ensures HashesOf(children) == ChildHashes(payloads)
    ensures forall child :: child in children ==> child.h == ChildHash(child.payload) && child.payload in payloads
  {
    hide ChildHashes, HashesOf;
    var seen: set<Hash> := {};
    children := [];
    NothingYielded();
    for i := 0 to |payloads|
      invariant HashesOf(children) == ChildHashes(payloads[..i])
      invariant seen == set h | h in HashesOf(children)
      invariant forall child :: child in children ==> child.h == ChildHash(child.payload) && child.payload in payloads
    {
      OneMoreYield(payloads, i);
      var h := ChildHash(payloads[i]);
      if h !in seen {
        OneMoreChild(children, Child(h, payloads[i]));
        children := children + [Child(h, payloads[i])];
        seen := seen + {h};
      }
    }
    assert payloads[..|payloads|] == payloads;
  }

  lemma NothingYielded()
    ensures HashesOf([]) == [] && ChildHashes([]) == []
  {
  }

  lemma OneMoreYield(payloads: seq<Json>, n: nat)
    requires n < |payloads|
    ensures var before, h := ChildHashes(payloads[..n]), ChildHash(payloads[n]);
            ChildHashes(payloads[..n + 1]) == if h in before then before else before + [h]
  {
    assert payloads[..n + 1][..n] == payloads[..n] && payloads[..n + 1][n] == payloads[n];
  }

  lemma OneMoreChild(children: seq<Child>, child: Child)
    ensures HashesOf(children + [child]) == HashesOf(children) + [child.h]
  {
    assert (children + [child])[..|children|] == children;
  }

  predicate Keyed(field: string, payloads: seq<Json>) {
    forall i :: 0 <= i < |payloads| ==> KeyOf(field, payloads[i]).Some?
  }

  predicate DistinctKeys(field: string, payloads: seq<Json>)
    requires Keyed(field, payloads)
  {
    forall i, j :: 0 <= i < j < |payloads| ==> KeyOf(field, payloads[i]) != KeyOf(field, payloads[j])
  }

  /** With a key field: one lane per payload, named by its key; a missing or repeated key is an error. */
  method FanOutByKey(field: string, payloads: seq<Json>) returns (result: FanOut)
    ensures result.FannedOut? <==> Keyed(field, payloads) && DistinctKeys(field, payloads)
    ensures result.FannedOut? ==>
              |result.children| == |payloads|
              && forall i :: 0 <= i < |payloads| ==>
                   result.children[i] == Child(ChildHash(KeyOf(field, payloads[i]).value), payloads[i])
  {
    var seen: set<Hash> := {};
    var children: seq<Child> := [];
    for i := 0 to |payloads|
      invariant Keyed(field, payloads[..i]) && DistinctKeys(field, payloads[..i])
      invariant |children| == i && forall j :: 0 <= j < i ==>
                  children[j] == Child(ChildHash(KeyOf(field, payloads[j]).value), payloads[j])
      invariant forall h :: h in seen <==> exists j :: 0 <= j < i && h == ChildHash(KeyOf(field, payloads[j]).value)
    {
      var payload := payloads[i];
      if !payload.Obj? {
        return NotARow;
      }
      if field !in payload.fields || payload.fields[field] == Null {
        return MissingKey;
      }
      var h := ChildHash(payload.fields[field]);
      if h in seen {
        return DuplicateKey;
      }
      assert payloads[..i + 1] == payloads[..i] + [payload];
      children := children + [Child(h, payload)];
      seen := seen + {h};
    }
    assert payloads[..|payloads|] == payloads;
    return FannedOut(children);
  }

  // ---------------------------------------------------------------------------
  // planning one lane of an expand step
  // ---------------------------------------------------------------------------

  datatype Decision = Execute | Reuse(coord: Coord, address: Address, row: LaneRow)

  /** The reuse decisions for a list of children, all of them hits. */
  function Replays(st: Store, pipe: string, code: Code, children: seq<Hash>): (ds: seq<Decision>)
    requires forall h :: h in children ==> Hit(st, ChildAddress(pipe, code, h)).Some?
    ensures |ds| == |children|
    ensures forall i :: 0 <= i < |ds| ==>
              ds[i] == Reuse(Row(children[i]), ChildAddress(pipe, code, children[i]), Hit(st, ChildAddress(pipe, code, children[i])).value)
  {
    if children == [] then []
    else
      var n := |children| - 1;
      assert children[n] in children;
      Replays(st, pipe, code, children[..n])
      + [Reuse(Row(children[n]), ChildAddress(pipe, code, children[n]), Hit(st, ChildAddress(pipe, code, children[n])).value)]
  }

  /** What planning makes of one lane; it can also raise, and then nothing at all is planned. */
  datatype Planned = Decided(decisions: seq<Decision>) | Raises

  ghost function LanePlanned(st: Store, p: Planner, code: Code, anchor: Address, force: bool): Planned {
    var replayed := ReplayedChildren(st, p, code, anchor);
    if force then Decided([Execute])
    else if ListingAt(st, p, anchor).Unlistable? then Raises
    else if replayed.None? then Decided([Execute])
    else (ReplayedAreLive(st, p, code, anchor); Decided(Replays(st, p.pipe, code, replayed.value)))
  }

  /**
   Planning a lane: replay every child that is listed at the anchor's address, if each of them is a
   hit, or run the generator; never anything in between.  Whatever the lookup serves there is
   taken for the list.
   */
  method PlanLane(st: Store, p: Planner, code: Code, anchor: Address, force: bool) returns (planned: Planned)
    ensures planned == LanePlanned(st, p, code, anchor, force)
  {
    hide Hit, AnchorHit, ListingAt;
    if force {
      return Decided([Execute]);
    }
    var listing := ListingAt(st, p, anchor);
    if listing.NoListing? {
      return Decided([Execute]);
    }
    if listing.Unlistable? {
      return Raises;
    }
    var items := listing.items;
    var decisions: seq<Decision> := [];
    ghost var children: seq<Hash> := [];
    for i := 0 to |items|
      invariant |children| == i && forall j :: 0 <= j < i ==>
                  LiveChild(st, p.pipe, code, items[j]) && children[j] == items[j].value
      invariant forall h :: h in children ==> Hit(st, ChildAddress(p.pipe, code, h)).Some?
      invariant decisions == Replays(st, p.pipe, code, children)
    {
      if items[i].None? {
        assert !LiveChild(st, p.pipe, code, items[i]);
        return Decided([Execute]);
      }
      var a := ChildAddress(p.pipe, code, items[i].value);
      var hit := Hit(st, a);
      if hit.None? {
        assert !LiveChild(st, p.pipe, code, items[i]);
        return Decided([Execute]);
      }
      decisions := decisions + [Reuse(Row(items[i].value), a, hit.value)];
      children := children + [items[i].value];
    }
    assert ReplayedChildren(st, p, code, anchor).value == children;
    return Decided(decisions);
  }

  /** Values that Python takes for false. */
  predicate Falsy(v: Json) {
    v == Null || v == Bool(false) || v == Int(0) || v == Str("") || v == Arr([]) || v == Obj(map[])
  }

  /** Values that are neither false nor can be iterated. */
  predicate Uniterable(v: Json) {
    v == Bool(true) || (v.Int? && v.n != 0)
  }

  /** Iterating an object goes through all its keys. */
  ghost predicate KeysListed(p: Planner, v: Json) {
    v.Obj? ==> forall k :: k in v.fields <==> k in p.keys(v.fields)
  }

  lemma IteratedKinds(p: Planner, v: Json)
    requires KeysListed(p, v)
    ensures Iterated(p, v) == Listed([]) <==> Falsy(v)
    ensures Iterated(p, v).Unlistable? <==> Uniterable(v)
    ensures !Iterated(p, v).NoListing?
  {
    if v.Obj? && v.fields != map[] {
      var k :| k in v.fields;
      assert k in p.keys(v.fields);
    }
  }

  /**
   What a lane row at the anchor's address makes of the lane, by its value: nothing at all is planned
   exactly for the values Python takes for false, the whole plan raises exactly for the other numbers
   and true, and the rest is executed, unless every item or key spells the hash of a live child, in
   which case those are replayed instead.
   */
  lemma LaneRowAtAnchor(st: Store, p: Planner, code: Code, anchor: Address)
    requires Hit(st, anchor).Some? && KeysListed(p, RowValue(st, Hit(st, anchor).value))
    ensures var v, planned := RowValue(st, Hit(st, anchor).value), LanePlanned(st, p, code, anchor, false);
            && (planned == Decided([]) <==> Falsy(v))
            && (planned == Raises <==> Uniterable(v))
            && (planned == Decided([Execute]) <==>
                 !Falsy(v) && !Uniterable(v)
                 && exists item :: item in Iterated(p, v).items && !LiveChild(st, p.pipe, code, item))
  {
    hide Hit, Iterated, LiveChild, KeysListed;
    var v := RowValue(st, Hit(st, anchor).value);
    IteratedKinds(p, v);
    assert ListingAt(st, p, anchor) == Iterated(p, v);
    var replayed := ReplayedChildren(st, p, code, anchor);
    if Iterated(p, v).Listed? {
      var items := Iterated(p, v).items;
      if item :| item in items && !LiveChild(st, p.pipe, code, item) {
        var i :| 0 <= i < |items| && items[i] == item;
        assert replayed.None?;
      } else {
        assert forall i :: 0 <= i < |items| ==> items[i] in items;
        assert replayed.Some? && |replayed.value| == |items|;
        ReplayedAreLive(st, p, code, anchor);
        ReplaysAreNoExecution(st, p.pipe, code, replayed.value);
      }
    }
  }

  lemma ReplaysAreNoExecution(st: Store, pipe: string, code: Code, children: seq<Hash>)
    requires forall h :: h in children ==> Hit(st, ChildAddress(pipe, code, h)).Some?
    ensures Replays(st, pipe, code, children) != [Execute]
    ensures Replays(st, pipe, code, children) == [] <==> children == []
  {
    hide Hit, Replays;
    var ds := Replays(st, pipe, code, children);
    if |ds| == 1 {
      assert ds[0].Reuse?;
    }
  }

  /** Two lists of children with the same replay are the same list. */
  lemma SameReplays(st: Store, pipe: string, code: Code, children: seq<Hash>, others: seq<Hash>)
    requires forall h :: h in children ==> Hit(st, ChildAddress(pipe, code, h)).Some?
    requires forall h :: h in others ==> Hit(st, ChildAddress(pipe, code, h)).Some?
    requires Replays(st, pipe, code, children) == Replays(st, pipe, code, others)
    ensures children == others
  {
    hide Hit, Replays;
    var ds := Replays(st, pipe, code, children);
    forall i | 0 <= i < |children| ensures children[i] == others[i] {
      assert ds[i].coord == Row(children[i]) && ds[i].coord == Row(others[i]);
    }
  }

  // ---------------------------------------------------------------------------
  // replaying what was executed
  // ---------------------------------------------------------------------------

  /** The commits of one executed fan-out: the anchor, then its children. */
  function Commits(pipe: string, code: Code, anchor: Address, children: seq<Child>): seq<Event> {
    [CommitAnchor(anchor, HashesOf(children))] + ChildCommits(pipe, code, children)
  }

  function ChildCommits(pipe: string, code: Code, children: seq<Child>): (h: seq<Event>)
    ensures |h| == |children|
  {
    if children == [] then []
    else
      var last := children[|children| - 1];
      ChildCommits(pipe, code, children[..|children| - 1]) + [Commit(ChildAddress(pipe, code, last.h), Ok(last.payload))]
  }

  predicate DistinctHashes(children: seq<Child>) {
    forall i, j :: 0 <= i < j < |children| ==> children[i].h != children[j].h
  }

  /** The row served for a child carries its payload. */
  ghost predicate Served(spills: Json -> bool, st: Store, pipe: string, code: Code, child: Child) {
    var hit := Hit(st, ChildAddress(pipe, code, child.h));
    hit.Some? && hit.value.identity == Ident(spills, child.payload)
  }

  lemma ServedAfterCommit(spills: Json -> bool, st: Store, pipe: string, code: Code, child: Child)
    ensures Served(spills, Apply(spills, st, Commit(ChildAddress(pipe, code, child.h), Ok(child.payload))), pipe, code, child)
  {
    hide LatestRow;
    LatestAfterCommit(spills, st, ChildAddress(pipe, code, child.h), Ok(child.payload));
  }

  lemma ServedElsewhere(spills: Json -> bool, st: Store, pipe: string, code: Code, child: Child, e: Event)
    requires Served(spills, st, pipe, code, child)
    requires (e.Commit? && e.address != ChildAddress(pipe, code, child.h)) || e.CommitAnchor? || e.Flush? || e.FlushAnchors?
    ensures Served(spills, Apply(spills, st, e), pipe, code, child)
  {
    hide LatestRow;
    LatestUnchanged(spills, st, e, ChildAddress(pipe, code, child.h));
  }

  lemma DifferentChild(pipe: string, code: Code, children: seq<Child>, i: nat, j: nat)
    requires DistinctHashes(children) && i < |children| && j < |children| && i != j
    ensures ChildAddress(pipe, code, children[i].h) != ChildAddress(pipe, code, children[j].h)
  {
  }

  lemma {:induction false} AllServed(spills: Json -> bool, st: Store, pipe: string, code: Code, children: seq<Child>)
    requires DistinctHashes(children)
    ensures var after := Replay(spills, st, ChildCommits(pipe, code, children));
            forall child :: child in children ==> Served(spills, after, pipe, code, child)
  {
    hide Served, Apply;
    if children != [] {
      var n := |children| - 1;
      var before := ChildCommits(pipe, code, children[..n]);
      var e := Commit(ChildAddress(pipe, code, children[n].h), Ok(children[n].payload));
      AllServed(spills, st, pipe, code, children[..n]);
      ReplayAppend(spills, st, before, e);
      ServedAfterCommit(spills, Replay(spills, st, before), pipe, code, children[n]);
      forall child | child in children
        ensures Served(spills, Replay(spills, st, before + [e]), pipe, code, child)
      {
        if child != children[n] {
          var i :| 0 <= i < |children| && children[i] == child;
          assert children[..n][i] == child && child in children[..n];
          DifferentChild(pipe, code, children, i, n);
          ServedElsewhere(spills, Replay(spills, st, before), pipe, code, child, e);
        }
      }
    }
  }

  /** The anchors of a table as lookups see them, apart from liveness. */
  ghost predicate AnchorsSame(st: Store, st': Store, a: Address) {
    && Table(st'.anchorDisk, TableOf(a)) == Table(st.anchorDisk, TableOf(a))
    && Table(st'.anchorBuffer, TableOf(a)) == Table(st.anchorBuffer, TableOf(a))
    && LatestRow(st', a) == LatestRow(st, a)
    && (a in st.live ==> a in st'.live)
  }

  lemma ChildCommitKeepsAnchors(spills: Json -> bool, st: Store, c: Address, payload: Json, a: Address)
    requires c != a
    ensures AnchorsSame(st, Apply(spills, st, Commit(c, Ok(payload))), a)
  {
    hide LatestRow, AlreadyLive, RowFor;
    LatestUnchanged(spills, st, Commit(c, Ok(payload)), a);
  }

  lemma {:induction false} ChildCommitsKeepAnchors(spills: Json -> bool, st: Store, pipe: string, code: Code, children: seq<Child>, a: Address)
    requires forall child :: child in children ==> ChildAddress(pipe, code, child.h) != a
    ensures AnchorsSame(st, Replay(spills, st, ChildCommits(pipe, code, children)), a)
  {
    hide Apply, LatestRow;
    if children != [] {
      var n := |children| - 1;
      var before := ChildCommits(pipe, code, children[..n]);
      var c := ChildAddress(pipe, code, children[n].h);
      assert children[n] in children;
      ChildCommitsKeepAnchors(spills, st, pipe, code, children[..n], a);
      ReplayAppend(spills, st, before, Commit(c, Ok(children[n].payload)));
      ChildCommitKeepsAnchors(spills, Replay(spills, st, before), c, children[n].payload, a);
    }
  }

  /** The newest anchor, counting the file and then the buffer. */
  ghost predicate AnchorIs(st: Store, a: Address, hs: seq<Hash>) {
    var k := TableOf(a);
    var newest := LastAnchor(Table(st.anchorDisk, k) + Table(st.anchorBuffer, k), a);
    newest.Some? && newest.value.children == hs && a in st.live && LatestRow(st, a).None?
  }

  lemma AnchorCommitSets(spills: Json -> bool, st: Store, a: Address, hs: seq<Hash>)
    requires LatestRow(st, a).None? && LastAnchor(Table(st.anchorBuffer, TableOf(a)), a).None?
    ensures AnchorIs(Apply(spills, st, CommitAnchor(a, hs)), a, hs)
  {
    var k := TableOf(a);
    var next := Apply(spills, st, CommitAnchor(a, hs));
    var onDisk, buffered := Table(st.anchorDisk, k), Table(st.anchorBuffer, k);
    LatestUnchanged(spills, st, CommitAnchor(a, hs), a);
    LastAnchorConcat(onDisk, Table(next.anchorBuffer, k), a);
    if AnchorHit(st, a) != Some(hs) {
      LastAnchorAppend(buffered, AnchorRow(a, hs, st.clock), a);
    }
  }

  lemma LaneFlushKeepsAnchor(spills: Json -> bool, st: Store, a: Address, hs: seq<Hash>, k: TableKey)
    requires AnchorIs(st, a, hs)
    ensures AnchorIs(Apply(spills, st, Flush(k)), a, hs)
  {
    hide LatestRow, LastAnchor;
    LatestUnchanged(spills, st, Flush(k), a);
  }

  lemma FlushedAnchorHits(spills: Json -> bool, st: Store, a: Address, hs: seq<Hash>)
    requires AnchorIs(st, a, hs)
    ensures AnchorHit(Apply(spills, st, FlushAnchors(TableOf(a))), a) == Some(hs)
  {
    hide LatestRow, LastAnchor;
    LatestUnchanged(spills, st, FlushAnchors(TableOf(a)), a);
    NothingBuffered(a);
  }

  lemma NothingBuffered(a: Address)
    ensures LastAnchor([], a).None?
  {
  }

  /** Flushing a step: the lane file, then the anchor file. */
  function Flushes(pipe: string, code: Code): seq<Event> {
    [Flush((pipe, code.step)), FlushAnchors((pipe, code.step))]
  }

  /** The store after an executed fan-out has been committed and flushed. */
  function AfterFanOut(spills: Json -> bool, st: Store, pipe: string, code: Code, anchor: Address, children: seq<Child>): Store {
    Replay(spills, st, Commits(pipe, code, anchor, children) + Flushes(pipe, code))
  }

  lemma FanOutSteps(spills: Json -> bool, st: Store, pipe: string, code: Code, anchor: Address, children: seq<Child>)
    ensures var st1 := Apply(spills, st, CommitAnchor(anchor, HashesOf(children)));
            var st2 := Replay(spills, st1, ChildCommits(pipe, code, children));
            AfterFanOut(spills, st, pipe, code, anchor, children)
              == Apply(spills, Apply(spills, st2, Flush((pipe, code.step))), FlushAnchors((pipe, code.step)))
  {
    hide Apply;
    var e, all := CommitAnchor(anchor, HashesOf(children)), Commits(pipe, code, anchor, children);
    ReplayOne(spills, st, e);
    ReplayConcat(spills, st, [e], ChildCommits(pipe, code, children));
    ReplayAppend(spills, st, all, Flush((pipe, code.step)));
    ReplayAppend(spills, st, all + [Flush((pipe, code.step))], FlushAnchors((pipe, code.step)));
    assert all + Flushes(pipe, code) == all + [Flush((pipe, code.step))] + [FlushAnchors((pipe, code.step))];
  }

  lemma ServedAfterFanOut(spills: Json -> bool, st: Store, pipe: string, code: Code, anchor: Address, children: seq<Child>)
    requires DistinctHashes(children)
    ensures forall child :: child in children ==> Served(spills, AfterFanOut(spills, st, pipe, code, anchor, children), pipe, code, child)
  {
    hide Apply, Served, AfterFanOut, Replay;
    var st1 := Apply(spills, st, CommitAnchor(anchor, HashesOf(children)));
    var st2 := Replay(spills, st1, ChildCommits(pipe, code, children));
    AllServed(spills, st1, pipe, code, children);
    FanOutSteps(spills, st, pipe, code, anchor, children);
    forall child | child in children
      ensures Served(spills, AfterFanOut(spills, st, pipe, code, anchor, children), pipe, code, child)
    {
      ServedElsewhere(spills, st2, pipe, code, child, Flush((pipe, code.step)));
      ServedElsewhere(spills, Apply(spills, st2, Flush((pipe, code.step))), pipe, code, child, FlushAnchors((pipe, code.step)));
    }
  }

  /** An anchor goes where no lane row and no unflushed anchor is. */
  ghost predicate SpotFree(st: Store, anchor: Address) {
    LatestRow(st, anchor).None? && LastAnchor(Table(st.anchorBuffer, TableOf(anchor)), anchor).None?
  }

  /** One of the children has its lane at the anchor's own address. */
  predicate Shadowed(pipe: string, code: Code, anchor: Address, children: seq<Child>) {
    exists child :: child in children && ChildAddress(pipe, code, child.h) == anchor
  }

  lemma AnchorAfterFanOut(spills: Json -> bool, st: Store, pipe: string, code: Code, anchor: Address, children: seq<Child>)
    requires TableOf(anchor) == (pipe, code.step) && SpotFree(st, anchor) && !Shadowed(pipe, code, anchor, children)
    ensures AnchorHit(AfterFanOut(spills, st, pipe, code, anchor, children), anchor) == Some(HashesOf(children))
  {
    hide Apply, LatestRow, LastAnchor, AnchorHit, AfterFanOut, Replay, HashesOf;
    var hs := HashesOf(children);
    var st1 := Apply(spills, st, CommitAnchor(anchor, hs));
    AnchorCommitSets(spills, st, anchor, hs);
    ChildCommitsKeepAnchors(spills, st1, pipe, code, children, anchor);
    var st2 := Replay(spills, st1, ChildCommits(pipe, code, children));
    LaneFlushKeepsAnchor(spills, st2, anchor, hs, (pipe, code.step));
    FlushedAnchorHits(spills, Apply(spills, st2, Flush((pipe, code.step))), anchor, hs);
    FanOutSteps(spills, st, pipe, code, anchor, children);
  }

  /** The row served at an address holds this value, and the value can be read. */
  ghost predicate Shows(spills: Json -> bool, st: Store, a: Address, v: Json) {
    var hit := Hit(st, a);
    hit.Some? && hit.value.output == Form(spills, v) && (spills(v) ==> v in st.objects)
  }

  lemma ShowsAfterCommit(spills: Json -> bool, st: Store, a: Address, v: Json)
    requires LatestRow(st, a).None?
    ensures Shows(spills, Apply(spills, st, Commit(a, Ok(v))), a, v)
  {
    hide LatestRow;
    LatestAfterCommit(spills, st, a, Ok(v));
  }

  lemma ShowsElsewhere(spills: Json -> bool, st: Store, a: Address, v: Json, e: Event)
    requires Shows(spills, st, a, v)
    requires (e.Commit? && e.address != a) || e.Flush? || e.FlushAnchors?
    ensures Shows(spills, Apply(spills, st, e), a, v)
  {
    hide LatestRow, AlreadyLive, RowFor;
    LatestUnchanged(spills, st, e, a);
  }

  lemma {:induction false} ChildShows(spills: Json -> bool, st: Store, pipe: string, code: Code, children: seq<Child>, m: nat)
    requires DistinctHashes(children) && m < |children| && LatestRow(st, ChildAddress(pipe, code, children[m].h)).None?
    ensures Shows(spills, Replay(spills, st, ChildCommits(pipe, code, children)),
                  ChildAddress(pipe, code, children[m].h), children[m].payload)
  {
    hide Shows, Apply, LatestRow;
    var n := |children| - 1;
    var a, before := ChildAddress(pipe, code, children[m].h), ChildCommits(pipe, code, children[..n]);
    var e := Commit(ChildAddress(pipe, code, children[n].h), Ok(children[n].payload));
    ReplayAppend(spills, st, before, e);
    if m < n {
      ChildShows(spills, st, pipe, code, children[..n], m);
      DifferentChild(pipe, code, children, n, m);
      ShowsElsewhere(spills, Replay(spills, st, before), a, children[m].payload, e);
    } else {
      forall child | child in children[..n] ensures ChildAddress(pipe, code, child.h) != a {
        var i :| 0 <= i < n && children[..n][i] == child;
        DifferentChild(pipe, code, children, i, n);
      }
      ChildCommitsKeepAnchors(spills, st, pipe, code, children[..n], a);
      ShowsAfterCommit(spills, Replay(spills, st, before), a, children[n].payload);
    }
  }

  /** A child at the anchor's address is what planning finds there: its payload is taken for the list. */
  lemma ShadowListed(spills: Json -> bool, st: Store, p: Planner, code: Code, anchor: Address, children: seq<Child>, m: nat)
    requires TableOf(anchor) == (p.pipe, code.step) && DistinctHashes(children) && SpotFree(st, anchor)
    requires m < |children| && ChildAddress(p.pipe, code, children[m].h) == anchor
    ensures var after := AfterFanOut(spills, st, p.pipe, code, anchor, children);
            && Hit(after, anchor).Some? && RowValue(after, Hit(after, anchor).value) == children[m].payload
            && ListingAt(after, p, anchor) == Iterated(p, children[m].payload)
  {
    hide AfterFanOut, LatestRow, LastAnchor, Apply, Replay, HashesOf, Iterated, Shows, Hit, AnchorHit;
    var k, v := (p.pipe, code.step), children[m].payload;
    var st1 := Apply(spills, st, CommitAnchor(anchor, HashesOf(children)));
    LatestUnchanged(spills, st, CommitAnchor(anchor, HashesOf(children)), anchor);
    var st2 := Replay(spills, st1, ChildCommits(p.pipe, code, children));
    ChildShows(spills, st1, p.pipe, code, children, m);
    ShowsElsewhere(spills, st2, anchor, v, Flush(k));
    ShowsElsewhere(spills, Apply(spills, st2, Flush(k)), anchor, v, FlushAnchors(k));
    FanOutSteps(spills, st, p.pipe, code, anchor, children);
    ShownValue(spills, AfterFanOut(spills, st, p.pipe, code, anchor, children), anchor, v);
  }

  lemma ShownValue(spills: Json -> bool, st: Store, a: Address, v: Json)
    requires Shows(spills, st, a, v)
    ensures Hit(st, a).Some? && RowValue(st, Hit(st, a).value) == v
  {
    hide LatestRow;
  }

  /**
   Once an executed fan-out has been committed and flushed, planning the same lane again replays
   exactly its children: one reuse per distinct payload, in the order of first yield, at the
   addresses and lanes the execution minted, each serving its payload.  If a child has its lane at
   the anchor's own address, planning takes that child's payload for the list of children instead.
   */
  lemma ReplayAfterExecution(spills: Json -> bool, st: Store, p: Planner, code: Code, anchor: Address, children: seq<Child>)
    requires TableOf(anchor) == (p.pipe, code.step) && DistinctHashes(children) && SpotFree(st, anchor)
    ensures var after := AfterFanOut(spills, st, p.pipe, code, anchor, children);
            && (forall child :: child in children ==> Served(spills, after, p.pipe, code, child))
            && (!Shadowed(p.pipe, code, anchor, children) ==>
                 ReplayedChildren(after, p, code, anchor) == Some(HashesOf(children)) && !ListingAt(after, p, anchor).Unlistable?)
            && (forall child :: child in children && ChildAddress(p.pipe, code, child.h) == anchor ==>
                 Hit(after, anchor).Some? && RowValue(after, Hit(after, anchor).value) == child.payload
                 && ListingAt(after, p, anchor) == Iterated(p, child.payload))
  {
    hide AfterFanOut, LatestRow, LastAnchor, Served, AnchorHit, Hit, HashesOf, Iterated, SpotFree, ListingAt, RowValue,
         ReplayedChildren;
    var after := AfterFanOut(spills, st, p.pipe, code, anchor, children);
    ServedAfterFanOut(spills, st, p.pipe, code, anchor, children);
    forall child | child in children && ChildAddress(p.pipe, code, child.h) == anchor
      ensures Hit(after, anchor).Some? && RowValue(after, Hit(after, anchor).value) == child.payload
      ensures ListingAt(after, p, anchor) == Iterated(p, child.payload)
    {
      var m :| 0 <= m < |children| && children[m] == child;
      ShadowListed(spills, st, p, code, anchor, children, m);
    }
    if !Shadowed(p.pipe, code, anchor, children) {
      AnchorAfterFanOut(spills, st, p.pipe, code, anchor, children);
      AnchorsHaveNoRow(after, anchor);
      AnchorIsListed(after, p, code, anchor);
      var hs := HashesOf(children);
      forall h | h in hs ensures Hit(after, ChildAddress(p.pipe, code, h)).Some? {
        var i :| 0 <= i < |hs| && hs[i] == h;
        ServedIsHit(spills, after, p.pipe, code, children[i]);
      }
    }
  }

  lemma AnchorsHaveNoRow(st: Store, a: Address)
    requires AnchorHit(st, a).Some?
    ensures LatestRow(st, a).None?
  {
    hide LatestRow;
  }

  function ListOf(hs: seq<Hash>): Listing {
    Listed(seq(|hs|, i requires 0 <= i < |hs| => Some(hs[i])))
  }

  ghost predicate ReplayedRight(spills: Json -> bool, st: Store, p: Planner, code: Code, anchor: Address, children: seq<Child>) {
    var after := AfterFanOut(spills, st, p.pipe, code, anchor, children);
    && (forall h :: h in HashesOf(children) ==> Hit(after, ChildAddress(p.pipe, code, h)).Some?)
    && LanePlanned(after, p, code, anchor, false) == Decided(Replays(after, p.pipe, code, HashesOf(children)))
  }

  /**
   The next plan replays the fan-out exactly if no child has its lane at the anchor's address, or that
   child's payload happens to list the very hashes of the fan-out.
   */
  lemma ReplayedRightWhen(spills: Json -> bool, st: Store, p: Planner, code: Code, anchor: Address, children: seq<Child>)
    requires TableOf(anchor) == (p.pipe, code.step) && DistinctHashes(children) && SpotFree(st, anchor)
    ensures ReplayedRight(spills, st, p, code, anchor, children)
            <==> (forall child :: child in children && ChildAddress(p.pipe, code, child.h) == anchor ==>
                   Iterated(p, child.payload) == ListOf(HashesOf(children)))
  {
    hide AfterFanOut, LatestRow, LastAnchor, AnchorHit, Hit, HashesOf, Iterated, SpotFree, ListingAt, Served;
    var after, hs := AfterFanOut(spills, st, p.pipe, code, anchor, children), HashesOf(children);
    ReplayAfterExecution(spills, st, p, code, anchor, children);
    forall h | h in hs ensures Hit(after, ChildAddress(p.pipe, code, h)).Some? {
      var i :| 0 <= i < |hs| && hs[i] == h;
      ServedIsHit(spills, after, p.pipe, code, children[i]);
    }
    if child :| child in children && ChildAddress(p.pipe, code, child.h) == anchor {
      assert |hs| > 0;
      RightList(after, p, code, anchor, hs);
      assert forall c :: c in children && ChildAddress(p.pipe, code, c.h) == anchor ==> Iterated(p, c.payload) == ListingAt(after, p, anchor);
    }
  }

  /** A list of children that are all there is replayed if and only if it is what planning finds. */
  lemma RightList(st: Store, p: Planner, code: Code, anchor: Address, hs: seq<Hash>)
    requires forall h :: h in hs ==> Hit(st, ChildAddress(p.pipe, code, h)).Some?
    requires hs != [] && !ListingAt(st, p, anchor).NoListing?
    ensures LanePlanned(st, p, code, anchor, false) == Decided(Replays(st, p.pipe, code, hs))
            <==> ListingAt(st, p, anchor) == ListOf(hs)
  {
    hide ListingAt, Hit, Replays;
    var replayed := ReplayedChildren(st, p, code, anchor);
    ReplaysAreNoExecution(st, p.pipe, code, hs);
    if replayed.Some? {
      ReplayedAreLive(st, p, code, anchor);
      var items := ListingAt(st, p, anchor).items;
      assert forall i :: 0 <= i < |items| ==> LiveChild(st, p.pipe, code, items[i]) && items[i] == Some(replayed.value[i]);
      if Replays(st, p.pipe, code, replayed.value) == Replays(st, p.pipe, code, hs) {
        SameReplays(st, p.pipe, code, replayed.value, hs);
        assert items == ListOf(hs).items;
      }
      if items == ListOf(hs).items {
        assert replayed.value == hs;
      }
    } else if ListingAt(st, p, anchor) == ListOf(hs) {
      forall i | 0 <= i < |hs| ensures LiveChild(st, p.pipe, code, ListOf(hs).items[i]) {
        assert hs[i] in hs;
      }
      assert false;
    }
  }

  /** No value has its own hash among the texts it lists. */
  ghost predicate NoneNamesItself(p: Planner) {
    forall v :: Iterated(p, v).Listed? ==> Some(ChildHash(v)) !in Iterated(p, v).items
  }

  /** Fanned out by content, lanes are replayed right exactly where no child is at the anchor's address. */
  lemma ReplayedRightByContent(spills: Json -> bool, st: Store, p: Planner, code: Code, anchor: Address, children: seq<Child>)
    requires TableOf(anchor) == (p.pipe, code.step) && DistinctHashes(children) && SpotFree(st, anchor)
    requires NoneNamesItself(p) && forall child :: child in children ==> child.h == ChildHash(child.payload)
    ensures ReplayedRight(spills, st, p, code, anchor, children) <==> !Shadowed(p.pipe, code, anchor, children)
  {
    hide ReplayedRight, HashesOf, SpotFree, Iterated;
    ReplayedRightWhen(spills, st, p, code, anchor, children);
    if child :| child in children && ChildAddress(p.pipe, code, child.h) == anchor {
      var i :| 0 <= i < |children| && children[i] == child;
      assert ListOf(HashesOf(children)).items[i] == Some(ChildHash(child.payload));
    }
  }

  /**
   A child is at the anchor's address exactly if the lane yields the very value it is fed, and that
   value is neither spilled nor a string: a spilled value is known downstream by its reference, and
   a string by its bare text, while a child lane is named by its JSON text.
   */
  lemma YieldingTheInputShadows(spills: Json -> bool, pipe: string, code: Code, v: Json, children: seq<Child>)
    requires forall child :: child in children ==> child.h == ChildHash(child.payload)
    ensures Shadowed(pipe, code, Address(pipe, code, Of(Ident(spills, v))), children)
            <==> !spills(v) && !v.Str? && exists child :: child in children && child.payload == v
    ensures !Shadowed(pipe, code, Address(pipe, code, RootLane), children)
  {
    forall child | child in children
      ensures ChildAddress(pipe, code, child.h) == Address(pipe, code, Of(Ident(spills, v)))
              <==> !spills(v) && !v.Str? && child.payload == v
    {
      assert child.h == ChildHash(child.payload);
    }
  }

  /**
   A lane that yields the value v it is fed and nothing else, run in an empty home and planned again.
   Fed 0, nothing is planned for it: the lane is neither executed nor replayed, and its child is gone
   from that run and every later one.  Fed 5, planning raises.
   */
  lemma EchoedLane(p: Planner, code: Code, v: Json)
    requires !v.Str? && KeysListed(p, v)
    ensures var inline: Json -> bool := _ => false;
            var anchor, children := Address(p.pipe, code, Of(Content(v))), [Child(Content(v), v)];
            var after := AfterFanOut(inline, EMPTY, p.pipe, code, anchor, children);
            && Hit(after, anchor).Some?
            && (Falsy(v) <==> LanePlanned(after, p, code, anchor, false) == Decided([]))
            && (Uniterable(v) <==> LanePlanned(after, p, code, anchor, false) == Raises)
    ensures Falsy(Int(0)) && Uniterable(Int(5))
  {
    hide AfterFanOut, LanePlanned, ListingAt, Hit, HashesOf, Falsy, Uniterable, KeysListed, RowValue;
    var inline: Json -> bool := _ => false;
    var anchor, children := Address(p.pipe, code, Of(Content(v))), [Child(Content(v), v)];
    EmptyIsFree(anchor);
    ShadowListed(inline, EMPTY, p, code, anchor, children, 0);
    LaneRowAtAnchor(AfterFanOut(inline, EMPTY, p.pipe, code, anchor, children), p, code, anchor);
    NumbersByKind();
  }

  lemma NumbersByKind()
    ensures Falsy(Int(0)) && Uniterable(Int(5))
  {
  }

  lemma EmptyIsFree(a: Address)
    ensures SpotFree(EMPTY, a)
  {
  }

  lemma ServedIsHit(spills: Json -> bool, st: Store, pipe: string, code: Code, child: Child)
    requires Served(spills, st, pipe, code, child)
    ensures Hit(st, ChildAddress(pipe, code, child.h)).Some?
  {
    hide LatestRow;
  }

  lemma ReplayOne(spills: Json -> bool, st: Store, e: Event)
    ensures Replay(spills, st, [e]) == Apply(spills, st, e)
  {
    assert [e][..0] == [];
  }

  /** Flipping any child, or the anchor, sends the lane back to execution. */
  lemma FlippedChildForcesExecution(spills: Json -> bool, st: Store, p: Planner, code: Code, anchor: Address,
                                    flipped: set<Address>, hs: seq<Hash>)
    requires AnchorHit(st, anchor) == Some(hs)
    requires anchor in flipped || exists h :: h in hs && ChildAddress(p.pipe, code, h) in flipped
    ensures LanePlanned(Apply(spills, st, Invalidate(flipped)), p, code, anchor, false) == Decided([Execute])
  {
    hide LatestRow, ReplayedChildren, ListingAt;
    var next := Apply(spills, st, Invalidate(flipped));
    LatestUnchanged(spills, st, Invalidate(flipped), anchor);
    AnchorIsListed(next, p, code, anchor);
    if anchor !in flipped {
      var h :| h in hs && ChildAddress(p.pipe, code, h) in flipped;
      assert Hit(next, ChildAddress(p.pipe, code, h)).None?;
      assert AnchorHit(next, anchor) == Some(hs);
    }
  }

  // ---------------------------------------------------------------------------
  // advancing after a per-lane plan
  // ---------------------------------------------------------------------------

  /** The cells the reuse decisions of a plan leave in the run's table. */
  function CellsOf(name: string, ds: seq<Decision>): (cells: Cells)
    ensures forall k :: k in cells <==> exists d :: d in ds && d.Reuse? && k == (d.coord, name)
  {
    if ds == [] then map[]
    else
      var n := |ds| - 1;
      assert ds == ds[..n] + [ds[n]];
      var before := CellsOf(name, ds[..n]);
      if ds[n].Reuse? then before[(ds[n].coord, name) := CellOfRow(ds[n].row)] else before
  }

  /** Which of the lanes just planned count as resolved, and so advance their consumers. */
  function Resolved(lanes: seq<Coord>, name: string, cells: Cells): (r: seq<Coord>)
    ensures forall c :: c in r <==> c in lanes && (c, name) in cells
  {
    if lanes == [] then []
    else
      var n := |lanes| - 1;
      assert lanes == lanes[..n] + [lanes[n]];
      var before := Resolved(lanes[..n], name, cells);
      if (lanes[n], name) in cells then before + [lanes[n]] else before
  }

  lemma ReplayedCells(st: Store, pipe: string, code: Code, children: seq<Hash>, c: Coord, name: string)
    requires forall h :: h in children ==> Hit(st, ChildAddress(pipe, code, h)).Some?
    ensures (c, name) in CellsOf(name, Replays(st, pipe, code, children)) <==> exists h :: h in children && c == Row(h)
  {
    hide Hit, CellsOf, Replays;
    var ds := Replays(st, pipe, code, children);
    if h :| h in children && c == Row(h) {
      var i :| 0 <= i < |children| && children[i] == h;
      assert ds[i] in ds && ds[i].coord == c;
    }
    if (c, name) in CellsOf(name, ds) {
      var d :| d in ds && d.Reuse? && d.coord == c;
      var i :| 0 <= i < |ds| && ds[i] == d;
      assert children[i] in children;
    }
  }

  lemma ResolvedOne(c: Coord, name: string, cells: Cells)
    ensures Resolved([c], name, cells) == [] <==> (c, name) !in cells
  {
    assert Resolved([c][..0], name, cells) == [];
  }

  /**
   A replayed fan-out planned for one lane advances no consumer, unless a child happens to be
   called like that lane: the resolved lanes are looked up under the parent's name, and the
   children have names of their own.
   */
  lemma ReplayedLanesAreNotAdvanced(st: Store, pipe: string, code: Code, children: seq<Hash>, c: Coord, name: string)
    requires forall h :: h in children ==> Hit(st, ChildAddress(pipe, code, h)).Some?
    ensures var cells := CellsOf(name, Replays(st, pipe, code, children));
            Resolved([c], name, cells) == [] <==> (forall h :: h in children ==> c != Row(h))
  {
    hide Hit, CellsOf, Replays, Resolved;
    ReplayedCells(st, pipe, code, children, c, name);
    ResolvedOne(c, name, CellsOf(name, Replays(st, pipe, code, children)));
  }
}
