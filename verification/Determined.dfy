/**
 With deterministic steps, every stored row holds the output its address determines.

 This is the invariant that makes reuse safe.  It survives crashes, unreadable files,
 invalidations and garbage collection in any order.  The two counterexamples at the end show
 what a crash can do to a step that is not deterministic.
 */
module Determined {
  import opened Model
  import opened Meaning
  import opened Ledger
  import opened History

  /** The event records what executing deterministic code at its address returns. */
  ghost predicate Faithful(w: World, e: Event) {
    match e
    case Commit(a, o) => o == Expected(w, a) && !o.Fail?
    case CommitAnchor(a, children) => w.mints(a.pipeline, a.code) && AnchorOf(w, a) == Some(children)
    case _ => true
  }

  function AnchorOf(w: World, a: Address): Option<seq<Hash>> {
    var ys := Yielded(w, a);
    if ys.None? then None else Some(ChildHashes(ys.value))
  }

  ghost predicate LaneOk(w: World, k: TableKey, row: LaneRow) {
    var a := row.address;
    && TableOf(a) == k
    && !Expected(w, a).Fail?
    && row == RowFor(w.spills, a, Expected(w, a), row.ts)
  }

  ghost predicate AnchorOk(w: World, row: AnchorRow) {
    w.mints(row.address.pipeline, row.address.code) && AnchorOf(w, row.address) == Some(row.children)
  }

  ghost predicate LanesDetermined(w: World, st: Store) {
    forall k, row :: row in Rows(st, k) ==> LaneOk(w, k, row)
  }

  ghost predicate AnchorsDetermined(w: World, st: Store) {
    forall k, row :: row in Table(st.anchorDisk, k) || row in Table(st.anchorBuffer, k) ==> AnchorOk(w, row)
  }

  ghost predicate LiveReadable(st: Store) {
    forall k, row :: row in Rows(st, k) && row.address in st.live && row.output.Ref? ==> row.output.v in st.objects
  }

  ghost predicate StoreInv(w: World, st: Store) {
    LanesDetermined(w, st) && AnchorsDetermined(w, st) && LiveReadable(st)
  }

  lemma LanesStep(w: World, st: Store, e: Event)
    requires LanesDetermined(w, st) && Faithful(w, e)
    ensures LanesDetermined(w, Apply(w.spills, st, e))
  {
    var next := Apply(w.spills, st, e);
    forall k, row | row in Rows(next, k)
      ensures LaneOk(w, k, row)
    {
      RowOrigin(w.spills, st, e, k, row);
    }
  }

  lemma AnchorsStep(w: World, st: Store, e: Event)
    requires AnchorsDetermined(w, st) && Faithful(w, e)
    ensures AnchorsDetermined(w, Apply(w.spills, st, e))
  {
    var next := Apply(w.spills, st, e);
    forall k, row | row in Table(next.anchorDisk, k) || row in Table(next.anchorBuffer, k)
      ensures AnchorOk(w, row)
    {
      if !(row in Table(st.anchorDisk, k) || row in Table(st.anchorBuffer, k)) {
        assert e.CommitAnchor? && row == AnchorRow(e.address, e.children, st.clock);
      }
    }
  }

  lemma ReadableStep(w: World, st: Store, e: Event)
    requires StoreInv(w, st) && Legal(st, e) && Faithful(w, e)
    requires e.CommitAnchor? ==> LatestRow(st, e.address).None?
    ensures LiveReadable(Apply(w.spills, st, e))
  {
    var next := Apply(w.spills, st, e);
    LanesStep(w, st, e);
    forall k, row | row in Rows(next, k) && row.address in next.live && row.output.Ref?
      ensures row.output.v in next.objects
    {
      assert LaneOk(w, k, row);
      if e.Commit? && e.address == row.address {
        assert row.output == Form(w.spills, Payload(e.outcome));
      } else {
        RowOrigin(w.spills, st, e, k, row);
        if e.Collect? {
          assert Referenced(st, row.address, row.output.v);
        } else if e.CommitAnchor? && e.address == row.address {
          assert false;
        }
      }
    }
  }

  /**
   Anchors live at addresses of their own: an anchor is only ever committed where no lane row
   is.  A payload that equals its own parent's value would break this (`Apart` in `Clean`).
   */
  ghost predicate Separate(st: Store, e: Event) {
    e.CommitAnchor? ==> LatestRow(st, e.address).None?
  }

  ghost predicate FaithfulHistory(w: World, st: Store, h: seq<Event>) {
    forall i :: 0 <= i < |h| ==>
      var before := Replay(w.spills, st, h[..i]);
      Legal(before, h[i]) && Faithful(w, h[i]) && Separate(before, h[i])
  }

  lemma {:induction false} StoreInvKept(w: World, st: Store, h: seq<Event>)
    requires StoreInv(w, st) && FaithfulHistory(w, st, h)
    ensures StoreInv(w, Replay(w.spills, st, h))
  {
    if h != [] {
      var g, e := h[..|h| - 1], h[|h| - 1];
      assert forall i :: 0 <= i < |g| ==> g[i] == h[i] && g[..i] == h[..i];
      StoreInvKept(w, st, g);
      var before := Replay(w.spills, st, g);
      assert Legal(before, e) && Faithful(w, e) && Separate(before, e) by {
        assert h[..|h| - 1] == g && h[|h| - 1] == e;
      }
      LanesStep(w, before, e);
      AnchorsStep(w, before, e);
      ReadableStep(w, before, e);
    }
  }

  /** After any such history, reuse serves exactly what executing would compute, readable. */
  lemma ReuseIsExecution(w: World, h: seq<Event>, a: Address)
    requires FaithfulHistory(w, EMPTY, h)
    ensures var st := Replay(w.spills, EMPTY, h);
            var hit := Hit(st, a);
            hit.Some? ==> (!Expected(w, a).Fail?
                           && hit.value == RowFor(w.spills, a, Expected(w, a), hit.value.ts)
                           && (hit.value.output.Ref? ==> hit.value.output.v in st.objects))
    ensures var hit := AnchorHit(Replay(w.spills, EMPTY, h), a);
            hit.Some? ==> AnchorOf(w, a) == hit
  {
    StoreInvKept(w, EMPTY, h);
    if Hit(Replay(w.spills, EMPTY, h), a).Some? {
      HitIsExpected(w, Replay(w.spills, EMPTY, h), a);
    }
    AnchorHitIsExpected(w, Replay(w.spills, EMPTY, h), a);
  }

  lemma HitIsExpected(w: World, st: Store, a: Address)
    requires StoreInv(w, st) && Hit(st, a).Some?
    ensures var row := Hit(st, a).value;
            !Expected(w, a).Fail? && row == RowFor(w.spills, a, Expected(w, a), row.ts)
                    && (row.output.Ref? ==> row.output.v in st.objects)
  {
    var row := Hit(st, a).value;
    assert row in Rows(st, TableOf(a));
    assert LaneOk(w, TableOf(a), row);
  }

  lemma AnchorHitIsExpected(w: World, st: Store, a: Address)
    requires StoreInv(w, st)
    ensures AnchorHit(st, a).Some? ==> AnchorOf(w, a) == AnchorHit(st, a) && w.mints(a.pipeline, a.code)
  {
    var k := TableOf(a);
    var onDisk := LastAnchor(Table(st.anchorDisk, k), a);
    var buffered := LastAnchor(Table(st.anchorBuffer, k), a);
    assert onDisk.Some? ==> AnchorOk(w, onDisk.value);
    assert buffered.Some? ==> AnchorOk(w, buffered.value);
  }

  // ---------------------------------------------------------------------------
  // What a crash does to a step that is not deterministic
  // ---------------------------------------------------------------------------

  /**
   Invalidate a flushed address, recompute it, and crash before the flush: liveness survived
   and the new row did not, so the flushed row is served again whatever the recomputation
   returned.
   */
  lemma CrashRevivesFlushedRow(spills: Json -> bool, st: Store, a: Address, o: Outcome)
    requires Last(Table(st.disk, TableOf(a)), a).Some? && !o.Fail?
    ensures Hit(Replay(spills, st, [Invalidate({a}), Commit(a, o), Crash]), a)
              == Last(Table(st.disk, TableOf(a)), a)
  {
    hide Replay, Last, Hit;
    ReplayThree(spills, st, Invalidate({a}), Commit(a, o), Crash);
    CommitThenCrash(spills, Apply(spills, st, Invalidate({a})), a, o);
  }

  /** A crash right after a commit leaves the address live and only the flushed rows. */
  lemma CommitThenCrash(spills: Json -> bool, st: Store, a: Address, o: Outcome)
    requires !o.Fail?
    ensures var after := Apply(spills, Apply(spills, st, Commit(a, o)), Crash);
            Hit(after, a) == Last(Table(st.disk, TableOf(a)), a)
            && after.objects == st.objects + SpilledTo(spills, Payload(o))
  {
    hide Last, AlreadyLive, RowFor, SpilledTo;
    var after := Apply(spills, Apply(spills, st, Commit(a, o)), Crash);
    assert after.disk == st.disk && after.buffer == map[] && a in after.live;
    assert Rows(after, TableOf(a)) == Table(st.disk, TableOf(a));
  }

  lemma ReplayThree(spills: Json -> bool, st: Store, e1: Event, e2: Event, e3: Event)
    ensures Replay(spills, st, [e1, e2, e3]) == Apply(spills, Apply(spills, Apply(spills, st, e1), e2), e3)
  {
    ReplayAppend(spills, st, [], e1);
    ReplayAppend(spills, st, [e1], e2);
    ReplayAppend(spills, st, [e1, e2], e3);
    assert [] + [e1] == [e1] && [e1] + [e2] == [e1, e2] && [e1, e2] + [e3] == [e1, e2, e3];
  }

  /**
   If the sweep ran between the invalidation and the recomputation, the revived row refers to
   an object that is gone, exactly when the recomputation did not write that same object back.
   */
  lemma CrashStrandsSweptObject(spills: Json -> bool, st: Store, a: Address, o: Outcome)
    requires Last(Table(st.disk, TableOf(a)), a).Some? && !o.Fail?
    requires Last(Table(st.disk, TableOf(a)), a).value.output.Ref?
    requires Legal(Apply(spills, st, Invalidate({a})), Collect({}, {Last(Table(st.disk, TableOf(a)), a).value.output.v}))
    ensures var v := Last(Table(st.disk, TableOf(a)), a).value.output.v;
            var swept := Apply(spills, Apply(spills, st, Invalidate({a})), Collect({}, {v}));
            var after := Apply(spills, Apply(spills, swept, Commit(a, o)), Crash);
            Hit(after, a) == Last(Table(st.disk, TableOf(a)), a)
            && (v in after.objects <==> v in SpilledTo(spills, Payload(o)))
  {
    hide Last, Hit;
    var v := Last(Table(st.disk, TableOf(a)), a).value.output.v;
    var swept := Apply(spills, Apply(spills, st, Invalidate({a})), Collect({}, {v}));
    CommitThenCrash(spills, swept, a, o);
    assert swept.disk == st.disk && v !in swept.objects;
  }
}
