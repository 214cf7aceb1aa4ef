/**
 The writer lease of a pipeline on an object store, as a protocol of conditional writes, and the
 check every commit, flush and compaction makes before it writes.

 A lease is one object: its owner and the time it expires.  Its entity tag is determined by
 that content.  A run creates the object if it is absent, or replaces the very object it read
 after finding it expired; while it works it keeps replacing the object it last wrote, and
 when it ends it deletes the object if it is its own (If-None-Match and If-Match, sections
 13.1.2 and 13.1.1 of RFC 9110).  Runs of one home share a registry with one entry for the
 pipeline: the run that registered last.  The check asks whether the run of that entry, whoever
 asks, knows that it lost its lease.  Every read, clock reading and write is a step of its own,
 and the steps of all runs interleave freely.
 */
module Lease {
  import opened Model

  type RunId = nat
  type HomeId = nat

  /** The stored object; also its entity tag. */
  datatype Tag = Tag(owner: RunId, expires: int)

  datatype Phase =
    | Idle
    | Creating(payload: Tag)
    | Reading
    | Judging(seen: Tag)
    | Expired(seen: Tag)
    | Taking(seen: Tag, payload: Tag)
    | Entering
    | Active
    | Releasing(found: Option<Tag>)
    | Leaving
    | Ended
    | Refused

  /**
   One run: where it is, the tag it believes it holds, whether it knows it lost the lease, a
   renewal that has been prepared but has not landed yet, and a write that has passed the check
   but has not been made yet.
   */
  datatype Run = Run(phase: Phase, held: Option<Tag>, lost: bool, renewal: Option<Tag>, cleared: Option<Kind>)

  datatype Kind = Commit | Flush | Compact

  datatype Written = Written(run: RunId, kind: Kind)

  /** `active` is the registry of each home, and `writes` everything written under the lease so far. */
  datatype State = State(now: int, stored: Option<Tag>, runs: map<RunId, Run>, active: map<HomeId, RunId>, writes: seq<Written>)

  datatype Event =
    | Tick(elapsed: nat)
    | Start(run: RunId)
    | Create(run: RunId)
    | Read(run: RunId)
    | Judge(run: RunId)
    | Prepare(run: RunId)
    | Take(run: RunId)
    | Register(run: RunId)
    | Check(run: RunId, kind: Kind)
    | Write(run: RunId)
    | RenewPrepare(run: RunId)
    | RenewPut(run: RunId)
    | RenewError(run: RunId, landed: bool)
    | ReleaseRead(run: RunId)
    | ReleaseDelete(run: RunId)
    | ReleaseError(run: RunId, landed: bool)
    | Unregister(run: RunId)
    | Die(home: HomeId)

  /** The lease duration, how far each run's clock is ahead of the true time, and the home it runs on. */
  datatype Config = Config(ttl: nat, skew: RunId -> int, home: RunId -> HomeId)

  const NEW_RUN := Run(Idle, None, false, None, None)
  const INITIAL := State(0, None, map[], map[], [])

  function RunOf(s: State, r: RunId): Run {
    if r in s.runs then s.runs[r] else NEW_RUN
  }

  function Clock(cfg: Config, s: State, r: RunId): int {
    s.now + cfg.skew(r)
  }

  /** The lease a run writes now. */
  function Payload(cfg: Config, s: State, r: RunId): Tag {
    Tag(r, Clock(cfg, s, r) + cfg.ttl)
  }

  function With(s: State, r: RunId, run: Run): State {
    s.(runs := s.runs[r := run])
  }

  /** The run registered on the home of this one. */
  function Entry(cfg: Config, s: State, r: RunId): Option<RunId> {
    if cfg.home(r) in s.active then Some(s.active[cfg.home(r)]) else None
  }

  /** The check a run makes before it commits, flushes or compacts. */
  predicate Passes(cfg: Config, s: State, r: RunId) {
    var entry := Entry(cfg, s, r);
    entry.None? || !RunOf(s, entry.value).lost
  }

  /** The stored object is deleted if it is the one found, and the run's own. */
  function Deleted(s: State, r: RunId, found: Option<Tag>): State {
    if found.Some? && found.value.owner == r && s.stored == found then s.(stored := None) else s
  }

  /** The process that has this home open dies. */
  function Died(cfg: Config, s: State, home: HomeId): State {
    s.(active := s.active - {home},
       runs := map r | r in s.runs ::
                 if cfg.home(r) == home then s.runs[r].(phase := Ended, renewal := None) else s.runs[r])
  }

  /** One step; an event that is not enabled changes nothing. */
  function Next(cfg: Config, s: State, e: Event): State {
    if e.Tick? then s.(now := s.now + e.elapsed)
    else if e.Die? then Died(cfg, s, e.home)
    else
      var r, run := e.run, RunOf(s, e.run);
      match e
      case Start(_) =>
        if run.phase.Idle? then With(s, r, run.(phase := Creating(Payload(cfg, s, r)))) else s
      case Create(_) =>
        if !run.phase.Creating? then s
        else if s.stored.None? then
          With(s, r, run.(phase := Entering, held := Some(run.phase.payload))).(stored := Some(run.phase.payload))
        else With(s, r, run.(phase := Reading))
      case Read(_) =>
        if !run.phase.Reading? then s
        else if s.stored.None? then With(s, r, run.(phase := Idle))
        else With(s, r, run.(phase := Judging(s.stored.value)))
      case Judge(_) =>
        if !run.phase.Judging? then s
        else if run.phase.seen.expires > Clock(cfg, s, r) then With(s, r, run.(phase := Refused))
        else With(s, r, run.(phase := Expired(run.phase.seen)))
      case Prepare(_) =>
        if run.phase.Expired? then With(s, r, run.(phase := Taking(run.phase.seen, Payload(cfg, s, r)))) else s
      case Take(_) =>
        if !run.phase.Taking? then s
        else if s.stored == Some(run.phase.seen) then
          With(s, r, run.(phase := Entering, held := Some(run.phase.payload))).(stored := Some(run.phase.payload))
        else With(s, r, run.(phase := Refused))
      case Register(_) =>
        if run.phase.Entering?
        then With(s, r, run.(phase := Active)).(active := s.active[cfg.home(r) := r]) else s
      case Check(_, kind) =>
        if run.phase.Active? then With(s, r, run.(cleared := if Passes(cfg, s, r) then Some(kind) else None)) else s
      case Write(_) =>
        if run.phase.Active? && run.cleared.Some?
        then With(s, r, run.(cleared := None)).(writes := s.writes + [Written(r, run.cleared.value)]) else s
      case RenewPrepare(_) =>
        if run.phase.Active? && !run.lost && run.renewal.None?
        then With(s, r, run.(renewal := Some(Payload(cfg, s, r)))) else s
      case RenewPut(_) =>
        if run.renewal.None? then s
        else if s.stored == run.held then
          With(s, r, run.(held := run.renewal, renewal := None)).(stored := run.renewal)
        else With(s, r, run.(lost := true, renewal := None))
      case RenewError(_, landed) =>
        if run.renewal.None? then s
        else
          var failed := With(s, r, run.(lost := true, renewal := None));
          if landed && s.stored == run.held then failed.(stored := run.renewal) else failed
      case ReleaseRead(_) =>
        if run.phase.Active? then With(s, r, run.(phase := Releasing(s.stored))) else s
      case ReleaseDelete(_) =>
        if run.phase.Releasing? then Deleted(With(s, r, run.(phase := Leaving)), r, run.phase.found) else s
      case ReleaseError(_, landed) =>
        if run.phase.Active? then With(s, r, run.(phase := Ended))
        else if !run.phase.Releasing? then s
        else
          var failed := With(s, r, run.(phase := Ended));
          if landed then Deleted(failed, r, run.phase.found) else failed
      case Unregister(_) =>
        if !run.phase.Leaving? then s
        else
          var ended := With(s, r, run.(phase := Ended));
          if Entry(cfg, s, r) == Some(r) then ended.(active := s.active - {cfg.home(r)}) else ended
  }

  /** The state after a sequence of events. */
  function After(cfg: Config, h: seq<Event>): State {
    if h == [] then INITIAL else Next(cfg, After(cfg, h[..|h| - 1]), h[|h| - 1])
  }

  // ---------------------------------------------------------------------------
  // the invariant
  // ---------------------------------------------------------------------------

  /** Registered, and not yet gone. */
  predicate AtWork(s: State, r: RunId) {
    var phase := RunOf(s, r).phase;
    phase.Active? || phase.Releasing? || phase.Leaving?
  }

  /** A run past acquisition that has not given up the lease. */
  predicate Writing(s: State, r: RunId) {
    var phase := RunOf(s, r).phase;
    phase.Entering? || phase.Active? || phase.Releasing?
  }

  predicate Acquired(s: State, r: RunId) {
    Writing(s, r) || RunOf(s, r).phase.Leaving? || RunOf(s, r).phase.Ended?
  }

  /** The stored object is the one this run last wrote. */
  predicate Holds(s: State, r: RunId) {
    Writing(s, r) && RunOf(s, r).held.Some? && s.stored == RunOf(s, r).held
  }

  predicate Lost(s: State, r: RunId) {
    RunOf(s, r).lost
  }

  predicate OwnTag(r: RunId, tag: Option<Tag>) {
    tag.Some? ==> tag.value.owner == r
  }

  /** Tags a run writes name the run; what it found expired is expired on its clock. */
  predicate RunOk(cfg: Config, s: State, r: RunId) {
    var run := RunOf(s, r);
    && OwnTag(r, run.held) && OwnTag(r, run.renewal)
    && (run.phase.Creating? || run.phase.Taking? ==> run.phase.payload.owner == r)
    && (Writing(s, r) || run.renewal.Some? ==> run.held.Some?)
    && (run.phase.Expired? || run.phase.Taking? ==> run.phase.seen.expires <= Clock(cfg, s, r))
    && (!Acquired(s, r) ==> run.held.None? && !run.lost && run.renewal.None?)
    && (!Acquired(s, r) && s.stored.Some? ==> s.stored.value.owner != r)
    && (run.phase.Judging? || run.phase.Expired? || run.phase.Taking? ==> run.phase.seen.owner != r)
    && (run.lost ==> run.renewal.None?)
    && (run.phase.Entering? ==> !run.lost && run.renewal.None?)
    && (!Acquired(s, r) || run.phase.Entering? ==> run.cleared.None?)
  }

  /** An entry is filed under its run's own home, once the run has registered. */
  predicate EntryOk(cfg: Config, s: State, home: HomeId) {
    home in s.active ==> cfg.home(s.active[home]) == home && (AtWork(s, s.active[home]) || RunOf(s, s.active[home]).phase.Ended?)
  }

  ghost predicate Inv(cfg: Config, s: State) {
    (forall r :: RunOk(cfg, s, r)) && (forall home :: EntryOk(cfg, s, home))
  }

  /** An event of another run leaves this run as it is. */
  lemma OthersLeave(cfg: Config, s: State, e: Event, r: RunId)
    requires e.Tick? || (!e.Die? && e.run != r)
    ensures RunOf(Next(cfg, s, e), r) == RunOf(s, r)
  {
  }

  /** A step leaves the stored object alone, deletes it, or writes the run's own. */
  lemma StoredStep(cfg: Config, s: State, e: Event)
    requires !e.Tick? && !e.Die? ==> RunOk(cfg, s, e.run)
    ensures var stored := Next(cfg, s, e).stored;
            stored == s.stored || (!e.Tick? && !e.Die? && (stored.None? || stored.value.owner == e.run))
    ensures !e.Tick? ==> Next(cfg, s, e).now == s.now
  {
  }

  /** The events of an acquisition. */
  predicate Acquires(e: Event) {
    e.Start? || e.Create? || e.Read? || e.Judge? || e.Prepare? || e.Take? || e.Register?
  }

  lemma AcquiringStep(cfg: Config, s: State, e: Event, r: RunId)
    requires RunOk(cfg, s, r) && Acquires(e) && e.run == r
    ensures RunOk(cfg, Next(cfg, s, e), r)
  {
    hide Passes, Deleted;
  }

  lemma WorkingStep(cfg: Config, s: State, e: Event, r: RunId)
    requires RunOk(cfg, s, r) && !e.Tick? && !e.Die? && !Acquires(e) && e.run == r
    ensures RunOk(cfg, Next(cfg, s, e), r)
  {
    hide Passes;
  }

  lemma OwnStep(cfg: Config, s: State, e: Event, r: RunId)
    requires RunOk(cfg, s, r) && !e.Tick? && !e.Die? && e.run == r
    ensures RunOk(cfg, Next(cfg, s, e), r)
  {
    hide RunOk, Next;
    if Acquires(e) {
      AcquiringStep(cfg, s, e, r);
    } else {
      WorkingStep(cfg, s, e, r);
    }
  }

  lemma OthersStep(cfg: Config, s: State, e: Event, r: RunId)
    requires RunOk(cfg, s, r) && !e.Tick? && !e.Die? && e.run != r && RunOk(cfg, s, e.run)
    ensures RunOk(cfg, Next(cfg, s, e), r)
  {
    hide Next;
    OthersLeave(cfg, s, e, r);
    StoredStep(cfg, s, e);
  }

  lemma RunStep(cfg: Config, s: State, e: Event, r: RunId)
    requires RunOk(cfg, s, r) && (!e.Tick? && !e.Die? ==> RunOk(cfg, s, e.run))
    ensures RunOk(cfg, Next(cfg, s, e), r)
  {
    if !e.Tick? && !e.Die? {
      hide Next, RunOk;
      if e.run == r {
        OwnStep(cfg, s, e, r);
      } else {
        OthersStep(cfg, s, e, r);
      }
    } else {
      assert RunOf(Next(cfg, s, e), r) == RunOf(s, r) || RunOf(Next(cfg, s, e), r) == RunOf(s, r).(phase := Ended, renewal := None);
    }
  }

  lemma EntryStep(cfg: Config, s: State, e: Event, home: HomeId)
    requires EntryOk(cfg, s, home)
    ensures EntryOk(cfg, Next(cfg, s, e), home)
  {
  }

  lemma InvStep(cfg: Config, s: State, e: Event)
    requires Inv(cfg, s)
    ensures Inv(cfg, Next(cfg, s, e))
  {
    hide RunOk, EntryOk, Next;
    forall r ensures RunOk(cfg, Next(cfg, s, e), r) {
      RunStep(cfg, s, e, r);
    }
    forall home ensures EntryOk(cfg, Next(cfg, s, e), home) {
      EntryStep(cfg, s, e, home);
    }
  }

  lemma {:induction false} Reachable(cfg: Config, h: seq<Event>)
    ensures Inv(cfg, After(cfg, h))
  {
    if h != [] {
      Reachable(cfg, h[..|h| - 1]);
      InvStep(cfg, After(cfg, h[..|h| - 1]), h[|h| - 1]);
    }
  }

  // ---------------------------------------------------------------------------
  // safety
  // ---------------------------------------------------------------------------

  /** At most one run holds the stored object. */
  lemma AtMostOneHolder(cfg: Config, h: seq<Event>, r1: RunId, r2: RunId)
    requires Holds(After(cfg, h), r1) && Holds(After(cfg, h), r2)
    ensures r1 == r2
  {
    Reachable(cfg, h);
    assert RunOk(cfg, After(cfg, h), r1) && RunOk(cfg, After(cfg, h), r2);
  }

  /**
   A stored lease changes hands in one way only: another run takes it at or after the moment
   it expires, by that run's clock.  Every other change is the owner's: a renewal, or the
   deletion when it ends.
   */
  lemma OnlyExpiredLeasesAreTaken(cfg: Config, h: seq<Event>, e: Event)
    requires After(cfg, h).stored.Some?
    ensures var s, s' := After(cfg, h), Next(cfg, After(cfg, h), e);
            var lease := s.stored.value;
            s'.stored == s.stored
            || (e.Take? && e.run != lease.owner && lease.expires <= Clock(cfg, s, e.run) && Holds(s', e.run))
            || ((e.RenewPut? || e.RenewError?) && e.run == lease.owner
                && s'.stored.Some? && s'.stored.value.owner == lease.owner)
            || ((e.ReleaseDelete? || e.ReleaseError?) && e.run == lease.owner && s'.stored.None?)
  {
    Reachable(cfg, h);
    if !e.Tick? && !e.Die? {
      assert RunOk(cfg, After(cfg, h), e.run);
    }
  }

  /** Event i prepares a lease: the first one, that of a takeover, or a renewal. */
  ghost predicate Drafts(cfg: Config, h: seq<Event>, i: nat, r: RunId)
    requires i < |h|
  {
    var run := RunOf(After(cfg, h[..i]), r);
    || (h[i] == Start(r) && run.phase.Idle?)
    || (h[i] == Prepare(r) && run.phase.Expired?)
    || (h[i] == RenewPrepare(r) && run.phase.Active? && !run.lost && run.renewal.None?)
  }

  /** The run asks the store to write the lease it has prepared. */
  predicate Delivers(s: State, e: Event, r: RunId) {
    var run := RunOf(s, r);
    || (e == Create(r) && run.phase.Creating?)
    || (e == Take(r) && run.phase.Taking?)
    || ((e.RenewPut? || e.RenewError?) && e.run == r && run.renewal.Some?)
  }

  /** What event k prepared is delivered by event j. */
  ghost predicate Carries(cfg: Config, h: seq<Event>, k: nat, j: nat, r: RunId) {
    && k < j < |h|
    && Drafts(cfg, h, k, r)
    && (forall m :: k < m < j ==> !Delivers(After(cfg, h[..m]), h[m], r))
    && Delivers(After(cfg, h[..j]), h[j], r)
  }

  /** The lease a run has prepared and not delivered. */
  function InFlight(s: State, r: RunId): Option<Tag> {
    var run := RunOf(s, r);
    if run.phase.Creating? || run.phase.Taking? then Some(run.phase.payload) else run.renewal
  }

  lemma InFlightOwnStep(cfg: Config, s: State, e: Event, r: RunId)
    requires RunOk(cfg, s, r) && !Delivers(s, e, r) && !e.Tick? && !e.Die? && e.run == r
    ensures InFlight(s, r).Some? ==> InFlight(Next(cfg, s, e), r) == InFlight(s, r)
    ensures InFlight(s, r).None? && RunOf(s, r).phase.Ended? ==>
              InFlight(Next(cfg, s, e), r).None? && RunOf(Next(cfg, s, e), r).phase.Ended?
  {
    hide Passes, OwnTag;
  }

  lemma InFlightStep(cfg: Config, s: State, e: Event, r: RunId)
    requires RunOk(cfg, s, r) && !Delivers(s, e, r)
    ensures InFlight(s, r).Some? ==>
              InFlight(Next(cfg, s, e), r) == InFlight(s, r)
              || (InFlight(Next(cfg, s, e), r).None? && RunOf(Next(cfg, s, e), r).phase.Ended?)
    ensures InFlight(s, r).None? && RunOf(s, r).phase.Ended? ==>
              InFlight(Next(cfg, s, e), r).None? && RunOf(Next(cfg, s, e), r).phase.Ended?
  {
    if e.Tick? || e.Die? {
    } else {
      hide Next, RunOk, InFlight, Delivers;
      if e.run == r {
        InFlightOwnStep(cfg, s, e, r);
      } else {
        OthersLeave(cfg, s, e, r);
        SameInFlight(s, Next(cfg, s, e), r);
      }
    }
  }

  lemma SameInFlight(s: State, s': State, r: RunId)
    requires RunOf(s, r) == RunOf(s', r)
    ensures InFlight(s, r) == InFlight(s', r)
  {
  }

  lemma DraftStep(cfg: Config, h: seq<Event>, i: nat, r: RunId)
    requires i < |h| && Drafts(cfg, h, i, r) && RunOk(cfg, After(cfg, h[..i]), r)
    ensures var s := After(cfg, h[..i]);
            InFlight(Next(cfg, s, h[i]), r) == Some(Tag(r, s.now + cfg.skew(r) + cfg.ttl))
  {
    hide After;
  }

  /** Until it is delivered, a prepared lease stays what the clock said when it was prepared, unless its run ends. */
  lemma {:induction false} InFlightIs(cfg: Config, h: seq<Event>, k: nat, r: RunId)
    requires k < |h| && Drafts(cfg, h, k, r)
    requires forall m :: k < m < |h| ==> !Delivers(After(cfg, h[..m]), h[m], r)
    ensures var s := After(cfg, h[..k]);
            InFlight(After(cfg, h), r) == Some(Tag(r, s.now + cfg.skew(r) + cfg.ttl))
            || (InFlight(After(cfg, h), r).None? && RunOf(After(cfg, h), r).phase.Ended?)
  {
    hide After, Next, RunOk, Delivers, Drafts, InFlight, EntryOk;
    var n := |h| - 1;
    var g := h[..n];
    Reachable(cfg, g);
    AfterLast(cfg, h);
    if k == n {
      DraftStep(cfg, h, k, r);
    } else {
      assert g[..k] == h[..k] && g[k] == h[k];
      assert forall m :: k < m < n ==> g[..m] == h[..m] && g[m] == h[m];
      DraftsPrefix(cfg, h, k, r);
      InFlightIs(cfg, g, k, r);
      InFlightStep(cfg, After(cfg, g), h[n], r);
    }
  }

  lemma AfterLast(cfg: Config, h: seq<Event>)
    requires h != []
    ensures After(cfg, h) == Next(cfg, After(cfg, h[..|h| - 1]), h[|h| - 1])
  {
  }

  lemma DraftsPrefix(cfg: Config, h: seq<Event>, k: nat, r: RunId)
    requires k < |h| - 1
    ensures Drafts(cfg, h[..|h| - 1], k, r) <==> Drafts(cfg, h, k, r)
  {
    assert h[..|h| - 1][..k] == h[..k];
  }

  lemma DeliveredIs(cfg: Config, h: seq<Event>, k: nat, j: nat, r: RunId)
    requires Carries(cfg, h, k, j, r)
    ensures var s := After(cfg, h[..k]);
            InFlight(After(cfg, h[..j]), r) == Some(Tag(r, s.now + cfg.skew(r) + cfg.ttl))
  {
    hide After, Next, RunOk;
    var g := h[..j];
    assert g[..k] == h[..k] && g[k] == h[k];
    assert forall m :: k < m < j ==> g[..m] == h[..m] && g[m] == h[m];
    InFlightIs(cfg, g, k, r);
  }

  /** The store accepts the write. */
  predicate Lands(s: State, e: Event, r: RunId) {
    && Delivers(s, e, r)
    && (e.Create? ==> s.stored.None?)
    && (e.Take? ==> s.stored == Some(RunOf(s, r).phase.seen))
    && (e.RenewPut? || e.RenewError? ==> Holds(s, r))
    && (e.RenewError? ==> e.landed)
  }

  lemma LandingStep(cfg: Config, s: State, e: Event, r: RunId)
    requires Lands(s, e, r) && RunOk(cfg, s, r)
    ensures var s' := Next(cfg, s, e);
            && s'.stored == InFlight(s, r) && InFlight(s', r).None?
            && (Lost(s', r) <==> e.RenewError? || Lost(s, r))
            && (!e.RenewError? ==> Holds(s', r) && RunOf(s', r).held == InFlight(s, r))
  {
  }

  /**
   A lease that lands, whether it creates the object, takes it over or renews it, is stored with
   the expiry its run's clock gave when it was prepared: a renewal extends the lease.  The run
   holds it from then on, unless the reply is lost: then it takes its lease for lost.
   */
  lemma LandedLeases(cfg: Config, h: seq<Event>, k: nat, j: nat, r: RunId)
    requires Carries(cfg, h, k, j, r) && Lands(After(cfg, h[..j]), h[j], r)
    ensures var s, s' := After(cfg, h[..k]), After(cfg, h[..j + 1]);
            var lease := Some(Tag(r, s.now + cfg.skew(r) + cfg.ttl));
            && s'.stored == lease
            && (!h[j].RenewError? ==> Holds(s', r) && RunOf(s', r).held == lease)
            && (h[j].RenewError? ==> Lost(s', r))
  {
    hide Next, RunOk, EntryOk, Holds, InFlight, Lands, Lost;
    assert h[..j + 1][..j] == h[..j];
    Reachable(cfg, h[..j]);
    DeliveredIs(cfg, h, k, j, r);
    LandingStep(cfg, After(cfg, h[..j]), h[j], r);
  }

  /** No lease of this run, held or in flight, expires before x. */
  predicate Floor(cfg: Config, s: State, r: RunId, x: int) {
    && x <= s.now + cfg.skew(r) + cfg.ttl
    && (InFlight(s, r).Some? ==> x <= InFlight(s, r).value.expires)
    && (RunOf(s, r).held.Some? && !Lost(s, r) ==> x <= RunOf(s, r).held.value.expires)
  }

  lemma FloorOwnStep(cfg: Config, s: State, e: Event, r: RunId, x: int)
    requires RunOk(cfg, s, r) && Floor(cfg, s, r, x) && !e.Tick? && !e.Die? && e.run == r
    ensures Floor(cfg, Next(cfg, s, e), r, x)
  {
    hide Passes, OwnTag;
  }

  lemma FloorStep(cfg: Config, s: State, e: Event, r: RunId, x: int)
    requires RunOk(cfg, s, r) && Floor(cfg, s, r, x)
    ensures Floor(cfg, Next(cfg, s, e), r, x)
  {
    if !e.Tick? && !e.Die? {
      hide Next, RunOk;
      if e.run == r {
        FloorOwnStep(cfg, s, e, r, x);
      } else {
        OthersLeave(cfg, s, e, r);
        NowStep(cfg, s, e);
      }
    }
  }

  lemma FloorStarts(cfg: Config, s: State, e: Event, r: RunId, x: int)
    requires RunOk(cfg, s, r) && Delivers(s, e, r)
    requires InFlight(s, r).Some? && x == InFlight(s, r).value.expires <= s.now + cfg.skew(r) + cfg.ttl
    ensures Floor(cfg, Next(cfg, s, e), r, x)
  {
  }

  lemma {:induction false} TimeGoesOn(cfg: Config, h: seq<Event>, k: nat)
    requires k <= |h|
    ensures After(cfg, h[..k]).now <= After(cfg, h).now
  {
    if k == |h| {
      assert h[..k] == h;
    } else {
      var g := h[..|h| - 1];
      assert g[..k] == h[..k];
      TimeGoesOn(cfg, g, k);
      NowStep(cfg, After(cfg, g), h[|h| - 1]);
    }
  }

  lemma NowStep(cfg: Config, s: State, e: Event)
    ensures s.now <= Next(cfg, s, e).now
  {
  }

  /** Once a lease has been delivered, its run never holds an older one. */
  lemma {:induction false} DeliveredIsFloor(cfg: Config, h: seq<Event>, k: nat, j: nat, r: RunId)
    requires Carries(cfg, h, k, j, r)
    ensures Floor(cfg, After(cfg, h), r, After(cfg, h[..k]).now + cfg.skew(r) + cfg.ttl)
  {
    hide After, Next, RunOk, EntryOk, Floor, InFlight, Delivers, Drafts;
    var n := |h| - 1;
    var g := h[..n];
    Reachable(cfg, g);
    AfterLast(cfg, h);
    if j == n {
      DeliveredIs(cfg, h, k, j, r);
      assert g[..k] == h[..k];
      TimeGoesOn(cfg, g, k);
      FloorStarts(cfg, After(cfg, g), h[n], r, After(cfg, h[..k]).now + cfg.skew(r) + cfg.ttl);
    } else {
      assert g[..k] == h[..k] && g[..j] == h[..j] && g[k] == h[k] && g[j] == h[j];
      assert forall m :: k < m < j ==> g[..m] == h[..m] && g[m] == h[m];
      assert Drafts(cfg, g, k, r) by { DraftsPrefix(cfg, h, k, r); }
      DeliveredIsFloor(cfg, g, k, j, r);
      FloorStep(cfg, After(cfg, g), h[n], r, After(cfg, h[..k]).now + cfg.skew(r) + cfg.ttl);
    }
  }

  /**
   At every moment, on the clock of each other run, less than a lease duration has passed since the
   holder prepared a lease that it has delivered in the meantime.
   */
  ghost predicate RenewsInTime(cfg: Config, h: seq<Event>, from: nat, r: RunId) {
    forall i, q: RunId :: from <= i < |h| && q != r ==> Covered(cfg, h[..i], q, r)
  }

  ghost predicate Covered(cfg: Config, h: seq<Event>, q: RunId, r: RunId) {
    exists k: nat, j: nat :: Carries(cfg, h, k, j, r) && Clock(cfg, After(cfg, h), q) - Clock(cfg, After(cfg, h[..k]), r) < cfg.ttl
  }

  /** The run neither ends nor loses a reply. */
  predicate GoesOn(cfg: Config, e: Event, r: RunId) {
    && (e.ReleaseRead? || e.ReleaseDelete? || e.ReleaseError? || e.RenewError? ==> e.run != r)
    && (e.Die? ==> e.home != cfg.home(r))
  }

  predicate KeepsGoing(cfg: Config, h: seq<Event>, from: nat, r: RunId) {
    forall i :: from <= i < |h| ==> GoesOn(cfg, h[i], r)
  }

  lemma TimelyStep(cfg: Config, s: State, e: Event, r: RunId)
    requires RunOk(cfg, s, r) && (!e.Tick? && !e.Die? ==> RunOk(cfg, s, e.run))
    requires Holds(s, r) && !Lost(s, r) && RunOf(s, r).phase.Active? && GoesOn(cfg, e, r)
    requires e.Take? && e.run != r ==> Clock(cfg, s, e.run) < RunOf(s, r).held.value.expires
    ensures Holds(Next(cfg, s, e), r) && !Lost(Next(cfg, s, e), r) && RunOf(Next(cfg, s, e), r).phase.Active?
  {
  }

  lemma CoveredIsHeld(cfg: Config, h: seq<Event>, q: RunId, r: RunId)
    requires Covered(cfg, h, q, r) && Holds(After(cfg, h), r) && !Lost(After(cfg, h), r)
    ensures Clock(cfg, After(cfg, h), q) < RunOf(After(cfg, h), r).held.value.expires
  {
    hide After;
    var k: nat, j: nat :| Carries(cfg, h, k, j, r) && Clock(cfg, After(cfg, h), q) - Clock(cfg, After(cfg, h[..k]), r) < cfg.ttl;
    DeliveredIsFloor(cfg, h, k, j, r);
  }

  /** A holder that prepares and delivers its renewals in time is never displaced and never loses its lease. */
  lemma {:induction false} TimelyHolderIsNeverDisplaced(cfg: Config, h: seq<Event>, from: nat, r: RunId)
    requires from <= |h| && Holds(After(cfg, h[..from]), r) && !Lost(After(cfg, h[..from]), r)
    requires RunOf(After(cfg, h[..from]), r).phase.Active?
    requires RenewsInTime(cfg, h, from, r) && KeepsGoing(cfg, h, from, r)
    ensures Holds(After(cfg, h), r) && !Lost(After(cfg, h), r) && RunOf(After(cfg, h), r).phase.Active?
  {
    hide Next, RunOk, EntryOk, Holds, Lost, GoesOn, Covered;
    if |h| == from {
      assert h[..from] == h;
    } else {
      var g, e := h[..|h| - 1], h[|h| - 1];
      assert g[..from] == h[..from];
      assert forall i :: from <= i < |g| ==> g[..i] == h[..i] && g[i] == h[i];
      TimelyHolderIsNeverDisplaced(cfg, g, from, r);
      if !e.Tick? && !e.Die? && e.run != r {
        assert Covered(cfg, g, e.run, r);
        CoveredIsHeld(cfg, g, e.run, r);
      }
      Reachable(cfg, g);
      assert h[..|h| - 1] == g && GoesOn(cfg, h[|h| - 1], r);
      TimelyStep(cfg, After(cfg, g), e, r);
    }
  }

  // ---------------------------------------------------------------------------
  // losing the lease
  // ---------------------------------------------------------------------------

  /** The run is at work but the stored object is not the one it last wrote. */
  predicate Displaced(s: State, r: RunId) {
    Writing(s, r) && !Holds(s, r)
  }

  lemma DisplacedOwnStep(cfg: Config, s: State, e: Event, r: RunId)
    requires RunOk(cfg, s, r) && !e.Tick? && !e.Die? && e.run == r && Displaced(s, r)
    ensures !Holds(Next(cfg, s, e), r)
    ensures Writing(Next(cfg, s, e), r) ==>
              (Lost(Next(cfg, s, e), r) <==> Lost(s, r) || AttemptsRenewal(s, e, r))
    ensures !Writing(Next(cfg, s, e), r) ==> Gone(Next(cfg, s, e), r)
  {
  }

  lemma DeathStep(cfg: Config, s: State, home: HomeId, r: RunId)
    ensures var s' := Next(cfg, s, Die(home));
            s'.stored == s.stored && RunOf(s', r).held == RunOf(s, r).held && RunOf(s', r).lost == RunOf(s, r).lost
            && (RunOf(s', r).phase == RunOf(s, r).phase || RunOf(s', r).phase.Ended?)
  {
  }

  /** Once displaced, a run never holds the lease again. */
  lemma DisplacedStep(cfg: Config, s: State, e: Event, r: RunId)
    requires RunOk(cfg, s, r) && (!e.Tick? && !e.Die? ==> RunOk(cfg, s, e.run)) && Displaced(s, r)
    ensures !Holds(Next(cfg, s, e), r)
    ensures Writing(Next(cfg, s, e), r) ==>
              (Lost(Next(cfg, s, e), r) <==> Lost(s, r) || AttemptsRenewal(s, e, r))
    ensures !Writing(Next(cfg, s, e), r) ==> Gone(Next(cfg, s, e), r)
  {
    hide Next;
    if e.Die? {
      DeathStep(cfg, s, e.home, r);
    } else if !e.Tick? && e.run == r {
      DisplacedOwnStep(cfg, s, e, r);
    } else {
      OthersLeave(cfg, s, e, r);
      StoredStep(cfg, s, e);
    }
  }

  predicate Gone(s: State, r: RunId) {
    RunOf(s, r).phase.Leaving? || RunOf(s, r).phase.Ended?
  }

  /** A prepared renewal reaches the store, or fails on the way. */
  predicate AttemptsRenewal(s: State, e: Event, r: RunId) {
    (e.RenewPut? || e.RenewError?) && e.run == r && RunOf(s, r).renewal.Some?
  }

  ghost predicate Attempted(cfg: Config, h: seq<Event>, from: nat, r: RunId) {
    exists i :: from <= i < |h| && AttemptsRenewal(After(cfg, h[..i]), h[i], r)
  }

  /**
   A displaced run stays displaced until it ends, and it knows that it lost the lease exactly from
   its first renewal attempt on.
   */
  lemma {:induction false} DisplacedRunsLearnIt(cfg: Config, h: seq<Event>, from: nat, r: RunId)
    requires from <= |h| && Displaced(After(cfg, h[..from]), r) && !Lost(After(cfg, h[..from]), r)
    ensures !Holds(After(cfg, h), r)
    ensures Displaced(After(cfg, h), r) || Gone(After(cfg, h), r)
    ensures Writing(After(cfg, h), r) ==> (Lost(After(cfg, h), r) <==> Attempted(cfg, h, from, r))
  {
    hide Next, RunOk, EntryOk;
    if |h| == from {
      assert h[..from] == h;
    } else {
      var g, e := h[..|h| - 1], h[|h| - 1];
      assert g[..from] == h[..from];
      DisplacedRunsLearnIt(cfg, g, from, r);
      AttemptedGrows(cfg, h, from, r);
      Reachable(cfg, g);
      if Displaced(After(cfg, g), r) {
        DisplacedStep(cfg, After(cfg, g), e, r);
      } else {
        GoneStays(cfg, After(cfg, g), e, r);
      }
    }
  }

  lemma AttemptedGrows(cfg: Config, h: seq<Event>, from: nat, r: RunId)
    requires from < |h|
    ensures var n := |h| - 1;
            Attempted(cfg, h, from, r) <==>
              Attempted(cfg, h[..n], from, r) || AttemptsRenewal(After(cfg, h[..n]), h[n], r)
  {
    hide AttemptsRenewal, After;
    var n := |h| - 1;
    var g := h[..n];
    assert forall i :: from <= i < n ==> g[..i] == h[..i] && g[i] == h[i];
    if Attempted(cfg, g, from, r) {
      var i :| from <= i < |g| && AttemptsRenewal(After(cfg, g[..i]), g[i], r);
      assert AttemptsRenewal(After(cfg, h[..i]), h[i], r);
    }
    if Attempted(cfg, h, from, r) {
      var i :| from <= i < |h| && AttemptsRenewal(After(cfg, h[..i]), h[i], r);
      if i < n {
        assert AttemptsRenewal(After(cfg, g[..i]), g[i], r);
      }
    }
  }

  lemma GoneOwnStep(cfg: Config, s: State, e: Event, r: RunId)
    requires Gone(s, r) && !e.Tick? && !e.Die? && e.run == r
    ensures Gone(Next(cfg, s, e), r)
  {
  }

  lemma GoneStays(cfg: Config, s: State, e: Event, r: RunId)
    requires Gone(s, r)
    ensures Gone(Next(cfg, s, e), r)
  {
    hide Next;
    if e.Die? {
      DeathStep(cfg, s, e.home, r);
    } else if !e.Tick? && e.run == r {
      GoneOwnStep(cfg, s, e, r);
    } else {
      OthersLeave(cfg, s, e, r);
    }
  }

  /** A lost lease stays lost. */
  lemma LostStays(cfg: Config, s: State, e: Event, r: RunId)
    requires Lost(s, r)
    ensures Lost(Next(cfg, s, e), r)
  {
  }

  // ---------------------------------------------------------------------------
  // the check
  // ---------------------------------------------------------------------------

  /** A run enters itself into the registry of its home. */
  predicate Registers(s: State, e: Event, r: RunId) {
    e == Register(r) && RunOf(s, r).phase.Entering?
  }

  /** Event i enters another run of the same home while this one is at work. */
  ghost predicate Replaces(cfg: Config, h: seq<Event>, i: nat, r: RunId)
    requires i < |h|
  {
    var s := After(cfg, h[..i]);
    AtWork(s, r) && h[i].Register? && h[i].run != r && cfg.home(h[i].run) == cfg.home(r) && Registers(s, h[i], h[i].run)
  }

  /** Another run of the same home has registered since this one did. */
  ghost predicate Superseded(cfg: Config, h: seq<Event>, r: RunId) {
    exists i :: 0 <= i < |h| && Replaces(cfg, h, i, r)
  }

  lemma SupersededGrows(cfg: Config, h: seq<Event>, r: RunId)
    requires h != []
    ensures Superseded(cfg, h, r) <==> Superseded(cfg, h[..|h| - 1], r) || Replaces(cfg, h, |h| - 1, r)
  {
    hide After, AtWork, Registers;
    var n := |h| - 1;
    var g := h[..n];
    assert forall i :: 0 <= i < n ==> g[..i] == h[..i] && g[i] == h[i];
    if Superseded(cfg, g, r) {
      var i :| 0 <= i < |g| && Replaces(cfg, g, i, r);
      assert Replaces(cfg, h, i, r);
    }
    if Superseded(cfg, h, r) {
      var i :| 0 <= i < |h| && Replaces(cfg, h, i, r);
      if i < n {
        assert Replaces(cfg, g, i, r);
      }
    }
  }

  lemma WorkStep(cfg: Config, s: State, e: Event, r: RunId)
    ensures AtWork(s, r) || RunOf(s, r).phase.Ended? ==> AtWork(Next(cfg, s, e), r) || RunOf(Next(cfg, s, e), r).phase.Ended?
  {
  }

  /** A run that is not at work yet has not been superseded. */
  lemma {:induction false} NotYetSuperseded(cfg: Config, h: seq<Event>, r: RunId)
    requires !AtWork(After(cfg, h), r) && !RunOf(After(cfg, h), r).phase.Ended?
    ensures !Superseded(cfg, h, r)
  {
    hide Next, AtWork;
    if h != [] {
      var n := |h| - 1;
      WorkStep(cfg, After(cfg, h[..n]), h[n], r);
      NotYetSuperseded(cfg, h[..n], r);
      SupersededGrows(cfg, h, r);
    }
  }

  lemma EntryKept(cfg: Config, s: State, e: Event, r: RunId)
    requires AtWork(s, r) && AtWork(Next(cfg, s, e), r) && EntryOk(cfg, s, cfg.home(r))
    requires !(e.Register? && e.run != r && cfg.home(e.run) == cfg.home(r) && Registers(s, e, e.run))
    ensures Entry(cfg, Next(cfg, s, e), r) == Some(r) <==> Entry(cfg, s, r) == Some(r)
  {
  }

  lemma EntryReplaced(cfg: Config, s: State, q: RunId, r: RunId)
    requires q != r && cfg.home(q) == cfg.home(r) && Registers(s, Register(q), q)
    ensures Entry(cfg, Next(cfg, s, Register(q)), r) == Some(q)
  {
  }

  lemma EntryMade(cfg: Config, s: State, e: Event, r: RunId)
    requires !AtWork(s, r) && AtWork(Next(cfg, s, e), r)
    ensures Registers(s, e, r) && Entry(cfg, Next(cfg, s, e), r) == Some(r)
  {
  }

  /** The entry of its home is a working run's own exactly until another run of that home registers. */
  lemma {:induction false} EntryIsOwn(cfg: Config, h: seq<Event>, r: RunId)
    requires AtWork(After(cfg, h), r)
    ensures Entry(cfg, After(cfg, h), r) == Some(r) <==> !Superseded(cfg, h, r)
  {
    hide Next, AtWork, Entry, EntryOk, RunOk, Registers, Superseded;
    assert h != [] by { NothingAtWork(cfg, r); }
    var g, e := h[..|h| - 1], h[|h| - 1];
    var s := After(cfg, g);
    SupersededGrows(cfg, h, r);
    if AtWork(s, r) {
      EntryIsOwn(cfg, g, r);
      Reachable(cfg, g);
      if Replaces(cfg, h, |h| - 1, r) {
        EntryReplaced(cfg, s, e.run, r);
      } else {
        EntryKept(cfg, s, e, r);
      }
    } else {
      EntryMade(cfg, s, e, r);
      EnteringIsNotEnded(s, e, r);
      NotYetSuperseded(cfg, g, r);
    }
  }

  lemma NothingAtWork(cfg: Config, r: RunId)
    ensures !AtWork(After(cfg, []), r)
  {
  }

  lemma EnteringIsNotEnded(s: State, e: Event, r: RunId)
    requires Registers(s, e, r)
    ensures !RunOf(s, r).phase.Ended?
  {
  }

  /**
   A run that lost its lease fails the check exactly as long as no other run of its home has
   registered since, and beyond that only while the run that registered last has lost its own.
   */
  lemma LostRunsFailTheCheck(cfg: Config, h: seq<Event>, r: RunId)
    requires AtWork(After(cfg, h), r) && Lost(After(cfg, h), r)
    ensures var entry := Entry(cfg, After(cfg, h), r);
            !Passes(cfg, After(cfg, h), r) <==>
              !Superseded(cfg, h, r) || (entry.Some? && entry.value != r && Lost(After(cfg, h), entry.value))
  {
    EntryIsOwn(cfg, h, r);
  }

  /** With a home to itself, a working run passes the check exactly as long as it has not lost its lease. */
  lemma AloneOnItsHome(cfg: Config, h: seq<Event>, r: RunId)
    requires AtWork(After(cfg, h), r) && forall q: RunId :: cfg.home(q) == cfg.home(r) ==> q == r
    ensures Passes(cfg, After(cfg, h), r) <==> !Lost(After(cfg, h), r)
  {
    EntryIsOwn(cfg, h, r);
    assert !Superseded(cfg, h, r);
  }

  /** What one run has written. */
  function WritesOf(writes: seq<Written>, r: RunId): (mine: seq<Written>)
  {
    if writes == [] then []
    else WritesOf(writes[..|writes| - 1], r) + (if writes[|writes| - 1].run == r then [writes[|writes| - 1]] else [])
  }

  /** What a run has written, counting a write that has passed the check already. */
  function WritesDue(s: State, r: RunId): seq<Written> {
    WritesOf(s.writes, r) + (if RunOf(s, r).cleared.Some? then [Written(r, RunOf(s, r).cleared.value)] else [])
  }

  lemma WritesStep(cfg: Config, s: State, e: Event)
    ensures Next(cfg, s, e).writes ==
              if e.Write? && RunOf(s, e.run).phase.Active? && RunOf(s, e.run).cleared.Some?
              then s.writes + [Written(e.run, RunOf(s, e.run).cleared.value)] else s.writes
  {
  }

  lemma ClearedStep(cfg: Config, s: State, e: Event, r: RunId)
    ensures RunOf(Next(cfg, s, e), r).cleared ==
              if e.Check? && e.run == r && RunOf(s, r).phase.Active? then (if Passes(cfg, s, r) then Some(e.kind) else None)
              else if e.Write? && e.run == r && RunOf(s, r).phase.Active? then None
              else RunOf(s, r).cleared
  {
    hide Passes;
  }

  lemma WriteStep(cfg: Config, s: State, e: Event, r: RunId)
    requires e.Check? && e.run == r && RunOf(s, r).phase.Active? ==> !Passes(cfg, s, r)
    ensures WritesOf(s.writes, r) <= WritesOf(Next(cfg, s, e).writes, r)
    ensures WritesDue(Next(cfg, s, e), r) <= WritesDue(s, r)
  {
    hide Next, Passes;
    WritesStep(cfg, s, e);
    ClearedStep(cfg, s, e, r);
    if e.Write? && RunOf(s, e.run).phase.Active? && RunOf(s, e.run).cleared.Some? {
      assert Next(cfg, s, e).writes[..|s.writes|] == s.writes;
    }
  }

  /**
   A run that has lost its lease commits, flushes and compacts nothing more, unless another run of
   its own home registers: all it may still do is the one write it had cleared before.
   */
  lemma {:induction false} LostRunsWriteNothing(cfg: Config, h: seq<Event>, from: nat, r: RunId)
    requires from <= |h| && AtWork(After(cfg, h[..from]), r) && Lost(After(cfg, h[..from]), r) && !Superseded(cfg, h, r)
    ensures WritesOf(After(cfg, h[..from]).writes, r) <= WritesOf(After(cfg, h).writes, r)
    ensures WritesDue(After(cfg, h), r) <= WritesDue(After(cfg, h[..from]), r)
    ensures Lost(After(cfg, h), r) && (AtWork(After(cfg, h), r) || RunOf(After(cfg, h), r).phase.Ended?)
  {
    hide Next, Lost, Passes, Superseded, WritesOf, WritesDue;
    if |h| == from {
      assert h[..from] == h;
    } else {
      var g, e := h[..|h| - 1], h[|h| - 1];
      assert g[..from] == h[..from];
      SupersededGrows(cfg, h, r);
      LostRunsWriteNothing(cfg, g, from, r);
      LostStays(cfg, After(cfg, g), e, r);
      WorkStep(cfg, After(cfg, g), e, r);
      if AtWork(After(cfg, g), r) {
        LostRunsFailTheCheck(cfg, g, r);
      }
      WriteStep(cfg, After(cfg, g), e, r);
    }
  }

  lemma EndedStep(cfg: Config, s: State, e: Event, r: RunId)
    requires RunOf(s, r).phase.Ended?
    ensures RunOf(Next(cfg, s, e), r).phase.Ended? && WritesOf(Next(cfg, s, e).writes, r) == WritesOf(s.writes, r)
  {
    hide WritesOf;
    if Next(cfg, s, e).writes != s.writes {
      OneMoreWrite(s.writes, Written(e.run, RunOf(s, e.run).cleared.value), r);
    }
  }

  lemma OneMoreWrite(writes: seq<Written>, w: Written, r: RunId)
    ensures WritesOf(writes + [w], r) == WritesOf(writes, r) + (if w.run == r then [w] else [])
  {
    assert (writes + [w])[..|writes|] == writes;
  }

  lemma DeathEnds(cfg: Config, s: State, home: HomeId, r: RunId)
    requires cfg.home(r) == home && r in s.runs
    ensures RunOf(Next(cfg, s, Die(home)), r).phase.Ended? && Entry(cfg, Next(cfg, s, Die(home)), r).None?
  {
  }

  lemma NoEntryStep(cfg: Config, s: State, e: Event, r: RunId)
    requires Entry(cfg, s, r).None? && !(e.Register? && cfg.home(e.run) == cfg.home(r))
    ensures Entry(cfg, Next(cfg, s, e), r).None?
  {
  }

  /**
   When the process of a home dies, its runs commit, flush and compact nothing more, and its registry
   has no entry until a run registers there again.
   */
  lemma {:induction false} DeadRunsWriteNothing(cfg: Config, h: seq<Event>, at: nat, r: RunId)
    requires at < |h| && h[at] == Die(cfg.home(r)) && r in After(cfg, h[..at]).runs
    ensures RunOf(After(cfg, h), r).phase.Ended?
    ensures WritesOf(After(cfg, h).writes, r) == WritesOf(After(cfg, h[..at]).writes, r)
    ensures (forall i :: at < i < |h| && h[i].Register? ==> cfg.home(h[i].run) != cfg.home(r)) ==> Entry(cfg, After(cfg, h), r).None?
  {
    hide Next, WritesOf, Entry, After;
    var g, e := h[..|h| - 1], h[|h| - 1];
    AfterLast(cfg, h);
    if at == |h| - 1 {
      DeathEnds(cfg, After(cfg, g), cfg.home(r), r);
      WritesStep(cfg, After(cfg, g), e);
    } else {
      assert g[..at] == h[..at] && g[at] == h[at];
      assert forall i :: at < i < |g| ==> g[i] == h[i];
      DeadRunsWriteNothing(cfg, g, at, r);
      EndedStep(cfg, After(cfg, g), e, r);
      if Entry(cfg, After(cfg, g), r).None? && !(e.Register? && cfg.home(e.run) == cfg.home(r)) {
        NoEntryStep(cfg, After(cfg, g), e, r);
      }
    }
  }

  /** A run that ends deletes no lease but its own. */
  lemma ReleaseDeletesOwnLease(cfg: Config, h: seq<Event>, e: Event)
    requires After(cfg, h).stored.Some? && Next(cfg, After(cfg, h), e).stored.None?
    ensures (e.ReleaseDelete? || e.ReleaseError?) && e.run == After(cfg, h).stored.value.owner
  {
    OnlyExpiredLeasesAreTaken(cfg, h, e);
    Reachable(cfg, h);
    if !e.Tick? && !e.Die? {
      assert RunOk(cfg, After(cfg, h), e.run);
    }
  }

  // ---------------------------------------------------------------------------
  // two runs at once
  // ---------------------------------------------------------------------------

  lemma AfterAppend(cfg: Config, h: seq<Event>, e: Event)
    ensures After(cfg, h + [e]) == Next(cfg, After(cfg, h), e)
  {
    hide Next;
    assert (h + [e])[..|h|] == h;
  }

  /** A run that has acquired its lease, registered, and nothing else. */
  function Fresh(tag: Tag): Run {
    Run(Active, Some(tag), false, None, None)
  }

  /** The first run creates the lease and registers. */
  lemma FirstHolds(cfg: Config)
    requires cfg.skew(1) == 0
    ensures var tag := Tag(1, cfg.ttl);
            After(cfg, [Start(1), Create(1), Register(1)]) == State(0, Some(tag), map[1 := Fresh(tag)], map[cfg.home(1) := 1], [])
  {
    hide After;
    var tag := Tag(1, cfg.ttl);
    assert After(cfg, []) == INITIAL by { AfterNothing(cfg); }
    AfterAppend(cfg, [], Start(1));
    assert [] + [Start(1)] == [Start(1)];
    assert After(cfg, [Start(1)]) == State(0, None, map[1 := Run(Creating(tag), None, false, None, None)], map[], []);
    AfterAppend(cfg, [Start(1)], Create(1));
    assert [Start(1)] + [Create(1)] == [Start(1), Create(1)];
    AfterAppend(cfg, [Start(1), Create(1)], Register(1));
    assert [Start(1), Create(1)] + [Register(1)] == [Start(1), Create(1), Register(1)];
  }

  lemma AfterNothing(cfg: Config)
    ensures After(cfg, []) == INITIAL
  {
  }

  /** Run 2 finds the lease, waits until it has expired, takes it and registers. */
  function Takeover(ttl: nat): seq<Event> {
    [Start(2), Create(2), Read(2), Tick(ttl), Judge(2), Prepare(2), Take(2), Register(2)]
  }

  /** A second run that found the lease of the first. */
  lemma SecondReads(cfg: Config, h: seq<Event>)
    requires cfg.skew(2) == 0
    requires var s := After(cfg, h); s.now == 0 && s.stored == Some(Tag(1, cfg.ttl)) && RunOf(s, 2) == NEW_RUN
    ensures var s := After(cfg, h);
            After(cfg, h + [Start(2), Create(2), Read(2), Tick(cfg.ttl)])
              == With(s, 2, Run(Judging(Tag(1, cfg.ttl)), None, false, None, None)).(now := cfg.ttl)
  {
    hide After;
    var s := After(cfg, h);
    AfterAppend(cfg, h, Start(2));
    AfterAppend(cfg, h + [Start(2)], Create(2));
    AfterAppend(cfg, h + [Start(2)] + [Create(2)], Read(2));
    AfterAppend(cfg, h + [Start(2)] + [Create(2)] + [Read(2)], Tick(cfg.ttl));
    assert h + [Start(2)] + [Create(2)] + [Read(2)] + [Tick(cfg.ttl)] == h + [Start(2), Create(2), Read(2), Tick(cfg.ttl)];
    var s1 := With(s, 2, Run(Creating(Tag(2, cfg.ttl)), None, false, None, None));
    assert Next(cfg, s, Start(2)) == s1;
    var s2 := With(s, 2, Run(Reading, None, false, None, None));
    assert Next(cfg, s1, Create(2)) == s2;
    assert Next(cfg, s2, Read(2)) == With(s, 2, Run(Judging(Tag(1, cfg.ttl)), None, false, None, None));
  }

  lemma SecondTakes(cfg: Config, h: seq<Event>)
    requires cfg.skew(2) == 0
    requires var s := After(cfg, h);
             s.now == cfg.ttl && s.stored == Some(Tag(1, cfg.ttl))
             && RunOf(s, 2) == Run(Judging(Tag(1, cfg.ttl)), None, false, None, None)
    ensures var s, mine := After(cfg, h), Tag(2, cfg.ttl + cfg.ttl);
            After(cfg, h + [Judge(2), Prepare(2), Take(2), Register(2)])
              == With(s, 2, Fresh(mine)).(stored := Some(mine), active := s.active[cfg.home(2) := 2])
  {
    hide After;
    var s, seen, mine := After(cfg, h), Tag(1, cfg.ttl), Tag(2, cfg.ttl + cfg.ttl);
    AfterAppend(cfg, h, Judge(2));
    AfterAppend(cfg, h + [Judge(2)], Prepare(2));
    AfterAppend(cfg, h + [Judge(2)] + [Prepare(2)], Take(2));
    AfterAppend(cfg, h + [Judge(2)] + [Prepare(2)] + [Take(2)], Register(2));
    assert h + [Judge(2)] + [Prepare(2)] + [Take(2)] + [Register(2)] == h + [Judge(2), Prepare(2), Take(2), Register(2)];
    var s1 := With(s, 2, Run(Expired(seen), None, false, None, None));
    assert Next(cfg, s, Judge(2)) == s1;
    var s2 := With(s, 2, Run(Taking(seen, mine), None, false, None, None));
    assert Next(cfg, s1, Prepare(2)) == s2;
    var s3 := With(s, 2, Run(Entering, Some(mine), false, None, None)).(stored := Some(mine));
    assert Next(cfg, s2, Take(2)) == s3;
    assert Next(cfg, s3, Register(2)) == With(s, 2, Fresh(mine)).(stored := Some(mine), active := s.active[cfg.home(2) := 2]);
  }

  lemma SecondWorks(cfg: Config, h: seq<Event>)
    requires cfg.skew(2) == 0
    requires var s := After(cfg, h); s.now == 0 && s.stored == Some(Tag(1, cfg.ttl)) && RunOf(s, 2) == NEW_RUN
    ensures var s, mine := After(cfg, h), Tag(2, cfg.ttl + cfg.ttl);
            After(cfg, h + Takeover(cfg.ttl))
              == With(s, 2, Fresh(mine)).(now := cfg.ttl, stored := Some(mine), active := s.active[cfg.home(2) := 2])
  {
    hide After, Next;
    var g := h + [Start(2), Create(2), Read(2), Tick(cfg.ttl)];
    SecondReads(cfg, h);
    SecondTakes(cfg, g);
    assert g + [Judge(2), Prepare(2), Take(2), Register(2)] == h + Takeover(cfg.ttl);
    var s := After(cfg, h);
    assert s.runs[2 := Run(Judging(Tag(1, cfg.ttl)), None, false, None, None)][2 := Fresh(Tag(2, cfg.ttl + cfg.ttl))]
        == s.runs[2 := Fresh(Tag(2, cfg.ttl + cfg.ttl))];
  }

  /**
   The check does not work at once: between a takeover and the displaced run's next renewal both
   runs pass it, on one home or on two.
   */
  lemma TwoUnfencedWriters(cfg: Config)
    requires cfg.skew(1) == 0 && cfg.skew(2) == 0
    ensures exists h :: var s := After(cfg, h);
              RunOf(s, 1).phase.Active? && RunOf(s, 2).phase.Active? && Displaced(s, 1) && Holds(s, 2)
              && Passes(cfg, s, 1) && Passes(cfg, s, 2)
  {
    hide After, Next;
    var h := [Start(1), Create(1), Register(1)];
    FirstHolds(cfg);
    SecondWorks(cfg, h);
    var s := After(cfg, h + Takeover(cfg.ttl));
    assert Displaced(s, 1) && Holds(s, 2) && Passes(cfg, s, 1) && Passes(cfg, s, 2);
  }

  /** The renewal of run 1 fails, and it learns that. */
  lemma FirstLoses(cfg: Config)
    requires cfg.skew(1) == 0
    ensures var tag := Tag(1, cfg.ttl);
            After(cfg, [Start(1), Create(1), Register(1), RenewPrepare(1), RenewError(1, false)])
              == State(0, Some(tag), map[1 := Fresh(tag).(lost := true)], map[cfg.home(1) := 1], [])
  {
    hide After;
    var h := [Start(1), Create(1), Register(1)];
    FirstHolds(cfg);
    AfterAppend(cfg, h, RenewPrepare(1));
    AfterAppend(cfg, h + [RenewPrepare(1)], RenewError(1, false));
    assert h + [RenewPrepare(1)] + [RenewError(1, false)]
        == [Start(1), Create(1), Register(1), RenewPrepare(1), RenewError(1, false)];
  }

  lemma WritesOnce(cfg: Config, h: seq<Event>, kind: Kind)
    requires var s := After(cfg, h); RunOf(s, 1).phase.Active? && RunOf(s, 1).cleared.None? && Passes(cfg, s, 1)
    ensures var s := After(cfg, h);
            After(cfg, h + [Check(1, kind), Write(1)]) == With(s, 1, RunOf(s, 1)).(writes := s.writes + [Written(1, kind)])
  {
    hide After;
    var s := After(cfg, h);
    AfterAppend(cfg, h, Check(1, kind));
    AfterAppend(cfg, h + [Check(1, kind)], Write(1));
    assert h + [Check(1, kind)] + [Write(1)] == h + [Check(1, kind), Write(1)];
    var s1 := With(s, 1, RunOf(s, 1).(cleared := Some(kind)));
    assert Next(cfg, s, Check(1, kind)) == s1;
    assert RunOf(s, 1).(cleared := Some(kind)).(cleared := None) == RunOf(s, 1);
  }

  /** Run 2 ends in good order and leaves no entry behind. */
  lemma SecondLeaves(cfg: Config, h: seq<Event>)
    requires var s := After(cfg, h);
             RunOf(s, 2).phase.Active? && Entry(cfg, s, 2) == Some(2) && s.stored.Some? && s.stored.value.owner == 2
    ensures var s := After(cfg, h);
            After(cfg, h + [ReleaseRead(2), ReleaseDelete(2), Unregister(2)])
              == With(s, 2, RunOf(s, 2).(phase := Ended)).(stored := None, active := s.active - {cfg.home(2)})
  {
    hide After;
    var s := After(cfg, h);
    AfterAppend(cfg, h, ReleaseRead(2));
    AfterAppend(cfg, h + [ReleaseRead(2)], ReleaseDelete(2));
    AfterAppend(cfg, h + [ReleaseRead(2)] + [ReleaseDelete(2)], Unregister(2));
    assert h + [ReleaseRead(2)] + [ReleaseDelete(2)] + [Unregister(2)] == h + [ReleaseRead(2), ReleaseDelete(2), Unregister(2)];
    var s1 := With(s, 2, RunOf(s, 2).(phase := Releasing(s.stored)));
    assert Next(cfg, s, ReleaseRead(2)) == s1;
    var s2 := With(s, 2, RunOf(s, 2).(phase := Leaving)).(stored := None);
    assert Next(cfg, s1, ReleaseDelete(2)) == s2;
    assert Next(cfg, s2, Unregister(2)) == With(s, 2, RunOf(s, 2).(phase := Ended)).(stored := None, active := s.active - {cfg.home(2)});
  }

  /** Run 1 has lost its lease. */
  function FirstLost(): seq<Event> {
    [Start(1), Create(1), Register(1), RenewPrepare(1), RenewError(1, false)]
  }

  /** Run 2 takes the lease over, and run 1 commits. */
  function Overtaken(ttl: nat): seq<Event> {
    Takeover(ttl) + [Check(1, Commit), Write(1)]
  }

  /** Run 2 ends, and run 1 flushes. */
  function LeftAlone(): seq<Event> {
    [ReleaseRead(2), ReleaseDelete(2), Unregister(2)] + [Check(1, Flush), Write(1)]
  }

  lemma CommitsAfterTakeover(cfg: Config)
    requires cfg.skew(1) == 0 && cfg.skew(2) == 0 && cfg.home(1) == cfg.home(2)
    ensures var tag, mine := Tag(1, cfg.ttl), Tag(2, cfg.ttl + cfg.ttl);
            After(cfg, FirstLost() + Overtaken(cfg.ttl))
              == State(cfg.ttl, Some(mine), map[1 := Fresh(tag).(lost := true), 2 := Fresh(mine)],
                       map[cfg.home(1) := 2], [Written(1, Commit)])
  {
    hide After, Next;
    FirstLoses(cfg);
    SecondWorks(cfg, FirstLost());
    var g := FirstLost() + Takeover(cfg.ttl);
    WritesOnce(cfg, g, Commit);
    assert g + [Check(1, Commit), Write(1)] == FirstLost() + Overtaken(cfg.ttl);
    var s := After(cfg, g);
    assert s.runs[1 := s.runs[1]] == s.runs;
  }

  lemma FlushesAfterwards(cfg: Config)
    requires cfg.skew(1) == 0 && cfg.skew(2) == 0 && cfg.home(1) == cfg.home(2)
    ensures var tag, mine := Tag(1, cfg.ttl), Tag(2, cfg.ttl + cfg.ttl);
            After(cfg, FirstLost() + Overtaken(cfg.ttl) + LeftAlone())
              == State(cfg.ttl, None, map[1 := Fresh(tag).(lost := true), 2 := Fresh(mine).(phase := Ended)],
                       map[], [Written(1, Commit), Written(1, Flush)])
  {
    hide After, Next, FirstLost, Overtaken;
    var h := FirstLost() + Overtaken(cfg.ttl);
    CommitsAfterTakeover(cfg);
    SecondLeaves(cfg, h);
    var k := h + [ReleaseRead(2), ReleaseDelete(2), Unregister(2)];
    WritesOnce(cfg, k, Flush);
    assert k + [Check(1, Flush), Write(1)] == h + LeftAlone();
    var s := After(cfg, k);
    assert s.runs[1 := s.runs[1]] == s.runs && s.active == map[];
  }

  /**
   A takeover on the same home lifts the fence: run 1 has lost its lease and fails the check; once
   run 2 has taken the lease over and registered, run 1 passes it and commits; and it still does
   after run 2 has ended.
   */
  lemma TakeoverLiftsTheFence(cfg: Config)
    requires cfg.skew(1) == 0 && cfg.skew(2) == 0 && cfg.home(1) == cfg.home(2)
    ensures exists h, g1, g2 ::
              && Lost(After(cfg, h), 1) && AtWork(After(cfg, h), 1) && !Passes(cfg, After(cfg, h), 1)
              && WritesOf(After(cfg, h).writes, 1) == []
              && Holds(After(cfg, h + g1), 2) && Displaced(After(cfg, h + g1), 1)
              && WritesOf(After(cfg, h + g1).writes, 1) == [Written(1, Commit)]
              && RunOf(After(cfg, h + g1 + g2), 2).phase.Ended?
              && WritesOf(After(cfg, h + g1 + g2).writes, 1) == [Written(1, Commit), Written(1, Flush)]
  {
    hide After, Next, FirstLost, Overtaken, LeftAlone, WritesOf;
    FirstLoses(cfg);
    assert FirstLost() == [Start(1), Create(1), Register(1), RenewPrepare(1), RenewError(1, false)] by { FirstLostIs(); }
    CommitsAfterTakeover(cfg);
    FlushesAfterwards(cfg);
    TwoWrites();
    assert Lost(After(cfg, FirstLost()), 1);
    assert Holds(After(cfg, FirstLost() + Overtaken(cfg.ttl)), 2);
    assert RunOf(After(cfg, FirstLost() + Overtaken(cfg.ttl) + LeftAlone()), 2).phase.Ended?;
  }

  lemma FirstLostIs()
    ensures FirstLost() == [Start(1), Create(1), Register(1), RenewPrepare(1), RenewError(1, false)]
  {
  }

  lemma TwoWrites()
    ensures WritesOf([], 1) == [] && WritesOf([Written(1, Commit)], 1) == [Written(1, Commit)]
    ensures WritesOf([Written(1, Commit), Written(1, Flush)], 1) == [Written(1, Commit), Written(1, Flush)]
  {
    assert [Written(1, Commit), Written(1, Flush)][..1] == [Written(1, Commit)];
    assert [Written(1, Commit)][..0] == [];
  }
}
