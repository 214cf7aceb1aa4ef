/**
 The two promises about whole runs: incremental equals from scratch, and the schedule changes
 order only.
 */
module Incremental {
  import opened Model
  import opened Ledger
  import opened Determined
  import opened Planning
  import opened Clean
  import opened Progress
  import opened Books
  import opened Durability
  import opened Semantics
  import opened Scheduler

  /** A pipeline, and a store it is run from, that the theorems speak about. */
  ghost predicate Admissible(w: World, origin: Store, p: Planner, steps: seq<Step>) {
    && Ordered(steps) && Fits(w, p.pipe, steps) && p.singles == Singles(steps)
    && ApartAlways(w, origin, p, steps)
  }

  /**
   Run a pipeline on whatever an arbitrary history of runs (whole, partial, forced or cut
   short), crashes, lost files, invalidations and collections has left behind.  The cells are
   those of the clean run, which knows no store at all, and the run's own commits extend that
   history, so the same can be said of the next run.  Every cell is planned exactly once, executed
   exactly if it was not reused, and means what its step declares; all of it survives a crash.  A run
   whose planning raises has done all this for the steps before that one.
   */
  method RunAfter(w: World, p: Planner, steps: seq<Step>, force: bool, deep: bool, store: Store, ghost h: seq<Event>)
    returns (ok: bool, cells: Cells, tally: map<string, Tally>, after: Store, ghost log: seq<Event>,
             ghost decided: seq<Decision>, ghost ran: seq<Job>, ghost upTo: nat)
    requires Admissible(w, store, p, steps) && (deep ==> ExpandsAlone(steps))
    requires FaithfulHistory(w, EMPTY, h) && store == Replay(w.spills, EMPTY, h)
    ensures ok <==> CleanRun(w, p, steps).Some?
    ensures ok ==> cells == CleanRun(w, p, steps).value && upTo == |steps|
    ensures !ok ==> upTo < |steps| && CleanRun(w, p, steps[..upTo + 1]).None?
    ensures upTo <= |steps| && CleanRun(w, p, steps[..upTo]) == Some(cells) && AllTallied(store, steps, cells, tally)
    ensures PlannedOnce(p, steps, 0, upTo, cells, decided)
    ensures DecisionsBooked(w.spills, store, log, p, steps, force, decided)
    ensures FaithfulHistory(w, EMPTY, h + log) && after == Replay(w.spills, EMPTY, h + log) && AllGrow(log)
    ensures AllMeant(w, p, steps, upTo, cells) && (!ok ==> Raises(p, steps[upTo], cells))
    ensures Durable(w, after, p.pipe, steps, upTo, cells, decided) && Executed(decided, ran)
  {
    hide AllMeant, Raises, Durable, Executed, CleanRun, FaithfulHistory, StoreInv, AllTallied, Ordered, Fits, ApartAlways, ExpandsAlone, PlannedOnce,
         DecisionsBooked, AllGrow;
    EmptyStoreInv(w);
    StoreInvKept(w, EMPTY, h);
    var run := new Run(w, p, steps, force, store);
    ok, upTo := run.RunAll(deep);
    assert steps[..|steps|] == steps;
    cells, tally, after, log, decided, ran := run.cells, run.tally, run.store, run.log, run.decided, run.ran;
    HistoryContinues(w, h, log);
  }

  lemma EmptyStoreInv(w: World)
    ensures StoreInv(w, EMPTY)
  {
  }

  /** Histories compose. */
  lemma HistoryContinues(w: World, h: seq<Event>, log: seq<Event>)
    requires FaithfulHistory(w, EMPTY, h) && FaithfulHistory(w, Replay(w.spills, EMPTY, h), log)
    ensures FaithfulHistory(w, EMPTY, h + log)
    ensures Replay(w.spills, EMPTY, h + log) == Replay(w.spills, Replay(w.spills, EMPTY, h), log)
  {
    hide Legal, Faithful, Separate, Effect, Apply, Replay;
    var whole := h + log;
    forall i | 0 <= i < |whole|
      ensures var before := Replay(w.spills, EMPTY, whole[..i]);
              Legal(before, whole[i]) && Faithful(w, whole[i]) && Separate(before, whole[i])
    {
      if i < |h| {
        assert whole[..i] == h[..i] && whole[i] == h[i];
      } else {
        assert whole[..i] == h + log[..i - |h|] && whole[i] == log[i - |h|];
        ReplayConcat(w.spills, EMPTY, h, log[..i - |h|]);
      }
    }
    ReplayConcat(w.spills, EMPTY, h, log);
  }

  /** A run cut short at any point, between the two files of a flush, say, leaves a history, too. */
  lemma CutShort(w: World, h: seq<Event>, n: nat)
    requires FaithfulHistory(w, EMPTY, h) && n <= |h|
    ensures FaithfulHistory(w, EMPTY, h[..n]) && FaithfulHistory(w, EMPTY, h[..n] + [Crash])
  {
    hide Legal, Faithful, Separate, Effect, Apply, Replay;
    var g := h[..n] + [Crash];
    forall i | 0 <= i < n
      ensures g[..i] == h[..i] && h[..n][..i] == h[..i] && g[i] == h[i] && h[..n][i] == h[i]
    {
    }
    assert g[n] == Crash;
    CrashIsFaithful(w, Replay(w.spills, EMPTY, g[..n]));
  }

  lemma CrashIsFaithful(w: World, st: Store)
    ensures Legal(st, Crash) && Faithful(w, Crash) && Separate(st, Crash)
  {
  }

  /** The first step whose planning raises is found alike by every run that stops there. */
  lemma StopsAlike(w: World, p: Planner, steps: seq<Step>, n: nat, m: nat)
    requires n <= |steps| && m <= |steps| && CleanRun(w, p, steps[..n]).Some? && CleanRun(w, p, steps[..m]).Some?
    requires n < |steps| ==> CleanRun(w, p, steps[..n + 1]).None?
    requires m < |steps| ==> CleanRun(w, p, steps[..m + 1]).None?
    ensures n == m
  {
    hide CleanRun;
    if n < m {
      CleanPrefix(w, p, steps, m, n + 1);
      assert false;
    } else if m < n {
      CleanPrefix(w, p, steps, n, m + 1);
      assert false;
    }
  }

  /**
   Broad and deep, from the same store: the same verdict, the same cells, each planned once by
   both, and the same counts for every stored step whose lanes do not share children.  If planning
   raises, both stop at the same step, and all this is so for the steps before it.
   */
  method BothSchedules(w: World, p: Planner, steps: seq<Step>, force: bool, store: Store, ghost h: seq<Event>)
    returns (ok: bool, broad: Cells, deep: Cells, broadTally: map<string, Tally>, deepTally: map<string, Tally>,
             ghost broadDecided: seq<Decision>, ghost deepDecided: seq<Decision>, ghost upTo: nat)
    requires Admissible(w, store, p, steps) && ExpandsAlone(steps)
    requires FaithfulHistory(w, EMPTY, h) && store == Replay(w.spills, EMPTY, h)
    ensures ok <==> CleanRun(w, p, steps).Some?
    ensures upTo <= |steps| && CleanRun(w, p, steps[..upTo]) == Some(broad) && broad == deep
    ensures if ok then upTo == |steps| else upTo < |steps| && CleanRun(w, p, steps[..upTo + 1]).None?
    ensures PlannedOnce(p, steps, 0, upTo, broad, broadDecided) && PlannedOnce(p, steps, 0, upTo, deep, deepDecided)
    ensures forall i :: 0 <= i < |steps| && Counted(steps[i]) ==>
              steps[i].name in broadTally && steps[i].name in deepTally
              && broadTally[steps[i].name] == deepTally[steps[i].name]
  {
    hide AllMeant, Raises, Durable, Executed, CleanRun, FaithfulHistory, Admissible, Tallied, PlannedOnce, DecisionsBooked, ExpandsAlone;
    var okB, okD, after1, after2;
    ghost var log1, log2, ran1, ran2, upTo2;
    okB, broad, broadTally, after1, log1, broadDecided, ran1, upTo := RunAfter(w, p, steps, force, false, store, h);
    okD, deep, deepTally, after2, log2, deepDecided, ran2, upTo2 := RunAfter(w, p, steps, force, true, store, h);
    StopsAlike(w, p, steps, upTo, upTo2);
    ok := okB;
    forall i | 0 <= i < |steps| && Counted(steps[i])
      ensures steps[i].name in broadTally && steps[i].name in deepTally
           && broadTally[steps[i].name] == deepTally[steps[i].name]
    {
      CountsAreDetermined(store, broad, steps[i].name, broadTally[steps[i].name], deepTally[steps[i].name]);
    }
  }
}
