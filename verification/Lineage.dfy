/**
 Lineage: the breadth-first walk over derivation edges, and the invalidation built on it.
 */
module Lineage {
  import opened Model
  import opened Lanes

  /** A derivation edge row; the table may hold several rows for one pair. */
  datatype Edge = Edge(parent: Address, child: Address)

  function Here(e: Edge, downstream: bool): Address {
    if downstream then e.parent else e.child
  }

  function There(e: Edge, downstream: bool): Address {
    if downstream then e.child else e.parent
  }

  // ---------------------------------------------------------------------------
  // reachability
  // ---------------------------------------------------------------------------

  ghost predicate Step(edges: seq<Edge>, downstream: bool, a: Address, b: Address) {
    exists e :: e in edges && Here(e, downstream) == a && There(e, downstream) == b
  }

  /** b is n edges away from some seed. */
  ghost predicate Within(edges: seq<Edge>, downstream: bool, seeds: set<Address>, b: Address, n: nat)
    decreases n
  {
    if n == 0 then b in seeds
    else exists a :: Within(edges, downstream, seeds, a, n - 1) && Step(edges, downstream, a, b)
  }

  ghost predicate Reachable(edges: seq<Edge>, downstream: bool, seeds: set<Address>, b: Address) {
    exists n: nat :: Within(edges, downstream, seeds, b, n)
  }

  /** A walk along the edges: from parents to children, or back. */
  ghost predicate Path(edges: seq<Edge>, downstream: bool, path: seq<Address>) {
    forall i :: 0 <= i < |path| - 1 ==> (if downstream then Edge(path[i], path[i + 1]) else Edge(path[i + 1], path[i])) in edges
  }

  /** A walk of n edges from some seed ends at b. */
  ghost predicate Ends(edges: seq<Edge>, downstream: bool, seeds: set<Address>, b: Address, n: nat) {
    exists path: seq<Address> :: |path| == n + 1 && path[0] in seeds && path[n] == b && Path(edges, downstream, path)
  }

  lemma StepMeans(edges: seq<Edge>, downstream: bool, a: Address, b: Address)
    ensures Step(edges, downstream, a, b) <==> (if downstream then Edge(a, b) else Edge(b, a)) in edges
  {
    var e := if downstream then Edge(a, b) else Edge(b, a);
    assert Here(e, downstream) == a && There(e, downstream) == b;
  }

  /** What is n edges away are the ends of the walks of n edges. */
  lemma {:induction false} WithinMeans(edges: seq<Edge>, downstream: bool, seeds: set<Address>, b: Address, n: nat)
    ensures Within(edges, downstream, seeds, b, n) <==> Ends(edges, downstream, seeds, b, n)
    decreases n
  {
    hide Step;
    if n == 0 {
      if b in seeds {
        assert Path(edges, downstream, [b]) && [b][0] in seeds;
      }
    } else {
      if Within(edges, downstream, seeds, b, n) {
        var a :| Within(edges, downstream, seeds, a, n - 1) && Step(edges, downstream, a, b);
        WithinMeans(edges, downstream, seeds, a, n - 1);
        StepMeans(edges, downstream, a, b);
        var path: seq<Address> :| |path| == n && path[0] in seeds && path[n - 1] == a && Path(edges, downstream, path);
        assert Path(edges, downstream, path + [b]) && (path + [b])[n] == b && (path + [b])[0] in seeds;
      }
      if Ends(edges, downstream, seeds, b, n) {
        var path: seq<Address> :| |path| == n + 1 && path[0] in seeds && path[n] == b && Path(edges, downstream, path);
        var a := path[n - 1];
        assert Path(edges, downstream, path[..n]) && path[..n][n - 1] == a && path[..n][0] in seeds;
        WithinMeans(edges, downstream, seeds, a, n - 1);
        StepMeans(edges, downstream, a, b);
      }
    }
  }

  /** Reachable are the ends of all walks from the seeds. */
  lemma ReachableMeans(edges: seq<Edge>, downstream: bool, seeds: set<Address>, b: Address)
    ensures Reachable(edges, downstream, seeds, b) <==> exists n: nat :: Ends(edges, downstream, seeds, b, n)
  {
    hide Within, Ends;
    forall n: nat ensures Within(edges, downstream, seeds, b, n) <==> Ends(edges, downstream, seeds, b, n) {
      WithinMeans(edges, downstream, seeds, b, n);
    }
  }

  /** Distances are lengths of shortest walks. */
  lemma DistanceMeans(edges: seq<Edge>, downstream: bool, seeds: set<Address>, b: Address, n: nat)
    ensures Distance(edges, downstream, seeds, b, n) <==>
              Ends(edges, downstream, seeds, b, n) && forall m: nat :: m < n ==> !Ends(edges, downstream, seeds, b, m)
  {
    hide Within, Ends;
    forall m: nat ensures Within(edges, downstream, seeds, b, m) <==> Ends(edges, downstream, seeds, b, m) {
      WithinMeans(edges, downstream, seeds, b, m);
    }
  }

  /** The length of a shortest walk. */
  ghost predicate Distance(edges: seq<Edge>, downstream: bool, seeds: set<Address>, b: Address, n: nat) {
    Within(edges, downstream, seeds, b, n) && forall m: nat :: m < n ==> !Within(edges, downstream, seeds, b, m)
  }

  /** The rows whose near end lies in a set: the query of one round. */
  function Matching(edges: seq<Edge>, downstream: bool, at: set<Address>): (rows: seq<Edge>)
    ensures forall e :: e in rows <==> e in edges && Here(e, downstream) in at
  {
    if edges == [] then []
    else
      var before, e := Matching(edges[..|edges| - 1], downstream, at), edges[|edges| - 1];
      assert edges == edges[..|edges| - 1] + [e];
      if Here(e, downstream) in at then before + [e] else before
  }

  lemma {:induction false} MatchingUnion(edges: seq<Edge>, downstream: bool, a: set<Address>, b: set<Address>)
    requires a !! b
    ensures multiset(Matching(edges, downstream, a + b))
         == multiset(Matching(edges, downstream, a)) + multiset(Matching(edges, downstream, b))
  {
    if edges != [] {
      MatchingUnion(edges[..|edges| - 1], downstream, a, b);
    }
  }

  // ---------------------------------------------------------------------------
  // the walk
  // ---------------------------------------------------------------------------

  predicate Known(seeds: set<Address>, reached: map<Address, nat>, b: Address) {
    b in seeds || b in reached
  }

  /** Every reached node is recorded at its distance. */
  ghost predicate Measured(edges: seq<Edge>, downstream: bool, seeds: set<Address>, reached: map<Address, nat>, depth: nat) {
    forall b :: b in reached ==>
      b !in seeds && reached[b] <= depth && Distance(edges, downstream, seeds, b, reached[b])
  }

  /** Nothing this close is missing. */
  ghost predicate Covered(edges: seq<Edge>, downstream: bool, seeds: set<Address>, reached: map<Address, nat>, depth: nat) {
    forall b, n: nat :: n <= depth && Within(edges, downstream, seeds, b, n) ==> Known(seeds, reached, b)
  }

  /** The frontier is the last layer, and everything behind it has been expanded. */
  ghost predicate LastLayer(edges: seq<Edge>, downstream: bool, seeds: set<Address>,
                            reached: map<Address, nat>, frontier: set<Address>, depth: nat)
  {
    && (forall b :: b in frontier <==> if depth == 0 then b in seeds else b in reached && reached[b] == depth)
    && (forall e :: e in edges && Known(seeds, reached, Here(e, downstream)) && Here(e, downstream) !in frontier
          ==> Known(seeds, reached, There(e, downstream)))
  }

  ghost predicate Layers(edges: seq<Edge>, downstream: bool, seeds: set<Address>,
                         reached: map<Address, nat>, frontier: set<Address>, depth: nat)
  {
    && Measured(edges, downstream, seeds, reached, depth)
    && Covered(edges, downstream, seeds, reached, depth)
    && LastLayer(edges, downstream, seeds, reached, frontier, depth)
  }

  lemma FirstLayer(edges: seq<Edge>, downstream: bool, seeds: set<Address>)
    ensures Layers(edges, downstream, seeds, map[], seeds, 0)
  {
  }

  function NextLayer(edges: seq<Edge>, downstream: bool, seeds: set<Address>, reached: map<Address, nat>, frontier: set<Address>)
    : set<Address>
  {
    set e | e in Matching(edges, downstream, frontier)
         && There(e, downstream) !in reached && There(e, downstream) !in seeds :: There(e, downstream)
  }

  function Grown(reached: map<Address, nat>, next: set<Address>, depth: nat): map<Address, nat> {
    reached + (map b | b in next :: depth)
  }

  lemma LayerStep(edges: seq<Edge>, downstream: bool, seeds: set<Address>,
                  reached: map<Address, nat>, frontier: set<Address>, depth: nat)
    requires Layers(edges, downstream, seeds, reached, frontier, depth)
    ensures var next := NextLayer(edges, downstream, seeds, reached, frontier);
            Layers(edges, downstream, seeds, Grown(reached, next, depth + 1), next, depth + 1)
  {
    hide Within, Distance, NextLayer, LastLayer, Covered;
    var next := NextLayer(edges, downstream, seeds, reached, frontier);
    NextAreNew(edges, downstream, seeds, reached, frontier);
    forall b | b in next ensures Distance(edges, downstream, seeds, b, depth + 1) {
      NewcomersAreNext(edges, downstream, seeds, reached, frontier, depth, b);
    }
    CoverStep(edges, downstream, seeds, reached, frontier, depth);
    FrontierStep(edges, downstream, seeds, reached, frontier, depth);
  }

  lemma CoverStep(edges: seq<Edge>, downstream: bool, seeds: set<Address>,
                  reached: map<Address, nat>, frontier: set<Address>, depth: nat)
    requires Layers(edges, downstream, seeds, reached, frontier, depth)
    ensures var next := NextLayer(edges, downstream, seeds, reached, frontier);
            Covered(edges, downstream, seeds, Grown(reached, next, depth + 1), depth + 1)
  {
    hide Distance, NextLayer, LastLayer, Measured;
    var next := NextLayer(edges, downstream, seeds, reached, frontier);
    forall b, n: nat | n <= depth + 1 && Within(edges, downstream, seeds, b, n)
      ensures Known(seeds, Grown(reached, next, depth + 1), b)
    {
      if n == depth + 1 {
        var a :| Within(edges, downstream, seeds, a, n - 1) && Step(edges, downstream, a, b);
        NextHasNewcomers(edges, downstream, seeds, reached, frontier, depth, a, b);
      }
    }
  }

  lemma FrontierStep(edges: seq<Edge>, downstream: bool, seeds: set<Address>,
                     reached: map<Address, nat>, frontier: set<Address>, depth: nat)
    requires Layers(edges, downstream, seeds, reached, frontier, depth)
    ensures var next := NextLayer(edges, downstream, seeds, reached, frontier);
            LastLayer(edges, downstream, seeds, Grown(reached, next, depth + 1), next, depth + 1)
  {
    hide Distance, Covered, Within, Matching;
    var next := NextLayer(edges, downstream, seeds, reached, frontier);
    NextAreNew(edges, downstream, seeds, reached, frontier);
    var grown := Grown(reached, next, depth + 1);
    forall e | e in edges && Known(seeds, grown, Here(e, downstream)) && Here(e, downstream) !in next
      ensures Known(seeds, grown, There(e, downstream))
    {
      if Here(e, downstream) in frontier {
        assert e in Matching(edges, downstream, frontier);
      }
    }
  }

  lemma NextHasNewcomers(edges: seq<Edge>, downstream: bool, seeds: set<Address>,
                         reached: map<Address, nat>, frontier: set<Address>, depth: nat, a: Address, b: Address)
    requires Layers(edges, downstream, seeds, reached, frontier, depth)
    requires Within(edges, downstream, seeds, a, depth) && Step(edges, downstream, a, b)
    ensures Known(seeds, reached, b) || b in NextLayer(edges, downstream, seeds, reached, frontier)
  {
    hide Distance, Within, Matching;
    var e :| e in edges && Here(e, downstream) == a && There(e, downstream) == b;
    assert Known(seeds, reached, a);
    if a in frontier {
      assert e in Matching(edges, downstream, frontier);
    }
  }

  lemma NewcomersAreNext(edges: seq<Edge>, downstream: bool, seeds: set<Address>,
                         reached: map<Address, nat>, frontier: set<Address>, depth: nat, b: Address)
    requires Layers(edges, downstream, seeds, reached, frontier, depth)
    requires b in NextLayer(edges, downstream, seeds, reached, frontier)
    ensures Distance(edges, downstream, seeds, b, depth + 1)
  {
    hide Matching;
    var e :| e in Matching(edges, downstream, frontier) && There(e, downstream) == b;
    var a := Here(e, downstream);
    assert Within(edges, downstream, seeds, a, depth);
    assert Step(edges, downstream, a, b);
  }

  /** When the frontier is empty, the walk has everything. */
  lemma {:induction false} ClosedUnderSteps(edges: seq<Edge>, downstream: bool, seeds: set<Address>,
                                            reached: map<Address, nat>, depth: nat, b: Address, n: nat)
    requires Layers(edges, downstream, seeds, reached, {}, depth)
    requires Within(edges, downstream, seeds, b, n)
    ensures Known(seeds, reached, b)
    decreases n
  {
    if n > 0 {
      var a :| Within(edges, downstream, seeds, a, n - 1) && Step(edges, downstream, a, b);
      ClosedUnderSteps(edges, downstream, seeds, reached, depth, a, n - 1);
    }
  }

  /** The far ends of all edges: what the walk can ever reach. */
  function FarEnds(edges: seq<Edge>, downstream: bool): set<Address> {
    set e | e in edges :: There(e, downstream)
  }

  /**
   The walk.  It ends on any edge table, cycles included; it reaches exactly the nodes that can
   be reached and are not seeds, each with its shortest distance; and it reports every edge row
   leaving a seed or a reached node exactly as often as the table has it.
   */
  method Bfs(edges: seq<Edge>, seeds: set<Address>, downstream: bool)
    returns (reached: map<Address, nat>, seen: seq<Edge>)
    ensures forall b :: b in reached <==> b !in seeds && exists n: nat :: Ends(edges, downstream, seeds, b, n)
    ensures forall b :: b in reached ==>
              Ends(edges, downstream, seeds, b, reached[b])
              && forall m: nat :: m < reached[b] ==> !Ends(edges, downstream, seeds, b, m)
    ensures multiset(seen) == multiset(Matching(edges, downstream, seeds + reached.Keys))
  {
    hide Layers, Matching, Within, Distance, NextLayer, Ends, FarEnds, Grown, Reachable, Split, Left;
    reached, seen := map[], [];
    var frontier, depth := seeds, 0;
    ghost var expanded: set<Address> := {};
    FirstLayer(edges, downstream, seeds);
    NoneMatch(edges, downstream);
    assert Split(seeds, reached.Keys, expanded, frontier) by { SplitStart(seeds); }
    while frontier != {}
      invariant Layers(edges, downstream, seeds, reached, frontier, depth)
      invariant Split(seeds, reached.Keys, expanded, frontier)
      invariant multiset(seen) == multiset(Matching(edges, downstream, expanded))
      decreases Left(FarEnds(edges, downstream), reached), |frontier|
    {
      depth := depth + 1;
      var rows := Matching(edges, downstream, frontier);
      RoundSeen(edges, downstream, expanded, frontier, seeds, reached.Keys, seen);
      seen := seen + rows;
      LayerStep(edges, downstream, seeds, reached, frontier, depth - 1);
      var next := NextLayer(edges, downstream, seeds, reached, frontier);
      NextAreNew(edges, downstream, seeds, reached, frontier);
      SplitStep(seeds, reached, expanded, frontier, next, depth);
      LeftShrinks(FarEnds(edges, downstream), reached, next, depth);
      expanded := expanded + frontier;
      reached := Grown(reached, next, depth);
      frontier := next;
    }
    forall b ensures b in reached <==> b !in seeds && exists n: nat :: Ends(edges, downstream, seeds, b, n) {
      ReachableMeans(edges, downstream, seeds, b);
      if Reachable(edges, downstream, seeds, b) {
        AllReached(edges, downstream, seeds, reached, depth, b);
      }
      ReachedAtDistance(edges, downstream, seeds, reached, depth, b);
    }
    forall b | b in reached
      ensures Ends(edges, downstream, seeds, b, reached[b])
              && forall m: nat :: m < reached[b] ==> !Ends(edges, downstream, seeds, b, m)
    {
      DistanceMeans(edges, downstream, seeds, b, reached[b]);
      ReachedAtDistance(edges, downstream, seeds, reached, depth, b);
    }
    SplitDone(seeds, reached.Keys, expanded);
  }

  /** Expanded nodes and frontier make up everything known. */
  predicate Split(seeds: set<Address>, keys: set<Address>, expanded: set<Address>, frontier: set<Address>) {
    frontier !! expanded && frontier + expanded == seeds + keys
  }

  lemma SplitStart(seeds: set<Address>)
    ensures forall none: map<Address, nat> :: none == map[] ==> Split(seeds, none.Keys, {}, seeds)
  {
  }

  lemma SplitDone(seeds: set<Address>, keys: set<Address>, expanded: set<Address>)
    requires Split(seeds, keys, expanded, {})
    ensures expanded == seeds + keys
  {
  }

  lemma GrownKeys(reached: map<Address, nat>, next: set<Address>, depth: nat)
    ensures Grown(reached, next, depth).Keys == reached.Keys + next
  {
  }

  lemma SplitStep(seeds: set<Address>, reached: map<Address, nat>, expanded: set<Address>,
                  frontier: set<Address>, next: set<Address>, depth: nat)
    requires Split(seeds, reached.Keys, expanded, frontier) && next !! seeds && next !! reached.Keys
    ensures Split(seeds, Grown(reached, next, depth).Keys, expanded + frontier, next)
  {
    hide Grown;
    GrownKeys(reached, next, depth);
  }

  /** How many nodes the walk has not reached yet. */
  ghost function Left(ends: set<Address>, reached: map<Address, nat>): nat {
    |ends - reached.Keys|
  }

  lemma RoundSeen(edges: seq<Edge>, downstream: bool, expanded: set<Address>, frontier: set<Address>,
                  seeds: set<Address>, keys: set<Address>, seen: seq<Edge>)
    requires Split(seeds, keys, expanded, frontier)
    requires multiset(seen) == multiset(Matching(edges, downstream, expanded))
    ensures multiset(seen + Matching(edges, downstream, frontier)) == multiset(Matching(edges, downstream, expanded + frontier))
  {
    hide Matching;
    MatchingUnion(edges, downstream, expanded, frontier);
  }

  lemma LeftShrinks(ends: set<Address>, reached: map<Address, nat>, next: set<Address>, depth: nat)
    requires next <= ends && next !! reached.Keys
    ensures next == {} ==> Left(ends, Grown(reached, next, depth)) == Left(ends, reached) && |next| == 0
    ensures next != {} ==> Left(ends, Grown(reached, next, depth)) < Left(ends, reached)
  {
    hide Grown;
    GrownKeys(reached, next, depth);
    var left, grown := ends - reached.Keys, Grown(reached, next, depth);
    assert ends - grown.Keys == left - next;
    Shrinks(left, next);
  }

  lemma AllReached(edges: seq<Edge>, downstream: bool, seeds: set<Address>, reached: map<Address, nat>, depth: nat, b: Address)
    requires Layers(edges, downstream, seeds, reached, {}, depth) && Reachable(edges, downstream, seeds, b)
    ensures b in seeds || b in reached
  {
    hide Layers, Within;
    var n: nat :| Within(edges, downstream, seeds, b, n);
    ClosedUnderSteps(edges, downstream, seeds, reached, depth, b, n);
  }

  lemma NoneMatch(edges: seq<Edge>, downstream: bool)
    ensures Matching(edges, downstream, {}) == []
  {
  }

  lemma NextAreNew(edges: seq<Edge>, downstream: bool, seeds: set<Address>, reached: map<Address, nat>, frontier: set<Address>)
    ensures var next := NextLayer(edges, downstream, seeds, reached, frontier);
            next !! seeds && next !! reached.Keys && next <= FarEnds(edges, downstream)
  {
  }

  lemma Shrinks(left: set<Address>, next: set<Address>)
    requires next <= left
    ensures |left - next| == |left| - |next|
    ensures next != {} ==> |left - next| < |left|
  {
    assert (left - next) + next == left;
    if next != {} {
      var b :| b in next;
      assert |next| > 0;
    }
  }

  lemma ReachedAtDistance(edges: seq<Edge>, downstream: bool, seeds: set<Address>,
                          reached: map<Address, nat>, depth: nat, b: Address)
    requires Layers(edges, downstream, seeds, reached, {}, depth)
    ensures b in reached ==> b !in seeds && Distance(edges, downstream, seeds, b, reached[b])
                             && Reachable(edges, downstream, seeds, b)
  {
    hide Within;
    if b in reached {
      assert Within(edges, downstream, seeds, b, reached[b]);
    }
  }

  // ---------------------------------------------------------------------------
  // invalidation
  // ---------------------------------------------------------------------------

  function SetOf(addresses: seq<Address>): set<Address> {
    set a | a in addresses
  }

  lemma SetOfAppend(addresses: seq<Address>, more: seq<Address>)
    ensures SetOf(addresses + more) == SetOf(addresses) + SetOf(more)
  {
  }

  lemma NoneToFlip(live: set<Address>)
    ensures SetOf([]) == {} && live * SetOf([]) == {} && live - SetOf([]) == live
  {
  }

  /** Flipping one more address, first or not. */
  lemma OneMoreFlip(live: set<Address>, addresses: seq<Address>, n: nat, flipped: seq<Address>)
    requires n < |addresses| && SetOf(flipped) == live * SetOf(addresses[..n])
    ensures var a, done, more := addresses[n], SetOf(addresses[..n]), SetOf(addresses[..n + 1]);
            live - more == (live - done) - {a}
            && (a in live - done ==> SetOf(flipped + [a]) == live * more && |live * more| == |live * done| + 1)
            && (a !in live - done ==> live * more == live * done)
  {
    var a, done, more := addresses[n], SetOf(addresses[..n]), SetOf(addresses[..n + 1]);
    assert addresses[..n + 1] == addresses[..n] + [a];
    assert more == done + {a};
    if a in live - done {
      assert live * more == live * done + {a};
    } else {
      assert live * more == live * done;
    }
  }

  /** Liveness: the usage table, and the lane store that keeps a copy of its live addresses. */
  class Liveness {
    const lanes: LaneStore
    var usage: map<Address, bool>

    constructor (lanes: LaneStore, usage: map<Address, bool>)
      ensures this.lanes == lanes && this.usage == usage
    {
      this.lanes, this.usage := lanes, usage;
    }

    function Live(): set<Address>
      reads this
    {
      set a | a in usage && usage[a]
    }

    /** A loaded copy is the live set. */
    predicate Coherent()
      reads this, lanes`fulfilled
    {
      lanes.Coherent(Live())
    }

    method Flip(a: Address) returns (flipped: bool)
      requires Coherent()
      modifies this, lanes`fulfilled
      ensures Coherent() && flipped == (a in old(Live())) && Live() == old(Live()) - {a}
      ensures usage.Keys == old(usage).Keys
    {
      if a !in usage || !usage[a] {
        return false;
      }
      ghost var live := Live();
      usage := usage[a := false];
      assert Live() == live - {a};
      lanes.MarkUnfulfilled(a, live);
      return true;
    }

    /** Flip a list of addresses, which may repeat. */
    method FlipAll(addresses: seq<Address>) returns (count: nat, flipped: seq<Address>)
      requires Coherent()
      modifies this, lanes`fulfilled
      ensures Coherent() && Live() == old(Live()) - SetOf(addresses)
      ensures SetOf(flipped) == old(Live()) * SetOf(addresses)
      ensures count == |flipped| == |old(Live()) * SetOf(addresses)|
      ensures usage.Keys == old(usage).Keys
    {
      hide SetOf;
      count, flipped := 0, [];
      ghost var live := Live();
      NoneToFlip(live);
      for i := 0 to |addresses|
        invariant Coherent() && Live() == live - SetOf(addresses[..i])
        invariant SetOf(flipped) == live * SetOf(addresses[..i])
        invariant count == |flipped| == |live * SetOf(addresses[..i])|
        invariant usage.Keys == old(usage).Keys
      {
        OneMoreFlip(live, addresses, i, flipped);
        var hit := Flip(addresses[i]);
        if hit {
          count := count + 1;
          flipped := flipped + [addresses[i]];
        }
      }
      assert addresses[..|addresses|] == addresses;
    }

    /**
     Invalidation flips exactly the live members of the selection and, downstream, of whatever
     derives from the selection's live members; it touches nothing else; and its two counts
     add up to the number of flips however often an address was selected.
     */
    method Invalidate(selection: seq<Address>, edges: seq<Edge>, downstream: bool)
      returns (seedCount: nat, downstreamCount: nat, flipped: seq<Address>)
      requires Coherent()
      modifies this, lanes`fulfilled
      ensures Coherent() && usage.Keys == old(usage).Keys
      ensures Live() == old(Live()) - Doomed(old(Live()), selection, edges, downstream)
      ensures SetOf(flipped) == Doomed(old(Live()), selection, edges, downstream)
      ensures seedCount == |old(Live()) * SetOf(selection)|
      ensures seedCount + downstreamCount == |flipped| == |Doomed(old(Live()), selection, edges, downstream)|
    {
      hide SetOf, Doomed, Ends, Matching;
      ghost var live := Live();
      var descendants: seq<Address> := [];
      NoneToFlip(live);
      if downstream {
        var seeds := LiveSeeds(selection);
        var reached, _ := Bfs(edges, seeds, true);
        descendants := Listed(reached.Keys);
      }
      DoomedParts(live, selection, edges, downstream, descendants);
      var first, second;
      seedCount, first := FlipAll(selection);
      downstreamCount, second := FlipAll(descendants);
      flipped := first + second;
      SetOfAppend(first, second);
    }

    method LiveSeeds(selection: seq<Address>) returns (seeds: set<Address>)
      ensures seeds == SetOf(selection) * Live()
    {
      seeds := set s | s in selection && s in usage && usage[s];
    }
  }

  /** Derived, edge by edge from parent to child, from a live address of the selection. */
  ghost predicate Derived(live: set<Address>, selection: seq<Address>, edges: seq<Edge>, a: Address) {
    exists path: seq<Address> ::
      && path != [] && path[0] in live && path[0] in selection && path[|path| - 1] == a
      && forall i :: 0 <= i < |path| - 1 ==> Edge(path[i], path[i + 1]) in edges
  }

  /** What an invalidation is to flip. */
  ghost function Doomed(live: set<Address>, selection: seq<Address>, edges: seq<Edge>, downstream: bool): set<Address> {
    set a | a in live && (a in selection || (downstream && Derived(live, selection, edges, a)))
  }

  lemma DerivedMeans(live: set<Address>, selection: seq<Address>, edges: seq<Edge>, a: Address)
    ensures Derived(live, selection, edges, a) <==> exists n: nat :: Ends(edges, true, SetOf(selection) * live, a, n)
  {
    if Derived(live, selection, edges, a) {
      var path: seq<Address> :|
        && path != [] && path[0] in live && path[0] in selection && path[|path| - 1] == a
        && forall i :: 0 <= i < |path| - 1 ==> Edge(path[i], path[i + 1]) in edges;
      assert Path(edges, true, path);
      assert Ends(edges, true, SetOf(selection) * live, a, |path| - 1);
    }
    if n: nat :| Ends(edges, true, SetOf(selection) * live, a, n) {
      var path: seq<Address> :| |path| == n + 1 && path[0] in SetOf(selection) * live && path[n] == a && Path(edges, true, path);
      assert path != [] && path[|path| - 1] == a;
      assert forall i :: 0 <= i < |path| - 1 ==> Edge(path[i], path[i + 1]) in edges;
    }
  }

  /** A live child of a live selected address is flipped, and so is every live child of what derives from one. */
  lemma ChildrenAreDoomed(live: set<Address>, selection: seq<Address>, edges: seq<Edge>, parent: Address, child: Address)
    requires Edge(parent, child) in edges && child in live
    requires (parent in live && parent in selection) || Derived(live, selection, edges, parent)
    ensures child in Doomed(live, selection, edges, true) && Derived(live, selection, edges, child)
  {
    if parent in live && parent in selection {
      assert [parent] != [] && [parent][0] == parent && [parent][|[parent]| - 1] == parent;
    }
    var path: seq<Address> :|
      && path != [] && path[0] in live && path[0] in selection && path[|path| - 1] == parent
      && forall i :: 0 <= i < |path| - 1 ==> Edge(path[i], path[i + 1]) in edges;
    var longer := path + [child];
    assert longer[0] == path[0] && longer[|longer| - 1] == child;
    assert forall i :: 0 <= i < |longer| - 1 ==> Edge(longer[i], longer[i + 1]) in edges;
  }

  /** The selection and the walk's result, flipped one after the other, cover it without overlap. */
  lemma DoomedParts(live: set<Address>, selection: seq<Address>, edges: seq<Edge>, downstream: bool, descendants: seq<Address>)
    requires !downstream ==> SetOf(descendants) == {}
    requires downstream ==> forall a :: a in SetOf(descendants) <==>
               a !in SetOf(selection) * live && exists n: nat :: Ends(edges, true, SetOf(selection) * live, a, n)
    ensures var doomed, first := Doomed(live, selection, edges, downstream), live * SetOf(selection);
            var second := (live - SetOf(selection)) * SetOf(descendants);
            live - SetOf(selection) - SetOf(descendants) == live - doomed
            && first + second == doomed && |first| + |second| == |doomed|
  {
    hide Ends, Derived;
    forall a ensures Derived(live, selection, edges, a) <==> exists n: nat :: Ends(edges, true, SetOf(selection) * live, a, n) {
      DerivedMeans(live, selection, edges, a);
    }
    var doomed, first := Doomed(live, selection, edges, downstream), live * SetOf(selection);
    var second := (live - SetOf(selection)) * SetOf(descendants);
    assert first !! second;
    assert first + second == doomed;
  }

  /** Some list of a finite set. */
  method Listed(s: set<Address>) returns (list: seq<Address>)
    ensures SetOf(list) == s
  {
    list := [];
    var left := s;
    while left != {}
      invariant left <= s && SetOf(list) == s - left
      decreases left
    {
      var a :| a in left;
      SetOfAppend(list, [a]);
      list := list + [a];
      left := left - {a};
    }
  }
}
