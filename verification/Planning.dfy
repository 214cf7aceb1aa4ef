/**
 The plan phase: what a run would do at every coordinate of a step.

 Planning has two halves.  `Plan` looks only at the parents' cells: it finds the coordinates,
 classifies each one, and computes the address of the work.  The address is then
 looked up in the store, which decides between reuse and execution.
 */
module Planning {
  import opened Model
  import opened Meaning
  import opened Ledger

  type Cells = map<Key, Cell>

  /** What there is to do at one coordinate, before any cache lookup. */
  datatype Target =
    | ToBlocked
    | ToSkipped
    | ToPending
    | ToUtil(cell: Cell)
    | ToWork(address: Address, parents: Parents)
    | ToMint(anchor: Address, parents: Parents)

  /** A partial run: the anchor step, the steps that carry the requested cohort, and the cohort. */
  datatype Scope = Full | Cohort(anchor: string, steps: set<string>, lanes: set<Coord>)
  {
    predicate Restricts(step: string) {
      Cohort? && step in steps
    }

    predicate Admits(step: string, c: Coord) {
      Restricts(step) ==> c in lanes
    }

    predicate Anchored(step: string) {
      Cohort? && step == anchor
    }
  }

  /**
   What planning is given: the pipeline, its broadcast steps, the scope, and the parts of Python it
   leans on: `str` of a field value, the hash a text spells, if it spells one, and the order in
   which an object's keys are iterated.
   */
  datatype Planner = Planner(
    pipe: string,
    singles: set<string>,
    scope: Scope,
    show: Json -> string,
    spelled: string -> Option<Hash>,
    keys: map<string, Json> -> seq<string>)

  /** The cells of a step's parents: all a plan may depend on. */
  function ParentCells(step: Step, cells: Cells): Cells {
    map k | k in cells && k.1 in step.deps :: cells[k]
  }

  // ---------------------------------------------------------------------------
  // map and expand
  // ---------------------------------------------------------------------------

  predicate Lanewise(step: Step) {
    step.shape.Map? || step.shape.Expand?
  }

  /** The dependencies resolved once for the whole step and broadcast to every coordinate. */
  function BroadcastDeps(p: Planner, step: Step): set<string> {
    set d | d in step.deps && d in p.singles
  }

  /** The dependencies whose lanes define the coordinates of a map. */
  function ScanDeps(p: Planner, step: Step): set<string> {
    var own := set d | d in step.deps && d !in p.singles;
    if own != {} then own else set d | d in step.deps
  }

  function MapCoords(p: Planner, step: Step, cells: Cells): set<Coord> {
    if step.deps == [] then {Root}
    else set k | k in cells && k.1 in ScanDeps(p, step) && p.scope.Admits(step.name, k.0) :: k.0
  }

  /**
   A choice of one cell for every broadcast dependency that has any.  The source takes the
   first it meets; `Uniform` in the Clean module shows that the choice does not matter.
   */
  ghost predicate IsBroadcast(p: Planner, step: Step, cells: Cells, bcast: map<string, Cell>) {
    && (forall d :: d in bcast <==> d in BroadcastDeps(p, step) && exists c :: (c, d) in cells)
    && (forall d :: d in bcast ==> exists c :: (c, d) in cells && cells[(c, d)] == bcast[d])
  }

  ghost function Broadcast(p: Planner, step: Step, cells: Cells): (bcast: map<string, Cell>)
    ensures IsBroadcast(p, step, cells, bcast)
  {
    map d | d in BroadcastDeps(p, step) && (exists c :: (c, d) in cells) ::
      var c :| (c, d) in cells; cells[(c, d)]
  }

  function ParentAt(p: Planner, cells: Cells, bcast: map<string, Cell>, d: string, c: Coord): Option<Cell> {
    if d in p.singles then
      if d in bcast then Some(bcast[d]) else None
    else
      if (c, d) in cells then Some(cells[(c, d)]) else None
  }

  function ParentsAt(p: Planner, step: Step, cells: Cells, bcast: map<string, Cell>, c: Coord): map<string, Cell> {
    map d | d in step.deps && ParentAt(p, cells, bcast, d, c).Some? :: ParentAt(p, cells, bcast, d, c).value
  }

  /** The parents' cells as one lane sees them. */
  ghost function Seen(p: Planner, step: Step, cells: Cells, c: Coord): map<string, Cell> {
    var own := ParentCells(step, cells);
    ParentsAt(p, step, own, Broadcast(p, step, own), c)
  }

  /** The target at one coordinate of a map or expand; None when the lane sets are disjoint. */
  function MapTarget(p: Planner, step: Step, cells: Cells, bcast: map<string, Cell>, c: Coord): Option<Target> {
    var ps := ParentsAt(p, step, cells, bcast, c);
    if (exists d :: d in step.deps && d !in ps) && !step.declarative then None
    else Some(Classify(p.pipe, step, ps))
  }

  function Classify(pipe: string, step: Step, ps: map<string, Cell>): Target {
    if exists d | d in ps :: Bad(ps[d]) then ToBlocked
    else if exists d | d in ps :: IsFiltered(ps[d]) then ToSkipped
    else if exists d | d in ps :: ps[d].Pending? then ToPending
    else if !step.cached then ToUtil(Util(step.Identity(), ps))
    else
      var parents := Arrange(step, ps);
      var address := Address(pipe, step.Identity(), InputOf(parents));
      if step.shape.Expand? then ToMint(address, parents) else ToWork(address, parents)
  }

  function Arrange(step: Step, ps: map<string, Cell>): Parents {
    if step.deps == [] then NoParents
    else if |step.deps| == 1 && step.deps[0] in ps then Single(ps[step.deps[0]])
    else Slots(map d | d in ps :: Some(ps[d]))
  }

  // ---------------------------------------------------------------------------
  // aggregate and fold
  // ---------------------------------------------------------------------------

  /** The surviving lanes of one parent. */
  function LanesOf(cells: Cells, d: string): (lanes: map<Coord, Cell>)
    ensures forall c :: c in lanes <==> (c, d) in cells && Usable(cells[(c, d)])
    ensures forall c :: c in lanes ==> lanes[c] == cells[(c, d)]
  {
    var keys := set k | k in cells && k.1 == d && Usable(cells[k]) :: k.0;
    map c | c in keys && (c, d) in cells :: cells[(c, d)]
  }

  /** The surviving lanes of every parent. */
  function UsableLanes(step: Step, cells: Cells): map<string, map<Coord, Cell>> {
    map d | d in step.deps :: LanesOf(cells, d)
  }

  predicate AnyBad(cells: Cells) {
    exists k | k in cells :: Bad(cells[k])
  }

  predicate AnyPending(cells: Cells) {
    exists k | k in cells :: cells[k].Pending?
  }

  /** The values of a field of a lane's stored output, as text; spilled outputs have none. */
  function FieldValues(show: Json -> string, cell: Cell, field: string): set<string> {
    if cell.Mat? && cell.output.Inline? && cell.output.v.Obj? && field in cell.output.v.fields then
      match cell.output.v.fields[field]
      case Null => {}
      case Arr(items) => set x | x in items :: show(x)
      case v => {show(v)}
    else {}
  }

  function AggregateTarget(pipe: string, step: Step, lanes: map<string, map<Coord, Cell>>): Target {
    ToWork(Address(pipe, step.Identity(), Members(LaneHashes(lanes))), Lanes(lanes))
  }

  function GroupTarget(pipe: string, step: Step, key: string, lanes: map<string, map<Coord, Cell>>): Target {
    ToWork(Address(pipe, step.Identity(), Grouped(key, LaneHashes(lanes))), Lanes(lanes))
  }

  /** The members of one group: the lanes whose group field has this value. */
  function GroupLanes(show: Json -> string, field: string, key: string, lanes: map<string, map<Coord, Cell>>)
    : map<string, map<Coord, Cell>>
  {
    map d | d in lanes :: map c | c in lanes[d] && key in FieldValues(show, lanes[d][c], field) :: lanes[d][c]
  }

  function GroupKeys(show: Json -> string, field: string, lanes: map<string, map<Coord, Cell>>): set<string> {
    set d, c, key | d in lanes && c in lanes[d] && key in FieldValues(show, lanes[d][c], field) :: key
  }

  function AggregatePlan(p: Planner, step: Step, cells: Cells): Option<map<Coord, Target>> {
    var lanes := UsableLanes(step, cells);
    var bad := AnyBad(cells);
    if bad && step.block then Some(map[All := ToBlocked])
    else if AnyPending(cells) then Some(map[All := ToPending])
    else if bad && (forall d :: d in lanes ==> lanes[d] == map[]) then Some(map[All := ToBlocked])
    else if step.groupKey.None? then Some(map[All := AggregateTarget(p.pipe, step, lanes)])
    else
      var field := step.groupKey.value;
      if exists d | d in lanes :: exists c | c in lanes[d] :: FieldValues(p.show, lanes[d][c], field) == {} then None
      else Some(map key | key in GroupKeys(p.show, field, lanes) ::
                  Group(key) := GroupTarget(p.pipe, step, key, GroupLanes(p.show, field, key, lanes)))
  }

  // ---------------------------------------------------------------------------
  // join
  // ---------------------------------------------------------------------------

  /** The lanes of one side that carry a join key. */
  function SideLanes(show: Json -> string, step: Step, lanes: map<string, map<Coord, Cell>>, d: string, key: string)
    : set<Coord>
    requires d in lanes && d in step.joinOn
  {
    set c | c in lanes[d] && key in FieldValues(show, lanes[d][c], step.joinOn[d])
  }

  /** A side without the key contributes one `Missing` slot. */
  function SideSlots(show: Json -> string, step: Step, lanes: map<string, map<Coord, Cell>>, d: string, key: string)
    : set<Coord>
    requires d in lanes && d in step.joinOn
  {
    var side := SideLanes(show, step, lanes, d, key);
    if side == {} then {Missing} else side
  }

  /** Every way to pick one slot per side. */
  function Tuples(show: Json -> string, step: Step, lanes: map<string, map<Coord, Cell>>, ds: seq<string>, key: string)
    : (ts: set<seq<Coord>>)
    requires forall d :: d in ds ==> d in lanes && d in step.joinOn
    ensures forall t :: t in ts ==> |t| == |ds|
  {
    if ds == [] then {[]}
    else
      set c, t | c in SideSlots(show, step, lanes, ds[0], key)
              && t in Tuples(show, step, lanes, ds[1..], key) :: [c] + t
  }

  function SideKeys(show: Json -> string, step: Step, lanes: map<string, map<Coord, Cell>>, d: string): set<string>
    requires d in lanes && d in step.joinOn
  {
    set c, key | c in lanes[d] && key in FieldValues(show, lanes[d][c], step.joinOn[d]) :: key
  }

  function KeyUniverse(show: Json -> string, step: Step, lanes: map<string, map<Coord, Cell>>): set<string>
    requires step.deps != []
    requires forall d :: d in step.deps ==> d in lanes && d in step.joinOn
  {
    var every := set d, key | d in step.deps && key in SideKeys(show, step, lanes, d) :: key;
    if step.union then every
    else set key | key in every && forall d :: d in step.deps ==> key in SideKeys(show, step, lanes, d)
  }

  /** The tuples of all join keys. */
  function JoinTuples(show: Json -> string, step: Step, lanes: map<string, map<Coord, Cell>>): (ts: set<seq<Coord>>)
    requires step.deps != [] && forall d :: d in step.deps ==> d in lanes && d in step.joinOn
    ensures forall t :: t in ts ==> |t| == |step.deps|
  {
    set key, t | key in KeyUniverse(show, step, lanes) && t in Tuples(show, step, lanes, step.deps, key) :: t
  }

  function TupleParents(ds: seq<string>, lanes: map<string, map<Coord, Cell>>, t: seq<Coord>): map<string, Option<Cell>>
    requires |t| == |ds|
    requires forall d :: d in ds ==> d in lanes
  {
    if ds == [] then map[]
    else TupleParents(ds[1..], lanes, t[1..])[ds[0] := if t[0] in lanes[ds[0]] then Some(lanes[ds[0]][t[0]]) else None]
  }

  function JoinTarget(pipe: string, step: Step, slots: map<string, Option<Cell>>): Target {
    ToWork(Address(pipe, step.Identity(), InputOf(Slots(slots))), Slots(slots))
  }

  /** A lane key spelled like the sentinel for an absent side. */
  predicate Reserved(c: Coord) {
    c == Missing || c == Group("@missing")
  }

  function JoinPlan(p: Planner, step: Step, cells: Cells): Option<map<Coord, Target>>
    requires step.WellFormed() && step.shape.Join?
  {
    var lanes := UsableLanes(step, cells);
    var bad := AnyBad(cells);
    if exists d | d in lanes :: exists c | c in lanes[d] :: Reserved(c) then None
    else if bad && step.block then Some(map[JoinAll := ToBlocked])
    else if AnyPending(cells) then Some(map[JoinAll := ToPending])
    else if exists d | d in lanes :: exists c | c in lanes[d] ::
              d in step.joinOn && FieldValues(p.show, lanes[d][c], step.joinOn[d]) == {} then None
    else
      var tuples := JoinTuples(p.show, step, lanes);
      if tuples == {} && bad then Some(map[JoinAll := ToBlocked])
      else Some(map t | t in tuples :: Pair(t) := JoinTarget(p.pipe, step, TupleParents(step.deps, lanes, t)))
  }

  // ---------------------------------------------------------------------------
  // the whole step
  // ---------------------------------------------------------------------------

  /** Planning a step: the target at each coordinate, or None when planning raises. */
  ghost function Plan(p: Planner, step: Step, cells: Cells): Option<map<Coord, Target>> {
    PlanOn(p, step, ParentCells(step, cells))
  }

  ghost function PlanOn(p: Planner, step: Step, cells: Cells): Option<map<Coord, Target>> {
    if !step.WellFormed() then None
    else
      match step.shape
      case Aggregate => AggregatePlan(p, step, cells)
      case Join => JoinPlan(p, step, cells)
      case _ => MapPlan(p, step, cells, Broadcast(p, step, cells))
  }

  function MapPlan(p: Planner, step: Step, cells: Cells, bcast: map<string, Cell>): Option<map<Coord, Target>> {
    var coords := MapCoords(p, step, cells);
    if exists c | c in coords :: MapTarget(p, step, cells, bcast, c).None? then None
    else Some(map c | c in coords && MapTarget(p, step, cells, bcast, c).Some? ::
                MapTarget(p, step, cells, bcast, c).value)
  }

  /** An address of this step. */
  predicate OwnAddress(p: Planner, step: Step, a: Address) {
    a.pipeline == p.pipe && a.code == step.Identity()
  }

  predicate Addressed(p: Planner, step: Step, t: Target) {
    && (t.ToWork? ==> OwnAddress(p, step, t.address))
    && (t.ToMint? ==> OwnAddress(p, step, t.anchor) && step.shape.Expand?)
  }

  lemma ClassifiedAddress(p: Planner, step: Step, ps: map<string, Cell>)
    ensures Addressed(p, step, Classify(p.pipe, step, ps))
  {
    hide Arrange, InputOf;
  }

  /** A step only ever plans work at its own addresses. */
  lemma PlansOwnAddresses(p: Planner, step: Step, cells: Cells)
    requires Plan(p, step, cells).Some?
    ensures forall c :: c in Plan(p, step, cells).value ==> Addressed(p, step, Plan(p, step, cells).value[c])
  {
    hide Broadcast, UsableLanes, AnyBad, AnyPending, FieldValues, KeyUniverse, Tuples, LaneHashes, ParentsAt, Classify;
    if step.shape.Map? || step.shape.Expand? {
      forall ps ensures Addressed(p, step, Classify(p.pipe, step, ps)) {
        ClassifiedAddress(p, step, ps);
      }
    }
  }

  // ---------------------------------------------------------------------------
  // reuse or execute
  // ---------------------------------------------------------------------------

  function CellOfRow(row: LaneRow): Cell {
    Mat(row.address, row.identity, row.output, row.filtered)
  }

  /**
   What planning takes from under an anchor's address: nothing, a list of children (None for an item
   that is no hash and so names no lane), or a value it cannot iterate.
   */
  datatype Listing = NoListing | Listed(items: seq<Option<Hash>>) | Unlistable

  /** Reading the value of a lane row; a missing object reads as None. */
  function RowValue(st: Store, row: LaneRow): Json {
    match row.output
    case Inline(v) => v
    case Ref(v) => if v in st.objects then v else Null
  }

  /** An item is taken for a hash by its text. */
  function SpelledBy(p: Planner, item: Json): Option<Hash> {
    p.spelled(if item.Str? then item.s else p.show(item))
  }

  /** A value taken for a list of hashes: an empty or false one lists nothing, a number or true raises. */
  function Iterated(p: Planner, v: Json): (listing: Listing)
    ensures !listing.NoListing?
  {
    match v
    case Null => Listed([])
    case Bool(b) => if b then Unlistable else Listed([])
    case Int(n) => if n == 0 then Listed([]) else Unlistable
    case Str(s) => Listed(seq(|s|, i requires 0 <= i < |s| => p.spelled([s[i]])))
    case Arr(items) => Listed(seq(|items|, i requires 0 <= i < |items| => SpelledBy(p, items[i])))
    case Obj(fields) =>
      var names := p.keys(fields);
      if fields == map[] then Listed([])
      else Listed(seq(|names|, i requires 0 <= i < |names| => p.spelled(names[i])))
  }

  /**
   The lookup at an anchor's address.  Nothing checks that what it serves is an anchor: a lane row
   at the address comes first, and its value is taken for the list of children.
   */
  function ListingAt(st: Store, p: Planner, anchor: Address): Listing {
    var row, children := Hit(st, anchor), AnchorHit(st, anchor);
    if row.Some? then Iterated(p, RowValue(st, row.value))
    else if children.None? then NoListing
    else Listed(seq(|children.value|, i requires 0 <= i < |children.value| => Some(children.value[i])))
  }

  /** The children such a list replays, provided every one of them is a reuse hit. */
  function ReplayedChildren(st: Store, p: Planner, code: Code, anchor: Address): Option<seq<Hash>> {
    var listing := ListingAt(st, p, anchor);
    if listing.Listed? && forall i :: 0 <= i < |listing.items| ==> LiveChild(st, p.pipe, code, listing.items[i])
    then Some(seq(|listing.items|, i requires 0 <= i < |listing.items| && listing.items[i].Some? => listing.items[i].value))
    else None
  }

  predicate LiveChild(st: Store, pipe: string, code: Code, item: Option<Hash>) {
    item.Some? && Hit(st, ChildAddress(pipe, code, item.value)).Some?
  }

  /** Where no lane row is in the way, the children are the anchor's. */
  lemma AnchorIsListed(st: Store, p: Planner, code: Code, anchor: Address)
    requires LatestRow(st, anchor).None?
    ensures var children, replayed := AnchorHit(st, anchor), ReplayedChildren(st, p, code, anchor);
            && !ListingAt(st, p, anchor).Unlistable?
            && (replayed.Some? ==> replayed == children)
            && (replayed.Some? <==>
                 children.Some? && forall h :: h in children.value ==> Hit(st, ChildAddress(p.pipe, code, h)).Some?)
  {
    hide AnchorHit, LatestRow;
    var children := AnchorHit(st, anchor);
    if children.Some? {
      var items := ListingAt(st, p, anchor).items;
      assert forall i :: 0 <= i < |items| ==> items[i] == Some(children.value[i]);
      if forall h :: h in children.value ==> Hit(st, ChildAddress(p.pipe, code, h)).Some? {
        assert forall i :: 0 <= i < |items| ==> LiveChild(st, p.pipe, code, items[i]);
        assert ReplayedChildren(st, p, code, anchor).value == children.value;
      } else {
        var h :| h in children.value && Hit(st, ChildAddress(p.pipe, code, h)).None?;
        var i :| 0 <= i < |children.value| && children.value[i] == h;
        assert !LiveChild(st, p.pipe, code, items[i]);
      }
    }
  }

  /** Replayed children are hits, whatever they were read from. */
  lemma ReplayedAreLive(st: Store, p: Planner, code: Code, anchor: Address)
    requires ReplayedChildren(st, p, code, anchor).Some?
    ensures forall h :: h in ReplayedChildren(st, p, code, anchor).value ==> Hit(st, ChildAddress(p.pipe, code, h)).Some?
  {
    hide Hit, ListingAt;
    var items, hs := ListingAt(st, p, anchor).items, ReplayedChildren(st, p, code, anchor).value;
    forall h | h in hs ensures Hit(st, ChildAddress(p.pipe, code, h)).Some? {
      var i :| 0 <= i < |hs| && hs[i] == h;
      assert LiveChild(st, p.pipe, code, items[i]);
    }
  }

  /** Does planning decide to reuse this target?  Depends on the store through the gate only. */
  predicate Reuses(st: Store, p: Planner, step: Step, force: bool, t: Target) {
    !force && !step.force &&
    match t
    case ToWork(a, _) => Hit(st, a).Some?
    case ToMint(a, _) => ReplayedChildren(st, p, step.Identity(), a).Some?
    case _ => false
  }

  /** Does looking this target up raise? */
  predicate LookupRaises(st: Store, p: Planner, step: Step, force: bool, t: Target) {
    !force && !step.force && t.ToMint? && ListingAt(st, p, t.anchor).Unlistable?
  }
}
