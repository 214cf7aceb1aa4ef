/**
 What a step's cells are, said from its declaration and its parents' cells alone: which lanes it
 has, when they are blocked or filtered, what its function is called with and under which address
 the output is kept.  Nothing here plans anything; the `Adequacy` module proves that the cells of
 every run are these.
 */
module Semantics {
  import opened Model
  import opened Meaning
  import opened Planning

  // ---------------------------------------------------------------------------
  // lanes and parents
  // ---------------------------------------------------------------------------

  /** Lane c of a step sees this cell of its parent d: its own lane's, or the broadcast one. */
  ghost predicate Sees(p: Planner, cells: Cells, c: Coord, d: string, x: Cell) {
    exists at :: (at, d) in cells && cells[(at, d)] == x && (d in p.singles || at == c)
  }

  ghost predicate SeesBad(p: Planner, step: Step, cells: Cells, c: Coord) {
    exists d, x :: d in step.deps && Sees(p, cells, c, d, x) && (x.Blocked? || x.Failed?)
  }

  ghost predicate SeesFiltered(p: Planner, step: Step, cells: Cells, c: Coord) {
    exists d, x :: d in step.deps && Sees(p, cells, c, d, x) && (x.Skipped? || (x.Mat? && x.filtered))
  }

  /**
   The lanes of a map or expand: those of its parents of many lanes (of all its parents if every
   one of them is broadcast) that are in the cohort, if it carries one.
   */
  ghost predicate LaneOf(p: Planner, step: Step, cells: Cells, c: Coord) {
    if step.deps == [] then c == Root
    else
      && (p.scope.Cohort? && step.name in p.scope.steps ==> c in p.scope.lanes)
      && exists d :: d in step.deps && (c, d) in cells && (d in p.singles ==> forall e :: e in step.deps ==> e in p.singles)
  }

  /** The cells lane c sees, by parent; a parent without a cell there is left out. */
  ghost predicate ParentsOf(p: Planner, step: Step, cells: Cells, c: Coord, xs: map<string, Cell>) {
    && (forall d :: d in xs <==> d in step.deps && exists x :: Sees(p, cells, c, d, x))
    && (forall d :: d in xs ==> Sees(p, cells, c, d, xs[d]))
  }

  // ---------------------------------------------------------------------------
  // calls
  // ---------------------------------------------------------------------------

  /** The value of a cell; None where a never-stored step on the way to it raises. */
  function Output(w: World, pipe: string, x: Cell): Option<Json> {
    match x
    case Mat(_, _, output, _) => Some(output.v)
    case Util(code, parents) => FusedOutput(w, pipe, code, map d | d in parents :: Output(w, pipe, parents[d]))
    case _ => None
  }

  function FusedOutput(w: World, pipe: string, code: Code, values: map<string, Option<Json>>): Option<Json> {
    if exists d | d in values :: values[d].None? then None
    else
      match w.call(pipe, code, PerDep(values))
      case Ok(v) => Some(v)
      case _ => None
  }

  /** A map's function is given its one parent's value, or the values by parent. */
  function MapArgs(w: World, pipe: string, step: Step, xs: map<string, Cell>): Option<Args> {
    if exists d | d in xs :: Output(w, pipe, xs[d]).None? then None
    else if step.deps == [] then Some(NoArgs)
    else if |step.deps| == 1 && step.deps[0] in xs then Some(One(Output(w, pipe, xs[step.deps[0]]).value))
    else Some(PerDep(map d | d in xs :: Output(w, pipe, xs[d])))
  }

  function MapInput(step: Step, xs: map<string, Cell>): Input {
    if step.deps == [] then RootLane
    else if |step.deps| == 1 && step.deps[0] in xs then Of(IdentityOf(xs[step.deps[0]]))
    else ByDep(map d | d in xs :: Some(IdentityOf(xs[d])))
  }

  /** A stored output: large values by reference, identities by content. */
  function Kept(w: World, a: Address, v: Json, filtered: bool): Cell {
    Mat(a, if w.spills(v) then Spilled(v) else Content(v), if w.spills(v) then Ref(v) else Inline(v), filtered)
  }

  function Marker(reason: string): Json {
    Obj(map["__filtered__" := Bool(true), "reason" := Str(reason)])
  }

  /**
   The cell is what the step's function returned for these arguments, kept under the step's own name,
   version, parameters and source and the hashes of its input.
   */
  predicate Returned(w: World, pipe: string, step: Step, input: Input, args: Option<Args>, x: Cell) {
    var code := Code(step.name, step.version, step.params, step.source);
    var a := Address(pipe, code, input);
    if args.None? then x == Failed
    else
      match w.call(pipe, code, args.value)
      case Fail => x == Failed
      case Ok(v) => x == Kept(w, a, v, false)
      case Filtered(reason) => x == Kept(w, a, Marker(reason), true)
  }

  // ---------------------------------------------------------------------------
  // map and expand
  // ---------------------------------------------------------------------------

  /** Blocked by a parent that is, or failed; else skipped with a filtered one; else the step's own. */
  ghost predicate MapCell(w: World, p: Planner, step: Step, cells: Cells, c: Coord, x: Cell) {
    if SeesBad(p, step, cells, c) then x == Blocked
    else if SeesFiltered(p, step, cells, c) then x == Skipped
    else exists xs :: ParentsOf(p, step, cells, c, xs) && OwnMapCell(w, p.pipe, step, xs, x)
  }

  predicate OwnMapCell(w: World, pipe: string, step: Step, xs: map<string, Cell>, x: Cell) {
    if step.cached then Returned(w, pipe, step, MapInput(step, xs), MapArgs(w, pipe, step, xs), x)
    else x == Util(Code(step.name, step.version, step.params, step.source), xs)
  }

  ghost predicate MapMeant(w: World, p: Planner, step: Step, cells: Cells) {
    forall c :: ((c, step.name) in cells <==> LaneOf(p, step, cells, c))
             && ((c, step.name) in cells ==> MapCell(w, p, step, cells, c, cells[(c, step.name)]))
  }

  /** What the generator of lane c yields, if the lane gets to run it. */
  ghost predicate Yields(w: World, p: Planner, step: Step, cells: Cells, c: Coord, ys: Option<seq<Json>>) {
    && LaneOf(p, step, cells, c) && !SeesBad(p, step, cells, c) && !SeesFiltered(p, step, cells, c)
    && exists xs :: ParentsOf(p, step, cells, c, xs) && ys == Generated(w, p.pipe, step, MapArgs(w, p.pipe, step, xs))
  }

  function Generated(w: World, pipe: string, step: Step, args: Option<Args>): Option<seq<Json>> {
    if args.None? then None else w.gen(pipe, Code(step.name, step.version, step.params, step.source), args.value)
  }

  ghost predicate Minted(w: World, p: Planner, step: Step, cells: Cells, y: Json) {
    exists c, ys :: Yields(w, p, step, cells, c, Some(ys)) && y in ys
  }

  function MintedCell(w: World, pipe: string, step: Step, y: Json): Cell {
    Kept(w, Address(pipe, Code(step.name, step.version, step.params, step.source), Of(ChildHash(y))), y, false)
  }

  /** A lane that does not fan out has a cell of its own; the others give way to a lane per payload. */
  ghost predicate ExpandMeant(w: World, p: Planner, step: Step, cells: Cells) {
    && (forall c :: LaneOf(p, step, cells, c) && SeesBad(p, step, cells, c) ==>
          (c, step.name) in cells && cells[(c, step.name)] == Blocked)
    && (forall c :: LaneOf(p, step, cells, c) && !SeesBad(p, step, cells, c) && SeesFiltered(p, step, cells, c) ==>
          (c, step.name) in cells && cells[(c, step.name)] == Skipped)
    && (forall c :: Yields(w, p, step, cells, c, None) ==> (c, step.name) in cells && cells[(c, step.name)] == Failed)
    && (forall y :: Minted(w, p, step, cells, y) ==>
          (Row(ChildHash(y)), step.name) in cells && cells[(Row(ChildHash(y)), step.name)] == MintedCell(w, p.pipe, step, y))
    && (forall c :: (c, step.name) in cells ==> StaysPut(w, p, step, cells, c) || MintedAt(w, p, step, cells, c))
  }

  ghost predicate StaysPut(w: World, p: Planner, step: Step, cells: Cells, c: Coord) {
    LaneOf(p, step, cells, c)
    && (SeesBad(p, step, cells, c) || SeesFiltered(p, step, cells, c) || Yields(w, p, step, cells, c, None))
  }

  ghost predicate MintedAt(w: World, p: Planner, step: Step, cells: Cells, c: Coord) {
    exists y :: Minted(w, p, step, cells, y) && c == Row(ChildHash(y))
  }

  // ---------------------------------------------------------------------------
  // aggregate and join
  // ---------------------------------------------------------------------------

  predicate Survives(cells: Cells, c: Coord, d: string): (r: bool)
    ensures r ==> (c, d) in cells
  {
    (c, d) in cells && (cells[(c, d)].Util? || (cells[(c, d)].Mat? && !cells[(c, d)].filtered))
  }

  ghost predicate SomeBad(step: Step, cells: Cells) {
    exists c, d :: d in step.deps && (c, d) in cells && (cells[(c, d)].Blocked? || cells[(c, d)].Failed?)
  }

  ghost predicate NoneSurvive(step: Step, cells: Cells) {
    forall c, d :: d in step.deps ==> !Survives(cells, c, d)
  }

  /** One of the texts of a field of this cell's value; every item of a list counts, null does not. */
  predicate HasText(show: Json -> string, x: Cell, field: string, key: string) {
    && x.Mat? && x.output.Inline? && x.output.v.Obj? && field in x.output.v.fields
    && match x.output.v.fields[field]
       case Null => false
       case Arr(items) => exists item | item in items :: show(item) == key
       case v => show(v) == key
  }

  /** The lanes a call of an aggregate is given: all that survive, or those of its group. */
  ghost predicate Collected(p: Planner, step: Step, cells: Cells, key: Option<string>, lanes: map<string, map<Coord, Cell>>) {
    && (forall d :: d in lanes <==> d in step.deps)
    && (forall d, c :: d in lanes ==> (c in lanes[d] <==> Survives(cells, c, d) && InGroup(p, step, cells[(c, d)], key)))
    && (forall d, c :: d in lanes && c in lanes[d] && (c, d) in cells ==> lanes[d][c] == cells[(c, d)])
  }

  predicate InGroup(p: Planner, step: Step, x: Cell, key: Option<string>) {
    key.Some? && step.groupKey.Some? ==> HasText(p.show, x, step.groupKey.value, key.value)
  }

  function LaneOutputs(w: World, pipe: string, lanes: map<string, map<Coord, Cell>>): map<string, map<Coord, Option<Json>>> {
    map d | d in lanes :: map c | c in lanes[d] :: Output(w, pipe, lanes[d][c])
  }

  function CollectedArgs(w: World, pipe: string, lanes: map<string, map<Coord, Cell>>): Option<Args> {
    AllThere(LaneOutputs(w, pipe, lanes))
  }

  function AllThere(outputs: map<string, map<Coord, Option<Json>>>): Option<Args> {
    if exists d, c :: d in outputs && c in outputs[d] && outputs[d][c].None? then None
    else Some(PerLane(map d | d in outputs :: map c | c in outputs[d] && outputs[d][c].Some? :: outputs[d][c].value))
  }

  function CollectedInput(key: Option<string>, lanes: map<string, map<Coord, Cell>>): Input {
    if key.None? then Members(LaneHashes(lanes)) else Grouped(key.value, LaneHashes(lanes))
  }

  ghost predicate AggregateCell(w: World, p: Planner, step: Step, cells: Cells, key: Option<string>, x: Cell) {
    exists lanes :: Collected(p, step, cells, key, lanes)
      && Returned(w, p.pipe, step, CollectedInput(key, lanes), CollectedArgs(w, p.pipe, lanes), x)
  }

  /** Some surviving lane is in the group of this key. */
  ghost predicate Occurs(p: Planner, step: Step, cells: Cells, field: string, key: string) {
    exists c, d :: d in step.deps && Survives(cells, c, d) && HasText(p.show, cells[(c, d)], field, key)
  }

  ghost predicate OneBlocked(cells: Cells, name: string, at: Coord) {
    forall c :: ((c, name) in cells <==> c == at) && ((c, name) in cells ==> cells[(c, name)] == Blocked)
  }

  /** One call over all the lanes that survive, or one for each group; or a single blocked lane. */
  ghost predicate AggregateMeant(w: World, p: Planner, step: Step, cells: Cells) {
    if SomeBad(step, cells) && (step.block || NoneSurvive(step, cells)) then OneBlocked(cells, step.name, All)
    else
      match step.groupKey
      case None =>
        forall c :: ((c, step.name) in cells <==> c == All)
                 && ((c, step.name) in cells ==> AggregateCell(w, p, step, cells, None, cells[(c, step.name)]))
      case Some(field) =>
        && (forall c :: (c, step.name) in cells ==> c.Group? && Occurs(p, step, cells, field, c.key))
        && (forall key :: Occurs(p, step, cells, field, key) ==>
              (Group(key), step.name) in cells
              && AggregateCell(w, p, step, cells, Some(key), cells[(Group(key), step.name)]))
  }

  /** A surviving lane of a side that has this value in the side's join field. */
  predicate Carries(p: Planner, step: Step, cells: Cells, c: Coord, d: string, key: string) {
    d in step.joinOn && Survives(cells, c, d) && HasText(p.show, cells[(c, d)], step.joinOn[d], key)
  }

  /** The i-th slot of a joined tuple: a lane with the value, or (in a union) the sentinel if the side has none. */
  ghost predicate SlotFits(p: Planner, step: Step, cells: Cells, c: Coord, d: string, key: string) {
    Carries(p, step, cells, c, d, key)
    || (step.union && c == Missing && forall c' :: !Carries(p, step, cells, c', d, key))
  }

  ghost predicate JoinedOn(p: Planner, step: Step, cells: Cells, t: seq<Coord>, key: string) {
    && |t| == |step.deps|
    && (forall i :: 0 <= i < |t| ==> SlotFits(p, step, cells, t[i], step.deps[i], key))
    && (exists i :: 0 <= i < |t| && Carries(p, step, cells, t[i], step.deps[i], key))
  }

  ghost predicate Joined(p: Planner, step: Step, cells: Cells, t: seq<Coord>) {
    exists key :: JoinedOn(p, step, cells, t, key)
  }

  /** The cells of a tuple, by side; None where the side is absent. */
  ghost predicate SidesOf(step: Step, cells: Cells, t: seq<Coord>, sides: map<string, Option<Cell>>) {
    && |t| == |step.deps|
    && (forall d :: d in sides <==> d in step.deps)
    && (forall i :: 0 <= i < |t| && step.deps[i] in sides ==>
          if t[i] == Missing then sides[step.deps[i]] == None
          else (t[i], step.deps[i]) in cells && sides[step.deps[i]] == Some(cells[(t[i], step.deps[i])]))
  }

  function SideArgs(w: World, pipe: string, sides: map<string, Option<Cell>>): Option<Args> {
    if exists d | d in sides :: sides[d].Some? && Output(w, pipe, sides[d].value).None? then None
    else Some(PerDep(map d | d in sides :: if sides[d].Some? then Output(w, pipe, sides[d].value) else None))
  }

  function SideInput(sides: map<string, Option<Cell>>): Input {
    ByDep(map d | d in sides :: if sides[d].None? then None else Some(IdentityOf(sides[d].value)))
  }

  ghost predicate JoinCell(w: World, p: Planner, step: Step, cells: Cells, t: seq<Coord>, x: Cell) {
    exists sides :: SidesOf(step, cells, t, sides)
      && Returned(w, p.pipe, step, SideInput(sides), SideArgs(w, p.pipe, sides), x)
  }

  /** One call for each joined tuple; or a single blocked lane. */
  ghost predicate JoinMeant(w: World, p: Planner, step: Step, cells: Cells) {
    if SomeBad(step, cells) && (step.block || forall t :: !Joined(p, step, cells, t)) then OneBlocked(cells, step.name, JoinAll)
    else
      && (forall c :: (c, step.name) in cells ==> c.Pair? && Joined(p, step, cells, c.parts))
      && (forall t :: Joined(p, step, cells, t) ==>
            (Pair(t), step.name) in cells && JoinCell(w, p, step, cells, t, cells[(Pair(t), step.name)]))
  }

  // ---------------------------------------------------------------------------
  // whole steps
  // ---------------------------------------------------------------------------

  ghost predicate Meant(w: World, p: Planner, step: Step, cells: Cells) {
    match step.shape
    case Map => MapMeant(w, p, step, cells)
    case Expand => ExpandMeant(w, p, step, cells)
    case Aggregate => AggregateMeant(w, p, step, cells)
    case Join => JoinMeant(w, p, step, cells)
  }

  ghost predicate AllMeant(w: World, p: Planner, steps: seq<Step>, n: nat, cells: Cells)
    requires n <= |steps|
  {
    forall i :: 0 <= i < n ==> Meant(w, p, steps[i], cells)
  }

  /** No text at all in a field. */
  ghost predicate Textless(p: Planner, x: Cell, field: string) {
    forall key :: !HasText(p.show, x, field, key)
  }

  /**
   When a run raises at a step: a lane of a map without a cell of some parent; a surviving lane that
   has no group, or no join value; a surviving lane of a join named like the sentinel.
   */
  ghost predicate Raises(p: Planner, step: Step, cells: Cells) {
    match step.shape
    case Map => MisAligned(p, step, cells)
    case Expand => MisAligned(p, step, cells)
    case Aggregate =>
      && !(SomeBad(step, cells) && (step.block || NoneSurvive(step, cells)))
      && step.groupKey.Some?
      && exists c, d :: d in step.deps && Survives(cells, c, d) && Textless(p, cells[(c, d)], step.groupKey.value)
    case Join =>
      || (exists c, d :: d in step.deps && Survives(cells, c, d) && (c == Missing || c == Group("@missing")))
      || (!(SomeBad(step, cells) && step.block)
          && exists c, d :: d in step.deps && d in step.joinOn && Survives(cells, c, d) && Textless(p, cells[(c, d)], step.joinOn[d]))
  }

  ghost predicate MisAligned(p: Planner, step: Step, cells: Cells) {
    !step.declarative && exists c, d :: LaneOf(p, step, cells, c) && d in step.deps && forall x :: !Sees(p, cells, c, d, x)
  }
}
