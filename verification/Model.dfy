/**
 The vocabulary the other modules share: values, content identities, output addresses,
 lanes, steps and the cells of a run.

 SHA-256 is modelled as a perfect hash.  A hash is represented by its own preimage, so two
 hashes are equal exactly when their preimages are; the `Preimage` module proves that the
 text which is really hashed determines the tuple an `Address` stands for.
 */
module Model {

  datatype Option<+T> = None | Some(value: T)

  /** A JSON value: what a step consumes and produces. */
  datatype Json =
    | Null
    | Bool(b: bool)
    | Int(n: int)
    | Str(s: string)
    | Arr(items: seq<Json>)
    | Obj(fields: map<string, Json>)

  /**
   The part of a step that enters cache identity: its name and version, the run parameters
   if the function takes them, and the source text if the step says code='auto'.
   */
  datatype Code = Code(step: string, version: string, params: Option<Json>, source: Option<string>)

  /**
   The identity a parent contributes to its consumers' input hashes: the hash of an inline
   value, the hash of the "objects:" reference of a spilled value, or the fused identity of
   a step that is never stored.  The identity of a string hashes its bare text; the lane of an
   expand step that yields a string is named by the hash of its JSON text, which is quoted.
   */
  datatype Hash =
    | Content(v: Json)
    | Quoted(text: string)
    | Spilled(v: Json)
    | Fused(code: Code, parents: map<string, Hash>)

  /** Lane keys.  `Missing` pads the absent side of an outer join. */
  datatype Coord =
    | Root
    | All
    | JoinAll
    | Missing
    | Row(h: Hash)
    | Group(key: string)
    | Pair(parts: seq<Coord>)

  /** Input hashes, one constructor for each layout that is hashed. */
  datatype Input =
    | RootLane
    | Of(h: Hash)
    | ByDep(slots: map<string, Option<Hash>>)
    | Members(lanes: map<string, map<Coord, Hash>>)
    | Grouped(key: string, lanes: map<string, map<Coord, Hash>>)

  datatype Address = Address(pipeline: string, code: Code, input: Input)

  /** What calling a step function yields. */
  datatype Outcome = Ok(v: Json) | Filtered(reason: string) | Fail

  /** The arguments a step function sees. */
  datatype Args =
    | NoArgs
    | One(v: Json)
    | PerDep(slots: map<string, Option<Json>>)
    | PerLane(lanes: map<string, map<Coord, Json>>)

  /**
   The user's code and the serializer, as total deterministic functions: what a step returns
   (`call`), what an expand step yields (`gen`, None when it raises), which code is an expand
   step (`mints`), which values are too large for the lane store (`spills`), and Python's
   `str` (`show`), which turns field values into group and join keys.
   */
  datatype World = World(
    call: (string, Code, Args) -> Outcome,
    gen: (string, Code, Args) -> Option<seq<Json>>,
    mints: (string, Code) -> bool,
    spills: Json -> bool,
    show: Json -> string)

  /** The `output` column of a lane-store row. */
  datatype Stored = Inline(v: Json) | Ref(v: Json)

  /** One entry of a run's (coordinate, step) table. */
  datatype Cell =
    | Mat(address: Address, identity: Hash, output: Stored, filtered: bool)
    | Util(code: Code, parents: map<string, Cell>)
    | Blocked
    | Failed
    | Pending
    | Skipped

  type Key = (Coord, string)

  datatype Shape = Map | Expand | Aggregate | Join

  datatype Step = Step(
    name: string,
    version: string,
    deps: seq<string>,
    shape: Shape,
    params: Option<Json>,
    source: Option<string>,
    cached: bool,
    declarative: bool,
    block: bool,
    groupKey: Option<string>,
    joinOn: map<string, string>,
    union: bool,
    force: bool)
  {
    function Identity(): Code {
      Code(name, version, params, source)
    }

    /** What `step(...)` and the pipeline builder validate at declaration time. */
    predicate WellFormed() {
      && (shape.Expand? ==> |deps| <= 1)
      && (!shape.Map? ==> cached && !declarative)
      && (shape.Join? ==> |deps| >= 2 && (forall d :: d in deps ==> d in joinOn))
      && (shape.Aggregate? ==> |deps| >= 1)
      && (forall i, j :: 0 <= i < j < |deps| ==> deps[i] != deps[j])
    }

    /** An expand step fed by other lanes, as opposed to a root source. */
    predicate DependentExpand() {
      shape.Expand? && |deps| > 0
    }
  }

  /** How a value is laid out in the lane store. */
  function Form(spills: Json -> bool, v: Json): Stored {
    if spills(v) then Ref(v) else Inline(v)
  }

  /** The content identity recorded for a value. */
  function Ident(spills: Json -> bool, v: Json): Hash {
    if spills(v) then Spilled(v) else Content(v)
  }

  /** The value committed for an outcome: a filter verdict is stored as a marker. */
  function Payload(o: Outcome): Json
    requires !o.Fail?
  {
    match o
    case Ok(v) => v
    case Filtered(reason) => Obj(map["__filtered__" := Bool(true), "reason" := Str(reason)])
  }

  /** Does this cell carry an output its consumers may read? */
  predicate Usable(cell: Cell) {
    cell.Util? || (cell.Mat? && !cell.filtered)
  }

  predicate Bad(cell: Cell) {
    cell.Blocked? || cell.Failed?
  }

  predicate IsFiltered(cell: Cell) {
    cell.Skipped? || (cell.Mat? && cell.filtered)
  }

  /** The hash a usable cell contributes downstream (other cells never do). */
  function IdentityOf(cell: Cell): Hash {
    match cell
    case Mat(_, identity, _, _) => identity
    case Util(code, parents) => Fused(code, map d | d in parents :: IdentityOf(parents[d]))
    case _ => Content(Null)
  }
}
