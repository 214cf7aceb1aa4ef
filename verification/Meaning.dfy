/**
 What an output address means.

 An address names the code and the content of its inputs, so it determines what executing
 that code on those inputs returns.  `Expected` is that outcome.  The execution path never
 looks at hashes: it reads parent values back from the lane store and the object store.
 `ReadMatches` connects the two.
 */
module Meaning {
  import opened Model

  /** The value behind a parent identity; None when a fused step on the way to it raises. */
  function ValueOf(w: World, pipe: string, h: Hash): Option<Json> {
    match h
    case Content(v) => Some(v)
    case Quoted(text) => Some(Str(text))
    case Spilled(v) => Some(v)
    case Fused(code, parents) =>
      var values := map d | d in parents :: ValueOf(w, pipe, parents[d]);
      UtilValue(w, pipe, code, values)
  }

  /** Running a never-stored step on its parents' values; a Filtered verdict is an error there. */
  function UtilValue(w: World, pipe: string, code: Code, values: map<string, Option<Json>>): Option<Json> {
    if exists d | d in values :: values[d].None? then None
    else
      match w.call(pipe, code, PerDep(values))
      case Ok(v) => Some(v)
      case _ => None
  }

  /** The arguments an input hash stands for. */
  function ArgsOf(w: World, pipe: string, input: Input): Option<Args> {
    match input
    case RootLane => Some(NoArgs)
    case Of(h) => OneArg(ValueOf(w, pipe, h))
    case ByDep(slots) =>
      SlotArgs(map d | d in slots && slots[d].Some? :: ValueOf(w, pipe, slots[d].value), slots.Keys)
    case Members(lanes) => LaneArgs(LaneValues(w, pipe, lanes))
    case Grouped(_, lanes) => LaneArgs(LaneValues(w, pipe, lanes))
  }

  function LaneValues(w: World, pipe: string, lanes: map<string, map<Coord, Hash>>)
    : map<string, map<Coord, Option<Json>>>
  {
    map d | d in lanes :: map c | c in lanes[d] :: ValueOf(w, pipe, lanes[d][c])
  }

  function OneArg(v: Option<Json>): Option<Args> {
    if v.None? then None else Some(One(v.value))
  }

  /** `present` holds the slots that have a parent; the other names are bound to None. */
  function SlotArgs(present: map<string, Option<Json>>, names: set<string>): Option<Args> {
    if exists d | d in present :: present[d].None? then None
    else Some(PerDep(map d | d in names :: if d in present then present[d] else None))
  }

  function LaneArgs(lanes: map<string, map<Coord, Option<Json>>>): Option<Args> {
    if exists d | d in lanes :: exists c | c in lanes[d] :: lanes[d][c].None? then None
    else Some(PerLane(map d | d in lanes :: map c | c in lanes[d] && lanes[d][c].Some? :: lanes[d][c].value))
  }

  function Call(w: World, pipe: string, code: Code, args: Option<Args>): Outcome {
    if args.None? then Fail else w.call(pipe, code, args.value)
  }

  function Generate(w: World, pipe: string, code: Code, args: Option<Args>): Option<seq<Json>> {
    if args.None? then None else w.gen(pipe, code, args.value)
  }

  /**
   The outcome committed at an address.  A lane of an expand step is addressed by the hash
   of its own payload, so there the address is the value.
   */
  function Expected(w: World, a: Address): Outcome {
    if w.mints(a.pipeline, a.code) then
      if a.input.Of? && PayloadOf(a.input.h).Some? then Ok(PayloadOf(a.input.h).value) else Fail
    else
      Call(w, a.pipeline, a.code, ArgsOf(w, a.pipeline, a.input))
  }

  /** What the generator behind an expand step's anchor address yields. */
  function Yielded(w: World, a: Address): Option<seq<Json>> {
    Generate(w, a.pipeline, a.code, ArgsOf(w, a.pipeline, a.input))
  }

  /** The hash that names the lane of a payload: that of its JSON text. */
  function ChildHash(y: Json): (h: Hash)
    ensures PayloadOf(h) == Some(y)
  {
    if y.Str? then Quoted(y.s) else Content(y)
  }

  /** The payload a lane's hash names. */
  function PayloadOf(h: Hash): Option<Json> {
    match h
    case Quoted(text) => Some(Str(text))
    case Content(v) => if v.Str? then None else Some(v)
    case _ => None
  }

  /** The distinct payloads of a generator, in first-yield order, as child hashes. */
  function ChildHashes(ys: seq<Json>): (hs: seq<Hash>)
    ensures forall h :: h in hs <==> exists y :: y in ys && h == ChildHash(y)
    ensures forall i, j :: 0 <= i < j < |hs| ==> hs[i] != hs[j]
  {
    if ys == [] then []
    else
      var before := ChildHashes(ys[..|ys| - 1]);
      var y := ys[|ys| - 1];
      assert ys == ys[..|ys| - 1] + [y];
      if ChildHash(y) in before then before else before + [ChildHash(y)]
  }

  function ChildAddress(pipe: string, code: Code, h: Hash): Address {
    Address(pipe, code, Of(h))
  }

  /** The cell a committed (or reused) outcome leaves behind. */
  function OutcomeCell(w: World, a: Address, o: Outcome): Cell {
    if o.Fail? then Failed
    else Mat(a, Ident(w.spills, Payload(o)), Form(w.spills, Payload(o)), o.Filtered?)
  }

  // ---------------------------------------------------------------------------
  // Reading parents back
  // ---------------------------------------------------------------------------

  /** The parents of a cell, in the layout its step's shape gives them. */
  datatype Parents =
    | NoParents
    | Single(parent: Cell)
    | Slots(slots: map<string, Option<Cell>>)
    | Lanes(lanes: map<string, map<Coord, Cell>>)

  function InputOf(ps: Parents): Input {
    match ps
    case NoParents => RootLane
    case Single(cell) => Of(IdentityOf(cell))
    case Slots(slots) =>
      ByDep(map d | d in slots :: if slots[d].None? then None else Some(IdentityOf(slots[d].value)))
    case Lanes(lanes) => Members(LaneHashes(lanes))
  }

  function LaneHashes(lanes: map<string, map<Coord, Cell>>): map<string, map<Coord, Hash>> {
    map d | d in lanes :: map c | c in lanes[d] :: IdentityOf(lanes[d][c])
  }

  /**
   Reading a parent: an inline value comes from the lane store, a spilled one from the object
   store, where a missing object reads as None; a never-stored step is computed on the spot.
   */
  function ReadCell(w: World, pipe: string, objects: set<Json>, cell: Cell): Option<Json> {
    match cell
    case Mat(_, _, Inline(v), _) => Some(v)
    case Mat(_, _, Ref(v), _) => Some(if v in objects then v else Null)
    case Util(code, parents) =>
      var values := map d | d in parents :: ReadCell(w, pipe, objects, parents[d]);
      UtilValue(w, pipe, code, values)
    case _ => None
  }

  function ReadArgs(w: World, pipe: string, objects: set<Json>, ps: Parents): Option<Args> {
    match ps
    case NoParents => Some(NoArgs)
    case Single(cell) => OneArg(ReadCell(w, pipe, objects, cell))
    case Slots(slots) =>
      SlotArgs(map d | d in slots && slots[d].Some? :: ReadCell(w, pipe, objects, slots[d].value), slots.Keys)
    case Lanes(lanes) =>
      LaneArgs(map d | d in lanes :: map c | c in lanes[d] :: ReadCell(w, pipe, objects, lanes[d][c]))
  }

  /** A cell whose stored output and identity both belong to one value. */
  predicate Sound(w: World, cell: Cell) {
    match cell
    case Mat(_, identity, output, _) =>
      output == Form(w.spills, output.v) && identity == Ident(w.spills, output.v)
    case Util(_, parents) => forall d :: d in parents ==> Usable(parents[d]) && Sound(w, parents[d])
    case _ => true
  }

  /** Every object the cell refers to is in the object store. */
  predicate Present(objects: set<Json>, cell: Cell) {
    match cell
    case Mat(_, _, output, filtered) => output.Ref? && !filtered ==> output.v in objects
    case Util(_, parents) => forall d :: d in parents ==> Present(objects, parents[d])
    case _ => true
  }

  predicate Readable(w: World, objects: set<Json>, cell: Cell) {
    Usable(cell) && Sound(w, cell) && Present(objects, cell)
  }

  predicate ParentsReadable(w: World, objects: set<Json>, ps: Parents) {
    match ps
    case NoParents => true
    case Single(cell) => Readable(w, objects, cell)
    case Slots(slots) => forall d :: d in slots && slots[d].Some? ==> Readable(w, objects, slots[d].value)
    case Lanes(lanes) => forall d :: d in lanes ==> forall c :: c in lanes[d] ==> Readable(w, objects, lanes[d][c])
  }

  lemma {:induction false} CellReadsItsIdentity(w: World, pipe: string, objects: set<Json>, cell: Cell)
    requires Readable(w, objects, cell)
    ensures ReadCell(w, pipe, objects, cell) == ValueOf(w, pipe, IdentityOf(cell))
  {
    if cell.Util? {
      forall d | d in cell.parents
        ensures ReadCell(w, pipe, objects, cell.parents[d]) == ValueOf(w, pipe, IdentityOf(cell.parents[d]))
      {
        CellReadsItsIdentity(w, pipe, objects, cell.parents[d]);
      }
      var hashes := map d | d in cell.parents :: IdentityOf(cell.parents[d]);
      assert (map d | d in cell.parents :: ReadCell(w, pipe, objects, cell.parents[d]))
          == (map d | d in hashes :: ValueOf(w, pipe, hashes[d]));
    }
  }

  /** Execution sees exactly the arguments its address stands for. */
  lemma ReadMatches(w: World, pipe: string, objects: set<Json>, ps: Parents)
    requires ParentsReadable(w, objects, ps)
    ensures ReadArgs(w, pipe, objects, ps) == ArgsOf(w, pipe, InputOf(ps))
  {
    hide ReadCell, ValueOf, IdentityOf, UtilValue, Readable;
    match ps
    case NoParents =>
    case Single(cell) => CellReadsItsIdentity(w, pipe, objects, cell);
    case Slots(slots) =>
      forall d | d in slots && slots[d].Some?
        ensures ReadCell(w, pipe, objects, slots[d].value) == ValueOf(w, pipe, IdentityOf(slots[d].value))
      {
        CellReadsItsIdentity(w, pipe, objects, slots[d].value);
      }
      var hashes := InputOf(ps).slots;
      assert (map d | d in slots && slots[d].Some? :: ReadCell(w, pipe, objects, slots[d].value))
          == (map d | d in hashes && hashes[d].Some? :: ValueOf(w, pipe, hashes[d].value));
      assert slots.Keys == hashes.Keys;
    case Lanes(lanes) =>
      forall d, c | d in lanes && c in lanes[d]
        ensures ReadCell(w, pipe, objects, lanes[d][c]) == ValueOf(w, pipe, IdentityOf(lanes[d][c]))
      {
        CellReadsItsIdentity(w, pipe, objects, lanes[d][c]);
      }
      var hashes := LaneHashes(lanes);
      var read := map d | d in lanes :: map c | c in lanes[d] :: ReadCell(w, pipe, objects, lanes[d][c]);
      forall d | d in lanes
        ensures read[d] == LaneValues(w, pipe, hashes)[d]
      {
        assert read[d].Keys == LaneValues(w, pipe, hashes)[d].Keys;
      }
      assert read == LaneValues(w, pipe, hashes);
  }
}
