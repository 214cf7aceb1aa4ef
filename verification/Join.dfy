/**
 Planning an N-way join: bucket each side's lanes by their join field, then emit one decision
 for every way to pick one lane per side among those that share a value.
 */
module Join {
  import opened Model
  import opened Meaning
  import opened Planning

  /** A surviving lane of one side, with the values of its join field in order. */
  datatype Lane = Lane(coord: Coord, identity: Hash, values: seq<string>)

  /** One slot of a tuple; None pads a side that has no lane for the value. */
  type Slot = Option<Lane>

  // ---------------------------------------------------------------------------
  // cartesian products
  // ---------------------------------------------------------------------------

  function PrefixAll<T>(x: T, rests: seq<seq<T>>): (r: seq<seq<T>>)
    ensures |r| == |rests| && forall i :: 0 <= i < |r| ==> r[i] == [x] + rests[i]
  {
    if rests == [] then [] else PrefixAll(x, rests[..|rests| - 1]) + [[x] + rests[|rests| - 1]]
  }

  function PrefixEach<T>(xs: seq<T>, rests: seq<seq<T>>): seq<seq<T>> {
    if xs == [] then [] else PrefixAll(xs[0], rests) + PrefixEach(xs[1..], rests)
  }

  /** Every way to pick one element of each list, the last list varying fastest. */
  function Product<T>(lists: seq<seq<T>>): seq<seq<T>> {
    if lists == [] then [[]] else PrefixEach(lists[0], Product(lists[1..]))
  }

  function Volume<T>(lists: seq<seq<T>>): nat {
    if lists == [] then 1 else |lists[0]| * Volume(lists[1..])
  }

  predicate NoRepeats<T(==)>(s: seq<T>) {
    forall i, j :: 0 <= i < j < |s| ==> s[i] != s[j]
  }

  lemma {:induction false} PrefixEachMembers<T(!new)>(xs: seq<T>, rests: seq<seq<T>>)
    ensures forall c :: c in PrefixEach(xs, rests) <==> |c| > 0 && c[0] in xs && c[1..] in rests
  {
    if xs != [] {
      PrefixEachMembers(xs[1..], rests);
      forall c ensures c in PrefixEach(xs, rests) <==> |c| > 0 && c[0] in xs && c[1..] in rests {
        assert xs == [xs[0]] + xs[1..];
        PrefixAllMembers(xs[0], rests, c);
      }
    }
  }

  lemma PrefixAllMembers<T(!new)>(x: T, rests: seq<seq<T>>, c: seq<T>)
    ensures c in PrefixAll(x, rests) <==> |c| > 0 && c[0] == x && c[1..] in rests
  {
    var all := PrefixAll(x, rests);
    if c in all {
      var i :| 0 <= i < |all| && all[i] == c;
      assert c[1..] == rests[i];
    }
    if |c| > 0 && c[0] == x && c[1..] in rests {
      var i :| 0 <= i < |rests| && rests[i] == c[1..];
      assert all[i] == c;
    }
  }

  /** A tuple is in the product exactly when each entry is in its list. */
  lemma {:induction false} ProductMembers<T(!new)>(lists: seq<seq<T>>, c: seq<T>)
    ensures c in Product(lists) <==> |c| == |lists| && forall i :: 0 <= i < |lists| ==> c[i] in lists[i]
  {
    if lists != [] {
      PrefixEachMembers(lists[0], Product(lists[1..]));
      if |c| > 0 {
        ProductMembers(lists[1..], c[1..]);
        if c[0] in lists[0] && c[1..] in Product(lists[1..]) {
          forall i | 0 <= i < |lists| ensures c[i] in lists[i] {
            if i > 0 { assert c[i] == c[1..][i - 1] && lists[i] == lists[1..][i - 1]; }
          }
        }
        if |c| == |lists| && forall i :: 0 <= i < |lists| ==> c[i] in lists[i] {
          assert forall i :: 0 <= i < |lists| - 1 ==> c[1..][i] == c[i + 1] && lists[1..][i] == lists[i + 1];
        }
      }
    }
  }

  lemma {:induction false} PrefixEachCount<T>(xs: seq<T>, rests: seq<seq<T>>)
    ensures |PrefixEach(xs, rests)| == |xs| * |rests|
  {
    if xs != [] {
      PrefixEachCount(xs[1..], rests);
    }
  }

  lemma {:induction false} ProductCount<T>(lists: seq<seq<T>>)
    ensures |Product(lists)| == Volume(lists)
  {
    if lists != [] {
      ProductCount(lists[1..]);
      PrefixEachCount(lists[0], Product(lists[1..]));
    }
  }

  lemma NoRepeatsConcat<T(!new)>(a: seq<T>, b: seq<T>)
    requires NoRepeats(a) && NoRepeats(b) && forall x :: x in a ==> x !in b
    ensures NoRepeats(a + b)
  {
    forall i, j | 0 <= i < j < |a + b| ensures (a + b)[i] != (a + b)[j] {
      if i < |a| <= j {
        assert a[i] in a && b[j - |a|] in b;
      }
    }
  }

  lemma {:induction false} PrefixEachNoRepeats<T(!new)>(xs: seq<T>, rests: seq<seq<T>>)
    requires NoRepeats(xs) && NoRepeats(rests)
    ensures NoRepeats(PrefixEach(xs, rests))
  {
    if xs != [] {
      var first, others := PrefixAll(xs[0], rests), PrefixEach(xs[1..], rests);
      assert NoRepeats(xs[1..]);
      PrefixEachNoRepeats(xs[1..], rests);
      PrefixEachMembers(xs[1..], rests);
      forall i, j | 0 <= i < j < |first| ensures first[i] != first[j] {
        assert first[i][1..] == rests[i] && first[j][1..] == rests[j];
      }
      forall c | c in first ensures c !in others {
        PrefixAllMembers(xs[0], rests, c);
      }
      NoRepeatsConcat(first, others);
    }
  }

  lemma {:induction false} ProductNoRepeats<T(!new)>(lists: seq<seq<T>>)
    requires forall i :: 0 <= i < |lists| ==> NoRepeats(lists[i])
    ensures NoRepeats(Product(lists))
  {
    if lists != [] {
      ProductNoRepeats(lists[1..]);
      PrefixEachNoRepeats(lists[0], Product(lists[1..]));
    }
  }

  // ---------------------------------------------------------------------------
  // buckets
  // ---------------------------------------------------------------------------

  function Times(lane: Lane, values: seq<string>, v: string): seq<Lane> {
    if values == [] then []
    else Times(lane, values[..|values| - 1], v) + (if values[|values| - 1] == v then [lane] else [])
  }

  /** The lanes of a side that carry a value, once for every time they list it. */
  function Bucket(side: seq<Lane>, v: string): seq<Lane> {
    if side == [] then []
    else Bucket(side[..|side| - 1], v) + Times(side[|side| - 1], side[|side| - 1].values, v)
  }

  lemma TimesNext(lane: Lane, n: nat, v: string)
    requires n < |lane.values|
    ensures Times(lane, lane.values[..n + 1], v) == Times(lane, lane.values[..n], v) + (if lane.values[n] == v then [lane] else [])
  {
    assert lane.values[..n + 1][..n] == lane.values[..n];
  }

  method AddLane(start: map<string, seq<Lane>>, lane: Lane, ghost side: seq<Lane>) returns (buckets: map<string, seq<Lane>>)
    requires forall v :: Found(start, v) == Bucket(side, v)
    requires forall v :: v in start ==> start[v] != []
    ensures forall v :: Found(buckets, v) == Bucket(side, v) + Times(lane, lane.values, v)
    ensures forall v :: v in buckets ==> buckets[v] != []
  {
    hide Bucket, Times;
    buckets := start;
    NoTimes(lane);
    for i := 0 to |lane.values|
      invariant forall v :: Found(buckets, v) == Bucket(side, v) + Times(lane, lane.values[..i], v)
      invariant forall v :: v in buckets ==> buckets[v] != []
    {
      var value := lane.values[i];
      ghost var before := buckets;
      buckets := buckets[value := Found(buckets, value) + [lane]];
      forall v ensures Found(buckets, v) == Bucket(side, v) + Times(lane, lane.values[..i + 1], v) {
        TimesNext(lane, i, v);
        assert Found(buckets, v) == Found(before, v) + (if v == value then [lane] else []);
      }
    }
    assert lane.values[..|lane.values|] == lane.values;
  }

  lemma NoTimes(lane: Lane)
    ensures forall v :: Times(lane, lane.values[..0], v) == []
  {
  }

  function Found(buckets: map<string, seq<Lane>>, v: string): seq<Lane> {
    if v in buckets then buckets[v] else []
  }

  /** Bucketing one side. */
  method BuildBuckets(side: seq<Lane>) returns (buckets: map<string, seq<Lane>>)
    ensures forall v :: Found(buckets, v) == Bucket(side, v)
    ensures forall v :: v in buckets <==> Bucket(side, v) != []
  {
    buckets := map[];
    for i := 0 to |side|
      invariant forall v :: Found(buckets, v) == Bucket(side[..i], v)
      invariant forall v :: v in buckets ==> buckets[v] != []
    {
      assert side[..i + 1][..i] == side[..i] && side[..i + 1][i] == side[i];
      buckets := AddLane(buckets, side[i], side[..i]);
    }
    assert side[..|side|] == side;
    assert forall v :: v in buckets ==> buckets[v] == Bucket(side, v);
  }

  lemma {:induction false} TimesMembers(lane: Lane, values: seq<string>, v: string)
    ensures forall x :: x in Times(lane, values, v) <==> x == lane && v in values
    ensures |values| == 1 ==> |Times(lane, values, v)| <= 1
  {
    if values != [] {
      var n := |values| - 1;
      assert values == values[..n] + [values[n]];
      TimesMembers(lane, values[..n], v);
    }
  }

  lemma {:induction false} BucketMembers(side: seq<Lane>, v: string)
    ensures forall x :: x in Bucket(side, v) <==> x in side && v in x.values
  {
    if side != [] {
      var n := |side| - 1;
      assert side == side[..n] + [side[n]];
      BucketMembers(side[..n], v);
      TimesMembers(side[n], side[n].values, v);
    }
  }

  lemma BucketEmpty(side: seq<Lane>, v: string)
    ensures Bucket(side, v) == [] <==> forall lane :: lane in side ==> v !in lane.values
  {
    BucketMembers(side, v);
    var bucket := Bucket(side, v);
    if bucket != [] {
      assert bucket[0] in bucket;
    }
  }

  /** With one value per lane, a bucket lists each of its lanes once. */
  lemma {:induction false} BucketNoRepeats(side: seq<Lane>, v: string)
    requires NoRepeats(side) && forall lane :: lane in side ==> |lane.values| == 1
    ensures NoRepeats(Bucket(side, v))
  {
    if side != [] {
      var n := |side| - 1;
      assert side == side[..n] + [side[n]];
      BucketNoRepeats(side[..n], v);
      BucketMembers(side[..n], v);
      TimesMembers(side[n], side[n].values, v);
      NoRepeatsConcat(Bucket(side[..n], v), Times(side[n], side[n].values, v));
    }
  }

  // ---------------------------------------------------------------------------
  // planning the tuples
  // ---------------------------------------------------------------------------

  function Slots(lanes: seq<Lane>): (r: seq<Slot>)
    ensures |r| == |lanes| && forall i :: 0 <= i < |r| ==> r[i] == Some(lanes[i])
  {
    if lanes == [] then [] else Slots(lanes[..|lanes| - 1]) + [Some(lanes[|lanes| - 1])]
  }

  /** The slots a side offers for a value: its bucket, or the padding. */
  function SlotsFor(side: seq<Lane>, v: string): seq<Slot> {
    if Bucket(side, v) == [] then [None] else Slots(Bucket(side, v))
  }

  function SlotLists(sides: seq<seq<Lane>>, v: string): (lists: seq<seq<Slot>>)
    ensures |lists| == |sides| && forall i :: 0 <= i < |sides| ==> lists[i] == SlotsFor(sides[i], v)
  {
    if sides == [] then [] else SlotLists(sides[..|sides| - 1], v) + [SlotsFor(sides[|sides| - 1], v)]
  }

  /** The values the plan goes through. */
  predicate InUniverse(sides: seq<seq<Lane>>, union: bool, v: string) {
    if union then exists i :: 0 <= i < |sides| && Bucket(sides[i], v) != []
    else forall i :: 0 <= i < |sides| ==> Bucket(sides[i], v) != []
  }

  ghost predicate ListsUniverse(sides: seq<seq<Lane>>, union: bool, keys: seq<string>) {
    NoRepeats(keys) && forall v :: v in keys <==> InUniverse(sides, union, v)
  }

  function Emitted(sides: seq<seq<Lane>>, keys: seq<string>): seq<seq<Slot>> {
    if keys == [] then []
    else Emitted(sides, keys[..|keys| - 1]) + Product(SlotLists(sides, keys[|keys| - 1]))
  }

  ghost predicate AllValued(sides: seq<seq<Lane>>) {
    forall i, lane :: 0 <= i < |sides| && lane in sides[i] ==> lane.values != []
  }

  /** The plan's loops; None when some lane has no value for its join field. */
  method PlanTuples(sides: seq<seq<Lane>>, union: bool) returns (tuples: Option<seq<seq<Slot>>>, ghost keys: seq<string>)
    requires sides != []
    ensures tuples.None? <==> !AllValued(sides)
    ensures tuples.Some? ==> ListsUniverse(sides, union, keys) && tuples.value == Emitted(sides, keys)
  {
    hide Bucket, Product, SlotsFor;
    keys := [];
    var buckets: seq<map<string, seq<Lane>>> := [];
    for i := 0 to |sides|
      invariant |buckets| == i
      invariant AllValued(sides[..i])
      invariant forall j, v :: 0 <= j < i ==> Found(buckets[j], v) == Bucket(sides[j], v)
      invariant forall j, v :: 0 <= j < i ==> (v in buckets[j] <==> Bucket(sides[j], v) != [])
    {
      if exists lane :: lane in sides[i] && lane.values == [] {
        return None, keys;
      }
      var side := BuildBuckets(sides[i]);
      buckets := buckets + [side];
    }
    assert sides[..|sides|] == sides;
    var universe := Universe(sides, buckets, union);
    keys := universe;
    var out: seq<seq<Slot>> := [];
    for i := 0 to |universe|
      invariant out == Emitted(sides, keys[..i])
    {
      assert keys[..i + 1][..i] == keys[..i] && keys[..i + 1][i] == keys[i];
      out := out + Product(SlotLists(sides, universe[i]));
    }
    assert keys[..|keys|] == keys;
    tuples := Some(out);
  }

  /** The union or the intersection of the sides' values. */
  method Universe(ghost sides: seq<seq<Lane>>, buckets: seq<map<string, seq<Lane>>>, union: bool) returns (keys: seq<string>)
    requires sides != [] && |buckets| == |sides|
    requires forall j, v :: 0 <= j < |sides| ==> (v in buckets[j] <==> Bucket(sides[j], v) != [])
    ensures ListsUniverse(sides, union, keys)
  {
    hide Bucket;
    var all: set<string> := buckets[0].Keys;
    for i := 1 to |buckets|
      invariant forall v :: v in all <==> if union then exists j :: 0 <= j < i && v in buckets[j]
                                          else forall j :: 0 <= j < i ==> v in buckets[j]
    {
      ghost var before := all;
      if union {
        all := all + buckets[i].Keys;
        forall v ensures v in all <==> exists j :: 0 <= j < i + 1 && v in buckets[j] {
          if v in before { var j :| 0 <= j < i && v in buckets[j]; }
        }
      } else {
        all := all * buckets[i].Keys;
      }
    }
    keys := [];
    var left := all;
    while left != {}
      invariant left <= all && NoRepeats(keys) && forall v :: v in keys <==> v in all && v !in left
      decreases left
    {
      var v :| v in left;
      keys := keys + [v];
      left := left - {v};
    }
    forall v ensures v in keys <==> InUniverse(sides, union, v) {
      if union && InUniverse(sides, union, v) {
        var i :| 0 <= i < |sides| && Bucket(sides[i], v) != [];
        assert v in buckets[i];
      }
      if union && v in keys {
        var j :| 0 <= j < |buckets| && v in buckets[j];
        assert Bucket(sides[j], v) != [];
      }
    }
  }

  // ---------------------------------------------------------------------------
  // the plan is the relational join
  // ---------------------------------------------------------------------------

  /** Scalar join fields: every lane has one value, and no side lists a lane twice. */
  ghost predicate Scalar(sides: seq<seq<Lane>>) {
    && (forall i, lane :: 0 <= i < |sides| && lane in sides[i] ==> |lane.values| == 1)
    && (forall i :: 0 <= i < |sides| ==> NoRepeats(sides[i]))
  }

  /** The tuple picks a slot for this value on every side. */
  ghost predicate Chosen(sides: seq<seq<Lane>>, v: string, t: seq<Slot>) {
    |t| == |sides| && forall i :: 0 <= i < |sides| ==> t[i] in SlotsFor(sides[i], v)
  }

  lemma SlotsForMembers(side: seq<Lane>, v: string)
    ensures forall lane :: Some(lane) in SlotsFor(side, v) <==> lane in side && v in lane.values
    ensures None in SlotsFor(side, v) <==> Bucket(side, v) == []
    ensures Bucket(side, v) == [] ==> SlotsFor(side, v) == [None]
  {
    BucketMembers(side, v);
    var bucket := Bucket(side, v);
    forall lane ensures Some(lane) in SlotsFor(side, v) <==> lane in bucket {
      if lane in bucket {
        var i :| 0 <= i < |bucket| && bucket[i] == lane;
        assert Slots(bucket)[i] == Some(lane);
      }
    }
  }

  lemma {:induction false} EmittedMembers(sides: seq<seq<Lane>>, keys: seq<string>, t: seq<Slot>)
    ensures t in Emitted(sides, keys) <==> exists v :: v in keys && Chosen(sides, v, t)
  {
    hide SlotsFor, Product;
    if keys != [] {
      var n := |keys| - 1;
      assert keys == keys[..n] + [keys[n]];
      EmittedMembers(sides, keys[..n], t);
      ProductMembers(SlotLists(sides, keys[n]), t);
      assert t in Product(SlotLists(sides, keys[n])) <==> Chosen(sides, keys[n], t);
    }
  }

  /** A tuple belongs to one value only. */
  lemma OneValuePerTuple(sides: seq<seq<Lane>>, union: bool, v: string, w: string, t: seq<Slot>)
    requires sides != [] && Scalar(sides) && InUniverse(sides, union, v)
    requires Chosen(sides, v, t) && Chosen(sides, w, t)
    ensures v == w
  {
    hide SlotsFor, Bucket;
    var i :| 0 <= i < |sides| && Bucket(sides[i], v) != [];
    SlotsForMembers(sides[i], v);
    SlotsForMembers(sides[i], w);
    assert t[i] in SlotsFor(sides[i], v) && t[i] in SlotsFor(sides[i], w);
    assert t[i].Some? && v in t[i].value.values && w in t[i].value.values;
  }

  lemma SlotsForNoRepeats(side: seq<Lane>, v: string)
    requires NoRepeats(side) && forall lane :: lane in side ==> |lane.values| == 1
    ensures NoRepeats(SlotsFor(side, v))
  {
    BucketNoRepeats(side, v);
  }

  /** Each tuple is emitted once. */
  lemma {:induction false} EmittedNoRepeats(sides: seq<seq<Lane>>, union: bool, keys: seq<string>)
    requires sides != [] && Scalar(sides) && NoRepeats(keys)
    requires forall v :: v in keys ==> InUniverse(sides, union, v)
    ensures NoRepeats(Emitted(sides, keys))
  {
    hide SlotsFor, Product, InUniverse;
    if keys != [] {
      var n := |keys| - 1;
      assert keys == keys[..n] + [keys[n]];
      EmittedNoRepeats(sides, union, keys[..n]);
      var lists := SlotLists(sides, keys[n]);
      forall i | 0 <= i < |lists| ensures NoRepeats(lists[i]) {
        SlotsForNoRepeats(sides[i], keys[n]);
      }
      ProductNoRepeats(lists);
      forall t | t in Emitted(sides, keys[..n]) ensures t !in Product(lists) {
        EmittedMembers(sides, keys[..n], t);
        ProductMembers(lists, t);
        var v :| v in keys[..n] && Chosen(sides, v, t);
        if Chosen(sides, keys[n], t) {
          OneValuePerTuple(sides, union, v, keys[n], t);
        }
      }
      NoRepeatsConcat(Emitted(sides, keys[..n]), Product(lists));
    }
  }

  /** The product of the sizes of the buckets. */
  function Pairings(sides: seq<seq<Lane>>, v: string): nat {
    if sides == [] then 1 else |Bucket(sides[0], v)| * Pairings(sides[1..], v)
  }

  function TotalPairings(sides: seq<seq<Lane>>, keys: seq<string>): nat {
    if keys == [] then 0 else TotalPairings(sides, keys[..|keys| - 1]) + Pairings(sides, keys[|keys| - 1])
  }

  lemma {:induction false} FullVolume(sides: seq<seq<Lane>>, v: string)
    requires forall i :: 0 <= i < |sides| ==> Bucket(sides[i], v) != []
    ensures Volume(SlotLists(sides, v)) == Pairings(sides, v)
  {
    hide Bucket;
    if sides != [] {
      assert SlotLists(sides, v)[1..] == SlotLists(sides[1..], v);
      FullVolume(sides[1..], v);
    }
  }

  lemma {:induction false} IntersectCount(sides: seq<seq<Lane>>, keys: seq<string>)
    requires forall v :: v in keys ==> InUniverse(sides, false, v)
    ensures |Emitted(sides, keys)| == TotalPairings(sides, keys)
  {
    hide Bucket, SlotsFor, Product;
    if keys != [] {
      var n := |keys| - 1;
      assert keys == keys[..n] + [keys[n]];
      IntersectCount(sides, keys[..n]);
      ProductCount(SlotLists(sides, keys[n]));
      assert InUniverse(sides, false, keys[n]);
      FullVolume(sides, keys[n]);
    }
  }

  /** One lane per side, all with the same value. */
  ghost predicate Joined(sides: seq<seq<Lane>>, t: seq<Slot>) {
    && |t| == |sides|
    && (forall i :: 0 <= i < |t| ==> t[i].Some? && t[i].value in sides[i])
    && exists v :: Share(t, v)
  }

  /** Every lane of the tuple has this value. */
  predicate Share(t: seq<Slot>, v: string) {
    forall i :: 0 <= i < |t| ==> t[i].Some? && v in t[i].value.values
  }

  /**
   Intersect mode is the equijoin: it emits each tuple of lanes that agree on a value, once, and
   nothing else; the number of tuples is the sum over the common values of the products of the
   bucket sizes.
   */
  lemma IntersectIsTheJoin(sides: seq<seq<Lane>>, keys: seq<string>)
    requires sides != [] && Scalar(sides) && ListsUniverse(sides, false, keys)
    ensures forall t :: t in Emitted(sides, keys) <==> Joined(sides, t)
    ensures NoRepeats(Emitted(sides, keys))
    ensures |Emitted(sides, keys)| == TotalPairings(sides, keys)
  {
    hide Bucket, SlotsFor, Product, Emitted;
    EmittedNoRepeats(sides, false, keys);
    IntersectCount(sides, keys);
    forall t: seq<Slot> ensures t in Emitted(sides, keys) <==> Joined(sides, t) {
      EmittedMembers(sides, keys, t);
      if t in Emitted(sides, keys) {
        var v :| v in keys && Chosen(sides, v, t);
        ChosenIsJoined(sides, v, t);
      }
      if Joined(sides, t) {
        var v :| Share(t, v);
        JoinedIsChosen(sides, v, t);
      }
    }
  }

  lemma ChosenIsJoined(sides: seq<seq<Lane>>, v: string, t: seq<Slot>)
    requires Chosen(sides, v, t) && InUniverse(sides, false, v)
    ensures Joined(sides, t)
  {
    hide Bucket, SlotsFor;
    forall i | 0 <= i < |t| ensures t[i].Some? && t[i].value in sides[i] && v in t[i].value.values {
      SlotsForMembers(sides[i], v);
      assert t[i] in SlotsFor(sides[i], v);
    }
    assert Share(t, v);
  }

  lemma JoinedIsChosen(sides: seq<seq<Lane>>, v: string, t: seq<Slot>)
    requires |t| == |sides| && forall i :: 0 <= i < |t| ==> t[i].Some? && t[i].value in sides[i] && v in t[i].value.values
    ensures Chosen(sides, v, t) && InUniverse(sides, false, v)
  {
    hide Bucket, SlotsFor;
    forall i | 0 <= i < |sides| ensures t[i] in SlotsFor(sides[i], v) && Bucket(sides[i], v) != [] {
      SlotsForMembers(sides[i], v);
      BucketMembers(sides[i], v);
      assert t[i].value in Bucket(sides[i], v);
    }
  }

  /**
   Union mode contains every tuple of intersect mode, adds only padded tuples, emits each tuple
   once, and covers every surviving lane of every side.
   */
  lemma UnionExtendsTheJoin(sides: seq<seq<Lane>>, common: seq<string>, every: seq<string>)
    requires sides != [] && Scalar(sides)
    requires ListsUniverse(sides, false, common) && ListsUniverse(sides, true, every)
    ensures forall t :: t in Emitted(sides, common) ==> t in Emitted(sides, every)
    ensures forall t :: t in Emitted(sides, every) && t !in Emitted(sides, common) ==> None in t
    ensures NoRepeats(Emitted(sides, every))
    ensures forall i, lane :: 0 <= i < |sides| && lane in sides[i] ==> Covered(sides, every, i, lane)
  {
    hide Bucket, SlotsFor, Product, Emitted, ListsUniverse, Covered, NoRepeats, Scalar;
    assert NoRepeats(every) && forall v :: v in every ==> InUniverse(sides, true, v) by { Listed(sides, true, every); }
    EmittedNoRepeats(sides, true, every);
    forall t | t in Emitted(sides, common) ensures t in Emitted(sides, every) {
      JoinedInUnion(sides, common, every, t);
    }
    forall t: seq<Slot> | t in Emitted(sides, every) && t !in Emitted(sides, common) ensures None in t {
      ExtraIsPadded(sides, common, every, t);
    }
    forall i, lane | 0 <= i < |sides| && lane in sides[i] ensures Covered(sides, every, i, lane) {
      LaneIsCovered(sides, every, i, lane);
    }
  }

  /** Some tuple of the plan has this lane. */
  ghost predicate Covered(sides: seq<seq<Lane>>, keys: seq<string>, i: nat, lane: Lane) {
    exists t :: t in Emitted(sides, keys) && |t| == |sides| && i < |t| && t[i] == Some(lane)
  }

  lemma Listed(sides: seq<seq<Lane>>, union: bool, keys: seq<string>)
    requires ListsUniverse(sides, union, keys)
    ensures NoRepeats(keys) && forall v :: v in keys <==> InUniverse(sides, union, v)
  {
  }

  lemma JoinedInUnion(sides: seq<seq<Lane>>, common: seq<string>, every: seq<string>, t: seq<Slot>)
    requires sides != [] && ListsUniverse(sides, false, common) && ListsUniverse(sides, true, every)
    requires t in Emitted(sides, common)
    ensures t in Emitted(sides, every)
  {
    hide Bucket, SlotsFor, Product, Emitted, Chosen;
    EmittedMembers(sides, common, t);
    EmittedMembers(sides, every, t);
    var v :| v in common && Chosen(sides, v, t);
    assert Bucket(sides[0], v) != [];
  }

  lemma ExtraIsPadded(sides: seq<seq<Lane>>, common: seq<string>, every: seq<string>, t: seq<Slot>)
    requires sides != [] && ListsUniverse(sides, false, common) && ListsUniverse(sides, true, every)
    requires t in Emitted(sides, every) && t !in Emitted(sides, common)
    ensures None in t
  {
    hide Bucket, SlotsFor, Product, Emitted;
    EmittedMembers(sides, common, t);
    EmittedMembers(sides, every, t);
    var v :| v in every && Chosen(sides, v, t);
    var i :| 0 <= i < |sides| && Bucket(sides[i], v) == [];
    SlotsForMembers(sides[i], v);
    assert t[i] in SlotsFor(sides[i], v) && t[i].None?;
  }

  lemma LaneIsCovered(sides: seq<seq<Lane>>, every: seq<string>, i: nat, lane: Lane)
    requires sides != [] && Scalar(sides) && ListsUniverse(sides, true, every)
    requires i < |sides| && lane in sides[i]
    ensures Covered(sides, every, i, lane)
  {
    hide Bucket, SlotsFor, Product, Emitted;
    var v := lane.values[0];
    BucketMembers(sides[i], v);
    assert lane in Bucket(sides[i], v);
    var t := SomeTuple(sides, v)[i := Some(lane)];
    SlotsForMembers(sides[i], v);
    EmittedMembers(sides, every, t);
    assert Chosen(sides, v, t);
  }

  lemma SlotsNonEmpty(side: seq<Lane>, v: string)
    ensures SlotsFor(side, v) != []
  {
  }

  /** The tuple of first slots. */
  ghost function SomeTuple(sides: seq<seq<Lane>>, v: string): (t: seq<Slot>)
    ensures Chosen(sides, v, t)
  {
    if sides == [] then []
    else
      var n := |sides| - 1;
      SlotsNonEmpty(sides[n], v);
      assert SlotsFor(sides[n], v)[0] in SlotsFor(sides[n], v);
      SomeTuple(sides[..n], v) + [SlotsFor(sides[n], v)[0]]
  }

  // ---------------------------------------------------------------------------
  // cache identity
  // ---------------------------------------------------------------------------

  /** A tuple's input hash: one entry per side, in both modes. */
  function TupleInput(deps: seq<string>, t: seq<Slot>): Input
    requires |t| == |deps|
  {
    ByDep(map d | d in deps :: SlotOf(deps, t, d))
  }

  function SlotOf(deps: seq<string>, t: seq<Slot>, d: string): Option<Hash>
    requires |t| == |deps|
  {
    if deps == [] then None
    else if deps[0] == d then (if t[0].Some? then Some(t[0].value.identity) else None)
    else SlotOf(deps[1..], t[1..], d)
  }

  lemma {:induction false} SlotAt(deps: seq<string>, t: seq<Slot>, i: nat)
    requires |t| == |deps| && i < |deps| && NoRepeats(deps)
    ensures SlotOf(deps, t, deps[i]) == if t[i].Some? then Some(t[i].value.identity) else None
  {
    if i > 0 {
      assert deps[0] != deps[i];
      SlotAt(deps[1..], t[1..], i - 1);
    }
  }

  /** Two tuples share an input exactly when they are padded alike and agree on every lane's content. */
  lemma TupleInputsDiffer(deps: seq<string>, t: seq<Slot>, u: seq<Slot>)
    requires |t| == |deps| == |u| && NoRepeats(deps)
    ensures TupleInput(deps, t) == TupleInput(deps, u) <==>
              forall i :: 0 <= i < |deps| ==>
                (t[i].Some? <==> u[i].Some?) && (t[i].Some? && u[i].Some? ==> t[i].value.identity == u[i].value.identity)
  {
    hide SlotOf;
    var a, b := TupleInput(deps, t).slots, TupleInput(deps, u).slots;
    forall i | 0 <= i < |deps|
      ensures deps[i] in a && deps[i] in b
      ensures a[deps[i]] == if t[i].Some? then Some(t[i].value.identity) else None
      ensures b[deps[i]] == if u[i].Some? then Some(u[i].value.identity) else None
    {
      SlotAt(deps, t, i);
      SlotAt(deps, u, i);
    }
    assert a == b <==> forall i :: 0 <= i < |deps| ==> a[deps[i]] == b[deps[i]] by {
      if forall i :: 0 <= i < |deps| ==> a[deps[i]] == b[deps[i]] {
        forall d | d in a ensures a[d] == b[d] {
          var i :| 0 <= i < |deps| && deps[i] == d;
        }
      }
    }
  }

  // ---------------------------------------------------------------------------
  // these are the tuples the run model plans
  // ---------------------------------------------------------------------------

  /** The side lists the surviving lanes of a parent, with their identities and join values. */
  ghost predicate Listing(show: Json -> string, field: string, lanes: map<Coord, Cell>, side: seq<Lane>) {
    && (forall i, j :: 0 <= i < j < |side| ==> side[i].coord != side[j].coord)
    && (forall c :: c in lanes ==> exists lane :: lane in side && lane.coord == c)
    && (forall lane :: lane in side ==> LaneOf(show, field, lanes, lane))
  }

  ghost predicate LaneOf(show: Json -> string, field: string, lanes: map<Coord, Cell>, lane: Lane) {
    && lane.coord in lanes && lane.coord != Missing
    && lane.identity == IdentityOf(lanes[lane.coord])
    && forall v :: v in lane.values <==> v in FieldValues(show, lanes[lane.coord], field)
  }

  function CoordOf(slot: Slot): Coord {
    if slot.Some? then slot.value.coord else Missing
  }

  function CoordsOf(t: seq<Slot>): (cs: seq<Coord>)
    ensures |cs| == |t| && forall i :: 0 <= i < |t| ==> cs[i] == CoordOf(t[i])
  {
    if t == [] then [] else [CoordOf(t[0])] + CoordsOf(t[1..])
  }

  ghost predicate Listings(show: Json -> string, step: Step, lanes: map<string, map<Coord, Cell>>, ds: seq<string>, sides: seq<seq<Lane>>) {
    && |sides| == |ds|
    && (forall d :: d in ds ==> d in lanes && d in step.joinOn)
    && (forall i :: 0 <= i < |ds| ==> Listing(show, step.joinOn[ds[i]], lanes[ds[i]], sides[i]))
  }

  /** One side: the slots' coordinates are the planned ones. */
  lemma SideSlotsAgree(show: Json -> string, step: Step, lanes: map<string, map<Coord, Cell>>, d: string, side: seq<Lane>, v: string)
    requires d in lanes && d in step.joinOn && Listing(show, step.joinOn[d], lanes[d], side)
    ensures forall slot :: slot in SlotsFor(side, v) ==> CoordOf(slot) in SideSlots(show, step, lanes, d, v)
    ensures forall c :: c in SideSlots(show, step, lanes, d, v) ==> exists slot :: slot in SlotsFor(side, v) && CoordOf(slot) == c
  {
    hide SlotsFor, Bucket, FieldValues;
    SlotsForMembers(side, v);
    BucketMembers(side, v);
    var planned := SideLanes(show, step, lanes, d, v);
    forall lane | lane in side ensures v in lane.values <==> lane.coord in planned {
      assert LaneOf(show, step.joinOn[d], lanes[d], lane);
    }
    if planned == {} {
      BucketEmpty(side, v);
      assert None in SlotsFor(side, v);
    }
    forall c | c in planned ensures exists slot :: slot in SlotsFor(side, v) && CoordOf(slot) == c {
      var lane :| lane in side && lane.coord == c;
      assert Some(lane) in SlotsFor(side, v);
    }
    forall slot | slot in SlotsFor(side, v) ensures CoordOf(slot) in SideSlots(show, step, lanes, d, v) {
      if slot.Some? {
        assert Some(slot.value) in SlotsFor(side, v);
      } else {
        assert forall c :: c in planned ==> exists lane :: lane in side && lane.coord == c;
      }
    }
  }

  /** The emitted tuples of a value are exactly the tuples of the run model's plan, coordinate for coordinate. */
  lemma {:induction false} TuplesAgree(show: Json -> string, step: Step, lanes: map<string, map<Coord, Cell>>,
                                       ds: seq<string>, sides: seq<seq<Lane>>, v: string)
    requires Listings(show, step, lanes, ds, sides)
    ensures forall t :: Chosen(sides, v, t) ==> CoordsOf(t) in Tuples(show, step, lanes, ds, v)
    ensures forall cs :: cs in Tuples(show, step, lanes, ds, v) ==> Picked(sides, v, cs)
  {
    hide SlotsFor, SideSlots, Listing, Chosen, CoordsOf, Tuples, Picked;
    if ds == [] {
      NothingPicked(sides, v);
      NoSides(show, step, lanes, v);
    } else {
      TuplesUnfold(show, step, lanes, ds, v);
      RestListings(show, step, lanes, ds, sides);
      TuplesAgree(show, step, lanes, ds[1..], sides[1..], v);
      SideSlotsAgree(show, step, lanes, ds[0], sides[0], v);
      forall t | Chosen(sides, v, t) ensures CoordsOf(t) in Tuples(show, step, lanes, ds, v) {
        FirstAndRest(sides, v, t);
      }
      forall cs | cs in Tuples(show, step, lanes, ds, v) ensures Picked(sides, v, cs) {
        var slot :| slot in SlotsFor(sides[0], v) && CoordOf(slot) == cs[0];
        PickedExtends(sides, v, slot, cs);
      }
    }
  }

  /** Some emitted tuple has these coordinates. */
  ghost predicate Picked(sides: seq<seq<Lane>>, v: string, cs: seq<Coord>) {
    exists t :: Chosen(sides, v, t) && CoordsOf(t) == cs
  }

  lemma PickedExtends(sides: seq<seq<Lane>>, v: string, slot: Slot, cs: seq<Coord>)
    requires sides != [] && cs != [] && slot in SlotsFor(sides[0], v) && CoordOf(slot) == cs[0]
    requires Picked(sides[1..], v, cs[1..])
    ensures Picked(sides, v, cs)
  {
    hide SlotsFor, Chosen, CoordsOf;
    var u :| Chosen(sides[1..], v, u) && CoordsOf(u) == cs[1..];
    Extended(sides, v, slot, u);
    assert cs == [cs[0]] + cs[1..];
  }

  lemma NoSides(show: Json -> string, step: Step, lanes: map<string, map<Coord, Cell>>, v: string)
    ensures Tuples(show, step, lanes, [], v) == {[]}
  {
  }

  lemma TuplesUnfold(show: Json -> string, step: Step, lanes: map<string, map<Coord, Cell>>, ds: seq<string>, v: string)
    requires ds != [] && forall d :: d in ds ==> d in lanes && d in step.joinOn
    ensures forall cs :: cs in Tuples(show, step, lanes, ds, v) <==>
              |cs| > 0 && cs[0] in SideSlots(show, step, lanes, ds[0], v) && cs[1..] in Tuples(show, step, lanes, ds[1..], v)
  {
    hide SideSlots;
    forall cs: seq<Coord> | |cs| > 0 && cs[0] in SideSlots(show, step, lanes, ds[0], v) && cs[1..] in Tuples(show, step, lanes, ds[1..], v)
      ensures cs in Tuples(show, step, lanes, ds, v)
    {
      assert cs == [cs[0]] + cs[1..];
    }
  }

  lemma NothingPicked(sides: seq<seq<Lane>>, v: string)
    requires sides == []
    ensures forall t :: Chosen(sides, v, t) ==> CoordsOf(t) == []
    ensures Picked(sides, v, [])
  {
    assert Chosen(sides, v, []) && CoordsOf([]) == [];
  }

  lemma RestListings(show: Json -> string, step: Step, lanes: map<string, map<Coord, Cell>>, ds: seq<string>, sides: seq<seq<Lane>>)
    requires Listings(show, step, lanes, ds, sides) && ds != []
    ensures Listings(show, step, lanes, ds[1..], sides[1..])
    ensures Listing(show, step.joinOn[ds[0]], lanes[ds[0]], sides[0])
  {
    hide Listing;
  }

  lemma FirstAndRest(sides: seq<seq<Lane>>, v: string, t: seq<Slot>)
    requires Chosen(sides, v, t) && sides != []
    ensures t != [] && t[0] in SlotsFor(sides[0], v) && Chosen(sides[1..], v, t[1..])
    ensures CoordsOf(t) == [CoordOf(t[0])] + CoordsOf(t[1..])
  {
    hide SlotsFor;
  }

  lemma Extended(sides: seq<seq<Lane>>, v: string, slot: Slot, u: seq<Slot>)
    requires sides != [] && slot in SlotsFor(sides[0], v) && Chosen(sides[1..], v, u)
    ensures Chosen(sides, v, [slot] + u) && CoordsOf([slot] + u) == [CoordOf(slot)] + CoordsOf(u)
  {
    hide SlotsFor;
    assert ([slot] + u)[1..] == u;
    forall i | 0 <= i < |sides| ensures ([slot] + u)[i] in SlotsFor(sides[i], v) {
      if i > 0 { assert u[i - 1] in SlotsFor(sides[1..][i - 1], v); }
    }
  }

  /** And they are planned at the same addresses. */
  lemma {:induction false} InputsAgree(show: Json -> string, step: Step, lanes: map<string, map<Coord, Cell>>,
                                       ds: seq<string>, sides: seq<seq<Lane>>, v: string, t: seq<Slot>, d: string)
    requires Listings(show, step, lanes, ds, sides) && Chosen(sides, v, t) && d in ds && NoRepeats(ds)
    requires forall e :: e in ds ==> Missing !in lanes[e]
    ensures var parents := TupleParents(ds, lanes, CoordsOf(t));
            d in parents && SlotOf(ds, t, d) == if parents[d].None? then None else Some(IdentityOf(parents[d].value))
  {
    hide SlotsFor, Bucket;
    SlotsForMembers(sides[0], v);
    assert t[0] in SlotsFor(sides[0], v);
    assert CoordsOf(t)[1..] == CoordsOf(t[1..]);
    if t[0].Some? {
      assert LaneOf(show, step.joinOn[ds[0]], lanes[ds[0]], t[0].value);
    }
    if ds[0] != d {
      assert Listings(show, step, lanes, ds[1..], sides[1..]);
      assert Chosen(sides[1..], v, t[1..]);
      InputsAgree(show, step, lanes, ds[1..], sides[1..], v, t[1..], d);
    }
  }

  // ---------------------------------------------------------------------------
  // the whole plan
  // ---------------------------------------------------------------------------

  /** A side has a lane for a value exactly when the run model lists it among the side's keys. */
  lemma SideKeyAgrees(show: Json -> string, step: Step, lanes: map<string, map<Coord, Cell>>, d: string, side: seq<Lane>, v: string)
    requires d in lanes && d in step.joinOn && Listing(show, step.joinOn[d], lanes[d], side)
    ensures v in SideKeys(show, step, lanes, d) <==> Bucket(side, v) != []
  {
    hide Bucket, FieldValues;
    BucketEmpty(side, v);
    forall lane | lane in side ensures v in lane.values ==> v in SideKeys(show, step, lanes, d) {
      assert LaneOf(show, step.joinOn[d], lanes[d], lane);
    }
    if v in SideKeys(show, step, lanes, d) {
      var c :| c in lanes[d] && v in FieldValues(show, lanes[d][c], step.joinOn[d]);
      var lane :| lane in side && lane.coord == c;
      assert LaneOf(show, step.joinOn[d], lanes[d], lane);
    }
  }

  /** The plan goes through the values the run model goes through, in both modes. */
  lemma UniverseAgrees(show: Json -> string, step: Step, lanes: map<string, map<Coord, Cell>>, sides: seq<seq<Lane>>, v: string)
    requires step.deps != [] && Listings(show, step, lanes, step.deps, sides)
    ensures v in KeyUniverse(show, step, lanes) <==> InUniverse(sides, step.union, v)
  {
    hide Bucket, SideKeys, Listing;
    forall i | 0 <= i < |sides| ensures v in SideKeys(show, step, lanes, step.deps[i]) <==> Bucket(sides[i], v) != [] {
      SideKeyAgrees(show, step, lanes, step.deps[i], sides[i], v);
    }
    if step.union {
      if v in KeyUniverse(show, step, lanes) {
        var d :| d in step.deps && v in SideKeys(show, step, lanes, d);
        var i :| 0 <= i < |step.deps| && step.deps[i] == d;
        assert Bucket(sides[i], v) != [];
      }
      if InUniverse(sides, true, v) {
        var i :| 0 <= i < |sides| && Bucket(sides[i], v) != [];
        assert step.deps[i] in step.deps;
      }
    } else {
      if v in KeyUniverse(show, step, lanes) {
        forall i | 0 <= i < |sides| ensures Bucket(sides[i], v) != [] {
          assert step.deps[i] in step.deps;
        }
      }
      if InUniverse(sides, false, v) {
        forall d | d in step.deps ensures v in SideKeys(show, step, lanes, d) {
          var i :| 0 <= i < |step.deps| && step.deps[i] == d;
          assert Bucket(sides[i], v) != [];
        }
        assert step.deps[0] in step.deps;
      }
    }
  }

  lemma PlannedAreEmitted(show: Json -> string, step: Step, lanes: map<string, map<Coord, Cell>>,
                          sides: seq<seq<Lane>>, keys: seq<string>)
    requires step.deps != [] && Listings(show, step, lanes, step.deps, sides) && ListsUniverse(sides, step.union, keys)
    ensures JoinTuples(show, step, lanes) == set t | t in Emitted(sides, keys) :: CoordsOf(t)
  {
    hide KeyUniverse, Tuples, Emitted, CoordsOf, Chosen, InUniverse, Listing, NoRepeats;
    forall cs | cs in JoinTuples(show, step, lanes) ensures exists t :: t in Emitted(sides, keys) && CoordsOf(t) == cs {
      var v :| v in KeyUniverse(show, step, lanes) && cs in Tuples(show, step, lanes, step.deps, v);
      UniverseAgrees(show, step, lanes, sides, v);
      TuplesAgree(show, step, lanes, step.deps, sides, v);
      assert Picked(sides, v, cs);
      var t :| Chosen(sides, v, t) && CoordsOf(t) == cs;
      EmittedMembers(sides, keys, t);
    }
    forall t | t in Emitted(sides, keys) ensures CoordsOf(t) in JoinTuples(show, step, lanes) {
      EmittedMembers(sides, keys, t);
      var v :| v in keys && Chosen(sides, v, t);
      UniverseAgrees(show, step, lanes, sides, v);
      TuplesAgree(show, step, lanes, step.deps, sides, v);
    }
  }

  lemma {:induction false} ParentKeys(ds: seq<string>, lanes: map<string, map<Coord, Cell>>, cs: seq<Coord>)
    requires |cs| == |ds| && forall d :: d in ds ==> d in lanes
    ensures forall d :: d in TupleParents(ds, lanes, cs) <==> d in ds
  {
    if ds != [] {
      ParentKeys(ds[1..], lanes, cs[1..]);
      assert ds == [ds[0]] + ds[1..];
    }
  }

  /** The input hash of an emitted tuple is the one in the planned address. */
  lemma TupleInputAgrees(show: Json -> string, step: Step, lanes: map<string, map<Coord, Cell>>,
                         sides: seq<seq<Lane>>, v: string, t: seq<Slot>)
    requires Listings(show, step, lanes, step.deps, sides) && Chosen(sides, v, t) && NoRepeats(step.deps)
    requires forall d :: d in step.deps ==> Missing !in lanes[d]
    ensures InputOf(Parents.Slots(TupleParents(step.deps, lanes, CoordsOf(t)))) == TupleInput(step.deps, t)
  {
    hide TupleParents, CoordsOf, SlotOf, Listing, SlotsFor, NoRepeats;
    var parents := TupleParents(step.deps, lanes, CoordsOf(t));
    ParentKeys(step.deps, lanes, CoordsOf(t));
    forall d | d in step.deps
      ensures d in parents && SlotOf(step.deps, t, d) == if parents[d].None? then None else Some(IdentityOf(parents[d].value))
    {
      InputsAgree(show, step, lanes, step.deps, sides, v, t, d);
    }
  }

  /**
   With nothing failed or pending above it, a join is planned exactly at the coordinates of the
   tuples the loops emit, each at the address of its own tuple.
   */
  lemma JoinPlanIsEmitted(p: Planner, step: Step, cells: Cells, sides: seq<seq<Lane>>, keys: seq<string>)
    requires step.WellFormed() && step.shape.Join? && !AnyBad(cells) && !AnyPending(cells)
    requires Listings(p.show, step, UsableLanes(step, cells), step.deps, sides) && ListsUniverse(sides, step.union, keys)
    requires JoinPlan(p, step, cells).Some?
    ensures JoinPlan(p, step, cells).value.Keys == set t | t in Emitted(sides, keys) :: Pair(CoordsOf(t))
    ensures forall t :: t in Emitted(sides, keys) ==>
              |t| == |step.deps| && Pair(CoordsOf(t)) in JoinPlan(p, step, cells).value
              && JoinPlan(p, step, cells).value[Pair(CoordsOf(t))].ToWork?
              && JoinPlan(p, step, cells).value[Pair(CoordsOf(t))].address
                   == Address(p.pipe, step.Identity(), TupleInput(step.deps, t))
  {
    hide KeyUniverse, Tuples, Emitted, CoordsOf, Listings, ListsUniverse, AnyBad, AnyPending, UsableLanes, FieldValues,
         TupleParents, TupleInput, InputOf;
    var lanes := UsableLanes(step, cells);
    ListingsFit(p.show, step, lanes, step.deps, sides);
    PlannedAreEmitted(p.show, step, lanes, sides, keys);
    var plan := JoinPlan(p, step, cells).value;
    assert plan.Keys == set cs | cs in JoinTuples(p.show, step, lanes) :: Pair(cs);
    forall t | t in Emitted(sides, keys)
      ensures |t| == |step.deps| && Pair(CoordsOf(t)) in plan && plan[Pair(CoordsOf(t))].ToWork?
      ensures plan[Pair(CoordsOf(t))].address == Address(p.pipe, step.Identity(), TupleInput(step.deps, t))
    {
      assert CoordsOf(t) in JoinTuples(p.show, step, lanes);
      EmittedInput(p.show, step, lanes, sides, keys, t);
      assert plan[Pair(CoordsOf(t))] == JoinTarget(p.pipe, step, TupleParents(step.deps, lanes, CoordsOf(t)));
    }
    forall c | c in plan.Keys ensures exists t :: t in Emitted(sides, keys) && c == Pair(CoordsOf(t)) {
      var cs :| cs in JoinTuples(p.show, step, lanes) && c == Pair(cs);
    }
  }

  lemma ListingsFit(show: Json -> string, step: Step, lanes: map<string, map<Coord, Cell>>, ds: seq<string>, sides: seq<seq<Lane>>)
    requires Listings(show, step, lanes, ds, sides)
    ensures |sides| == |ds| && forall d :: d in ds ==> d in lanes && d in step.joinOn && Missing !in lanes[d]
  {
    forall d | d in ds ensures Missing !in lanes[d] {
      var i :| 0 <= i < |ds| && ds[i] == d;
      assert Listing(show, step.joinOn[d], lanes[d], sides[i]);
      forall lane | lane in sides[i] ensures lane.coord != Missing {
        assert LaneOf(show, step.joinOn[d], lanes[d], lane);
      }
    }
  }

  lemma EmittedInput(show: Json -> string, step: Step, lanes: map<string, map<Coord, Cell>>,
                     sides: seq<seq<Lane>>, keys: seq<string>, t: seq<Slot>)
    requires step.WellFormed() && Listings(show, step, lanes, step.deps, sides) && t in Emitted(sides, keys)
    ensures |t| == |step.deps| && forall d :: d in step.deps ==> d in lanes
    ensures InputOf(Parents.Slots(TupleParents(step.deps, lanes, CoordsOf(t)))) == TupleInput(step.deps, t)
  {
    hide Emitted, Listing, TupleParents, CoordsOf, InputOf, TupleInput;
    EmittedMembers(sides, keys, t);
    var v :| v in keys && Chosen(sides, v, t);
    ListingsFit(show, step, lanes, step.deps, sides);
    TupleInputAgrees(show, step, lanes, sides, v, t);
  }
}
