/**
 The text an output address is the hash of, and why it can be read in one way only.
 */
module Preimage {
  import opened Model

  /** The labelled segments; hashes are hexadecimal digests or reserved words. */
  datatype Segments = Segments(step: string, version: string, input: string,
                               params: Option<string>, code: Option<string>, pipeline: string)

  /** Parts separated by colons. */
  function Joined(parts: seq<string>): string {
    if parts == [] then ""
    else if |parts| == 1 then parts[0]
    else parts[0] + ":" + Joined(parts[1..])
  }

  /** An optional segment is a label and a value; an absent one leaves nothing. */
  function Optional(tag: string, segment: Option<string>): seq<string> {
    if segment.Some? then [tag, segment.value] else []
  }

  function Combined(t: Segments): string {
    Joined([t.step, t.version, t.input]
           + Optional("params", t.params) + Optional("code", t.code) + ["pipeline", t.pipeline])
  }

  predicate ColonFree(s: string) {
    ':' !in s
  }

  const HEX := "0123456789abcdef"

  predicate Digest(s: string) {
    |s| == 64 && forall c :: c in s ==> c in HEX
  }

  /** What an input hash looks like: a digest, a digest of bytes with its prefix, or the root lane. */
  predicate HashShaped(s: string) {
    Digest(s) || s == "@root" || (|s| > 2 && s[..2] == "b:" && Digest(s[2..]))
  }

  predicate WellShaped(t: Segments) {
    && ColonFree(t.step) && ColonFree(t.version) && HashShaped(t.input)
    && (t.params.Some? ==> Digest(t.params.value)) && (t.code.Some? ==> Digest(t.code.value))
  }

  // ---------------------------------------------------------------------------
  // reading it back
  // ---------------------------------------------------------------------------

  /** The text before the first colon and, if there is one, the text after it. */
  function Cut(s: string): (string, Option<string>) {
    if s == "" then ("", None)
    else if s[0] == ':' then ("", Some(s[1..]))
    else
      var rest := Cut(s[1..]);
      ([s[0]] + rest.0, rest.1)
  }

  function After(s: string): string {
    if Cut(s).1.Some? then Cut(s).1.value else ""
  }

  /** Read a labelled segment if the tag is there. */
  function ReadOptional(tag: string, s: string): (Option<string>, string) {
    if Cut(s).0 == tag then (Some(Cut(After(s)).0), After(After(s))) else (None, s)
  }

  /** The input segment, and what follows it: a "b" is the prefix of the next segment. */
  function ReadInput(s: string): (string, string) {
    if Cut(s).0 == "b" then ("b:" + Cut(After(s)).0, After(After(s))) else (Cut(s).0, After(s))
  }

  function Decode(s: string): Segments {
    var input := ReadInput(After(After(s)));
    var params := ReadOptional("params", input.1);
    var code := ReadOptional("code", params.1);
    Segments(Cut(s).0, Cut(After(s)).0, input.0, params.0, code.0, After(code.1))
  }

  lemma {:induction false} CutAtColon(head: string, rest: string)
    requires ColonFree(head)
    ensures Cut(head + ":" + rest) == (head, Some(rest))
  {
    var s := head + ":" + rest;
    if head != "" {
      assert s[1..] == head[1..] + ":" + rest;
      CutAtColon(head[1..], rest);
      assert head[0] in head && [head[0]] + head[1..] == head;
    } else {
      assert s[1..] == rest;
    }
  }

  lemma DigestsHaveNoColon(s: string)
    requires Digest(s)
    ensures ColonFree(s) && s != "b" && s != ""
  {
    assert ':' !in HEX;
  }

  /** What follows the input: the optional segments and the pipeline. */
  function Tail(params: Option<string>, code: Option<string>, pipeline: string): string {
    Joined(Optional("params", params) + Optional("code", code) + ["pipeline", pipeline])
  }

  lemma JoinedFirst(part: string, parts: seq<string>)
    requires parts != []
    ensures Joined([part] + parts) == part + ":" + Joined(parts)
  {
    assert ([part] + parts)[1..] == parts;
  }

  lemma CombinedTail(t: Segments)
    ensures Combined(t) == t.step + ":" + (t.version + ":" + (t.input + ":" + Tail(t.params, t.code, t.pipeline)))
  {
    hide Joined;
    var parts := Optional("params", t.params) + Optional("code", t.code) + ["pipeline", t.pipeline];
    assert [t.step, t.version, t.input] + Optional("params", t.params) + Optional("code", t.code) + ["pipeline", t.pipeline]
        == [t.step] + ([t.version] + ([t.input] + parts));
    JoinedFirst(t.input, parts);
    JoinedFirst(t.version, [t.input] + parts);
    JoinedFirst(t.step, [t.version] + ([t.input] + parts));
    var tail, inner := Joined(parts), t.input + ":" + Joined(parts);
    assert t.step + ":" + (t.version + ":" + inner) == t.step + ":" + (t.version + ":" + (t.input + ":" + tail));
  }

  lemma LabelsHaveNoColon()
    ensures ColonFree("params") && ColonFree("code") && ColonFree("pipeline") && ColonFree("b") && ColonFree("@root")
  {
  }

  /** A labelled segment is read back, and one that is absent is not invented. */
  lemma ReadsOptional(tag: string, segment: Option<string>, next: string, rest: seq<string>)
    requires ColonFree(tag) && ColonFree(next) && next != tag && rest != []
    requires segment.Some? ==> ColonFree(segment.value)
    ensures ReadOptional(tag, Joined(Optional(tag, segment) + ([next] + rest))) == (segment, Joined([next] + rest))
  {
    hide Cut, Joined;
    JoinedFirst(next, rest);
    CutAtColon(next, Joined(rest));
    var parts := [next] + rest;
    if segment.Some? {
      assert Optional(tag, segment) + parts == [tag] + ([segment.value] + parts);
      JoinedFirst(segment.value, parts);
      JoinedFirst(tag, [segment.value] + parts);
      CutAtColon(tag, Joined([segment.value] + parts));
      CutAtColon(segment.value, Joined(parts));
    } else {
      assert Optional(tag, segment) + parts == parts;
    }
  }

  lemma ReadsTail(params: Option<string>, code: Option<string>, pipeline: string)
    requires (params.Some? ==> Digest(params.value)) && (code.Some? ==> Digest(code.value))
    ensures var p := ReadOptional("params", Tail(params, code, pipeline));
            var c := ReadOptional("code", p.1);
            p.0 == params && c.0 == code && After(c.1) == pipeline
  {
    hide ReadOptional, Cut, Joined;
    LabelsHaveNoColon();
    if params.Some? { DigestsHaveNoColon(params.value); }
    if code.Some? { DigestsHaveNoColon(code.value); }
    var end := ["pipeline"] + [pipeline];
    assert Optional("params", params) + Optional("code", code) + ["pipeline", pipeline]
        == Optional("params", params) + (Optional("code", code) + end);
    if code.Some? {
      assert Optional("code", code) + end == ["code"] + ([code.value] + end);
      ReadsOptional("params", params, "code", [code.value] + end);
    } else {
      assert Optional("code", code) + end == end;
      ReadsOptional("params", params, "pipeline", [pipeline]);
    }
    ReadsOptional("code", code, "pipeline", [pipeline]);
    JoinedFirst("pipeline", [pipeline]);
    Alone(pipeline);
    CutAtColon("pipeline", pipeline);
  }

  lemma Alone(part: string)
    ensures Joined([part]) == part
  {
  }

  lemma ReadsInput(input: string, tail: string)
    requires HashShaped(input)
    ensures ReadInput(input + ":" + tail) == (input, tail)
  {
    hide Cut;
    LabelsHaveNoColon();
    if Digest(input) {
      DigestsHaveNoColon(input);
      CutAtColon(input, tail);
    } else if input == "@root" {
      CutAtColon(input, tail);
    } else {
      var digest := input[2..];
      DigestsHaveNoColon(digest);
      assert input == "b:" + digest && "b:" + digest == "b" + ":" + digest;
      assert input + ":" + tail == "b" + ":" + (digest + ":" + tail);
      CutAtColon("b", digest + ":" + tail);
      CutAtColon(digest, tail);
    }
  }

  /** The text decodes to the segments it was built from, whichever optional ones are present. */
  lemma UniquelyReadable(t: Segments)
    requires WellShaped(t)
    ensures Decode(Combined(t)) == t
  {
    hide Cut, ReadInput, ReadOptional, Tail, Combined, Digest, HashShaped;
    var tail := Tail(t.params, t.code, t.pipeline);
    CombinedTail(t);
    CutAtColon(t.step, t.version + ":" + (t.input + ":" + tail));
    CutAtColon(t.version, t.input + ":" + tail);
    ReadsInput(t.input, tail);
    ReadsTail(t.params, t.code, t.pipeline);
  }

  /** So two texts agree only if every segment does; in particular two pipelines never share one. */
  lemma CombinedInjective(t: Segments, u: Segments)
    requires WellShaped(t) && WellShaped(u) && Combined(t) == Combined(u)
    ensures t == u
  {
    hide Combined, Decode;
    UniquelyReadable(t);
    UniquelyReadable(u);
  }

  /**
   Step names and versions must not contain colons: a pair shares its text with another pair
   exactly when one of the two has one.
   */
  lemma ColonsCollide(step: string, version: string)
    ensures (exists s, v :: (s, v) != (step, version) && s + ":" + v == step + ":" + version)
              <==> !ColonFree(step) || !ColonFree(version)
  {
    var text := step + ":" + version;
    if ColonFree(step) && ColonFree(version) {
      forall s, v | s + ":" + v == text ensures (s, v) == (step, version) {
        OneColon(step, version, s, v);
      }
    } else if !ColonFree(step) {
      var i :| 0 <= i < |step| && step[i] == ':';
      var s, v := step[..i], step[i + 1..] + ":" + version;
      assert step == step[..i] + ":" + step[i + 1..];
      assert s + ":" + v == text && |s| < |step|;
      assert (s, v) != (step, version);
    } else {
      var i :| 0 <= i < |version| && version[i] == ':';
      var s, v := step + ":" + version[..i], version[i + 1..];
      assert version == version[..i] + ":" + version[i + 1..];
      assert s + ":" + v == text && |s| > |step|;
      assert (s, v) != (step, version);
    }
  }

  lemma OneColon(step: string, version: string, s: string, v: string)
    requires ColonFree(step) && ColonFree(version) && s + ":" + v == step + ":" + version
    ensures (s, v) == (step, version)
  {
    var text := step + ":" + version;
    assert text[|s|] == ':';
    if |s| < |step| {
      assert false;
    } else if |s| > |step| {
      assert false;
    } else {
      assert s == text[..|step|] == step;
      assert v == text[|step| + 1..] == version;
    }
  }

  /** The sentinel for an absent join side is no hash. */
  lemma MissingIsNoHash()
    ensures !HashShaped("@missing")
  {
    assert |"@missing"| == 8;
  }

  // ---------------------------------------------------------------------------
  // addresses
  // ---------------------------------------------------------------------------

  /** How the parts of an address are hashed. */
  datatype Hashing = Hashing(input: Input -> string, json: Json -> string, source: string -> string)

  function SegmentsOf(h: Hashing, a: Address): Segments {
    Segments(a.code.step, a.code.version, h.input(a.input),
             if a.code.params.Some? then Some(h.json(a.code.params.value)) else None,
             if a.code.source.Some? then Some(h.source(a.code.source.value)) else None,
             a.pipeline)
  }

  /** No two of the parts of these addresses happen to hash alike. */
  predicate NoCollision(h: Hashing, a: Address, b: Address) {
    && (h.input(a.input) == h.input(b.input) ==> a.input == b.input)
    && (a.code.params.Some? && b.code.params.Some? && h.json(a.code.params.value) == h.json(b.code.params.value) ==>
          a.code.params == b.code.params)
    && (a.code.source.Some? && b.code.source.Some? && h.source(a.code.source.value) == h.source(b.code.source.value) ==>
          a.code.source == b.code.source)
  }

  /** The symbolic addresses of the model stand for the hashed texts: equal texts mean equal addresses. */
  lemma AddressTextsDiffer(h: Hashing, a: Address, b: Address)
    requires WellShaped(SegmentsOf(h, a)) && WellShaped(SegmentsOf(h, b)) && NoCollision(h, a, b)
    ensures Combined(SegmentsOf(h, a)) == Combined(SegmentsOf(h, b)) <==> a == b
  {
    hide Combined, WellShaped;
    if Combined(SegmentsOf(h, a)) == Combined(SegmentsOf(h, b)) {
      CombinedInjective(SegmentsOf(h, a), SegmentsOf(h, b));
    }
  }
}
