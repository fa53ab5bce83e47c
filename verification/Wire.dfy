/** The wire primitives of the Protocol Buffers Encoding specification that the codec
    builds on: base 128 varints, field tags, length-delimited records, and the skipping of
    fields a parser does not know. Readers return the value together with the bytes that
    follow it, and never fail in any other way than `Malformed`. */
module Wire {
  type Byte = x: int | 0 <= x < 256
  type Bytes = seq<Byte>

  const U64_LIMIT: nat := 0x1_0000_0000_0000_0000
  const MAX_FIELD_NUMBER: nat := 0x7fff_ffff
  const RECURSION_LIMIT := 10000

  const VARINT := 0
  const FIXED64 := 1
  const LENGTH_DELIMITED := 2
  const START_GROUP := 3
  const END_GROUP := 4
  const FIXED32 := 5

  type WireType = t: nat | t < 8

  datatype Read<+T> = Read(value: T, rest: Bytes) | Malformed

  datatype Tag = Tag(num: nat, wireType: WireType)

  // ---------------------------------------------------------------- varints

  function AppendVarint(v: nat): Bytes {
    if v < 128 then [v] else [v % 128 + 128] + AppendVarint(v / 128)
  }

  /** What a varint whose first k bytes are already gone may still denote: 2^(64-7k). */
  function VarintLimit(k: nat): nat
    requires k <= 9
    decreases 9 - k
  {
    if k == 9 then 2 else 128 * VarintLimit(k + 1)
  }

  /** Reads a varint whose first k bytes are already gone; a tenth byte above 1 overflows. */
  function ConsumeVarintAt(b: Bytes, k: nat): (r: Read<nat>)
    requires k <= 9
    ensures r.Read? ==> |r.rest| < |b| && r.value < VarintLimit(k)
    decreases 9 - k
  {
    if b == [] then Malformed
    else if k == 9 then
      if b[0] < 2 then Read(b[0], b[1..]) else Malformed
    else if b[0] < 128 then
      VarintLimitAtLeast(k);
      Read(b[0], b[1..])
    else
      match ConsumeVarintAt(b[1..], k + 1)
      case Malformed => Malformed
      case Read(high, rest) => Read(b[0] - 128 + 128 * high, rest)
  }

  lemma VarintLimitAtLeast(k: nat)
    requires k < 9
    ensures VarintLimit(k) >= 256
    decreases 9 - k
  {
    if k < 8 { VarintLimitAtLeast(k + 1); }
  }

  function ConsumeVarint(b: Bytes): (r: Read<nat>)
    ensures r.Read? ==> |r.rest| < |b| && r.value < U64_LIMIT
  {
    ConsumeVarintAt(b, 0)
  }

  lemma ConsumeLastByte(v: Byte, k: nat, rest: Bytes)
    requires k <= 9 && v < 128 && (k == 9 ==> v < 2)
    ensures ConsumeVarintAt([v] + rest, k) == Read(v, rest)
  {
    assert ([v] + rest)[1..] == rest;
  }

  lemma ConsumeFirstByte(low: nat, high: nat, k: nat, tail: Bytes, rest: Bytes)
    requires k < 9 && low < 128 && ConsumeVarintAt(tail + rest, k + 1) == Read(high, rest)
    ensures ConsumeVarintAt([low + 128] + tail + rest, k) == Read(low + 128 * high, rest)
  {
    assert ([low + 128] + tail + rest)[1..] == tail + rest;
  }

  lemma {:induction false} VarintRoundTripAt(v: nat, k: nat, rest: Bytes)
    requires k <= 9 && v < VarintLimit(k)
    ensures ConsumeVarintAt(AppendVarint(v) + rest, k) == Read(v, rest)
    decreases 9 - k
  {
    hide ConsumeVarintAt;
    if v < 128 {
      ConsumeLastByte(v, k, rest);
    } else {
      VarintRoundTripAt(v / 128, k + 1, rest);
      ConsumeFirstByte(v % 128, v / 128, k, AppendVarint(v / 128), rest);
    }
  }

  /** Every 64-bit number survives the trip, and the reader stops exactly behind it. */
  lemma VarintRoundTrip(v: nat, rest: Bytes)
    requires v < U64_LIMIT
    ensures ConsumeVarint(AppendVarint(v) + rest) == Read(v, rest)
  {
    VarintRoundTripAt(v, 0, rest);
  }

  /** The writer's form is the shortest one: no accepted varint of the same value is shorter. */
  lemma {:induction false} VarintIsShortest(b: Bytes, k: nat)
    requires k <= 9 && ConsumeVarintAt(b, k).Read?
    ensures var r := ConsumeVarintAt(b, k);
            |AppendVarint(r.value)| + |r.rest| <= |b|
    decreases 9 - k
  {
    if k < 9 && b[0] >= 128 {
      VarintIsShortest(b[1..], k + 1);
      var r := ConsumeVarintAt(b, k);
      assert r.value / 128 == ConsumeVarintAt(b[1..], k + 1).value;
    }
  }

  // ------------------------------------------------------------------- tags

  function AppendTag(num: nat, wireType: WireType): Bytes {
    AppendVarint(num * 8 + wireType)
  }

  function ConsumeTag(b: Bytes): (r: Read<Tag>)
    ensures r.Read? ==> |r.rest| < |b| && 1 <= r.value.num <= MAX_FIELD_NUMBER
  {
    match ConsumeVarint(b)
    case Malformed => Malformed
    case Read(v, rest) =>
      if 1 <= v / 8 <= MAX_FIELD_NUMBER then Read(Tag(v / 8, v % 8), rest) else Malformed
  }

  lemma TagRoundTrip(num: nat, wireType: WireType, rest: Bytes)
    requires 1 <= num <= MAX_FIELD_NUMBER
    ensures ConsumeTag(AppendTag(num, wireType) + rest) == Read(Tag(num, wireType), rest)
  {
    VarintRoundTrip(num * 8 + wireType, rest);
  }

  // --------------------------------------------------- length-delimited records

  function AppendBytes(s: Bytes): Bytes {
    AppendVarint(|s|) + s
  }

  function ConsumeBytes(b: Bytes): (r: Read<Bytes>)
    ensures r.Read? ==> |r.rest| + |r.value| < |b|
  {
    match ConsumeVarint(b)
    case Malformed => Malformed
    case Read(n, rest) => if n <= |rest| then Read(rest[..n], rest[n..]) else Malformed
  }

  lemma BytesRoundTrip(s: Bytes, rest: Bytes)
    requires |s| < U64_LIMIT
    ensures ConsumeBytes(AppendBytes(s) + rest) == Read(s, rest)
  {
    VarintRoundTrip(|s|, s + rest);
    assert AppendBytes(s) + rest == AppendVarint(|s|) + (s + rest);
  }

  function ConsumeFixed(width: nat, b: Bytes): (r: Read<Bytes>)
    ensures r.Read? ==> |r.rest| + width == |b| && |r.value| == width
  {
    if width <= |b| then Read(b[..width], b[width..]) else Malformed
  }

  // ------------------------------------------------------------ unknown fields

  /** Skips the value of a field; groups nest, at most `depth` deep. */
  function SkipField(num: nat, wireType: WireType, b: Bytes, depth: int): (r: Read<()>)
    ensures r.Read? ==> |r.rest| < |b|
    decreases |b|, 1
  {
    if wireType == VARINT then Skipped(ConsumeVarint(b))
    else if wireType == FIXED64 then Skipped(ConsumeFixed(8, b))
    else if wireType == FIXED32 then Skipped(ConsumeFixed(4, b))
    else if wireType == LENGTH_DELIMITED then Skipped(ConsumeBytes(b))
    else if wireType == START_GROUP && depth >= 0 then SkipGroup(num, b, depth)
    else Malformed
  }

  function SkipGroup(num: nat, b: Bytes, depth: int): (r: Read<()>)
    ensures r.Read? ==> |r.rest| < |b|
    decreases |b|, 0
  {
    match ConsumeTag(b)
    case Malformed => Malformed
    case Read(tag, body) =>
      if tag.wireType == END_GROUP then
        if tag.num == num then Read((), body) else Malformed
      else
        match SkipField(tag.num, tag.wireType, body, depth - 1)
        case Malformed => Malformed
        case Read(_, after) => SkipGroup(num, after, depth)
  }

  function Skipped<T>(r: Read<T>): Read<()> {
    match r
    case Malformed => Malformed
    case Read(_, rest) => Read((), rest)
  }

  // --------------------------------------------------- what skipping leaves behind

  /** A field the message does not define, of any wire type the encoding knows. */
  datatype Unknown =
    | UVarint(num: nat, v: nat)
    | UFixed64(num: nat, s: Bytes)
    | UBytes(num: nat, s: Bytes)
    | UFixed32(num: nat, s: Bytes)
    | UGroup(num: nat, fields: seq<Unknown>)

  predicate WellFormed(u: Unknown) {
    && 1 <= u.num <= MAX_FIELD_NUMBER
    && match u
       case UVarint(_, v) => v < U64_LIMIT
       case UFixed64(_, s) => |s| == 8
       case UBytes(_, s) => |s| < U64_LIMIT
       case UFixed32(_, s) => |s| == 4
       case UGroup(_, fields) => forall i :: 0 <= i < |fields| ==> WellFormed(fields[i])
  }

  function TypeOf(u: Unknown): WireType {
    match u
    case UVarint(_, _) => 0
    case UFixed64(_, _) => 1
    case UBytes(_, _) => 2
    case UGroup(_, _) => 3
    case UFixed32(_, _) => 5
  }

  /** What follows the tag. A group is its fields and an end tag of its own number. */
  function Body(u: Unknown): Bytes
    decreases u, 0
  {
    match u
    case UVarint(_, v) => AppendVarint(v)
    case UFixed64(_, s) => s
    case UBytes(_, s) => AppendBytes(s)
    case UFixed32(_, s) => s
    case UGroup(num, fields) => Whole(fields) + AppendTag(num, 4)
  }

  function Whole(fields: seq<Unknown>): Bytes
    decreases fields, 1
  {
    if fields == [] then []
    else AppendTag(fields[0].num, TypeOf(fields[0])) + Body(fields[0]) + Whole(fields[1..])
  }

  /** How deep groups nest. */
  function Nesting(u: Unknown): nat
    decreases u, 0
  {
    match u
    case UGroup(_, fields) => 1 + NestingOf(fields)
    case _ => 0
  }

  function NestingOf(fields: seq<Unknown>): nat
    decreases fields, 1
  {
    if fields == [] then 0
    else
      var first, rest := Nesting(fields[0]), NestingOf(fields[1..]);
      if first < rest then rest else first
  }

  lemma SkipLeaf(u: Unknown, rest: Bytes, depth: int)
    requires WellFormed(u) && !u.UGroup?
    ensures SkipField(u.num, TypeOf(u), Body(u) + rest, depth) == Read((), rest)
  {
    hide AppendVarint, AppendBytes, ConsumeVarint, ConsumeBytes;
    match u {
      case UVarint(_, v) => VarintRoundTrip(v, rest);
      case UBytes(_, s) => BytesRoundTrip(s, rest);
      case _ =>
    }
  }

  lemma GroupEnds(num: nat, rest: Bytes, depth: int)
    requires 1 <= num <= MAX_FIELD_NUMBER
    ensures SkipGroup(num, AppendTag(num, 4) + rest, depth) == Read((), rest)
  {
    hide AppendTag, ConsumeTag;
    TagRoundTrip(num, 4, rest);
  }

  /** One field of a group, skipped to `after`. */
  lemma GroupGoesOn(num: nat, n: nat, wireType: WireType, body: Bytes, after: Bytes, depth: int)
    requires 1 <= n <= MAX_FIELD_NUMBER && wireType != END_GROUP
    requires SkipField(n, wireType, body, depth - 1) == Read((), after)
    ensures SkipGroup(num, AppendTag(n, wireType) + body, depth) == SkipGroup(num, after, depth)
  {
    hide AppendTag, ConsumeTag, SkipField;
    TagRoundTrip(n, wireType, body);
  }

  lemma GroupParts(num: nat, fields: seq<Unknown>, end: Bytes)
    ensures Body(UGroup(num, fields)) + end == Whole(fields) + (AppendTag(num, 4) + end)
    ensures fields != [] ==>
              (var u := fields[0];
               Whole(fields) + end == AppendTag(u.num, TypeOf(u)) + (Body(u) + (Whole(fields[1..]) + end)))
    ensures fields == [] ==> Whole(fields) + end == end
  {
    hide AppendTag, TypeOf;
    Regroup(Whole(fields), AppendTag(num, 4), end);
    if fields != [] {
      var u, rest := fields[0], Whole(fields[1..]);
      Regroup(AppendTag(u.num, TypeOf(u)) + Body(u), rest, end);
      Regroup(AppendTag(u.num, TypeOf(u)), Body(u), rest + end);
    }
  }

  lemma Regroup(a: Bytes, b: Bytes, c: Bytes)
    ensures a + b + c == a + (b + c)
  {
  }

  /** A group must end with its own number, groups nest no deeper than allowed, and an end tag
      opens nothing. */
  lemma BadGroups(num: nat, other: nat, rest: Bytes, depth: int)
    requires 1 <= other <= MAX_FIELD_NUMBER && other != num
    ensures SkipGroup(num, AppendTag(other, 4) + rest, depth) == Malformed
    ensures depth < 0 ==> SkipField(num, 3, rest, depth) == Malformed
    ensures SkipField(num, 4, rest, depth) == Malformed
  {
    hide AppendTag, ConsumeTag;
    TagRoundTrip(other, 4, rest);
  }

  lemma OpensGroup(num: nat, b: Bytes, depth: int)
    requires depth >= 0
    ensures SkipField(num, 3, b, depth) == SkipGroup(num, b, depth)
  {
  }

  /** Skipping a field leaves exactly what follows it, whatever its type; groups may nest one
      deeper than `depth`. */
  lemma {:induction false} SkipLeavesRest(u: Unknown, rest: Bytes, depth: int)
    requires WellFormed(u) && Nesting(u) <= depth + 1
    ensures SkipField(u.num, TypeOf(u), Body(u) + rest, depth) == Read((), rest)
    decreases u, 0
  {
    hide SkipField, SkipGroup, Body, Whole;
    if u.UGroup? {
      SkipGroupLeavesRest(u.num, u.fields, rest, depth);
      GroupParts(u.num, u.fields, rest);
      OpensGroup(u.num, Body(u) + rest, depth);
    } else {
      SkipLeaf(u, rest, depth);
    }
  }

  lemma {:induction false} SkipGroupLeavesRest(num: nat, fields: seq<Unknown>, rest: Bytes, depth: int)
    requires 1 <= num <= MAX_FIELD_NUMBER && NestingOf(fields) <= depth
    requires forall i :: 0 <= i < |fields| ==> WellFormed(fields[i])
    ensures SkipGroup(num, Whole(fields) + (AppendTag(num, 4) + rest), depth) == Read((), rest)
    decreases fields, 1
  {
    hide SkipField, SkipGroup, Body, Whole, AppendTag;
    var end := AppendTag(num, 4) + rest;
    GroupParts(num, fields, end);
    if fields == [] {
      GroupEnds(num, rest, depth);
    } else {
      var u, after := fields[0], Whole(fields[1..]) + end;
      SkipLeavesRest(u, after, depth - 1);
      SkipGroupLeavesRest(num, fields[1..], rest, depth);
      GroupGoesOn(num, u.num, TypeOf(u), Body(u) + after, after, depth);
    }
  }

  // ------------------------------------------------- the bytes the encoding prescribes

  /** Seven bits to a byte, the low ones first; every byte but the last has its top bit set. */
  function GroupsValue(b: Bytes): nat {
    if b == [] then 0 else b[0] % 128 + 128 * GroupsValue(b[1..])
  }

  lemma {:induction false} VarintIsBase128(v: nat)
    ensures var b := AppendVarint(v);
            && b != [] && b[|b| - 1] < 128 && (forall i :: 0 <= i < |b| - 1 ==> b[i] >= 128)
            && GroupsValue(b) == v
  {
    if v >= 128 {
      VarintIsBase128(v / 128);
      var b := AppendVarint(v);
      assert b[1..] == AppendVarint(v / 128);
      assert forall i :: 1 <= i < |b| ==> b[i] == b[1..][i - 1];
    } else {
      assert [v][1..] == [];
    }
  }

  /** 300, the encoding's own example, and the tags of small field numbers. */
  lemma WireExamples(num: nat)
    requires 1 <= num < 16
    ensures AppendVarint(300) == [0xAC, 0x02]
    ensures AppendTag(num, VARINT) == [8 * num] && AppendTag(num, FIXED64) == [8 * num + 1]
    ensures AppendTag(num, LENGTH_DELIMITED) == [8 * num + 2] && AppendTag(num, FIXED32) == [8 * num + 5]
  {
    assert AppendVarint(2) == [2];
  }
}
