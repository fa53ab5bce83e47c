/** Property element trees and their wire form (pkg/vdcapi/pbuf_encode.go, pbuf_decode.go).
    Go strings are byte strings, so names and string values are `Bytes`; a float64 is its
    eight little-endian bytes. */
module PropertyCodec {
  import opened Wire

  type Uint64 = n: nat | n < U64_LIMIT
  type Int64 = i: int | -0x8000_0000_0000_0000 <= i < 0x8000_0000_0000_0000
  type Float64 = s: Bytes | |s| == 8 witness [0, 0, 0, 0, 0, 0, 0, 0]

  /** The dynamic types the source's `any` takes; `Unsupported` is any type the encoder
      has no case for. `Int` is Go's plain int. */
  datatype Value =
    | Nil
    | Bool(b: bool)
    | Uint(u: Uint64)
    | Sint(i: Int64)
    | Int(n: Int64)
    | Double(bits: Float64)
    | Text(s: Bytes)
    | Blob(raw: Bytes)
    | Unsupported

  datatype Element = Element(name: Bytes, value: Value, elements: seq<Element>)

  const EMPTY := Element([], Nil, [])

  datatype Parsed<+T> = Good(value: T) | Bad

  // --------------------------------------------------------------- encoding

  function TwosComplement(i: Int64): Uint64 {
    if i >= 0 then i else i + U64_LIMIT
  }

  function SignedOf(u: Uint64): Int64 {
    if u < 0x8000_0000_0000_0000 then u else u - U64_LIMIT
  }

  /** Non-negative integers go to the unsigned field whatever their Go type. */
  function EncodeInteger(i: Int64): Bytes {
    AppendTag(if i >= 0 then 2 else 3, VARINT) + AppendVarint(TwosComplement(i))
  }

  function EncodeValue(v: Value): Bytes {
    match v
    case Bool(b) => AppendTag(1, VARINT) + AppendVarint(if b then 1 else 0)
    case Uint(u) => AppendTag(2, VARINT) + AppendVarint(u)
    case Sint(i) => EncodeInteger(i)
    case Int(n) => EncodeInteger(n)
    case Double(bits) => AppendTag(4, FIXED64) + bits
    case Text(s) => AppendTag(5, LENGTH_DELIMITED) + AppendBytes(s)
    case Blob(raw) => AppendTag(6, LENGTH_DELIMITED) + AppendBytes(raw)
    case Nil => []
    case Unsupported => []
  }

  function Field(num: nat, s: Bytes): Bytes {
    AppendTag(num, LENGTH_DELIMITED) + AppendBytes(s)
  }

  function ValueField(v: Value): Bytes {
    if EncodeValue(v) != [] then Field(2, EncodeValue(v)) else []
  }

  function EncodeElement(e: Element): Bytes
    decreases e, 1
  {
    HeadOf(e) + EncodeList(3, e.elements)
  }

  function HeadOf(e: Element): Bytes {
    (if e.name != [] then Field(1, e.name) else []) + ValueField(e.value)
  }

  /** Every element of the list as one length-delimited record of field `num`. */
  function EncodeList(num: nat, es: seq<Element>): Bytes
    decreases es, 0
  {
    if es == [] then [] else Field(num, EncodeElement(es[0])) + EncodeList(num, es[1..])
  }

  lemma {:induction false} EncodeListSnoc(num: nat, es: seq<Element>, e: Element)
    ensures EncodeList(num, es + [e]) == EncodeList(num, es) + Field(num, EncodeElement(e))
  {
    hide EncodeElement, Field;
    if es == [] {
      assert es + [e] == [e];
    } else {
      EncodeListSnoc(num, es[1..], e);
      assert (es + [e])[1..] == es[1..] + [e];
    }
  }

  lemma EncodeListNext(head: Bytes, num: nat, es: seq<Element>, i: nat)
    requires i < |es|
    ensures head + EncodeList(num, es[..i + 1])
         == head + EncodeList(num, es[..i]) + AppendTag(num, LENGTH_DELIMITED) + AppendBytes(EncodeElement(es[i]))
  {
    hide EncodeList, AppendTag, AppendBytes, EncodeElement;
    EncodeListStep(num, es, i);
  }

  lemma EncodeListStep(num: nat, es: seq<Element>, i: nat)
    requires i < |es|
    ensures EncodeList(num, es[..i + 1])
         == EncodeList(num, es[..i]) + AppendTag(num, LENGTH_DELIMITED) + AppendBytes(EncodeElement(es[i]))
  {
    hide EncodeList, AppendTag, AppendBytes, EncodeElement;
    EncodeListSnoc(num, es[..i], es[i]);
    assert es[..i] + [es[i]] == es[..i + 1];
  }

  lemma EncodeListNone(num: nat, es: seq<Element>)
    ensures EncodeList(num, es[..0]) == [] && es[..|es|] == es
  {
  }

  lemma EncodeElementParts(e: Element)
    ensures EncodeElement(e) == HeadOf(e) + EncodeList(3, e.elements)
  {
  }

  /** Its name and value, each left out when empty. */
  method EncodeElementHead(e: Element) returns (out: Bytes)
    ensures out == HeadOf(e)
  {
    assert EncodeValue(Nil) == [];
    hide AppendTag, AppendBytes, EncodeValue;
    out := [];
    if e.name != [] {
      out := out + AppendTag(1, LENGTH_DELIMITED);
      out := out + AppendBytes(e.name);
    }
    if e.value != Nil {
      var pv := EncodeValue(e.value);
      if |pv| > 0 {
        out := out + AppendTag(2, LENGTH_DELIMITED);
        out := out + AppendBytes(pv);
      }
    }
  }

  method EncodePropertyElement(e: Element) returns (out: Bytes)
    ensures out == EncodeElement(e)
    decreases e
  {
    hide AppendTag, AppendBytes, EncodeValue, EncodeElement, EncodeList, HeadOf, Field;
    out := EncodeElementHead(e);
    EncodeListNone(3, e.elements);
    for i := 0 to |e.elements|
      invariant out == HeadOf(e) + EncodeList(3, e.elements[..i])
    {
      var child := EncodePropertyElement(e.elements[i]);
      EncodeListNext(HeadOf(e), 3, e.elements, i);
      out := out + AppendTag(3, LENGTH_DELIMITED);
      out := out + AppendBytes(child);
    }
    EncodeElementParts(e);
  }

  // --------------------------------------------------------------- decoding

  /** The first known field decides; unknown fields before it are skipped. */
  function ParseValue(body: Bytes): Parsed<Value>
    decreases |body|
  {
    if body == [] then Good(Nil)
    else
      match ConsumeTag(body)
      case Malformed => Bad
      case Read(tag, b) =>
        if 1 <= tag.num <= 3 then
          if tag.wireType != VARINT then Bad
          else
            match ConsumeVarint(b)
            case Malformed => Bad
            case Read(v, _) =>
              Good(if tag.num == 1 then Bool(v != 0) else if tag.num == 2 then Uint(v) else Sint(SignedOf(v)))
        else if tag.num == 4 then
          if tag.wireType != FIXED64 then Bad
          else
            match ConsumeFixed(8, b)
            case Malformed => Bad
            case Read(bits, _) => Good(Double(bits))
        else if tag.num == 5 || tag.num == 6 then
          if tag.wireType != LENGTH_DELIMITED then Bad
          else
            match ConsumeBytes(b)
            case Malformed => Bad
            case Read(s, _) => Good(if tag.num == 5 then Text(s) else Blob(s))
        else
          match SkipField(tag.num, tag.wireType, b, RECURSION_LIMIT)
          case Malformed => Bad
          case Read(_, rest) => ParseValue(rest)
  }

  /** Folds the remaining fields of an element into what has been read of it so far. */
  function ParseFields(acc: Element, body: Bytes): Parsed<Element>
    decreases |body|
  {
    if body == [] then Good(acc)
    else
      match ConsumeTag(body)
      case Malformed => Bad
      case Read(tag, b) =>
        if 1 <= tag.num <= 3 then
          if tag.wireType != LENGTH_DELIMITED then Bad
          else
            match ConsumeBytes(b)
            case Malformed => Bad
            case Read(s, rest) =>
              if tag.num == 1 then ParseFields(acc.(name := s), rest)
              else if tag.num == 2 then
                match ParseValue(s)
                case Bad => Bad
                case Good(v) => ParseFields(acc.(value := v), rest)
              else
                match ParseFields(EMPTY, s)
                case Bad => Bad
                case Good(child) => ParseFields(acc.(elements := acc.elements + [child]), rest)
        else
          match SkipField(tag.num, tag.wireType, b, RECURSION_LIMIT)
          case Malformed => Bad
          case Read(_, rest) => ParseFields(acc, rest)
  }

  function ParseElement(body: Bytes): Parsed<Element> {
    ParseFields(EMPTY, body)
  }

  method ParsePropertyValue(bytes: Bytes) returns (r: Parsed<Value>)
    ensures r == ParseValue(bytes)
  {
    var body := bytes;
    while |body| > 0
      invariant ParseValue(bytes) == ParseValue(body)
      decreases |body|
    {
      var t := ConsumeTag(body);
      if t.Malformed? { return Bad; }
      var tag := t.value;
      body := t.rest;
      match tag.num {
        case 1 =>
          if tag.wireType != VARINT { return Bad; }
          var v := ConsumeVarint(body);
          if v.Malformed? { return Bad; }
          return Good(Bool(v.value != 0));
        case 2 =>
          if tag.wireType != VARINT { return Bad; }
          var v := ConsumeVarint(body);
          if v.Malformed? { return Bad; }
          return Good(Uint(v.value));
        case 3 =>
          if tag.wireType != VARINT { return Bad; }
          var v := ConsumeVarint(body);
          if v.Malformed? { return Bad; }
          return Good(Sint(SignedOf(v.value)));
        case 4 =>
          if tag.wireType != FIXED64 { return Bad; }
          var v := ConsumeFixed(8, body);
          if v.Malformed? { return Bad; }
          return Good(Double(v.value));
        case 5 =>
          if tag.wireType != LENGTH_DELIMITED { return Bad; }
          var v := ConsumeBytes(body);
          if v.Malformed? { return Bad; }
          return Good(Text(v.value));
        case 6 =>
          if tag.wireType != LENGTH_DELIMITED { return Bad; }
          var v := ConsumeBytes(body);
          if v.Malformed? { return Bad; }
          return Good(Blob(v.value));
        case _ =>
          var skip := SkipField(tag.num, tag.wireType, body, RECURSION_LIMIT);
          if skip.Malformed? { return Bad; }
          body := skip.rest;
      }
    }
    return Good(Nil);
  }

  method ParsePropertyElement(bytes: Bytes) returns (r: Parsed<Element>)
    ensures r == ParseElement(bytes)
    decreases |bytes|
  {
    var e, body := EMPTY, bytes;
    while |body| > 0
      invariant |body| <= |bytes|
      invariant ParseElement(bytes) == ParseFields(e, body)
      decreases |body|
    {
      var t := ConsumeTag(body);
      if t.Malformed? { return Bad; }
      var tag := t.value;
      body := t.rest;
      match tag.num {
        case 1 =>
          if tag.wireType != LENGTH_DELIMITED { return Bad; }
          var v := ConsumeBytes(body);
          if v.Malformed? { return Bad; }
          e, body := e.(name := v.value), v.rest;
        case 2 =>
          if tag.wireType != LENGTH_DELIMITED { return Bad; }
          var v := ConsumeBytes(body);
          if v.Malformed? { return Bad; }
          var value := ParsePropertyValue(v.value);
          if value.Bad? { return Bad; }
          e, body := e.(value := value.value), v.rest;
        case 3 =>
          if tag.wireType != LENGTH_DELIMITED { return Bad; }
          var v := ConsumeBytes(body);
          if v.Malformed? { return Bad; }
          var child := ParsePropertyElement(v.value);
          if child.Bad? { return Bad; }
          e, body := e.(elements := e.elements + [child.value]), v.rest;
        case _ =>
          var skip := SkipField(tag.num, tag.wireType, body, RECURSION_LIMIT);
          if skip.Malformed? { return Bad; }
          body := skip.rest;
      }
    }
    return Good(e);
  }

  // ------------------------------------------------------------- round trip

  /** What is left of a value's Go type on the wire. */
  function NormalValue(v: Value): Value {
    match v
    case Sint(i) => if i >= 0 then Uint(i) else v
    case Int(n) => if n >= 0 then Uint(n) else Sint(n)
    case Unsupported => Nil
    case _ => v
  }

  function Normal(e: Element): Element
    decreases e
  {
    Element(e.name, NormalValue(e.value), NormalList(e.elements))
  }

  function NormalList(es: seq<Element>): (r: seq<Element>)
    ensures |r| == |es| && forall i :: 0 <= i < |es| ==> r[i] == Normal(es[i])
    decreases es
  {
    if es == [] then [] else [Normal(es[0])] + NormalList(es[1..])
  }

  lemma FieldRoundTrip(num: nat, s: Bytes, rest: Bytes)
    requires 1 <= num <= MAX_FIELD_NUMBER && |s| < U64_LIMIT
    ensures ConsumeTag(Field(num, s) + rest) == Read(Tag(num, LENGTH_DELIMITED), AppendBytes(s) + rest)
    ensures ConsumeBytes(AppendBytes(s) + rest) == Read(s, rest)
    ensures |s| < |Field(num, s)|
  {
    TagRoundTrip(num, LENGTH_DELIMITED, AppendBytes(s) + rest);
    assert Field(num, s) + rest == AppendTag(num, LENGTH_DELIMITED) + (AppendBytes(s) + rest);
    BytesRoundTrip(s, rest);
  }

  lemma FieldIsLonger(num: nat, s: Bytes)
    ensures |s| < |Field(num, s)|
  {
  }

  lemma IntegerRoundTrip(num: nat, u: Uint64)
    requires 1 <= num <= 3
    ensures var b := AppendTag(num, VARINT) + AppendVarint(u);
            ConsumeTag(b) == Read(Tag(num, VARINT), AppendVarint(u)) && ConsumeVarint(AppendVarint(u)) == Read(u, [])
  {
    TagRoundTrip(num, VARINT, AppendVarint(u));
    VarintRoundTrip(u, []);
    assert AppendVarint(u) + [] == AppendVarint(u);
  }

  lemma ValueRoundTrip(v: Value)
    requires |EncodeValue(v)| < U64_LIMIT
    ensures ParseValue(EncodeValue(v)) == Good(NormalValue(v))
  {
    hide ConsumeTag, ConsumeVarint, ConsumeBytes, SkipField, AppendTag, AppendVarint, AppendBytes;
    match v {
      case Nil =>
      case Unsupported =>
      case Bool(b) => IntegerRoundTrip(1, if b then 1 else 0);
      case Uint(u) => IntegerRoundTrip(2, u);
      case Sint(i) => IntegerRoundTrip(if i >= 0 then 2 else 3, TwosComplement(i));
      case Int(n) => IntegerRoundTrip(if n >= 0 then 2 else 3, TwosComplement(n));
      case Double(bits) =>
        TagRoundTrip(4, FIXED64, bits);
        assert bits[..8] == bits;
      case Text(s) =>
        assert EncodeValue(v) == Field(5, s) && Field(5, s) + [] == Field(5, s)
            && AppendBytes(s) + [] == AppendBytes(s);
        FieldIsLonger(5, s);
        FieldRoundTrip(5, s, []);
      case Blob(s) =>
        assert EncodeValue(v) == Field(6, s) && Field(6, s) + [] == Field(6, s)
            && AppendBytes(s) + [] == AppendBytes(s);
        FieldIsLonger(6, s);
        FieldRoundTrip(6, s, []);
    }
  }

  lemma ParseNothing(acc: Element)
    ensures ParseFields(acc, []) == Good(acc)
  {
  }

  lemma ParseName(acc: Element, s: Bytes, rest: Bytes)
    requires |s| < U64_LIMIT
    ensures ParseFields(acc, Field(1, s) + rest) == ParseFields(acc.(name := s), rest)
  {
    FieldRoundTrip(1, s, rest);
  }

  lemma ParseValueField(acc: Element, v: Value, rest: Bytes)
    requires |EncodeValue(v)| < U64_LIMIT
    ensures ParseFields(acc, Field(2, EncodeValue(v)) + rest) == ParseFields(acc.(value := NormalValue(v)), rest)
  {
    FieldRoundTrip(2, EncodeValue(v), rest);
    ValueRoundTrip(v);
  }

  lemma ParseChild(acc: Element, s: Bytes, child: Element, rest: Bytes)
    requires |s| < U64_LIMIT && ParseElement(s) == Good(child)
    ensures ParseFields(acc, Field(3, s) + rest) == ParseFields(acc.(elements := acc.elements + [child]), rest)
  {
    FieldRoundTrip(3, s, rest);
  }

  lemma {:induction false} ListRoundTrip(acc: Element, es: seq<Element>)
    requires |EncodeList(3, es)| < U64_LIMIT
    ensures ParseFields(acc, EncodeList(3, es)) == Good(acc.(elements := acc.elements + NormalList(es)))
    decreases es, 0
  {
    hide EncodeElement, AppendVarint, Field, Normal, ParseFields;
    if es == [] {
      assert acc.elements + [] == acc.elements;
      ParseNothing(acc);
    } else {
      var s, rest := EncodeElement(es[0]), EncodeList(3, es[1..]);
      EncodeListSizes(3, es);
      ElementRoundTrip(es[0]);
      ParseChild(acc, s, Normal(es[0]), rest);
      var acc' := acc.(elements := acc.elements + [Normal(es[0])]);
      ListRoundTrip(acc', es[1..]);
      assert acc.elements + NormalList(es) == acc'.elements + NormalList(es[1..]);
    }
  }

  lemma EncodeListSizes(num: nat, es: seq<Element>)
    requires es != []
    ensures |EncodeElement(es[0])| <= |EncodeList(num, es)|
    ensures |EncodeList(num, es[1..])| <= |EncodeList(num, es)|
  {
  }

  /** Encoding a tree of any shape and parsing the bytes gives the tree back, up to the
      normalisation of integers. The bound is Go's own on the length of a byte slice. */
  lemma {:induction false} ElementRoundTrip(e: Element)
    requires |EncodeElement(e)| < U64_LIMIT
    ensures ParseElement(EncodeElement(e)) == Good(Normal(e))
    decreases e, 1
  {
    hide EncodeValue, NormalValue, AppendVarint, EncodeList, ParseFields, Field;
    var tail := ValueField(e.value) + EncodeList(3, e.elements);
    var named := EMPTY.(name := e.name);
    assert ParseElement(EncodeElement(e)) == ParseFields(named, tail) by {
      if e.name != [] {
        assert EncodeElement(e) == Field(1, e.name) + tail;
        FieldIsLonger(1, e.name);
        ParseName(EMPTY, e.name, tail);
      } else {
        assert EncodeElement(e) == tail;
      }
    }
    TailRoundTrip(named, e);
    assert [] + NormalList(e.elements) == NormalList(e.elements);
  }

  lemma {:induction false} TailRoundTrip(named: Element, e: Element)
    requires |EncodeElement(e)| < U64_LIMIT && named.value == Nil
    ensures ParseFields(named, ValueField(e.value) + EncodeList(3, e.elements))
         == Good(Element(named.name, NormalValue(e.value), named.elements + NormalList(e.elements)))
    decreases e, 0
  {
    var list := EncodeList(3, e.elements);
    var valued := named.(value := NormalValue(e.value));
    assert ParseFields(named, ValueField(e.value) + list) == ParseFields(valued, list) by {
      if EncodeValue(e.value) != [] {
        ParseValueField(named, e.value, list);
      } else {
        assert ValueField(e.value) + list == list;
      }
    }
    ListRoundTrip(valued, e.elements);
  }

  lemma {:induction false} NormalListIsCanonical(num: nat, es: seq<Element>)
    ensures EncodeList(num, NormalList(es)) == EncodeList(num, es)
    decreases es, 0
  {
    if es != [] {
      NormalIsCanonical(es[0]);
      NormalListIsCanonical(num, es[1..]);
      assert NormalList(es)[1..] == NormalList(es[1..]);
    }
  }

  /** The normal form is the one the bytes stand for: it has the same bytes, so two trees
      are confused on the wire exactly when their normal forms agree. */
  lemma {:induction false} NormalIsCanonical(e: Element)
    ensures EncodeElement(Normal(e)) == EncodeElement(e)
    decreases e, 1
  {
    NormalValueIsCanonical(e.value);
    NormalListIsCanonical(3, e.elements);
    hide EncodeValue, NormalValue, NormalList, AppendVarint;
  }

  lemma NormalValueIsCanonical(v: Value)
    ensures EncodeValue(NormalValue(v)) == EncodeValue(v)
  {
    hide AppendVarint;
  }

  lemma EncodingDistinguishes(e: Element, f: Element)
    requires |EncodeElement(e)| < U64_LIMIT && |EncodeElement(f)| < U64_LIMIT
    ensures EncodeElement(e) == EncodeElement(f) <==> Normal(e) == Normal(f)
  {
    ElementRoundTrip(e);
    ElementRoundTrip(f);
    NormalIsCanonical(e);
    NormalIsCanonical(f);
  }

  // ------------------------------------------------- the bytes, field by field

  /** The encodings of values in full: a bool in field 1, unsigned integers in 2, negative ones
      in 3, eight bytes in 4, strings in 5 and byte strings in 6. */
  lemma ValueBytes(v: Value)
    ensures v.Bool? ==> EncodeValue(v) == [0x08, if v.b then 1 else 0]
    ensures v.Uint? ==> EncodeValue(v) == [0x10] + AppendVarint(v.u)
    ensures v.Sint? ==> EncodeValue(v) == if v.i >= 0 then [0x10] + AppendVarint(v.i)
                                          else [0x18] + AppendVarint(v.i + 0x1_0000_0000_0000_0000)
    ensures v.Int? ==> EncodeValue(v) == if v.n >= 0 then [0x10] + AppendVarint(v.n)
                                         else [0x18] + AppendVarint(v.n + 0x1_0000_0000_0000_0000)
    ensures v.Double? ==> EncodeValue(v) == [0x21] + v.bits
    ensures v.Text? ==> EncodeValue(v) == [0x2a] + (AppendVarint(|v.s|) + v.s)
    ensures v.Blob? ==> EncodeValue(v) == [0x32] + (AppendVarint(|v.raw|) + v.raw)
    ensures v.Nil? || v.Unsupported? ==> EncodeValue(v) == []
  {
    WireExamples(1);
    WireExamples(2);
    WireExamples(3);
    WireExamples(4);
    WireExamples(5);
    WireExamples(6);
    assert AppendVarint(0) == [0] && AppendVarint(1) == [1];
    hide AppendTag, AppendVarint;
  }

  lemma RecordBytes(num: nat, s: Bytes)
    requires 1 <= num <= 3
    ensures Field(num, s) == [8 * num + 2] + (AppendVarint(|s|) + s)
  {
    WireExamples(num);
    hide AppendTag, AppendVarint;
  }

  /** An element's head in full: its name in field 1, its value in field 2, both length-delimited
      and left out when empty. */
  lemma ElementBytes(name: Bytes, value: Value)
    ensures var bytes := EncodeValue(value);
            EncodeElement(Element(name, value, [])) ==
            (if name != [] then [0x0a] + (AppendVarint(|name|) + name) else []) +
            (if bytes != [] then [0x12] + (AppendVarint(|bytes|) + bytes) else [])
  {
    RecordBytes(1, name);
    RecordBytes(2, EncodeValue(value));
    hide Field, EncodeValue, AppendVarint;
    assert EncodeList(3, []) == [];
  }

  /** And each child in field 3, in order. */
  lemma ChildBytes(name: Bytes, value: Value, elements: seq<Element>, child: Element)
    ensures EncodeElement(Element(name, value, elements + [child]))
         == EncodeElement(Element(name, value, elements)) +
            ([0x1a] + (AppendVarint(|EncodeElement(child)|) + EncodeElement(child)))
  {
    hide Field, EncodeElement, EncodeList, HeadOf, AppendVarint;
    RecordBytes(3, EncodeElement(child));
    EncodeListSnoc(3, elements, child);
    EncodeElementParts(Element(name, value, elements + [child]));
    EncodeElementParts(Element(name, value, elements));
    SameHead(name, value, elements, elements + [child]);
  }

  lemma SameHead(name: Bytes, value: Value, a: seq<Element>, b: seq<Element>)
    ensures HeadOf(Element(name, value, a)) == HeadOf(Element(name, value, b))
  {
  }

  /** A field the message does not define changes nothing, wherever a field may begin. */
  lemma UnknownFieldIsSkipped(u: Unknown, acc: Element, rest: Bytes)
    requires WellFormed(u) && u.num > 3 && Nesting(u) <= 10001
    ensures ParseFields(acc, AppendTag(u.num, TypeOf(u)) + (Body(u) + rest)) == ParseFields(acc, rest)
    ensures u.num > 6 ==> ParseValue(AppendTag(u.num, TypeOf(u)) + (Body(u) + rest)) == ParseValue(rest)
  {
    TagRoundTrip(u.num, TypeOf(u), Body(u) + rest);
    SkipLeavesRest(u, rest, RECURSION_LIMIT);
    hide AppendTag, ConsumeTag, SkipField, Body;
  }
}
