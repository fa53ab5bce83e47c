/** The two-byte length framing of the vDC stream (buildPbufFrame, readPbufFrame) and the
    message envelope inside a frame (parsePbufEnvelope). */
module Framing {
  import opened Wire

  const MAX_MESSAGE_SIZE := 16384

  datatype ReadError = EndOfStream | UnexpectedEnd | BadSize(n: nat)

  datatype FrameRead = Frame(payload: Bytes, rest: Bytes) | Failed(error: ReadError)

  /** The header holds the length modulo 2^16: nothing stops a longer payload. */
  function BuildFrame(payload: Bytes): Bytes {
    var n := |payload| % 0x1_0000;
    [n / 256, n % 256] + payload
  }

  function HeaderSize(stream: Bytes): nat
    requires |stream| >= 2
  {
    256 * (stream[0] as int) + stream[1] as int
  }

  function ReadFrame(stream: Bytes): (r: FrameRead)
    ensures r.Frame? ==> 1 <= |r.payload| <= MAX_MESSAGE_SIZE && |r.rest| < |stream|
  {
    if stream == [] then Failed(EndOfStream)
    else if |stream| == 1 then Failed(UnexpectedEnd)
    else
      var n := HeaderSize(stream);
      if n == 0 || n > MAX_MESSAGE_SIZE then Failed(BadSize(n))
      else if |stream| == 2 then Failed(EndOfStream)
      else if |stream| < 2 + n then Failed(UnexpectedEnd)
      else Frame(stream[2..2 + n], stream[2 + n..])
  }

  /** Why a read fails: the stream ends between frames or behind a whole header, it ends anywhere
      else, or the header names a size outside 1..16384. */
  lemma ReadFails(s: Bytes)
    ensures ReadFrame(s) == Failed(UnexpectedEnd) <==>
              |s| == 1 || (|s| > 2 && |s| - 2 < 256 * s[0] as int + s[1] as int <= 16384)
    ensures ReadFrame(s) == Failed(EndOfStream) <==>
              s == [] || (|s| == 2 && 1 <= 256 * s[0] as int + s[1] as int <= 16384)
    ensures forall n :: ReadFrame(s) == Failed(BadSize(n)) <==>
              |s| >= 2 && n == 256 * s[0] as int + s[1] as int && (n == 0 || n > 16384)
  {
  }

  predicate Sendable(payload: Bytes) {
    1 <= |payload| <= MAX_MESSAGE_SIZE
  }

  /** A frame reads back as its payload exactly for payloads of 1 to 16384 bytes. A larger
      one, which buildPbufFrame accepts, is refused or cut at the truncated length. */
  lemma FrameReadsBackIff(p: Bytes, rest: Bytes)
    ensures ReadFrame(BuildFrame(p) + rest) == Frame(p, rest) <==> Sendable(p)
  {
    var s, n := BuildFrame(p) + rest, |p| % 0x1_0000;
    assert HeaderSize(s) == n;
    if Sendable(p) {
      assert s[2..2 + n] == p && s[2 + n..] == rest;
    } else if ReadFrame(s).Frame? {
      assert |ReadFrame(s).payload| == n < |p|;
    }
  }

  /** The header is the length, high byte first. */
  lemma HeaderIsBigEndian(p: Bytes)
    requires |p| < 0x1_0000
    ensures BuildFrame(p) == [|p| / 256, |p| % 256] + p
    ensures |p| == 0x0102 ==> BuildFrame(p)[..2] == [0x01, 0x02]
  {
  }

  /** Reading consumes exactly the frame it returns. */
  lemma ReadIsBuild(s: Bytes)
    requires ReadFrame(s).Frame?
    ensures s == BuildFrame(ReadFrame(s).payload) + ReadFrame(s).rest
  {
    var n, p := HeaderSize(s), ReadFrame(s).payload;
    assert p == s[2..2 + n] && ReadFrame(s).rest == s[2 + n..];
    hide ReadFrame;
    HeaderOf(s[0], s[1], p);
    hide BuildFrame;
    assert s[..2] == [s[0], s[1]];
    assert s == s[..2] + s[2..2 + n] + s[2 + n..];
  }

  lemma HeaderOf(high: Byte, low: Byte, p: Bytes)
    requires |p| == 256 * high as int + low as int
    ensures BuildFrame(p) == [high, low] + p
  {
    assert |p| / 256 == high as int && |p| % 256 == low as int;
  }

  function Frames(ps: seq<Bytes>): Bytes {
    if ps == [] then [] else BuildFrame(ps[0]) + Frames(ps[1..])
  }

  lemma {:induction false} FramesSnoc(ps: seq<Bytes>, p: Bytes)
    ensures Frames(ps + [p]) == Frames(ps) + BuildFrame(p)
  {
    if ps != [] {
      FramesSnoc(ps[1..], p);
      assert (ps + [p])[1..] == ps[1..] + [p];
    } else {
      assert ps + [p] == [p];
    }
  }

  lemma FirstFrame(ps: seq<Bytes>, tail: Bytes)
    requires ps != [] && Sendable(ps[0])
    ensures ReadFrame(Frames(ps) + tail) == Frame(ps[0], Frames(ps[1..]) + tail)
  {
    hide ReadFrame, BuildFrame;
    FrameReadsBackIff(ps[0], Frames(ps[1..]) + tail);
    assert Frames(ps) + tail == BuildFrame(ps[0]) + (Frames(ps[1..]) + tail);
  }

  /** Two splits of one stream into readable frames, each ending where no frame can be
      read, are the same split. */
  lemma {:induction false} SplitIsUnique(ps: seq<Bytes>, tail: Bytes, qs: seq<Bytes>, tail': Bytes)
    requires forall p :: p in ps ==> Sendable(p)
    requires forall q :: q in qs ==> Sendable(q)
    requires ReadFrame(tail).Failed? && ReadFrame(tail').Failed?
    requires Frames(ps) + tail == Frames(qs) + tail'
    ensures ps == qs && tail == tail'
  {
    hide BuildFrame, ReadFrame;
    if ps != [] { FirstFrame(ps, tail); }
    if qs != [] { FirstFrame(qs, tail'); }
    if ps != [] && qs != [] {
      SplitIsUnique(ps[1..], tail, qs[1..], tail');
    } else {
      assert Frames([]) + tail == tail && Frames([]) + tail' == tail';
    }
  }

  lemma NextFrame(read: seq<Bytes>, tail: Bytes)
    requires ReadFrame(tail).Frame?
    ensures var r := ReadFrame(tail);
            Sendable(r.payload) && |r.rest| < |tail| && Frames(read) + tail == Frames(read + [r.payload]) + r.rest
  {
    var r := ReadFrame(tail);
    ReadIsBuild(tail);
    hide ReadFrame, BuildFrame, Frames;
    FramesSnoc(read, r.payload);
  }

  /** The read loop of a connection: all frames up to the first error. */
  method ReadFrames(stream: Bytes) returns (payloads: seq<Bytes>, tail: Bytes, error: ReadError)
    ensures stream == Frames(payloads) + tail
    ensures forall p :: p in payloads ==> Sendable(p)
    ensures ReadFrame(tail) == Failed(error)
  {
    payloads, tail := [], stream;
    assert stream == Frames(payloads) + tail;
    hide ReadFrame, Frames;
    while true
      invariant stream == Frames(payloads) + tail
      invariant forall p :: p in payloads ==> Sendable(p)
      decreases |tail|
    {
      var r := ReadFrame(tail);
      if r.Failed? { return payloads, tail, r.error; }
      NextFrame(payloads, tail);
      payloads, tail := payloads + [r.payload], r.rest;
    }
  }

  /** What is written frame by frame is what the reader gets, then a clean end. */
  method TransmitAll(ps: seq<Bytes>) returns (got: seq<Bytes>, error: ReadError)
    requires forall p :: p in ps ==> Sendable(p)
    ensures got == ps && error == EndOfStream
  {
    var stream := [];
    for i := 0 to |ps|
      invariant stream == Frames(ps[..i])
    {
      FramesSnoc(ps[..i], ps[i]);
      assert ps[..i] + [ps[i]] == ps[..i + 1];
      stream := stream + BuildFrame(ps[i]);
    }
    assert ps[..|ps|] == ps && stream == Frames(ps) + [];
    var tail;
    got, tail, error := ReadFrames(stream);
    SplitIsUnique(ps, [], got, tail);
  }

  // --------------------------------------------------------------- envelope

  datatype Envelope = Envelope(msgType: nat, msgID: nat, hasID: bool, sub: map<nat, Bytes>)

  datatype EnvelopeRead = Message(envelope: Envelope) | BadEnvelope

  const NO_MESSAGE := Envelope(0, 0, false, map[])

  function ParseEnvelopeFields(acc: Envelope, payload: Bytes): EnvelopeRead
    decreases |payload|
  {
    if payload == [] then (if acc.msgType == 0 then BadEnvelope else Message(acc))
    else
      match ConsumeTag(payload)
      case Malformed => BadEnvelope
      case Read(tag, b) =>
        if tag.num <= 2 then
          if tag.wireType != VARINT then BadEnvelope
          else
            match ConsumeVarint(b)
            case Malformed => BadEnvelope
            case Read(v, rest) =>
              if tag.num == 1 then ParseEnvelopeFields(acc.(msgType := v), rest)
              else ParseEnvelopeFields(acc.(msgID := v % 0x1_0000_0000, hasID := true), rest)
        else if tag.wireType == LENGTH_DELIMITED then
          match ConsumeBytes(b)
          case Malformed => BadEnvelope
          case Read(s, rest) => ParseEnvelopeFields(acc.(sub := acc.sub[tag.num := s]), rest)
        else
          match SkipField(tag.num, tag.wireType, b, RECURSION_LIMIT)
          case Malformed => BadEnvelope
          case Read(_, rest) => ParseEnvelopeFields(acc, rest)
  }

  function ParseEnvelope(payload: Bytes): EnvelopeRead {
    ParseEnvelopeFields(NO_MESSAGE, payload)
  }

  /** The payload every builder makes: type, optional message id, one sub-message. */
  function Payload(msgType: nat, msgID: nat, hasID: bool, field: nat, body: Bytes): Bytes {
    AppendTag(1, VARINT) + AppendVarint(msgType) +
    ((if hasID then AppendTag(2, VARINT) + AppendVarint(msgID) else []) +
    (AppendTag(field, LENGTH_DELIMITED) + AppendBytes(body)))
  }

  lemma ParseVarintField(acc: Envelope, num: nat, v: nat, rest: Bytes)
    requires 1 <= num <= 2 && v < U64_LIMIT
    ensures ParseEnvelopeFields(acc, AppendTag(num, VARINT) + AppendVarint(v) + rest)
         == ParseEnvelopeFields(if num == 1 then acc.(msgType := v)
                                else acc.(msgID := v % 0x1_0000_0000, hasID := true), rest)
  {
    var b := AppendTag(num, VARINT) + AppendVarint(v) + rest;
    assert b == AppendTag(num, VARINT) + (AppendVarint(v) + rest);
    TagRoundTrip(num, VARINT, AppendVarint(v) + rest);
    VarintRoundTrip(v, rest);
  }

  /** What is no message: no type, a type or id that is no varint. Anything else that is no
      sub-message is skipped. */
  lemma EnvelopeRefuses(acc: Envelope, num: nat, wireType: WireType, rest: Bytes, u: Unknown)
    requires 1 <= num <= 2 && wireType != 0
    requires WellFormed(u) && u.num > 2 && !u.UBytes? && Nesting(u) <= 10001
    ensures ParseEnvelopeFields(acc, AppendTag(num, wireType) + rest) == BadEnvelope
    ensures ParseEnvelopeFields(acc, AppendTag(u.num, TypeOf(u)) + (Body(u) + rest)) == ParseEnvelopeFields(acc, rest)
    ensures ParseEnvelopeFields(acc, []) == if acc.msgType == 0 then BadEnvelope else Message(acc)
  {
    TagRoundTrip(num, wireType, rest);
    TagRoundTrip(u.num, TypeOf(u), Body(u) + rest);
    SkipLeavesRest(u, rest, RECURSION_LIMIT);
    hide AppendTag, ConsumeTag, SkipField, Body;
  }

  lemma ParseBody(acc: Envelope, field: nat, body: Bytes)
    requires 3 <= field <= MAX_FIELD_NUMBER && |body| < U64_LIMIT && acc.msgType != 0
    ensures ParseEnvelopeFields(acc, AppendTag(field, LENGTH_DELIMITED) + AppendBytes(body))
         == Message(acc.(sub := acc.sub[field := body]))
  {
    TagRoundTrip(field, LENGTH_DELIMITED, AppendBytes(body));
    BytesRoundTrip(body, []);
    assert AppendBytes(body) + [] == AppendBytes(body);
  }

  /** The envelope in full: the type in field 1, the message id in field 2, the sub-message in
      its own field. */
  lemma PayloadBytes(msgType: nat, msgID: nat, hasID: bool, body: Bytes)
    ensures Payload(msgType, msgID, hasID, 103, body)
         == [0x08] + AppendVarint(msgType) +
            ((if hasID then [0x10] + AppendVarint(msgID) else []) + ([0xba, 0x06] + (AppendVarint(|body|) + body)))
  {
    hide AppendTag, AppendVarint;
    WireExamples(1);
    WireExamples(2);
    Tag103();
  }

  lemma Tag103()
    ensures AppendTag(103, LENGTH_DELIMITED) == [0xba, 0x06]
  {
    assert AppendVarint(6) == [6];
  }

  /** A built payload parses back to its type, its id (if it had one) and its sub-message. */
  lemma EnvelopeRoundTrip(msgType: nat, msgID: nat, hasID: bool, field: nat, body: Bytes)
    requires 1 <= msgType < U64_LIMIT && msgID < 0x1_0000_0000
    requires 3 <= field <= MAX_FIELD_NUMBER && |body| < U64_LIMIT
    ensures ParseEnvelope(Payload(msgType, msgID, hasID, field, body))
         == Message(Envelope(msgType, if hasID then msgID else 0, hasID, map[field := body]))
  {
    hide ParseEnvelopeFields, AppendVarint, AppendTag, AppendBytes;
    var last := AppendTag(field, LENGTH_DELIMITED) + AppendBytes(body);
    var mid := (if hasID then AppendTag(2, VARINT) + AppendVarint(msgID) else []) + last;
    ParseVarintField(NO_MESSAGE, 1, msgType, mid);
    var typed := NO_MESSAGE.(msgType := msgType);
    var identified := if hasID then typed.(msgID := msgID, hasID := true) else typed;
    if hasID {
      ParseVarintField(typed, 2, msgID, last);
    } else {
      assert mid == last;
    }
    ParseBody(identified, field, body);
  }
}
