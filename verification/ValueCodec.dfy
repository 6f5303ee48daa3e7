/** The tagged value codec. */
module ValueCodec {
  import opened Bytes
  import opened Cursor

  /** What the platform supplies: UTF-8 conversion and the JSON parser's verdict on a text. */
  datatype Platform = Platform(toUtf8: string -> seq<Byte>, fromUtf8: seq<Byte> -> string, isJson: string -> bool)
  {
    /** The string survives UTF-8 (it has no lone surrogate). */
    predicate Clean(s: string) { fromUtf8(toUtf8(s)) == s }
  }

  /** A value with its wire tag. Floats are their bit patterns, JSON its text. */
  datatype Value =
    | Null | Text(text: string) | U32(u: nat) | U64(u: nat) | I32(i: int) | I64(i: int)
    | F32(bits: nat) | F64(bits: nat) | Bool(b: bool) | Blob(bytes: seq<Byte>) | DateTime(millis: int)
      | Json(json: string)

  // ---- Numbers ----

  /** Two's complement in `n` bytes. */
  predicate FitsSigned(i: int, n: nat) { 0 <= 2 * i + Span(n) < 2 * Span(n) }

  function Unsigned(i: int, n: nat): (u: nat)
    requires FitsSigned(i, n)
  {
    if i < 0 then i + Span(n) else i
  }

  function Signed(u: nat, n: nat): int { if 2 * u >= Span(n) then u - Span(n) else u }

  /** NaN: exponent all ones, mantissa not zero, either sign. */
  predicate IsNaN(bits: nat) { bits % 0x8000_0000 > 0x7F80_0000 }

  /** Of a 32-bit pattern: 8 exponent bits over 23 mantissa bits. */
  lemma NaNIs(bits: nat)
    requires bits < 0x1_0000_0000
    ensures IsNaN(bits) <==> bits / 0x80_0000 % 256 == 255 && bits % 0x80_0000 != 0
  {
  }

  const QUIET_NAN: nat := 0x7FC0_0000

  // ---- Encoding ----

  function Tag(v: Value): Byte {
    match v
    case Null => 0 case Text(_) => 1 case U32(_) => 2 case U64(_) => 3 case I32(_) => 4 case I64(_) => 5
    case F32(_) => 6 case F64(_) => 7 case Bool(_) => 8 case Blob(_) => 9 case DateTime(_) => 10 case Json(_) => 11
  }

  /** The ranges the buffer writers accept; they throw outside. JSON texts come from a stringifier. */
  predicate ValueFits(p: Platform, v: Value) {
    match v
    case Null => true
    case Text(s) => p.Clean(s) && |p.toUtf8(s)| < Span(4)
    case U32(u) => u < Span(4)
    case U64(u) => u < Span(8)
    case I32(i) => FitsSigned(i, 4)
    case I64(i) => FitsSigned(i, 8)
    case F32(bits) => bits < Span(4)
    case F64(bits) => bits < Span(8)
    case Bool(_) => true
    case Blob(bs) => |bs| < Span(4)
    case DateTime(ms) => FitsSigned(ms, 8)
    case Json(s) => p.Clean(s) && p.isJson(s) && |p.toUtf8(s)| < Span(4)
  }

  function Body(p: Platform, v: Value): seq<Byte>
    requires ValueFits(p, v)
  {
    match v
    case Null => []
    case Text(s) => Prefixed(p.toUtf8(s), 4)
    case U32(u) => BigEndian(u, 4)
    case U64(u) => BigEndian(u, 8)
    case I32(i) => BigEndian(Unsigned(i, 4), 4)
    case I64(i) => BigEndian(Unsigned(i, 8), 8)
    case F32(bits) => BigEndian(bits, 4)
    case F64(bits) => BigEndian(bits, 8)
    case Bool(b) => [if b then 1 else 0]
    case Blob(bs) => Prefixed(bs, 4)
    case DateTime(ms) => BigEndian(Unsigned(ms, 8), 8)
    case Json(s) => Prefixed(p.toUtf8(s), 4)
  }

  function EncodeValue(p: Platform, v: Value): seq<Byte>
    requires ValueFits(p, v)
  {
    [Tag(v)] + Body(p, v)
  }

  /** `bs` is a length in four bytes and the bytes. */
  ghost predicate IsBlock(bs: seq<Byte>, s: seq<Byte>) {
    |bs| == 4 + |s| && IsNumber(bs[..4], |s|) && bs[4..] == s
  }

  lemma PrefixedIs(s: seq<Byte>)
    ensures IsBlock(Prefixed(s, 4), s)
  {
    BigEndianIs(|s|, 4);
    assert Prefixed(s, 4)[..4] == BigEndian(|s|, 4);
  }

  /** The tag of a value and the form of what follows it. Signed numbers are in two's complement. */
  ghost predicate IsValue(p: Platform, tag: Byte, bs: seq<Byte>, v: Value) {
    match v
    case Null => tag == 0 && bs == []
    case Text(s) => tag == 1 && IsBlock(bs, p.toUtf8(s))
    case U32(u) => tag == 2 && |bs| == 4 && IsNumber(bs, u)
    case U64(u) => tag == 3 && |bs| == 8 && IsNumber(bs, u)
    case I32(i) => tag == 4 && |bs| == 4 && IsNumber(bs, i % 0x1_0000_0000)
    case I64(i) => tag == 5 && |bs| == 8 && IsNumber(bs, i % 0x1_0000_0000_0000_0000)
    case F32(bits) => tag == 6 && |bs| == 4 && IsNumber(bs, bits)
    case F64(bits) => tag == 7 && |bs| == 8 && IsNumber(bs, bits)
    case Bool(b) => tag == 8 && bs == [if b then 1 else 0]
    case Blob(s) => tag == 9 && IsBlock(bs, s)
    case DateTime(ms) => tag == 10 && |bs| == 8 && IsNumber(bs, ms % 0x1_0000_0000_0000_0000)
    case Json(s) => tag == 11 && IsBlock(bs, p.toUtf8(s))
  }

  lemma UnsignedIs(i: int)
    ensures FitsSigned(i, 4) ==> Unsigned(i, 4) == i % 0x1_0000_0000
    ensures FitsSigned(i, 8) ==> Unsigned(i, 8) == i % 0x1_0000_0000_0000_0000
  {
    Spans();
  }

  lemma ValueLayout(p: Platform, v: Value)
    requires ValueFits(p, v)
    ensures var bs := EncodeValue(p, v); bs != [] && IsValue(p, bs[0], bs[1..], v)
  {
    assert EncodeValue(p, v)[1..] == Body(p, v);
    Spans();
    match v
    case Text(s) => PrefixedIs(p.toUtf8(s));
    case U32(u) => BigEndianIs(u, 4);
    case U64(u) => BigEndianIs(u, 8);
    case I32(i) => UnsignedIs(i); BigEndianIs(i % 0x1_0000_0000, 4);
    case I64(i) => UnsignedIs(i); BigEndianIs(i % 0x1_0000_0000_0000_0000, 8);
    case F32(bits) => BigEndianIs(bits, 4);
    case F64(bits) => BigEndianIs(bits, 8);
    case Blob(s) => PrefixedIs(s);
    case DateTime(ms) => UnsignedIs(ms); BigEndianIs(ms % 0x1_0000_0000_0000_0000, 8);
    case Json(s) => PrefixedIs(p.toUtf8(s));
    case _ =>
  }

  // ---- Decoding ----

  function DecodeBody(p: Platform, tag: nat, buf: seq<Byte>, pos: nat): (r: Parsed<Value>)
    ensures r.Ok? ==> pos <= r.pos
  {
    if tag == 0 then Ok(Null, pos)
    else if tag == 1 then
      var (bs, q) :- TakePrefixed(buf, pos, 4); Ok(Text(p.fromUtf8(bs)), q)
    else if tag == 2 then
      var (u, q) :- Number(buf, pos, 4); Ok(U32(u), q)
    else if tag == 3 then
      var (u, q) :- Number(buf, pos, 8); Ok(U64(u), q)
    else if tag == 4 then
      var (u, q) :- Number(buf, pos, 4); Ok(I32(Signed(u, 4)), q)
    else if tag == 5 then
      var (u, q) :- Number(buf, pos, 8); Ok(I64(Signed(u, 8)), q)
    else if tag == 6 then
      var (u, q) :- Number(buf, pos, 4); Ok(F32(u), q)
    else if tag == 7 then
      var (u, q) :- Number(buf, pos, 8); Ok(F64(u), q)
    else if tag == 8 then
      var (u, q) :- Number(buf, pos, 1); Ok(Bool(u != 0), q)
    else if tag == 9 then
      var (bs, q) :- TakePrefixed(buf, pos, 4); Ok(Blob(bs), q)
    else if tag == 10 then
      var (u, q) :- Number(buf, pos, 8); Ok(DateTime(Signed(u, 8)), q)
    else if tag == 11 then
      var (bs, q) :- TakePrefixed(buf, pos, 4);
      if p.isJson(p.fromUtf8(bs)) then Ok(Json(p.fromUtf8(bs)), q) else BadJson
    else UnknownTag(tag)
  }

  function DecodeValue(p: Platform, buf: seq<Byte>, pos: nat): (r: Parsed<Value>)
    ensures r.Ok? ==> pos <= r.pos
  {
    var (tag, q) :- Number(buf, pos, 1);
    DecodeBody(p, tag, buf, q)
  }

  /** What the decoder does beyond the encoder's values: any byte but 0 is true, a text that is no
      JSON is refused, and so is a tag above 11, by its number. */
  lemma DecodeOutcomes(p: Platform, buf: seq<Byte>, pos: nat)
    requires pos < |buf|
    ensures buf[pos] > 11 ==> DecodeValue(p, buf, pos) == UnknownTag(buf[pos])
    ensures buf[pos] == 8 && pos + 1 < |buf| ==> DecodeValue(p, buf, pos) == Ok(Bool(buf[pos + 1] != 0), pos + 2)
    ensures buf[pos] == 11 && TakePrefixed(buf, pos + 1, 4).Ok? ==>
      var s := p.fromUtf8(TakePrefixed(buf, pos + 1, 4).value);
      DecodeValue(p, buf, pos) == if p.isJson(s) then Ok(Json(s), TakePrefixed(buf, pos + 1, 4).pos) else BadJson
  {
    OneByte(buf, pos);
    if pos + 1 < |buf| {
      OneByte(buf, pos + 1);
    }
  }

  lemma OneByte(buf: seq<Byte>, pos: nat)
    requires pos < |buf|
    ensures Number(buf, pos, 1) == Ok(buf[pos], pos + 1)
  {
    var bs := buf[pos..pos + 1];
    assert bs[..0] == [] && FromBigEndian([]) == 0;
  }

  function ValueDecoder(p: Platform): Decoder<Value> { (buf: seq<Byte>, pos: nat) => DecodeValue(p, buf, pos) }

  lemma NumberBodyCut(p: Platform, tag: nat, buf: seq<Byte>, pos: nat, k: nat)
    requires pos <= k <= |buf| && tag !in {1, 9, 11}
    ensures CutOutcome(DecodeBody(p, tag, buf, pos), DecodeBody(p, tag, buf[..k], pos), k)
  {
    NumberCut(buf, pos, 1, k);
    NumberCut(buf, pos, 4, k);
    NumberCut(buf, pos, 8, k);
  }

  lemma BodyCut(p: Platform, tag: nat, buf: seq<Byte>, pos: nat, k: nat)
    requires pos <= k <= |buf|
    ensures CutOutcome(DecodeBody(p, tag, buf, pos), DecodeBody(p, tag, buf[..k], pos), k)
  {
    if tag in {1, 9, 11} {
      PrefixedCut(buf, pos, 4, k);
    } else {
      NumberBodyCut(p, tag, buf, pos, k);
    }
  }

  lemma ValueStrict(p: Platform)
    ensures Strict(ValueDecoder(p))
  {
    forall buf, pos: nat, k: nat | pos <= k <= |buf|
      ensures CutOutcome(ValueDecoder(p)(buf, pos), ValueDecoder(p)(buf[..k], pos), k)
    {
      NumberCut(buf, pos, 1, k);
      match Number(buf, pos, 1)
      case Ok(tag, q) => if q <= k { BodyCut(p, tag, buf, q, k); }
      case _ =>
    }
  }

  lemma BytesBodyReads(p: Platform, v: Value, buf: seq<Byte>, pos: nat)
    requires ValueFits(p, v) && Holds(buf, pos, Body(p, v)) && (v.Text? || v.Blob? || v.Json?)
    ensures DecodeBody(p, Tag(v), buf, pos) == Ok(v, pos + |Body(p, v)|)
  {
    PrefixedReads(buf, pos, if v.Text? then p.toUtf8(v.text) else if v.Blob? then v.bytes else p.toUtf8(v.json), 4);
  }

  lemma SignedReads(buf: seq<Byte>, pos: nat, i: int, n: nat)
    requires FitsSigned(i, n) && Holds(buf, pos, BigEndian(Unsigned(i, n), n))
    ensures Number(buf, pos, n) == Ok(Unsigned(i, n), pos + n) && Signed(Unsigned(i, n), n) == i
  {
    NumberReads(buf, pos, Unsigned(i, n), n);
  }

  lemma SignedBodyReads(p: Platform, v: Value, buf: seq<Byte>, pos: nat)
    requires ValueFits(p, v) && Holds(buf, pos, Body(p, v)) && (v.I32? || v.I64? || v.DateTime?)
    ensures DecodeBody(p, Tag(v), buf, pos) == Ok(v, pos + |Body(p, v)|)
  {
    match v
    case I32(i) => SignedReads(buf, pos, i, 4);
    case I64(i) => SignedReads(buf, pos, i, 8);
    case DateTime(ms) => SignedReads(buf, pos, ms, 8);
  }

  lemma BoolReads(b: bool, buf: seq<Byte>, pos: nat)
    requires Holds(buf, pos, [if b then 1 else 0])
    ensures Number(buf, pos, 1) == Ok(if b then 1 else 0, pos + 1)
  {
    var bit := if b then 1 else 0;
    assert BigEndian(bit, 1) == [bit];
    assert Span(1) == 256;
    NumberReads(buf, pos, bit, 1);
  }

  lemma BodyReads(p: Platform, v: Value, buf: seq<Byte>, pos: nat)
    requires ValueFits(p, v) && Holds(buf, pos, Body(p, v))
    ensures DecodeBody(p, Tag(v), buf, pos) == Ok(v, pos + |Body(p, v)|)
  {
    match v
    case Null =>
    case U32(u) => NumberReads(buf, pos, u, 4);
    case U64(u) => NumberReads(buf, pos, u, 8);
    case F32(bits) => NumberReads(buf, pos, bits, 4);
    case F64(bits) => NumberReads(buf, pos, bits, 8);
    case Bool(b) => BoolReads(b, buf, pos);
    case Text(_) => BytesBodyReads(p, v, buf, pos);
    case Blob(_) => BytesBodyReads(p, v, buf, pos);
    case Json(_) => BytesBodyReads(p, v, buf, pos);
    case _ => SignedBodyReads(p, v, buf, pos);
  }

  lemma TagReads(v: Value, buf: seq<Byte>, pos: nat)
    requires Holds(buf, pos, [Tag(v)])
    ensures Number(buf, pos, 1) == Ok(Tag(v), pos + 1)
  {
    assert BigEndian(Tag(v), 1) == [Tag(v)];
    assert Span(1) == 256;
    NumberReads(buf, pos, Tag(v), 1);
  }

  lemma ValueReadsAt(p: Platform, v: Value, buf: seq<Byte>, pos: nat)
    requires ValueFits(p, v) && Holds(buf, pos, [Tag(v)]) && Holds(buf, pos + 1, Body(p, v))
    ensures DecodeValue(p, buf, pos) == Ok(v, pos + 1 + |Body(p, v)|)
  {
    TagReads(v, buf, pos);
    BodyReads(p, v, buf, pos + 1);
  }

  /** Every value within its range reads back. */
  lemma ValueReads(p: Platform, v: Value)
    requires ValueFits(p, v)
    ensures Reads(ValueDecoder(p), EncodeValue(p, v), v)
  {
    var bs := EncodeValue(p, v);
    forall buf, pos: nat | Holds(buf, pos, bs) ensures ValueDecoder(p)(buf, pos) == Ok(v, pos + |bs|) {
      HoldsBoth(buf, pos, [Tag(v)], Body(p, v));
      ValueReadsAt(p, v, buf, pos);
    }
  }
}
