/** The queue entry's byte form: length-prefixed strings around a u64 object id. */
module JobCodec {
  import opened Bytes
  import opened Prelude

  /** A job with its strings as their UTF-8 bytes. */
  datatype RawJob = RawJob(typeName: seq<Byte>, objectId: nat, sourceField: seq<Byte>, vectorField: seq<Byte>,
                           model: seq<Byte>)

  /** A length as the u16 it is cast to. */
  function PutString(s: seq<Byte>): seq<Byte> {
    BigEndian(|s| % 0x1_0000, 2) + s
  }

  function Serialize(j: RawJob): seq<Byte> {
    PutString(j.typeName) + BigEndian(j.objectId, 8) + PutString(j.sourceField) +
    PutString(j.vectorField) + PutString(j.model)
  }

  /** The string at `pos` and the position after it. */
  function ReadString(utf8: seq<Byte> -> bool, data: seq<Byte>, pos: nat): Option<(seq<Byte>, nat)> {
    if pos + 2 > |data| then None else
    var len := FromBigEndian(data[pos..pos + 2]);
    if pos + 2 + len > |data| || !utf8(data[pos + 2..pos + 2 + len]) then None
    else Some((data[pos + 2..pos + 2 + len], pos + 2 + len))
  }

  /** The three field strings after the object id. */
  function ReadNames(utf8: seq<Byte> -> bool, data: seq<Byte>, pos: nat): Option<(seq<Byte>, seq<Byte>, seq<Byte>)> {
    match ReadString(utf8, data, pos)
    case None => None
    case Some((sourceField, q)) =>
    match ReadString(utf8, data, q)
    case None => None
    case Some((vectorField, r)) =>
    match ReadString(utf8, data, r)
    case None => None
    case Some((model, _)) => Some((sourceField, vectorField, model))
  }

  function Deserialize(utf8: seq<Byte> -> bool, data: seq<Byte>): Option<RawJob> {
    match ReadString(utf8, data, 0)
    case None => None
    case Some((typeName, p)) =>
    if p + 8 > |data| then None else
    match ReadNames(utf8, data, p + 8)
    case None => None
    case Some((sourceField, vectorField, model)) =>
    Some(RawJob(typeName, FromBigEndian(data[p..p + 8]), sourceField, vectorField, model))
  }

  /** Strings of a program are UTF-8 and object ids fit a u64. */
  predicate Representable(utf8: seq<Byte> -> bool, j: RawJob) {
    && utf8(j.typeName) && utf8(j.sourceField) && utf8(j.vectorField) && utf8(j.model)
    && j.objectId < 0x1_0000_0000_0000_0000
  }

  predicate ShortStrings(j: RawJob) {
    |j.typeName| < 0x1_0000 && |j.sourceField| < 0x1_0000 && |j.vectorField| < 0x1_0000 && |j.model| < 0x1_0000
  }

  /** Whether the string at `pos` reads back as `s` is whether its length fits the prefix. */
  predicate ReadsAt(utf8: seq<Byte> -> bool, data: seq<Byte>, pos: nat, s: seq<Byte>) {
    var got := ReadString(utf8, data, pos);
    if |s| < 0x1_0000 then got == Some((s, pos + 2 + |s|)) else got.None? || got.value.0 != s
  }

  lemma StringReadsBack(utf8: seq<Byte> -> bool, data: seq<Byte>, pos: nat, s: seq<Byte>)
    requires utf8(s) && Holds(data, pos, PutString(s))
    ensures ReadsAt(utf8, data, pos, s)
  {
    HoldsBoth(data, pos, BigEndian(|s| % 0x1_0000, 2), s);
    Spans();
    ReadsBack(|s| % 0x1_0000, 2);
  }

  lemma IdReadsBack(data: seq<Byte>, pos: nat, id: nat)
    requires id < 0x1_0000_0000_0000_0000 && Holds(data, pos, BigEndian(id, 8))
    ensures FromBigEndian(data[pos..pos + 8]) == id
  {
    Spans();
    ReadsBack(id, 8);
  }

  /** Every field of a job reads back from its place in the bytes. */
  ghost predicate FieldsReadBack(utf8: seq<Byte> -> bool, data: seq<Byte>, j: RawJob) {
    var p := 2 + |j.typeName|;
    var q := p + 10 + |j.sourceField|;
    && p + 8 <= |data| && FromBigEndian(data[p..p + 8]) == j.objectId
    && ReadsAt(utf8, data, 0, j.typeName)
    && ReadsAt(utf8, data, p + 8, j.sourceField)
    && ReadsAt(utf8, data, q, j.vectorField)
    && ReadsAt(utf8, data, q + 2 + |j.vectorField|, j.model)
  }

  /** Where each part of a serialized job lies. */
  ghost predicate Laid(data: seq<Byte>, j: RawJob) {
    var p := 2 + |j.typeName|;
    var q := p + 10 + |j.sourceField|;
    && Holds(data, 0, PutString(j.typeName)) && Holds(data, p, BigEndian(j.objectId, 8))
    && Holds(data, p + 8, PutString(j.sourceField)) && Holds(data, q, PutString(j.vectorField))
    && Holds(data, q + 2 + |j.vectorField|, PutString(j.model))
  }

  lemma SerializedLaid(j: RawJob, after: seq<Byte>)
    ensures Laid(Serialize(j) + after, j)
  {
  }

  /** `bs` is a two-byte length, cut to 16 bits, and the string. */
  ghost predicate IsString(bs: seq<Byte>, s: seq<Byte>) {
    |bs| == 2 + |s| && IsNumber(bs[..2], |s| % 0x1_0000) && bs[2..] == s
  }

  lemma PutStringIs(s: seq<Byte>)
    ensures IsString(PutString(s), s)
  {
    BigEndianIs(|s| % 0x1_0000, 2);
    assert PutString(s)[..2] == BigEndian(|s| % 0x1_0000, 2);
  }

  /** A serialized job: type name, object id, source field, vector field, model. */
  lemma JobLayout(j: RawJob)
    ensures var data := Serialize(j);
      var p, n, m := 2 + |j.typeName|, |j.sourceField|, |j.vectorField|;
      && |data| == p + 14 + n + m + |j.model|
      && IsString(data[..p], j.typeName) && IsNumber(data[p..p + 8], j.objectId)
      && IsString(data[p + 8..p + 10 + n], j.sourceField)
      && IsString(data[p + 10 + n..p + 12 + n + m], j.vectorField)
      && IsString(data[p + 12 + n + m..], j.model)
  {
    SerializedLaid(j, []);
    assert Serialize(j) + [] == Serialize(j);
    BigEndianIs(j.objectId, 8);
    PutStringIs(j.typeName);
    PutStringIs(j.sourceField);
    PutStringIs(j.vectorField);
    PutStringIs(j.model);
  }

  lemma SerializedFields(utf8: seq<Byte> -> bool, j: RawJob, data: seq<Byte>)
    requires Representable(utf8, j) && Laid(data, j)
    ensures FieldsReadBack(utf8, data, j)
  {
    var p := 2 + |j.typeName|;
    var q := p + 10 + |j.sourceField|;
    IdReadsBack(data, p, j.objectId);
    assert ReadsAt(utf8, data, 0, j.typeName) by { StringReadsBack(utf8, data, 0, j.typeName); }
    assert ReadsAt(utf8, data, p + 8, j.sourceField) by { StringReadsBack(utf8, data, p + 8, j.sourceField); }
    assert ReadsAt(utf8, data, q, j.vectorField) by { StringReadsBack(utf8, data, q, j.vectorField); }
    var r := q + 2 + |j.vectorField|;
    assert ReadsAt(utf8, data, r, j.model) by { StringReadsBack(utf8, data, r, j.model); }
  }

  lemma NamesReadBack(utf8: seq<Byte> -> bool, data: seq<Byte>, pos: nat, a: seq<Byte>, b: seq<Byte>, c: seq<Byte>)
    requires ReadsAt(utf8, data, pos, a) && ReadsAt(utf8, data, pos + 2 + |a|, b)
    requires ReadsAt(utf8, data, pos + 4 + |a| + |b|, c)
    ensures ReadNames(utf8, data, pos) == Some((a, b, c)) <==> |a| < 0x1_0000 && |b| < 0x1_0000 && |c| < 0x1_0000
  {
  }

  lemma DeserializeFields(utf8: seq<Byte> -> bool, data: seq<Byte>, j: RawJob)
    requires FieldsReadBack(utf8, data, j)
    ensures Deserialize(utf8, data) == Some(j) <==> ShortStrings(j)
  {
    NamesReadBack(utf8, data, 10 + |j.typeName|, j.sourceField, j.vectorField, j.model);
  }

  lemma ReadStringIs(utf8: seq<Byte> -> bool, data: seq<Byte>, pos: nat)
    requires ReadString(utf8, data, pos).Some?
    ensures var (s, q) := ReadString(utf8, data, pos).value;
      utf8(s) && |s| < 0x1_0000 && q == pos + 2 + |s| && Holds(data, pos, PutString(s))
  {
    var (s, q) := ReadString(utf8, data, pos).value;
    Spans();
    WritesBack(data[pos..pos + 2]);
    assert data[pos..pos + 2 + |s|] == PutString(s);
  }

  /** The reader accepts exactly what starts with the bytes of a job with short UTF-8 strings, and
      returns that job. */
  lemma DeserializesIff(utf8: seq<Byte> -> bool, data: seq<Byte>, j: RawJob)
    ensures Deserialize(utf8, data) == Some(j) <==>
      Representable(utf8, j) && ShortStrings(j) && Serialize(j) <= data
  {
    if Representable(utf8, j) && ShortStrings(j) && Serialize(j) <= data {
      assert data == Serialize(j) + data[|Serialize(j)|..];
      JobRoundTrip(utf8, j, data[|Serialize(j)|..]);
    }
    if Deserialize(utf8, data) == Some(j) {
      DeserializedLaid(utf8, data, j);
      LaidIsPrefix(data, j);
    }
  }

  lemma DeserializedLaid(utf8: seq<Byte> -> bool, data: seq<Byte>, j: RawJob)
    requires Deserialize(utf8, data) == Some(j)
    ensures Representable(utf8, j) && ShortStrings(j) && Laid(data, j)
  {
    ReadStringIs(utf8, data, 0);
    var p := 2 + |j.typeName|;
    Spans();
    WritesBack(data[p..p + 8]);
    NamesLaid(utf8, data, p + 8);
  }

  lemma NamesLaid(utf8: seq<Byte> -> bool, data: seq<Byte>, pos: nat)
    requires ReadNames(utf8, data, pos).Some?
    ensures var (a, b, c) := ReadNames(utf8, data, pos).value;
      && utf8(a) && utf8(b) && utf8(c) && |a| < 0x1_0000 && |b| < 0x1_0000 && |c| < 0x1_0000
      && Holds(data, pos, PutString(a)) && Holds(data, pos + 2 + |a|, PutString(b))
      && Holds(data, pos + 4 + |a| + |b|, PutString(c))
  {
    var (a, b, _) := ReadNames(utf8, data, pos).value;
    ReadStringIs(utf8, data, pos);
    ReadStringIs(utf8, data, pos + 2 + |a|);
    ReadStringIs(utf8, data, pos + 4 + |a| + |b|);
  }

  lemma LaidIsPrefix(data: seq<Byte>, j: RawJob)
    requires Laid(data, j)
    ensures Serialize(j) <= data
  {
    var a, b, c := PutString(j.typeName), BigEndian(j.objectId, 8), PutString(j.sourceField);
    var d, e := PutString(j.vectorField), PutString(j.model);
    HoldsBoth(data, 0, a, b);
    HoldsBoth(data, 0, a + b, c);
    HoldsBoth(data, 0, a + b + c, d);
    HoldsBoth(data, 0, a + b + c + d, e);
  }

  /** A serialized job, with anything after it, reads back exactly when no string is cut. */
  lemma JobRoundTrip(utf8: seq<Byte> -> bool, j: RawJob, after: seq<Byte>)
    requires Representable(utf8, j)
    ensures Deserialize(utf8, Serialize(j) + after) == Some(j) <==> ShortStrings(j)
  {
    SerializedLaid(j, after);
    SerializedFields(utf8, j, Serialize(j) + after);
    DeserializeFields(utf8, Serialize(j) + after, j);
  }
}
