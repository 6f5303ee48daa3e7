/** Objects, scored and reranked payloads: a counted list of rows. */
module ObjectPayload {
  import opened Prelude
  import opened Bytes
  import opened Cursor
  import opened ValueCodec
  import opened ObjectCodec

  /** The three payload kinds differ in what precedes each object. */
  datatype RowKind = Plain | Scored | Reranked

  /** Scores are f32 bit patterns. */
  datatype RankedRow = RankedRow(obj: Object, score: nat, rerank: Option<nat>)
  datatype DecodedRow = DecodedRow(obj: Decoded, score: Option<nat>, rerank: Option<nat>)

  predicate RowFits(p: Platform, row: RankedRow) {
    ObjectFits(p, row.obj) && row.score < Span(4) && (row.rerank.Some? ==> row.rerank.value < Span(4))
  }

  /** A missing rerank score travels as a NaN. */
  function RerankBits(row: RankedRow): nat {
    if row.rerank.Some? then row.rerank.value else QUIET_NAN
  }

  function Header(kind: RowKind, row: RankedRow): seq<Byte> {
    match kind
    case Plain => []
    case Scored => BigEndian(row.score, 4)
    case Reranked => BigEndian(row.score, 4) + BigEndian(RerankBits(row), 4)
  }

  function EncodeRow(p: Platform, kind: RowKind, row: RankedRow): seq<Byte>
    requires RowFits(p, row)
  {
    Header(kind, row) + EncodeObject(p, row.obj)
  }

  predicate PayloadFits(p: Platform, rows: seq<RankedRow>) {
    |rows| < Span(4) && forall i :: 0 <= i < |rows| ==> RowFits(p, rows[i])
  }

  function RowParts(p: Platform, kind: RowKind, rows: seq<RankedRow>): (parts: seq<seq<Byte>>)
    requires forall i :: 0 <= i < |rows| ==> RowFits(p, rows[i])
    ensures |parts| == |rows| && forall i :: 0 <= i < |rows| ==> parts[i] == EncodeRow(p, kind, rows[i])
  {
    if rows == [] then [] else [EncodeRow(p, kind, rows[0])] + RowParts(p, kind, rows[1..])
  }

  function EncodePayload(p: Platform, kind: RowKind, rows: seq<RankedRow>): seq<Byte>
    requires PayloadFits(p, rows)
  {
    BigEndian(|rows|, 4) + Flat(RowParts(p, kind, rows))
  }

  // ---- Decoding ----

  datatype Scores = Scores(score: Option<nat>, rerank: Option<nat>)

  function DecodeHeader(kind: RowKind, buf: seq<Byte>, pos: nat): (r: Parsed<Scores>)
    ensures r.Ok? ==> pos <= r.pos
  {
    if kind == Plain then Ok(Scores(None, None), pos) else
    var (score, q) :- Number(buf, pos, 4);
    if kind == Scored then Ok(Scores(Some(score), None), q) else
    var (rerank, r) :- Number(buf, q, 4);
    Ok(Scores(Some(score), if IsNaN(rerank) then None else Some(rerank)), r)
  }

  function RowAt(kind: RowKind, obj: Decoder<Decoded>, buf: seq<Byte>, pos: nat): (r: Parsed<DecodedRow>)
    ensures r.Ok? ==> pos <= r.pos
  {
    var (s, q) :- DecodeHeader(kind, buf, pos);
    var (o, r) :- obj(buf, q);
    Ok(DecodedRow(o, s.score, s.rerank), r)
  }

  function RowDecoder(kind: RowKind, obj: Decoder<Decoded>): Decoder<DecodedRow> {
    (buf: seq<Byte>, pos: nat) => RowAt(kind, obj, buf, pos)
  }

  function PayloadAt(row: Decoder<DecodedRow>, buf: seq<Byte>): Parsed<seq<DecodedRow>> {
    var (count, q) :- Number(buf, 0, 4);
    Many(row, buf, q, count, [])
  }

  function DecodePayload(p: Platform, kind: RowKind, buf: seq<Byte>): Parsed<seq<DecodedRow>> {
    PayloadAt(RowDecoder(kind, WireObject(p)), buf)
  }

  /** What a row decodes to. */
  function RenderRow(kind: RowKind, row: RankedRow): DecodedRow {
    var o := Render(row.obj);
    match kind
    case Plain => DecodedRow(o, None, None)
    case Scored => DecodedRow(o, Some(row.score), None)
    case Reranked =>
      DecodedRow(o, Some(row.score), if row.rerank.Some? && !IsNaN(row.rerank.value) then row.rerank else None)
  }

  function RenderRows(kind: RowKind, rows: seq<RankedRow>): (ds: seq<DecodedRow>)
    ensures |ds| == |rows| && forall i :: 0 <= i < |rows| ==> ds[i] == RenderRow(kind, rows[i])
  {
    if rows == [] then [] else [RenderRow(kind, rows[0])] + RenderRows(kind, rows[1..])
  }

  // ---- Round trip ----

  lemma HeaderReads(kind: RowKind, row: RankedRow, buf: seq<Byte>, pos: nat)
    requires row.score < Span(4) && (row.rerank.Some? ==> row.rerank.value < Span(4))
    requires Holds(buf, pos, Header(kind, row))
    ensures var d := RenderRow(kind, row);
      DecodeHeader(kind, buf, pos) == Ok(Scores(d.score, d.rerank), pos + |Header(kind, row)|)
  {
    Spans();
    match kind
    case Plain =>
    case Scored => NumberReads(buf, pos, row.score, 4);
    case Reranked =>
      HoldsBoth(buf, pos, BigEndian(row.score, 4), BigEndian(RerankBits(row), 4));
      NumberReads(buf, pos, row.score, 4);
      NumberReads(buf, pos + 4, RerankBits(row), 4);
  }

  lemma RowReads(kind: RowKind, obj: Decoder<Decoded>, row: RankedRow, bs: seq<Byte>)
    requires row.score < Span(4) && (row.rerank.Some? ==> row.rerank.value < Span(4)) && Reads(obj, bs, Render(row.obj))
    ensures Reads(RowDecoder(kind, obj), Header(kind, row) + bs, RenderRow(kind, row))
  {
    var head, o := Header(kind, row), Render(row.obj);
    forall buf, pos: nat | Holds(buf, pos, head + bs)
      ensures RowDecoder(kind, obj)(buf, pos) == Ok(RenderRow(kind, row), pos + |head + bs|)
    {
      HoldsBoth(buf, pos, head, bs);
      HeaderReads(kind, row, buf, pos);
      assert obj(buf, pos + |head|) == Ok(o, pos + |head| + |bs|);
    }
  }

  lemma PayloadReads(row: Decoder<DecodedRow>, parts: seq<seq<Byte>>, ds: seq<DecodedRow>, after: seq<Byte>)
    requires ReadsEach(row, parts, ds) && |ds| < Span(4)
    ensures var bs := BigEndian(|ds|, 4) + Flat(parts); PayloadAt(row, bs + after) == Ok(ds, |bs|)
  {
    var head, rest := BigEndian(|ds|, 4), Flat(parts);
    var buf := head + rest + after;
    assert Holds(buf, 0, head + rest);
    HoldsBoth(buf, 0, head, rest);
    NumberReads(buf, 0, |ds|, 4);
    ManyReads(row, parts, ds, buf, 4, []);
    assert [] + ds == ds;
  }

  /** A payload decodes to its rendered rows in order, consuming exactly its bytes, whatever follows. */
  lemma PayloadRoundTrip(p: Platform, kind: RowKind, rows: seq<RankedRow>, after: seq<Byte>)
    requires PayloadFits(p, rows)
    ensures var bs := EncodePayload(p, kind, rows);
      DecodePayload(p, kind, bs + after) == Ok(RenderRows(kind, rows), |bs|)
  {
    var row, parts, ds := RowDecoder(kind, WireObject(p)), RowParts(p, kind, rows), RenderRows(kind, rows);
    forall i | 0 <= i < |rows| ensures Reads(row, parts[i], ds[i]) {
      WireObjectReads(p, rows[i].obj);
      RowReads(kind, WireObject(p), rows[i], EncodeObject(p, rows[i].obj));
    }
    PayloadReads(row, parts, ds, after);
  }

  // ---- Truncation ----

  lemma HeaderCut(kind: RowKind, buf: seq<Byte>, pos: nat, k: nat)
    requires pos <= k <= |buf|
    ensures CutOutcome(DecodeHeader(kind, buf, pos), DecodeHeader(kind, buf[..k], pos), k)
  {
    NumberCut(buf, pos, 4, k);
    if pos + 4 <= k { NumberCut(buf, pos + 4, 4, k); }
  }

  lemma RowStrict(kind: RowKind, obj: Decoder<Decoded>)
    requires Strict(obj)
    ensures Strict(RowDecoder(kind, obj))
  {
    var d := RowDecoder(kind, obj);
    forall buf, pos: nat, k: nat | pos <= k <= |buf| ensures CutOutcome(d(buf, pos), d(buf[..k], pos), k) {
      HeaderCut(kind, buf, pos, k);
      match DecodeHeader(kind, buf, pos)
      case Ok(_, q) => if q <= k { assert CutOutcome(obj(buf, q), obj(buf[..k], q), k); }
      case _ =>
    }
  }

  lemma PayloadAtCut(row: Decoder<DecodedRow>, buf: seq<Byte>, k: nat)
    requires Strict(row) && k <= |buf|
    ensures CutOutcome(PayloadAt(row, buf), PayloadAt(row, buf[..k]), k)
  {
    NumberCut(buf, 0, 4, k);
    if 4 <= k { ManyCut(row, buf, 4, FromBigEndian(buf[0..4]), [], k); }
  }

  /** Cut an accepted payload anywhere: short of the bytes it consumed it is truncated, beyond them unchanged. */
  lemma PayloadCut(p: Platform, kind: RowKind, buf: seq<Byte>, k: nat)
    requires k <= |buf|
    ensures CutOutcome(DecodePayload(p, kind, buf), DecodePayload(p, kind, buf[..k]), k)
  {
    WireObjectStrict(p);
    RowStrict(kind, WireObject(p));
    PayloadAtCut(RowDecoder(kind, WireObject(p)), buf, k);
  }

  /** Every proper prefix of an encoded payload is rejected as truncated. */
  lemma PrefixTruncated(p: Platform, kind: RowKind, rows: seq<RankedRow>, k: nat)
    requires PayloadFits(p, rows) && k < |EncodePayload(p, kind, rows)|
    ensures DecodePayload(p, kind, EncodePayload(p, kind, rows)[..k]) == Truncated
  {
    var bs := EncodePayload(p, kind, rows);
    PayloadRoundTrip(p, kind, rows, []);
    assert bs + [] == bs;
    PayloadCut(p, kind, bs, k);
  }

  /** Decoding loses no field of any row exactly when, in every object, field names are distinct
      and none is `__proto__`. */
  lemma RowsSurviveIff(p: Platform, kind: RowKind, rows: seq<RankedRow>, bs: seq<Byte>)
    requires PayloadFits(p, rows) && bs == EncodePayload(p, kind, rows)
    ensures DecodePayload(p, kind, bs) == Ok(RenderRows(kind, rows), |bs|)
    ensures (forall i :: 0 <= i < |rows| ==> Survive(rows[i].obj.fields, RenderRows(kind, rows)[i].obj.fields)) <==>
      (forall i :: 0 <= i < |rows| ==> DistinctNames(rows[i].obj.fields) && NoProto(rows[i].obj.fields))
  {
    PayloadRoundTrip(p, kind, rows, []);
    assert bs + [] == bs;
    forall i | 0 <= i < |rows|
      ensures Survive(rows[i].obj.fields, RenderRow(kind, rows[i]).obj.fields) <==>
        DistinctNames(rows[i].obj.fields) && NoProto(rows[i].obj.fields)
    {
      FieldsSurviveIff(rows[i].obj.fields);
    }
  }
}
