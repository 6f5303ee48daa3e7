/** The payload loops themselves: a reader that advances a cursor, and writers that append parts. */
module PayloadLoops {
  import opened Prelude
  import opened Bytes
  import opened Cursor
  import opened ValueCodec
  import opened ObjectCodec
  import opened ObjectPayload

  class Reader {
    const buf: seq<Byte>
    var pos: nat

    constructor (buf: seq<Byte>)
      ensures this.buf == buf && pos == 0
    {
      this.buf, pos := buf, 0;
    }

    method TakeBytes(n: nat) returns (r: Parsed<seq<Byte>>)
      modifies this
      ensures r == Take(buf, old(pos), n) && (r.Ok? ==> pos == r.pos)
    {
      if pos + n > |buf| { return Truncated; }
      var bs := buf[pos..pos + n];
      pos := pos + n;
      return Ok(bs, pos);
    }

    /** A big-endian unsigned number of `n` bytes. */
    method ReadNumber(n: nat) returns (r: Parsed<nat>)
      modifies this
      ensures r == Number(buf, old(pos), n) && (r.Ok? ==> pos == r.pos)
    {
      var bs :- TakeBytes(n);
      return Ok(FromBigEndian(bs.0), pos);
    }

    /** Bytes behind an `n`-byte length. */
    method ReadPrefixed(n: nat) returns (r: Parsed<seq<Byte>>)
      modifies this
      ensures r == TakePrefixed(buf, old(pos), n) && (r.Ok? ==> pos == r.pos)
    {
      var len :- ReadNumber(n);
      r := TakeBytes(len.0);
    }

    method ReadValue(value: Decoder<Value>) returns (r: Parsed<Value>)
      modifies this
      ensures r == value(buf, old(pos)) && (r.Ok? ==> pos == r.pos)
    {
      r := value(buf, pos);
      if r.Ok? { pos := r.pos; }
    }

    /** One pass per field, each assigned as a property of the same object. */
    method ReadFields(p: Platform, value: Decoder<Value>) returns (r: Parsed<map<string, Value>>)
      modifies this
      ensures r == FieldsAt(FieldDecoder(p, value), buf, old(pos)) && (r.Ok? ==> pos == r.pos)
    {
      ghost var field, whole := FieldDecoder(p, value), FieldsAt(FieldDecoder(p, value), buf, pos);
      var count :- ReadNumber(2);
      var fields: map<string, Value> := map[];
      ghost var fs: seq<Field> := [];
      for i := 0 to count.0
        invariant FieldsLeft(field, buf, pos, count.0 - i, fs) == whole && fields == AssignAll(map[], fs)
      {
        ghost var f := field(buf, pos);
        var name :- ReadPrefixed(2);
        var v :- ReadValue(value);
        AssignLast(map[], fs, f.value);
        fields := Assign(fields, p.fromUtf8(name.0), v.0);
        fs := fs + [f.value];
      }
      return Ok(fields, pos);
    }

    method ReadObject(p: Platform, value: Decoder<Value>) returns (r: Parsed<Decoded>)
      modifies this
      ensures r == ObjectAt(p, FieldsDecoder(FieldDecoder(p, value)), buf, old(pos)) && (r.Ok? ==> pos == r.pos)
    {
      var name :- ReadPrefixed(2);
      var id :- ReadNumber(8);
      var fields :- ReadFields(p, value);
      return Ok(Decoded(p.fromUtf8(name.0), id.0, fields.0), pos);
    }

    method ReadRow(p: Platform, value: Decoder<Value>, kind: RowKind, ghost obj: Decoder<Decoded>)
      returns (r: Parsed<DecodedRow>)
      requires ReadsObjects(p, value, obj)
      modifies this
      ensures r == RowAt(kind, obj, buf, old(pos)) && (r.Ok? ==> pos == r.pos)
    {
      var score, rerank: Option<nat> := None, None;
      if kind != Plain {
        var bits :- ReadNumber(4);
        score := Some(bits.0);
      }
      if kind == Reranked {
        var bits :- ReadNumber(4);
        if !IsNaN(bits.0) { rerank := Some(bits.0); }
      }
      var o :- ReadObject(p, value);
      return Ok(DecodedRow(o.0, score, rerank), pos);
    }

    /** Read `count` rows into a list. */
    method ReadRows(p: Platform, value: Decoder<Value>, kind: RowKind, count: nat, ghost obj: Decoder<Decoded>)
      returns (r: Parsed<seq<DecodedRow>>)
      requires ReadsObjects(p, value, obj)
      modifies this
      ensures r == Many(RowDecoder(kind, obj), buf, old(pos), count, [])
    {
      ghost var whole := RowsLeft(kind, obj, buf, pos, count, []);
      var out: seq<DecodedRow> := [];
      for i := 0 to count
        invariant RowsLeft(kind, obj, buf, pos, count - i, out) == whole
      {
        RowsStep(kind, obj, buf, pos, count - i, out);
        var o :- ReadRow(p, value, kind, obj);
        out := out + [o.0];
      }
      return Ok(out, pos);
    }
  }

  /** `obj` decodes objects as `ReadObject` does. */
  ghost predicate ReadsObjects(p: Platform, value: Decoder<Value>, obj: Decoder<Decoded>) {
    forall buf, pos: nat {:trigger ObjectAt(p, FieldsDecoder(FieldDecoder(p, value)), buf, pos)} ::
      obj(buf, pos) == ObjectAt(p, FieldsDecoder(FieldDecoder(p, value)), buf, pos)
  }

  /** The rest of a row list. */
  ghost function RowsLeft(kind: RowKind, obj: Decoder<Decoded>, buf: seq<Byte>, pos: nat, n: nat,
                          rows: seq<DecodedRow>): Parsed<seq<DecodedRow>> {
    Many(RowDecoder(kind, obj), buf, pos, n, rows)
  }

  /** One row, then the others. */
  lemma RowsStep(kind: RowKind, obj: Decoder<Decoded>, buf: seq<Byte>, pos: nat, n: nat, rows: seq<DecodedRow>)
    requires n > 0
    ensures RowsLeft(kind, obj, buf, pos, n, rows) ==
      match RowAt(kind, obj, buf, pos)
      case Ok(row, q) => RowsLeft(kind, obj, buf, q, n - 1, rows + [row])
      case _ => RowAt(kind, obj, buf, pos).PropagateFailure()
  {
  }

  /** The rest of a field list. */
  ghost function FieldsLeft(field: Decoder<Field>, buf: seq<Byte>, pos: nat, n: nat,
                            fs: seq<Field>): Parsed<map<string, Value>> {
    match Many(field, buf, pos, n, fs)
    case Ok(all, q) => Ok(AssignAll(map[], all), q)
    case _ => Many(field, buf, pos, n, fs).PropagateFailure()
  }

  /** Decode a payload as the loops do. */
  method ReadPayload(p: Platform, kind: RowKind, payload: seq<Byte>) returns (r: Parsed<seq<DecodedRow>>)
    ensures r == DecodePayload(p, kind, payload)
  {
    var reader := new Reader(payload);
    var count :- reader.ReadNumber(4);
    r := reader.ReadRows(p, ValueDecoder(p), kind, count.0, WireObject(p));
  }

  lemma Appended(done: seq<Byte>, a: seq<Byte>, b: seq<Byte>, rest: seq<Byte>)
    ensures done + (a + b + rest) == done + a + b + rest
  {
  }

  /** Appending parts front to back gives the concatenation of all parts. */
  method WriteFields(p: Platform, fs: seq<Field>) returns (bs: seq<Byte>)
    requires FieldsFit(p, fs)
    ensures bs == EncodeFields(p, fs)
  {
    bs := BigEndian(|fs|, 2);
    ghost var whole, rest := EncodeFields(p, fs), FieldParts(p, fs);
    for i := 0 to |fs|
      invariant rest == FieldParts(p, fs)[i..] && whole == bs + Flat(rest)
    {
      var name, value := Prefixed(p.toUtf8(fs[i].name), 2), EncodeValue(p, fs[i].value);
      Appended(bs, name, value, Flat(rest[1..]));
      bs := bs + name;
      bs := bs + value;
      rest := rest[1..];
    }
  }

  method WritePayload(p: Platform, kind: RowKind, rows: seq<RankedRow>) returns (bs: seq<Byte>)
    requires PayloadFits(p, rows)
    ensures bs == EncodePayload(p, kind, rows)
  {
    bs := BigEndian(|rows|, 4);
    ghost var whole, rest := EncodePayload(p, kind, rows), RowParts(p, kind, rows);
    for i := 0 to |rows|
      invariant rest == RowParts(p, kind, rows)[i..] && whole == bs + Flat(rest)
    {
      var header, o := Header(kind, rows[i]), EncodeObject(p, rows[i].obj);
      Appended(bs, header, o, Flat(rest[1..]));
      bs := bs + header;
      bs := bs + o;
      rest := rest[1..];
    }
  }
}
