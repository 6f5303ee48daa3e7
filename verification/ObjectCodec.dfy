/** Objects: named fields behind a count, and the object around them. */
module ObjectCodec {
  import opened Bytes
  import opened Cursor
  import opened ValueCodec

  datatype Field = Field(name: string, value: Value)
  datatype Object = Object(typeName: string, id: nat, fields: seq<Field>)
  datatype Decoded = Decoded(typeName: string, id: nat, fields: map<string, Value>)

  // ---- Encoding ----

  predicate NameFits(p: Platform, s: string) { p.Clean(s) && |p.toUtf8(s)| < Span(2) }

  predicate FieldFits(p: Platform, f: Field) { NameFits(p, f.name) && ValueFits(p, f.value) }

  function EncodeField(p: Platform, f: Field): seq<Byte>
    requires FieldFits(p, f)
  {
    Prefixed(p.toUtf8(f.name), 2) + EncodeValue(p, f.value)
  }

  predicate FieldsFit(p: Platform, fs: seq<Field>) {
    |fs| < Span(2) && forall i :: 0 <= i < |fs| ==> FieldFits(p, fs[i])
  }

  /** The parts of a field list, one per field. */
  function FieldParts(p: Platform, fs: seq<Field>): (parts: seq<seq<Byte>>)
    requires forall i :: 0 <= i < |fs| ==> FieldFits(p, fs[i])
    ensures |parts| == |fs| && forall i :: 0 <= i < |fs| ==> parts[i] == EncodeField(p, fs[i])
  {
    if fs == [] then [] else [EncodeField(p, fs[0])] + FieldParts(p, fs[1..])
  }

  function EncodeFields(p: Platform, fs: seq<Field>): seq<Byte>
    requires FieldsFit(p, fs)
  {
    BigEndian(|fs|, 2) + Flat(FieldParts(p, fs))
  }

  predicate ObjectFits(p: Platform, o: Object) {
    NameFits(p, o.typeName) && o.id < Span(8) && FieldsFit(p, o.fields)
  }

  function EncodeObject(p: Platform, o: Object): seq<Byte>
    requires ObjectFits(p, o)
  {
    Prefixed(p.toUtf8(o.typeName), 2) + (BigEndian(o.id, 8) + EncodeFields(p, o.fields))
  }

  // ---- Decoding, each layer over the one below ----

  function FieldAt(p: Platform, value: Decoder<Value>, buf: seq<Byte>, pos: nat): (r: Parsed<Field>)
    ensures r.Ok? ==> pos <= r.pos
  {
    var (name, q) :- TakePrefixed(buf, pos, 2);
    var (v, r) :- value(buf, q);
    Ok(Field(p.fromUtf8(name), v), r)
  }

  function FieldDecoder(p: Platform, value: Decoder<Value>): Decoder<Field> {
    (buf: seq<Byte>, pos: nat) => FieldAt(p, value, buf, pos)
  }

  /** Property assignment on a fresh object: `__proto__` never becomes an own property. */
  function Assign(fields: map<string, Value>, name: string, v: Value): map<string, Value> {
    if name == "__proto__" then fields else fields[name := v]
  }

  /** The fields, assigned one after another. */
  function AssignAll(fields: map<string, Value>, fs: seq<Field>): map<string, Value>
    decreases |fs|
  {
    if fs == [] then fields else AssignAll(Assign(fields, fs[0].name, fs[0].value), fs[1..])
  }

  function FieldsAt(field: Decoder<Field>, buf: seq<Byte>, pos: nat): (r: Parsed<map<string, Value>>)
    ensures r.Ok? ==> pos <= r.pos
  {
    var (count, q) :- Number(buf, pos, 2);
    var (fs, r) :- Many(field, buf, q, count, []);
    Ok(AssignAll(map[], fs), r)
  }

  function FieldsDecoder(field: Decoder<Field>): Decoder<map<string, Value>> {
    (buf: seq<Byte>, pos: nat) => FieldsAt(field, buf, pos)
  }

  function ObjectAt(p: Platform, fields: Decoder<map<string, Value>>, buf: seq<Byte>, pos: nat): (r: Parsed<Decoded>)
    ensures r.Ok? ==> pos <= r.pos
  {
    var (name, q) :- TakePrefixed(buf, pos, 2);
    var (id, r) :- Number(buf, q, 8);
    var (fs, s) :- fields(buf, r);
    Ok(Decoded(p.fromUtf8(name), id, fs), s)
  }

  function ObjectDecoder(p: Platform, fields: Decoder<map<string, Value>>): Decoder<Decoded> {
    (buf: seq<Byte>, pos: nat) => ObjectAt(p, fields, buf, pos)
  }

  /** The object decoder of the wire. */
  function WireObject(p: Platform): Decoder<Decoded> {
    ObjectDecoder(p, FieldsDecoder(FieldDecoder(p, ValueDecoder(p))))
  }

  // ---- Every layer is strict when the one below is ----

  lemma FieldStrict(p: Platform, value: Decoder<Value>)
    requires Strict(value)
    ensures Strict(FieldDecoder(p, value))
  {
    var d := FieldDecoder(p, value);
    forall buf, pos: nat, k: nat | pos <= k <= |buf| ensures CutOutcome(d(buf, pos), d(buf[..k], pos), k) {
      PrefixedCut(buf, pos, 2, k);
      match TakePrefixed(buf, pos, 2)
      case Ok(_, q) => if q <= k { assert CutOutcome(value(buf, q), value(buf[..k], q), k); }
      case _ =>
    }
  }

  lemma FieldsStrict(field: Decoder<Field>)
    requires Strict(field)
    ensures Strict(FieldsDecoder(field))
  {
    var d := FieldsDecoder(field);
    forall buf, pos: nat, k: nat | pos <= k <= |buf| ensures CutOutcome(d(buf, pos), d(buf[..k], pos), k) {
      NumberCut(buf, pos, 2, k);
      match Number(buf, pos, 2)
      case Ok(count, q) => if q <= k { ManyCut(field, buf, q, count, [], k); }
      case _ =>
    }
  }

  lemma ObjectStrict(p: Platform, fields: Decoder<map<string, Value>>)
    requires Strict(fields)
    ensures Strict(ObjectDecoder(p, fields))
  {
    var d := ObjectDecoder(p, fields);
    forall buf, pos: nat, k: nat | pos <= k <= |buf| ensures CutOutcome(d(buf, pos), d(buf[..k], pos), k) {
      PrefixedCut(buf, pos, 2, k);
      match TakePrefixed(buf, pos, 2)
      case Ok(_, q) =>
        if q <= k { NumberCut(buf, q, 8, k); }
        if q + 8 <= k { assert CutOutcome(fields(buf, q + 8), fields(buf[..k], q + 8), k); }
      case _ =>
    }
  }

  lemma WireObjectStrict(p: Platform)
    ensures Strict(WireObject(p))
  {
    ValueStrict(p);
    FieldStrict(p, ValueDecoder(p));
    FieldsStrict(FieldDecoder(p, ValueDecoder(p)));
    ObjectStrict(p, FieldsDecoder(FieldDecoder(p, ValueDecoder(p))));
  }

  // ---- Every layer reads back what the one below reads back ----

  lemma FieldReads(p: Platform, value: Decoder<Value>, name: string, bs: seq<Byte>, v: Value)
    requires NameFits(p, name) && Reads(value, bs, v)
    ensures Reads(FieldDecoder(p, value), Prefixed(p.toUtf8(name), 2) + bs, Field(name, v))
  {
    var head := Prefixed(p.toUtf8(name), 2);
    forall buf, pos: nat | Holds(buf, pos, head + bs)
      ensures FieldDecoder(p, value)(buf, pos) == Ok(Field(name, v), pos + |head + bs|)
    {
      HoldsBoth(buf, pos, head, bs);
      PrefixedReads(buf, pos, p.toUtf8(name), 2);
      assert value(buf, pos + |head|) == Ok(v, pos + |head| + |bs|);
    }
  }

  lemma FieldsRead(field: Decoder<Field>, parts: seq<seq<Byte>>, fs: seq<Field>)
    requires ReadsEach(field, parts, fs) && |fs| < Span(2)
    ensures Reads(FieldsDecoder(field), BigEndian(|fs|, 2) + Flat(parts), AssignAll(map[], fs))
  {
    var head, rest := BigEndian(|fs|, 2), Flat(parts);
    forall buf, pos: nat | Holds(buf, pos, head + rest)
      ensures FieldsDecoder(field)(buf, pos) == Ok(AssignAll(map[], fs), pos + |head + rest|)
    {
      HoldsBoth(buf, pos, head, rest);
      NumberReads(buf, pos, |fs|, 2);
      ManyReads(field, parts, fs, buf, pos + 2, []);
      assert [] + fs == fs;
    }
  }

  lemma ObjectReads(p: Platform, fields: Decoder<map<string, Value>>, typeName: string, id: nat, bs: seq<Byte>,
                    m: map<string, Value>)
    requires NameFits(p, typeName) && id < Span(8) && Reads(fields, bs, m)
    ensures Reads(ObjectDecoder(p, fields), Prefixed(p.toUtf8(typeName), 2) + (BigEndian(id, 8) + bs),
      Decoded(typeName, id, m))
  {
    var head, mid := Prefixed(p.toUtf8(typeName), 2), BigEndian(id, 8);
    forall buf, pos: nat | Holds(buf, pos, head + (mid + bs))
      ensures ObjectDecoder(p, fields)(buf, pos) == Ok(Decoded(typeName, id, m), pos + |head + (mid + bs)|)
    {
      HoldsBoth(buf, pos, head, mid + bs);
      HoldsBoth(buf, pos + |head|, mid, bs);
      PrefixedReads(buf, pos, p.toUtf8(typeName), 2);
      NumberReads(buf, pos + |head|, id, 8);
      assert fields(buf, pos + |head| + 8) == Ok(m, pos + |head| + 8 + |bs|);
    }
  }

  /** What an object decodes to: its fields, assigned one after another. */
  function Render(o: Object): Decoded { Decoded(o.typeName, o.id, AssignAll(map[], o.fields)) }

  lemma WireFieldsRead(p: Platform, fs: seq<Field>)
    requires FieldsFit(p, fs)
    ensures Reads(FieldsDecoder(FieldDecoder(p, ValueDecoder(p))), EncodeFields(p, fs), AssignAll(map[], fs))
  {
    var field, parts := FieldDecoder(p, ValueDecoder(p)), FieldParts(p, fs);
    forall i | 0 <= i < |fs| ensures Reads(field, parts[i], fs[i]) {
      ValueReads(p, fs[i].value);
      FieldReads(p, ValueDecoder(p), fs[i].name, EncodeValue(p, fs[i].value), fs[i].value);
    }
    FieldsRead(field, parts, fs);
  }

  /** Every object within the limits reads back as its rendering. */
  lemma WireObjectReads(p: Platform, o: Object)
    requires ObjectFits(p, o)
    ensures Reads(WireObject(p), EncodeObject(p, o), Render(o))
  {
    WireFieldsRead(p, o.fields);
    ObjectReads(p, FieldsDecoder(FieldDecoder(p, ValueDecoder(p))), o.typeName, o.id, EncodeFields(p, o.fields),
      AssignAll(map[], o.fields));
  }

  // ---- Which fields survive ----

  predicate DistinctNames(fs: seq<Field>) {
    forall i, j :: 0 <= i < j < |fs| ==> fs[i].name != fs[j].name
  }

  predicate NoProto(fs: seq<Field>) {
    forall i :: 0 <= i < |fs| ==> fs[i].name != "__proto__"
  }

  /** Every field is there with its value, and nothing else. */
  ghost predicate Survive(fs: seq<Field>, m: map<string, Value>) {
    && |m| == |fs|
    && forall i :: 0 <= i < |fs| ==> fs[i].name in m && m[fs[i].name] == fs[i].value
  }

  lemma {:induction false} AssignLast(fields: map<string, Value>, fs: seq<Field>, f: Field)
    ensures AssignAll(fields, fs + [f]) == Assign(AssignAll(fields, fs), f.name, f.value)
    decreases |fs|
  {
    if fs == [] {
    } else {
      assert (fs + [f])[1..] == fs[1..] + [f];
      AssignLast(Assign(fields, fs[0].name, fs[0].value), fs[1..], f);
    }
  }

  /** The keys are the names other than `__proto__`. */
  lemma {:induction false} AssignedKeys(fs: seq<Field>)
    ensures var m := AssignAll(map[], fs);
      && |m| <= |fs|
      && forall name :: name in m <==> name != "__proto__" && Named(fs, name)
  {
    if fs == [] {
    } else {
      var n := |fs| - 1;
      assert fs == fs[..n] + [fs[n]];
      AssignLast(map[], fs[..n], fs[n]);
      AssignedKeys(fs[..n]);
      KeysGrow(AssignAll(map[], fs[..n]), fs[n].name, fs[n].value);
      forall name ensures Named(fs, name) <==> Named(fs[..n], name) || name == fs[n].name {
        if Named(fs[..n], name) {
          var i :| 0 <= i < n && fs[..n][i].name == name;
          assert fs[i].name == name;
        }
      }
    }
  }

  /** A name other than `__proto__` has the value of its last field. */
  lemma {:induction false} LastAssigned(fs: seq<Field>, i: nat)
    requires i < |fs| && fs[i].name != "__proto__" && forall j :: i < j < |fs| ==> fs[j].name != fs[i].name
    ensures fs[i].name in AssignAll(map[], fs) && AssignAll(map[], fs)[fs[i].name] == fs[i].value
  {
    var n := |fs| - 1;
    assert fs == fs[..n] + [fs[n]];
    AssignLast(map[], fs[..n], fs[n]);
    if i < n {
      LastAssigned(fs[..n], i);
    }
  }

  predicate Named(fs: seq<Field>, name: string) {
    exists i :: 0 <= i < |fs| && fs[i].name == name
  }

  lemma KeysGrow(m: map<string, Value>, name: string, v: Value)
    ensures |Assign(m, name, v)| == |m| + if name in m || name == "__proto__" then 0 else 1
  {
    if name != "__proto__" {
      assert m[name := v].Keys == m.Keys + {name};
    }
  }

  /** Decoded fields are the encoded ones exactly when names are distinct and none is `__proto__`. */
  lemma {:induction false} FieldsSurviveIff(fs: seq<Field>)
    ensures Survive(fs, AssignAll(map[], fs)) <==> DistinctNames(fs) && NoProto(fs)
  {
    if fs == [] {
    } else {
      var n := |fs| - 1;
      var init, last := fs[..n], fs[n];
      assert fs == init + [last];
      AssignLast(map[], init, last);
      AssignedKeys(init);
      FieldsSurviveIff(init);
      OneMoreField(init, last, AssignAll(map[], init));
      assert DistinctNames(fs) && NoProto(fs) <==>
        DistinctNames(init) && NoProto(init) && last.name != "__proto__" && !Named(init, last.name);
    }
  }

  /** One more field survives beside others exactly when its name is new and is not `__proto__`. */
  lemma OneMoreField(fs: seq<Field>, f: Field, m: map<string, Value>)
    requires |m| <= |fs| && forall name :: name in m <==> name != "__proto__" && Named(fs, name)
    ensures Survive(fs + [f], Assign(m, f.name, f.value)) <==>
      Survive(fs, m) && f.name != "__proto__" && !Named(fs, f.name)
  {
    KeysGrow(m, f.name, f.value);
    var m', all := Assign(m, f.name, f.value), fs + [f];
    if Survive(all, m') {
      forall i | 0 <= i < |fs| ensures fs[i].name in m && m[fs[i].name] == fs[i].value {
        assert all[i] == fs[i] && Named(fs, fs[i].name);
      }
    }
    if Survive(fs, m) && f.name != "__proto__" && !Named(fs, f.name) {
      forall i | 0 <= i < |all| ensures all[i].name in m' && m'[all[i].name] == all[i].value {
        if i < |fs| { assert all[i] == fs[i]; }
      }
    }
  }
}
