/** Restoring the in-memory indexes at open: a usable snapshot plus the stored vectors it lacks,
    or a full rebuild from the stored vectors. An index is its map from object id to vector. */
module IndexRebuild {
  import opened Prelude
  import opened Bytes
  import opened Store

  // ---- Stored vectors ----

  function VectorBytes(v: Vector): seq<Byte> {
    if v == [] then [] else BigEndian(v[0], 4) + VectorBytes(v[1..])
  }

  function ParseComponents(data: seq<Byte>): Vector
    requires |data| % 4 == 0
  {
    if data == [] then [] else
    WritesBack(data[..4]);
    Spans();
    [FromBigEndian(data[..4])] + ParseComponents(data[4..])
  }

  /** Bytes that are not whole components do not parse. */
  function ParseVector(data: seq<Byte>): Option<Vector> {
    if |data| % 4 != 0 then None else Some(ParseComponents(data))
  }

  lemma {:induction false} VectorRoundTrip(v: Vector)
    ensures ParseVector(VectorBytes(v)) == Some(v)
  {
    if v == [] {
    } else {
      var data := VectorBytes(v);
      VectorRoundTrip(v[1..]);
      Spans();
      ReadsBack(v[0], 4);
      assert data[..4] == BigEndian(v[0], 4) && data[4..] == VectorBytes(v[1..]);
      assert |data| % 4 == 0 && ParseComponents(data) == [v[0]] + ParseComponents(data[4..]) == v;
    }
  }

  /** Exactly the bytes of some vector parse. */
  lemma {:induction false} ParsesExactly(data: seq<Byte>)
    ensures ParseVector(data).Some? <==> |data| % 4 == 0
    ensures ParseVector(data).Some? ==> VectorBytes(ParseVector(data).value) == data
  {
    if data != [] && |data| % 4 == 0 {
      WritesBack(data[..4]);
      ParsesExactly(data[4..]);
      var v := ParseVector(data).value;
      assert v[1..] == ParseVector(data[4..]).value && data == data[..4] + data[4..];
    }
  }

  /** Four bytes per component, in order. */
  lemma {:induction false} VectorLayout(v: Vector, i: nat)
    requires i < |v|
    ensures |VectorBytes(v)| == 4 * |v| && IsNumber(VectorBytes(v)[4 * i..4 * i + 4], v[i])
  {
    var data, first, rest := VectorBytes(v), BigEndian(v[0], 4), VectorBytes(v[1..]);
    assert data == first + rest;
    if |v| > 1 {
      VectorLayout(v[1..], if i > 0 then i - 1 else 0);
    }
    if i == 0 {
      BigEndianIs(v[0], 4);
      assert data[0..4] == first;
    } else {
      assert data[4 * i..4 * i + 4] == rest[4 * (i - 1)..4 * (i - 1) + 4];
    }
  }

  type Rows = map<Row, seq<Byte>>
  type Index = map<nat, Vector>

  /** The stored vector of an object, if its row parses. */
  function StoredVector(rows: Rows, typeId: nat, fieldId: nat, id: nat): Option<Vector> {
    var r := Row(typeId, id, fieldId);
    if r in rows then ParseVector(rows[r]) else None
  }

  /** The entries under a type's prefix, each row once. */
  ghost predicate Scans(entries: seq<Row>, rows: Rows, typeId: nat) {
    && (forall i, j :: 0 <= i < j < |entries| ==> entries[i] != entries[j])
    && (forall r :: r in entries <==> r in rows && r.typeId == typeId)
  }

  /** Exactly the vectors of one field that parse, each once. */
  ghost predicate ScanResult(rows: Rows, typeId: nat, fieldId: nat, results: seq<(nat, Vector)>) {
    && (forall i, j :: 0 <= i < j < |results| ==> results[i].0 != results[j].0)
    && (forall id: nat, v :: (id, v) in results <==> StoredVector(rows, typeId, fieldId, id) == Some(v))
  }

  method ScanVectorsForField(rows: Rows, entries: seq<Row>, typeId: nat, fieldId: nat)
    returns (results: seq<(nat, Vector)>)
    requires Scans(entries, rows, typeId)
    ensures ScanResult(rows, typeId, fieldId, results)
  {
    results := [];
    for n := 0 to |entries|
      invariant forall i, j :: 0 <= i < j < |results| ==> results[i].0 != results[j].0
      invariant forall id: nat, v :: (id, v) in results <==>
        Row(typeId, id, fieldId) in entries[..n] && StoredVector(rows, typeId, fieldId, id) == Some(v)
    {
      var r := entries[n];
      assert r in entries && r !in entries[..n];
      assert entries[..n + 1] == entries[..n] + [r];
      if r.fieldId == fieldId {
        var vector := ParseVector(rows[r]);
        if vector.Some? {
          forall i | 0 <= i < |results| ensures results[i].0 != r.objectId {
            assert (results[i].0, results[i].1) in results;
          }
          results := results + [(r.objectId, vector.value)];
        }
      }
    }
    assert entries[..|entries|] == entries;
  }

  function InsertAll(index: Index, vs: seq<(nat, Vector)>): Index {
    if vs == [] then index else InsertAll(index, vs[..|vs| - 1])[vs[|vs| - 1].0 := vs[|vs| - 1].1]
  }

  /** The vectors whose ids the index lacks. */
  function Missing(index: Index, vs: seq<(nat, Vector)>): seq<(nat, Vector)> {
    if vs == [] then [] else
    Missing(index, vs[..|vs| - 1]) + if vs[|vs| - 1].0 in index then [] else [vs[|vs| - 1]]
  }

  lemma {:induction false} NothingMissing(vs: seq<(nat, Vector)>)
    ensures Missing(map[], vs) == vs
  {
    if vs == [] {
    } else {
      NothingMissing(vs[..|vs| - 1]);
    }
  }

  function At(index: Index, id: nat): Option<Vector> { if id in index then Some(index[id]) else None }

  lemma DeltaLast(index: Index, init: seq<(nat, Vector)>, last: (nat, Vector), id: nat)
    ensures At(InsertAll(index, Missing(index, init + [last])), id) ==
      if last.0 == id && id !in index then Some(last.1) else At(InsertAll(index, Missing(index, init)), id)
  {
    var missing := Missing(index, init);
    assert (init + [last])[..|init|] == init;
    assert (missing + [last])[..|missing|] == missing && missing + [] == missing;
  }

  /** A delta adds what is missing and leaves what is there. */
  lemma {:induction false} DeltaAt(index: Index, vs: seq<(nat, Vector)>, id: nat, stored: Option<Vector>)
    requires forall v :: (id, v) in vs <==> stored == Some(v)
    ensures At(InsertAll(index, Missing(index, vs)), id) == if id in index then Some(index[id]) else stored
  {
    if vs == [] {
    } else {
      var init, last := vs[..|vs| - 1], vs[|vs| - 1];
      assert vs == init + [last];
      var before := if exists v :: (id, v) in init then stored else None;
      forall v ensures (id, v) in init <==> before == Some(v) {
        assert (id, v) in init ==> (id, v) in vs;
      }
      DeltaAt(index, init, id, before);
      DeltaLast(index, init, last, id);
      if last.0 == id {
        assert (id, last.1) in vs && stored == Some(last.1);
      } else {
        assert forall v :: (id, v) in vs <==> (id, v) in init;
        assert before == stored by {
          if stored.Some? { assert (id, stored.value) in vs; }
        }
      }
    }
  }

  // ---- One index ----

  datatype IndexConfig = IndexConfig(bits: nat, metric: nat, m: nat, efConstruction: nat)
  datatype SnapshotFile = Absent | Unopenable | Corrupt | Saved(config: IndexConfig, vectors: Index)

  /** The schema's config for an index, and its stable ids where its names resolve. */
  datatype Field = Field(config: IndexConfig, ids: Option<(nat, nat)>)

  datatype Parameter = Bits | Metric | Links | EfConstruction

  /** The first parameter in which a snapshot differs from the schema. */
  function Mismatch(target: IndexConfig, loaded: IndexConfig): (p: Option<Parameter>)
    ensures p == None <==> loaded == target
    ensures p == Some(Bits) <==> loaded.bits != target.bits
    ensures p == Some(Metric) <==> loaded.bits == target.bits && loaded.metric != target.metric
    ensures p == Some(EfConstruction) <==>
      loaded != target && loaded == target.(efConstruction := loaded.efConstruction)
  {
    if loaded.bits != target.bits then Some(Bits)
    else if loaded.metric != target.metric then Some(Metric)
    else if loaded.m != target.m then Some(Links)
    else if loaded.efConstruction != target.efConstruction then Some(EfConstruction)
    else None
  }

  predicate Usable(f: Field, file: SnapshotFile) { file.Saved? && file.config == f.config }

  /** The stored vector of an object in a field; none where the field's names do not resolve. */
  function Stored(f: Field, rows: Rows, id: nat): Option<Vector> {
    if f.ids.None? then None else StoredVector(rows, f.ids.value.0, f.ids.value.1, id)
  }

  /** A full rebuild: the stored vectors and nothing else. */
  ghost predicate FullRebuild(f: Field, rows: Rows, index: Index) {
    forall id: nat :: At(index, id) == Stored(f, rows, id)
  }

  /** What an object's entry is after open: the snapshot's where a usable snapshot has one. */
  function Reopened(f: Field, file: SnapshotFile, rows: Rows, id: nat): Option<Vector> {
    if Usable(f, file) && id in file.vectors then Some(file.vectors[id]) else Stored(f, rows, id)
  }

  ghost predicate ReopenResult(f: Field, file: SnapshotFile, rows: Rows, index: Index) {
    forall id: nat :: At(index, id) == Reopened(f, file, rows, id)
  }

  /** `scan` lists the entries under each type's prefix. */
  method ReopenIndex(f: Field, file: SnapshotFile, rows: Rows, scan: map<nat, seq<Row>>)
    returns (index: Index, rebuilt: bool)
    requires f.ids.Some? ==> f.ids.value.0 in scan && Scans(scan[f.ids.value.0], rows, f.ids.value.0)
    ensures ReopenResult(f, file, rows, index)
    ensures rebuilt <==> !Usable(f, file)
  {
    rebuilt := !(file.Saved? && Mismatch(f.config, file.config).None?);
    ghost var base := if rebuilt then map[] else file.vectors;
    index := if rebuilt then map[] else file.vectors;
    if f.ids.Some? {
      var (typeId, fieldId) := f.ids.value;
      var vectors := ScanVectorsForField(rows, scan[typeId], typeId, fieldId);
      if rebuilt {
        NothingMissing(vectors);
        index := InsertAll(index, vectors);
      } else {
        index := InsertAll(index, Missing(index, vectors));
      }
      forall id: nat ensures At(index, id) == Reopened(f, file, rows, id) {
        DeltaAt(base, vectors, id, StoredVector(rows, typeId, fieldId, id));
      }
    }
  }

  /** Whatever the snapshot, every stored vector's id is in the index after open. */
  lemma OpenCovers(f: Field, file: SnapshotFile, rows: Rows, index: Index)
    requires ReopenResult(f, file, rows, index)
    ensures forall id: nat :: Stored(f, rows, id).Some? ==> id in index
  {
    forall id: nat | Stored(f, rows, id).Some? ensures id in index {
      assert At(index, id) == Reopened(f, file, rows, id);
    }
  }

  /** The snapshot holds nothing that was deleted or stored anew since. */
  ghost predicate UpToDate(f: Field, rows: Rows, vectors: Index) {
    forall id: nat :: id in vectors ==> Stored(f, rows, id) == Some(vectors[id])
  }

  /** Opening gives exactly what a full rebuild gives if and only if the snapshot is not used or
      none of its entries is out of date. */
  lemma OpenIsRebuildIff(f: Field, file: SnapshotFile, rows: Rows, index: Index)
    requires ReopenResult(f, file, rows, index)
    ensures FullRebuild(f, rows, index) <==> !Usable(f, file) || UpToDate(f, rows, file.vectors)
  {
    if FullRebuild(f, rows, index) && Usable(f, file) {
      forall id: nat | id in file.vectors ensures Stored(f, rows, id) == Some(file.vectors[id]) {
        assert At(index, id) == Reopened(f, file, rows, id) == Some(file.vectors[id]);
      }
    }
    if !Usable(f, file) || UpToDate(f, rows, file.vectors) {
      forall id: nat ensures At(index, id) == Stored(f, rows, id) {
        assert At(index, id) == Reopened(f, file, rows, id);
      }
    }
  }

  /** A snapshot of a full index stays up to date as long as no row in it changes, whatever other
      rows are stored after the save. */
  lemma UnchangedStaysUpToDate(f: Field, atSave: Rows, rows: Rows, vectors: Index)
    requires FullRebuild(f, atSave, vectors) && f.ids.Some?
    requires forall id: nat :: id in vectors ==>
      var r := Row(f.ids.value.0, id, f.ids.value.1); r in rows && r in atSave && rows[r] == atSave[r]
    ensures UpToDate(f, rows, vectors)
  {
    forall id: nat | id in vectors ensures Stored(f, rows, id) == Some(vectors[id]) {
      assert At(vectors, id) == Stored(f, atSave, id);
    }
  }

  /** A re-stored vector is hidden by the snapshot: the open returns the old one. */
  lemma StaleSnapshotWins(f: Field, config: IndexConfig, rows: Rows, index: Index, id: nat, v: Vector)
    requires ReopenResult(f, Saved(config, map[id := v]), rows, index) && config == f.config
    requires Stored(f, rows, id).Some? && Stored(f, rows, id).value != v
    ensures id in index && index[id] == v && !FullRebuild(f, rows, index)
  {
    assert At(index, id) == Reopened(f, Saved(config, map[id := v]), rows, id);
  }
}
