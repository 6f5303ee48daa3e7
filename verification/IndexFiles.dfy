/** All indexes of a schema at open: each reads its snapshot file, and a rebuilt one writes it. */
module IndexFiles {
  import opened Prelude
  import opened Store
  import opened IndexRebuild

  type Files = map<string, SnapshotFile>

  /** Dots become underscores. */
  function Sanitized(key: string): (s: string)
    ensures |s| == |key| && forall i :: 0 <= i < |key| ==> s[i] == if key[i] == '.' then '_' else key[i]
  {
    if key == "" then "" else [if key[0] == '.' then '_' else key[0]] + Sanitized(key[1..])
  }

  function SnapshotPath(key: string): string { "hnsw_" + Sanitized(key) + ".bin" }

  function FileAt(files: Files, path: string): SnapshotFile { if path in files then files[path] else Absent }

  /** A rebuilt index that is not empty is saved under the schema's config. */
  function FilesAfter(f: Field, key: string, files: Files, index: Index): Files {
    if Usable(f, FileAt(files, SnapshotPath(key))) || index == map[] then files
    else files[SnapshotPath(key) := Saved(f.config, index)]
  }

  /** `seen[i]` are the files when key `i` is opened, `results[i]` is its index. */
  ghost predicate OpenTrace(keys: seq<string>, fields: map<string, Field>, rows: Rows, seen: seq<Files>,
                            results: seq<Index>) {
    && |seen| == |keys| + 1 && |results| == |keys|
    && forall i :: 0 <= i < |keys| ==>
      && keys[i] in fields
      && ReopenResult(fields[keys[i]], FileAt(seen[i], SnapshotPath(keys[i])), rows, results[i])
      && seen[i + 1] == FilesAfter(fields[keys[i]], keys[i], seen[i], results[i])
  }

  method RebuildIndexes(keys: seq<string>, fields: map<string, Field>, files: Files, rows: Rows,
                        scan: map<nat, seq<Row>>)
    returns (results: seq<Index>, files': Files, ghost seen: seq<Files>)
    requires forall key :: key in keys ==> key in fields
    requires forall key :: key in keys && fields[key].ids.Some? ==> fields[key].ids.value.0 in scan
    requires forall t :: t in scan ==> Scans(scan[t], rows, t)
    ensures OpenTrace(keys, fields, rows, seen, results) && seen[0] == files && seen[|keys|] == files'
    ensures |results| == |keys|
    ensures DistinctPaths(keys) ==>
      forall k :: 0 <= k < |keys| ==>
        ReopenResult(fields[keys[k]], FileAt(files, SnapshotPath(keys[k])), rows, results[k])
  {
    results, files', seen := [], files, [files];
    for n := 0 to |keys|
      invariant |results| == n && |seen| == n + 1 && seen[0] == files && seen[n] == files'
      invariant OpenTrace(keys[..n], fields, rows, seen, results)
    {
      var f, path := fields[keys[n]], SnapshotPath(keys[n]);
      var index, rebuilt := ReopenIndex(f, FileAt(files', path), rows, scan);
      if rebuilt && index != map[] {
        files' := files'[path := Saved(f.config, index)];
      }
      results, seen := results + [index], seen + [files'];
    }
    assert keys[..|keys|] == keys;
    OwnFilesOpen(keys, fields, rows, seen, results);
  }

  predicate DistinctPaths(keys: seq<string>) {
    forall i, j :: 0 <= i < j < |keys| ==> SnapshotPath(keys[i]) != SnapshotPath(keys[j])
  }

  lemma {:induction false} FileUntouched(keys: seq<string>, fields: map<string, Field>, rows: Rows, seen: seq<Files>,
                                         results: seq<Index>, i: nat, k: nat)
    requires OpenTrace(keys, fields, rows, seen, results) && DistinctPaths(keys) && i <= k < |keys|
    ensures FileAt(seen[i], SnapshotPath(keys[k])) == FileAt(seen[0], SnapshotPath(keys[k]))
  {
    if i == 0 {
    } else {
      FileUntouched(keys, fields, rows, seen, results, i - 1, k);
      assert seen[i - 1 + 1] == FilesAfter(fields[keys[i - 1]], keys[i - 1], seen[i - 1], results[i - 1]);
    }
  }

  /** With distinct snapshot paths every index opens from its own file, whatever the order. */
  lemma OwnFileOpens(keys: seq<string>, fields: map<string, Field>, rows: Rows, seen: seq<Files>, results: seq<Index>,
                     k: nat)
    requires OpenTrace(keys, fields, rows, seen, results) && DistinctPaths(keys) && k < |keys|
    ensures ReopenResult(fields[keys[k]], FileAt(seen[0], SnapshotPath(keys[k])), rows, results[k])
  {
    FileUntouched(keys, fields, rows, seen, results, k, k);
  }

  lemma OwnFilesOpen(keys: seq<string>, fields: map<string, Field>, rows: Rows, seen: seq<Files>, results: seq<Index>)
    requires OpenTrace(keys, fields, rows, seen, results)
    ensures DistinctPaths(keys) ==>
      forall k :: 0 <= k < |keys| ==>
        ReopenResult(fields[keys[k]], FileAt(seen[0], SnapshotPath(keys[k])), rows, results[k])
  {
    if DistinctPaths(keys) {
      forall k | 0 <= k < |keys|
        ensures ReopenResult(fields[keys[k]], FileAt(seen[0], SnapshotPath(keys[k])), rows, results[k]) {
        OwnFileOpens(keys, fields, rows, seen, results, k);
      }
    }
  }

  /** A rebuilt index is found again by the next open, which changes nothing more. */
  lemma RebuiltReopens(f: Field, key: string, files: Files, rows: Rows, index: Index, again: Index)
    requires ReopenResult(f, FileAt(files, SnapshotPath(key)), rows, index)
    requires ReopenResult(f, FileAt(FilesAfter(f, key, files, index), SnapshotPath(key)), rows, again)
    ensures again == index
    ensures FilesAfter(f, key, FilesAfter(f, key, files, index), again) == FilesAfter(f, key, files, index)
  {
    var file, file' := FileAt(files, SnapshotPath(key)), FileAt(FilesAfter(f, key, files, index), SnapshotPath(key));
    forall id: nat ensures At(again, id) == At(index, id) {
      assert At(index, id) == Reopened(f, file, rows, id);
      assert At(again, id) == Reopened(f, file', rows, id);
    }
    SameEverywhere(again, index);
  }

  lemma SameEverywhere(a: Index, b: Index)
    requires forall id: nat :: At(a, id) == At(b, id)
    ensures a == b
  {
    forall id: nat ensures id in a <==> id in b { assert At(a, id) == At(b, id); }
    forall id: nat | id in a ensures a[id] == b[id] { assert At(a, id) == At(b, id); }
  }

  /** Two keys share a path exactly when they are equal up to dots and underscores. */
  lemma SharedPathIff(a: string, b: string)
    ensures SnapshotPath(a) == SnapshotPath(b) <==>
      |a| == |b| && forall i :: 0 <= i < |a| ==> a[i] == b[i] || (a[i] in "._" && b[i] in "._")
  {
    var p, q := SnapshotPath(a), SnapshotPath(b);
    if p == q {
      assert |p| == 9 + |a| && |q| == 9 + |b|;
      assert forall i :: 0 <= i < |a| ==> p[5 + i] == Sanitized(a)[i] && q[5 + i] == Sanitized(b)[i];
    } else if |a| == |b| {
      assert Sanitized(a) != Sanitized(b);
    }
  }

  // ---- Whose vectors an index is opened from ----

  /** Where the file an index finds comes from: it was there at the start, or key `i` wrote it. */
  datatype Origin = Start | From(i: nat)

  ghost predicate HasVectors(f: Field, rows: Rows) {
    exists id: nat :: Stored(f, rows, id).Some?
  }

  ghost predicate KeysKnown(keys: seq<string>, fields: map<string, Field>) {
    forall i :: 0 <= i < |keys| ==> keys[i] in fields
  }

  /** Whether the file of this origin fits the config. */
  ghost predicate Fits(keys: seq<string>, fields: map<string, Field>, file: SnapshotFile, o: Origin, f: Field)
    requires KeysKnown(keys, fields) && (o.From? ==> o.i < |keys|)
  {
    match o
    case Start => Usable(f, file)
    case From(i) => fields[keys[i]].config == f.config
  }

  /** The origin of the file at `path` when key `k` is opened: the last earlier key on that path
      that did not fit what it found and had vectors to save. */
  ghost function OriginOf(keys: seq<string>, fields: map<string, Field>, rows: Rows, file: SnapshotFile, path: string,
                          k: nat): (o: Origin)
    requires KeysKnown(keys, fields) && k <= |keys|
    ensures o.From? ==> o.i < k
  {
    if k == 0 then Start else
    var o, f := OriginOf(keys, fields, rows, file, path, k - 1), fields[keys[k - 1]];
    var written := SnapshotPath(keys[k - 1]) == path && !Fits(keys, fields, file, o, f) && HasVectors(f, rows);
    if written then From(k - 1) else o
  }

  /** `file` is what the origin says. */
  ghost predicate IsFrom(keys: seq<string>, fields: map<string, Field>, rows: Rows, start: SnapshotFile, o: Origin,
                         file: SnapshotFile)
    requires KeysKnown(keys, fields) && (o.From? ==> o.i < |keys|)
  {
    match o
    case Start => file == start
    case From(i) =>
      && file.Saved? && file.config == fields[keys[i]].config
      && FullRebuild(fields[keys[i]], rows, file.vectors)
  }

  lemma RebuiltEmptyIff(f: Field, rows: Rows, index: Index)
    requires FullRebuild(f, rows, index)
    ensures index == map[] <==> !HasVectors(f, rows)
  {
    if HasVectors(f, rows) {
      var id: nat :| Stored(f, rows, id).Some?;
      assert At(index, id) == Stored(f, rows, id);
    } else {
      forall id: nat ensures id !in index {
        assert At(index, id) == Stored(f, rows, id);
      }
      assert index.Keys == {};
    }
  }

  lemma {:induction false} FileOrigin(keys: seq<string>, fields: map<string, Field>, rows: Rows, seen: seq<Files>,
                                      results: seq<Index>,
                                      path: string, k: nat)
    requires OpenTrace(keys, fields, rows, seen, results) && KeysKnown(keys, fields) && k <= |keys|
    ensures var start := FileAt(seen[0], path);
      IsFrom(keys, fields, rows, start, OriginOf(keys, fields, rows, start, path, k), FileAt(seen[k], path))
  {
    if k == 0 {
    } else {
      FileOrigin(keys, fields, rows, seen, results, path, k - 1);
      var key, f := keys[k - 1], fields[keys[k - 1]];
      var file := FileAt(seen[k - 1], SnapshotPath(key));
      assert ReopenResult(f, file, rows, results[k - 1]);
      assert seen[k - 1 + 1] == FilesAfter(f, key, seen[k - 1], results[k - 1]);
      if SnapshotPath(key) == path && !Usable(f, file) {
        OpenIsRebuildIff(f, file, rows, results[k - 1]);
        RebuiltEmptyIff(f, rows, results[k - 1]);
      }
    }
  }

  /** Every vector of `a` is a vector of `b`. */
  ghost predicate SharesVectors(a: Field, b: Field, rows: Rows) {
    forall id: nat :: Stored(a, rows, id).Some? ==> Stored(b, rows, id) == Stored(a, rows, id)
  }

  lemma UpToDateShares(a: Field, b: Field, rows: Rows, vectors: Index)
    requires FullRebuild(a, rows, vectors)
    ensures UpToDate(b, rows, vectors) <==> SharesVectors(a, b, rows)
  {
    forall id: nat ensures At(vectors, id) == Stored(a, rows, id) { }
    if UpToDate(b, rows, vectors) {
      forall id: nat | Stored(a, rows, id).Some? ensures Stored(b, rows, id) == Stored(a, rows, id) {
        assert At(vectors, id) == Stored(a, rows, id) && id in vectors;
      }
    }
    if SharesVectors(a, b, rows) {
      forall id: nat | id in vectors ensures Stored(b, rows, id) == Some(vectors[id]) {
        assert At(vectors, id) == Stored(a, rows, id);
      }
    }
  }

  /** For any keys, in any order, over any files: an index is what a full rebuild gives if and only
      if the file it finds does not fit its config or holds only its own vectors. A file some
      earlier key wrote holds that key's vectors. */
  lemma OpensAsRebuildIff(keys: seq<string>, fields: map<string, Field>, rows: Rows, seen: seq<Files>,
                          results: seq<Index>, k: nat)
    requires OpenTrace(keys, fields, rows, seen, results) && KeysKnown(keys, fields) && k < |keys|
    ensures var f, path := fields[keys[k]], SnapshotPath(keys[k]);
      var start := FileAt(seen[0], path);
      FullRebuild(f, rows, results[k]) <==>
        match OriginOf(keys, fields, rows, start, path, k)
        case Start => !Usable(f, start) || UpToDate(f, rows, start.vectors)
        case From(i) => fields[keys[i]].config != f.config || SharesVectors(fields[keys[i]], f, rows)
  {
    var f, path := fields[keys[k]], SnapshotPath(keys[k]);
    var file := FileAt(seen[k], path);
    FileOrigin(keys, fields, rows, seen, results, path, k);
    OpenIsRebuildIff(f, file, rows, results[k]);
    match OriginOf(keys, fields, rows, FileAt(seen[0], path), path, k)
    case Start =>
    case From(i) => UpToDateShares(fields[keys[i]], f, rows, file.vectors);
  }

  /** Two indexes opened over no files: the second is right if and only if the paths differ, the
      configs differ, or all vectors of the first are also the second's. */
  lemma SecondOpensIff(a: string, b: string, fields: map<string, Field>, rows: Rows, seen: seq<Files>,
                       results: seq<Index>)
    requires OpenTrace([a, b], fields, rows, seen, results) && seen[0] == map[] && a in fields && b in fields
    ensures FullRebuild(fields[b], rows, results[1]) <==>
      || SnapshotPath(a) != SnapshotPath(b) || fields[a].config != fields[b].config
      || SharesVectors(fields[a], fields[b], rows)
  {
    var keys, path := [a, b], SnapshotPath(b);
    assert keys[0] == a && keys[1] == b && KeysKnown(keys, fields);
    OpensAsRebuildIff(keys, fields, rows, seen, results, 1);
    assert OriginOf(keys, fields, rows, Absent, path, 0) == Start;
  }

  /** On any shared path: a complete open, from one stored vector of the first field and no files,
      that leaves the second with a vector for an object it has none for. */
  lemma SharedPathOpen(a: string, b: string, config: IndexConfig)
    returns (fields: map<string, Field>, rows: Rows, seen: seq<Files>, results: seq<Index>)
    requires a != b && SnapshotPath(a) == SnapshotPath(b)
    ensures OpenTrace([a, b], fields, rows, seen, results) && seen[0] == map[] && a in fields && b in fields
    ensures Stored(fields[b], rows, 7).None? && At(results[1], 7) == Some([0])
    ensures !FullRebuild(fields[b], rows, results[1])
  {
    var first, second := Field(config, Some((1, 1))), Field(config, Some((2, 2)));
    var index: Index, path := map[7 := [0]], SnapshotPath(a);
    VectorRoundTrip([0]);
    fields, rows := map[a := first, b := second], map[Row(1, 7, 1) := VectorBytes([0])];
    var saved: Files := map[path := Saved(config, index)];
    seen, results := [map[], saved, saved], [index, index];
    var keys := [a, b];
    assert keys[0] == a && keys[1] == b && 7 in index;
    assert ReopenResult(first, Absent, rows, index);
    assert ReopenResult(second, Saved(config, index), rows, index);
    assert FileAt(map[], path) == Absent && FileAt(saved, SnapshotPath(b)) == Saved(config, index);
    assert FilesAfter(first, a, map[], index) == saved;
    assert FilesAfter(second, b, saved, index) == saved;
    assert At(index, 7) == Some([0]);
  }

  /** Such keys exist: type `A` with field `b_c`, and type `A_b` with field `c`. */
  lemma PathsCollide()
    ensures SnapshotPath("A.b_c") == SnapshotPath("A_b.c") == "hnsw_A_b_c.bin" && "A.b_c" != "A_b.c"
  {
    SharedPathIff("A.b_c", "A_b.c");
    assert "A.b_c"[1] != "A_b.c"[1];
    assert Sanitized("A.b_c") == "A_b_c";
  }

  lemma CollidingOpen(config: IndexConfig)
    returns (fields: map<string, Field>, rows: Rows, seen: seq<Files>, results: seq<Index>)
    ensures OpenTrace(["A.b_c", "A_b.c"], fields, rows, seen, results) && seen[0] == map[] && "A_b.c" in fields
    ensures !FullRebuild(fields["A_b.c"], rows, results[1])
  {
    PathsCollide();
    fields, rows, seen, results := SharedPathOpen("A.b_c", "A_b.c", config);
  }
}
