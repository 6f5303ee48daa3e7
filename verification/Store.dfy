/** The durable side of the vectorizer: queue entries, vector states, vectors and
    objects, and the transactions the vectorizer commits against them. A key/value
    transaction is one atomic update of a `Db` value. */
module Store {
  import opened Prelude

  /** A vector component as its 32-bit pattern: nothing here depends on float arithmetic. */
  type F32 = bits: int | 0 <= bits < 0x1_0000_0000
  type Vector = seq<F32>

  /** `VectorState` (a missing or unknown byte reads as `Pending`). */
  datatype VectorState = Pending | Indexed | Failed

  datatype Job = Job(typeName: string, objectId: nat, sourceField: string, vectorField: string, model: string)

  /** A queue value: a job that deserializes, or bytes that do not. */
  datatype Entry = Live(job: Job) | Unreadable

  datatype FieldValue = Text(text: string) | NotText

  /** The stable ids a vector state or vector key is built from. */
  datatype Row = Row(typeId: nat, objectId: nat, fieldId: nat)

  datatype ObjectKey = ObjectKey(typeId: nat, objectId: nat)

  type Objects = map<ObjectKey, map<string, FieldValue>>

  datatype Db = Db(
    queue: map<nat, Entry>,
    state: map<Row, VectorState>,
    vectors: map<Row, Vector>,
    objects: Objects)

  /** The `Type.field` key a field id is looked up under. */
  datatype FieldKey = FieldKey(typeName: string, field: string)

  /** The job template of one `@vectorize` field. */
  datatype Template = Template(typeName: string, sourceField: string, vectorField: string, model: string)

  /** Name resolution of the open schema. `templates` has one entry per `@vectorize`
      field whose type and field names resolve. */
  datatype Catalog = Catalog(
    typeIds: map<string, nat>,
    fieldIds: map<FieldKey, nat>,
    templates: map<(nat, nat), Template>)
  {
    ghost predicate Valid() {
      forall ids :: ids in templates ==>
        var t := templates[ids];
        && t.typeName in typeIds && typeIds[t.typeName] == ids.0
        && FieldKey(t.typeName, t.vectorField) in fieldIds
        && fieldIds[FieldKey(t.typeName, t.vectorField)] == ids.1
    }

    /** The state/vector row a job writes, when its names resolve. */
    function RowOf(job: Job): Option<Row> {
      var key := FieldKey(job.typeName, job.vectorField);
      if job.typeName in typeIds && key in fieldIds
      then Some(Row(typeIds[job.typeName], job.objectId, fieldIds[key]))
      else None
    }

    predicate Vectorizes(r: Row) {
      (r.typeId, r.fieldId) in templates
    }

    /** The job that (re-)embeds a row. */
    function JobFor(r: Row): (job: Job)
      requires Vectorizes(r)
    {
      var t := templates[(r.typeId, r.fieldId)];
      Job(t.typeName, r.objectId, t.sourceField, t.vectorField, t.model)
    }

    /** A job as the write path and the reconcile build it: from the schema's template. */
    predicate WellBuilt(job: Job) {
      var r := RowOf(job);
      r.Some? && Vectorizes(r.value) && job == JobFor(r.value)
    }

    lemma JobForResolves(r: Row)
      requires Valid() && Vectorizes(r)
      ensures RowOf(JobFor(r)) == Some(r)
      ensures WellBuilt(JobFor(r))
    {
      assert (r.typeId, r.fieldId) in templates;
    }
  }

  function KeyOf(r: Row): ObjectKey {
    ObjectKey(r.typeId, r.objectId)
  }

  /** The source text of an object, if the object exists and the field holds a string. */
  function TextAt(objects: Objects, key: ObjectKey, field: string): Option<string> {
    if key in objects && field in objects[key] && objects[key][field].Text?
    then Some(objects[key][field].text)
    else None
  }

  /** The object holds the string `s` in the field. */
  ghost predicate HoldsText(objects: Objects, key: ObjectKey, field: string, s: string) {
    key in objects && field in objects[key] && objects[key][field] == Text(s)
  }

  /** `s` is the text the template of the row's field embeds. */
  ghost predicate OwnText(cat: Catalog, objects: Objects, r: Row, s: string) {
    && (r.typeId, r.fieldId) in cat.templates
    && HoldsText(objects, ObjectKey(r.typeId, r.objectId), cat.templates[(r.typeId, r.fieldId)].sourceField, s)
  }

  ghost predicate HasOwnText(cat: Catalog, objects: Objects, r: Row) {
    exists s :: OwnText(cat, objects, r, s)
  }

  /** The job's names resolve to the row. */
  ghost predicate Names(cat: Catalog, job: Job, r: Row) {
    && job.typeName in cat.typeIds && FieldKey(job.typeName, job.vectorField) in cat.fieldIds
    && r == Row(cat.typeIds[job.typeName], job.objectId, cat.fieldIds[FieldKey(job.typeName, job.vectorField)])
  }

  function SourceText(cat: Catalog, objects: Objects, r: Row): Option<string>
    requires cat.Vectorizes(r)
  {
    TextAt(objects, KeyOf(r), cat.JobFor(r).sourceField)
  }

  /** The source text of a row is what its object holds in its template's source field. */
  lemma SourceTextIs(cat: Catalog, objects: Objects, r: Row)
    requires cat.Vectorizes(r)
    ensures forall s :: SourceText(cat, objects, r) == Some(s) <==> OwnText(cat, objects, r, s)
    ensures SourceText(cat, objects, r).None? <==> !HasOwnText(cat, objects, r)
  {
    if SourceText(cat, objects, r).Some? {
      assert OwnText(cat, objects, r, SourceText(cat, objects, r).value);
    }
  }

  /** `enqueue_many`'s transaction: one entry per job from `first`, every row back to `Pending`. */
  function PutJobs(cat: Catalog, db: Db, first: nat, jobs: seq<Job>): Db {
    db.(queue := db.queue + Entries(first, jobs),
        state := db.state + map r | r in RowsOf(cat, jobs) :: Pending)
  }

  function Entries(first: nat, jobs: seq<Job>): map<nat, Entry>
    decreases |jobs|
  {
    if jobs == [] then map[] else Entries(first + 1, jobs[1..])[first := Live(jobs[0])]
  }

  lemma {:induction false} EntriesAt(first: nat, jobs: seq<Job>)
    ensures forall id: nat :: id in Entries(first, jobs) <==> first <= id < first + |jobs|
    ensures forall id: nat :: id in Entries(first, jobs) ==> Entries(first, jobs)[id] == Live(jobs[id - first])
    decreases |jobs|
  {
    if jobs == [] {
    } else {
      EntriesAt(first + 1, jobs[1..]);
    }
  }

  /** What an enqueue writes: one entry per job from `first`, each job's row `Pending` whatever it
      was before, and nothing else. */
  ghost predicate JobsPut(cat: Catalog, db: Db, first: nat, jobs: seq<Job>, db': Db) {
    && db'.vectors == db.vectors && db'.objects == db.objects
    && (forall id: nat :: id in db'.queue <==> id in db.queue || first <= id < first + |jobs|)
    && (forall i :: 0 <= i < |jobs| ==> db'.queue[first + i] == Live(jobs[i]))
    && (forall id: nat :: id in db.queue && !(first <= id < first + |jobs|) ==> db'.queue[id] == db.queue[id])
    && (forall i, r :: 0 <= i < |jobs| && Names(cat, jobs[i], r) ==> r in db'.state && db'.state[r] == Pending)
    && (forall r :: Unnamed(cat, jobs, r) ==>
          (r in db'.state <==> r in db.state) && (r in db.state ==> db'.state[r] == db.state[r]))
  }

  lemma PutJobsPuts(cat: Catalog, db: Db, first: nat, jobs: seq<Job>)
    ensures JobsPut(cat, db, first, jobs, PutJobs(cat, db, first, jobs))
  {
    EntriesAt(first, jobs);
    forall r ensures r in RowsOf(cat, jobs) <==> !Unnamed(cat, jobs, r) {
      RowsAreNamed(cat, jobs, r);
    }
  }

  /** No job names the row. */
  ghost predicate Unnamed(cat: Catalog, jobs: seq<Job>, r: Row) {
    forall i :: 0 <= i < |jobs| ==> !Names(cat, jobs[i], r)
  }

  lemma RowsAreNamed(cat: Catalog, jobs: seq<Job>, r: Row)
    ensures r in RowsOf(cat, jobs) <==> !Unnamed(cat, jobs, r)
  {
    if !Unnamed(cat, jobs, r) {
      var i :| 0 <= i < |jobs| && Names(cat, jobs[i], r);
      assert cat.RowOf(jobs[i]) == Some(r);
    }
    if r in RowsOf(cat, jobs) {
      var i :| 0 <= i < |jobs| && cat.RowOf(jobs[i]) == Some(r);
      assert Names(cat, jobs[i], r);
    }
  }

  function RowsOf(cat: Catalog, jobs: seq<Job>): set<Row> {
    set i | 0 <= i < |jobs| && cat.RowOf(jobs[i]).Some? :: cat.RowOf(jobs[i]).value
  }

  /** `claim_batch`'s transaction. */
  function DeleteEntries(db: Db, ids: seq<nat>): Db {
    db.(queue := db.queue - set id | id in ids)
  }

  /** `store_and_index`'s transaction. */
  function PutVector(db: Db, r: Row, v: Vector): Db {
    db.(vectors := db.vectors[r := v], state := db.state[r := Indexed])
  }

  function PutFailed(db: Db, r: Row): Db {
    db.(state := db.state[r := Failed])
  }

  function DeleteStates(db: Db, rows: set<Row>): Db {
    db.(state := db.state - rows)
  }

  /** Every live entry of `q` with id in `[lo, hi)`, lowest id first. */
  function LiveIds(q: map<nat, Entry>, lo: nat, hi: nat): seq<nat>
    decreases hi - lo
  {
    if lo >= hi then []
    else if lo in q && q[lo].Live? then [lo] + LiveIds(q, lo + 1, hi)
    else LiveIds(q, lo + 1, hi)
  }

  lemma AscendingCons(id: nat, rest: seq<nat>)
    requires Ascending(rest) && forall i :: 0 <= i < |rest| ==> id < rest[i]
    ensures Ascending([id] + rest)
  {
  }

  /** `LiveIds` lists exactly the live ids of its range, in ascending order. */
  lemma {:induction false} LiveIdsExact(q: map<nat, Entry>, lo: nat, hi: nat)
    ensures forall id :: id in LiveIds(q, lo, hi) <==> lo <= id < hi && id in q && q[id].Live?
    ensures Ascending(LiveIds(q, lo, hi))
    decreases hi - lo
  {
    if lo >= hi {
    } else {
      LiveIdsExact(q, lo + 1, hi);
      var all, rest := LiveIds(q, lo, hi), LiveIds(q, lo + 1, hi);
      assert forall i :: 0 <= i < |rest| ==> rest[i] in rest;
      if lo in q && q[lo].Live? {
        AscendingCons(lo, rest);
        assert forall id :: id in all <==> id == lo || id in rest;
      }
    }
  }

  /** The jobs of the live entries, in the same order. */
  function LiveJobs(q: map<nat, Entry>, lo: nat, hi: nat): seq<Job>
    decreases hi - lo
  {
    if lo >= hi then []
    else if lo in q && q[lo].Live? then [q[lo].job] + LiveJobs(q, lo + 1, hi)
    else LiveJobs(q, lo + 1, hi)
  }

  /** `jobs` are the jobs of the entries `ids`. */
  ghost predicate JobsAt(q: map<nat, Entry>, ids: seq<nat>, jobs: seq<Job>) {
    && |jobs| == |ids|
    && forall i :: 0 <= i < |ids| ==> ids[i] in q && q[ids[i]] == Live(jobs[i])
  }

  lemma {:induction false} LiveJobsAt(q: map<nat, Entry>, lo: nat, hi: nat)
    ensures JobsAt(q, LiveIds(q, lo, hi), LiveJobs(q, lo, hi))
    decreases hi - lo
  {
    if lo >= hi {
    } else {
      LiveJobsAt(q, lo + 1, hi);
    }
  }

  lemma {:induction false} LiveIdsSplit(q: map<nat, Entry>, lo: nat, mid: nat, hi: nat)
    requires lo <= mid <= hi
    ensures LiveIds(q, lo, hi) == LiveIds(q, lo, mid) + LiveIds(q, mid, hi)
    decreases mid - lo
  {
    if lo >= mid {
    } else {
      LiveIdsSplit(q, lo + 1, mid, hi);
    }
  }

  lemma {:induction false} LiveIdsEmpty(q: map<nat, Entry>, lo: nat, hi: nat)
    requires forall id :: lo <= id < hi && id in q ==> !q[id].Live?
    ensures LiveIds(q, lo, hi) == []
    decreases hi - lo
  {
    if lo >= hi {
    } else {
      LiveIdsEmpty(q, lo + 1, hi);
    }
  }

  lemma LiveIdsNext(q: map<nat, Entry>, lo: nat, id: nat)
    requires lo <= id
    ensures LiveIds(q, lo, id + 1) == LiveIds(q, lo, id) + if id in q && q[id].Live? then [id] else []
  {
    LiveIdsSplit(q, lo, id, id + 1);
    assert LiveIds(q, id + 1, id + 1) == [];
  }

  /** Two ascending lists with the same elements are the same list: `LiveIds` is the only
      sorted listing of the live ids in its range. */
  lemma {:induction false} AscendingUnique(a: seq<nat>, b: seq<nat>)
    requires Ascending(a) && Ascending(b)
    requires forall id :: id in a <==> id in b
    ensures a == b
  {
    if a == [] {
      assert forall i :: 0 <= i < |b| ==> b[i] in a;
    } else {
      assert a[0] in b;
      assert b[0] in a;
      assert a[0] == b[0];
      forall id ensures id in a[1..] <==> id in b[1..] {
        assert id in a[1..] <==> id in a && id != a[0];
        assert id in b[1..] <==> id in b && id != b[0];
      }
      AscendingUnique(a[1..], b[1..]);
    }
  }
}
