/** The open-time repair: which `Pending` rows a crash left without a queue entry, and what
    `reconcile_pending_jobs` commits for them. */
module Reconcile {
  import opened Prelude
  import opened Store

  /** The rows some readable queue entry will embed. */
  function QueuedRows(cat: Catalog, q: map<nat, Entry>): set<Row> {
    set id | id in q && q[id].Live? && cat.RowOf(q[id].job).Some? :: cat.RowOf(q[id].job).value
  }

  /** `Pending` rows of `@vectorize` fields that no queue entry covers. */
  function UnqueuedPending(cat: Catalog, db: Db): set<Row> {
    set r | r in db.state && db.state[r] == Pending && cat.Vectorizes(r) && r !in QueuedRows(cat, db.queue)
  }

  /** Recoverable orphans: the object still has a source text. */
  function OrphanRows(cat: Catalog, db: Db): set<Row> {
    set r | r in UnqueuedPending(cat, db) && SourceText(cat, db.objects, r).Some?
  }

  /** True orphans: the object is gone, or its source is no longer a string. */
  function StaleRows(cat: Catalog, db: Db): set<Row> {
    set r | r in UnqueuedPending(cat, db) && SourceText(cat, db.objects, r).None?
  }

  /** A `Pending` row of a `@vectorize` field that no readable queue entry names. */
  ghost predicate Unqueued(cat: Catalog, db: Db, r: Row) {
    && r in db.state && db.state[r] == Pending && (r.typeId, r.fieldId) in cat.templates
    && forall id :: id in db.queue && db.queue[id].Live? ==> !Names(cat, db.queue[id].job, r)
  }

  lemma UnqueuedIs(cat: Catalog, db: Db, r: Row)
    ensures r in UnqueuedPending(cat, db) <==> Unqueued(cat, db, r)
    ensures r in OrphanRows(cat, db) <==> Unqueued(cat, db, r) && HasOwnText(cat, db.objects, r)
    ensures r in StaleRows(cat, db) <==> Unqueued(cat, db, r) && !HasOwnText(cat, db.objects, r)
  {
    if cat.Vectorizes(r) {
      SourceTextIs(cat, db.objects, r);
      if r in QueuedRows(cat, db.queue) {
        var id :| id in db.queue && db.queue[id].Live? && cat.RowOf(db.queue[id].job) == Some(r);
        assert Names(cat, db.queue[id].job, r);
      }
    }
  }

  /** The rows of a reconcile, from the store alone: an unqueued row is an orphan when its object
      still holds its source text, and stale otherwise. */
  lemma OrphansAndStale(cat: Catalog, db: Db)
    ensures forall r :: r in OrphanRows(cat, db) <==> Unqueued(cat, db, r) && HasOwnText(cat, db.objects, r)
    ensures forall r :: r in StaleRows(cat, db) <==> Unqueued(cat, db, r) && !HasOwnText(cat, db.objects, r)
  {
    forall r ensures r in OrphanRows(cat, db) <==> Unqueued(cat, db, r) && HasOwnText(cat, db.objects, r) {
      UnqueuedIs(cat, db, r);
    }
    forall r ensures r in StaleRows(cat, db) <==> Unqueued(cat, db, r) && !HasOwnText(cat, db.objects, r) {
      UnqueuedIs(cat, db, r);
    }
  }

  ghost predicate Listing(rows: seq<Row>, s: set<Row>) {
    && (forall i, j :: 0 <= i < j < |rows| ==> rows[i] != rows[j])
    && (forall r :: r in rows <==> r in s)
  }

  function JobsFor(cat: Catalog, rows: seq<Row>): (jobs: seq<Job>)
    requires forall r :: r in rows ==> cat.Vectorizes(r)
    ensures |jobs| == |rows|
    ensures forall i :: 0 <= i < |rows| ==> jobs[i] == cat.JobFor(rows[i])
  {
    if rows == [] then [] else [cat.JobFor(rows[0])] + JobsFor(cat, rows[1..])
  }

  ghost function Greatest(s: set<nat>): (m: nat)
    requires s != {}
    ensures m in s && forall x :: x in s ==> x <= m
  {
    var x :| x in s;
    if s == {x} then x else
      assert s == (s - {x}) + {x};
      var m := Greatest(s - {x});
      if m < x then x else m
  }

  /** Recovered at open: one past the highest id still on the queue. */
  ghost function NextJobId(q: map<nat, Entry>): (next: nat)
    ensures forall id :: id in q ==> id < next
  {
    if q.Keys == {} then 1 else Greatest(q.Keys) + 1
  }

  /** An enqueue's transaction makes its rows `Pending` and queued, and uncovers no other row. */
  lemma PutJobsQueues(cat: Catalog, db: Db, first: nat, jobs: seq<Job>)
    requires forall id :: id in db.queue ==> !(first <= id < first + |jobs|)
    ensures QueuedRows(cat, PutJobs(cat, db, first, jobs).queue) == QueuedRows(cat, db.queue) + RowsOf(cat, jobs)
  {
    var q, q' := db.queue, PutJobs(cat, db, first, jobs).queue;
    EntriesAt(first, jobs);
    assert forall id :: id in q ==> q'[id] == q[id];
    forall r | r in RowsOf(cat, jobs) ensures r in QueuedRows(cat, q') {
      var i :| 0 <= i < |jobs| && cat.RowOf(jobs[i]) == Some(r);
      assert q'[first + i] == Live(jobs[i]);
    }
    forall r | r in QueuedRows(cat, q') ensures r in QueuedRows(cat, q) + RowsOf(cat, jobs) {
      var id :| id in q' && q'[id].Live? && cat.RowOf(q'[id].job) == Some(r);
      if id !in q {
        assert jobs[id - first] == q'[id].job;
      }
    }
  }

  lemma JobsForRows(cat: Catalog, rows: seq<Row>)
    requires cat.Valid() && forall r :: r in rows ==> cat.Vectorizes(r)
    ensures RowsOf(cat, JobsFor(cat, rows)) == set r | r in rows
  {
    var jobs := JobsFor(cat, rows);
    forall i | 0 <= i < |rows| ensures cat.RowOf(jobs[i]) == Some(rows[i]) && cat.WellBuilt(jobs[i]) {
      cat.JobForResolves(rows[i]);
    }
    forall r | r in rows ensures r in RowsOf(cat, jobs) {
      var i :| 0 <= i < |rows| && rows[i] == r;
      assert cat.RowOf(jobs[i]) == Some(r);
    }
  }

  /** What a reconcile commits: the stale states deleted, then the orphans, listed once each in
      some order, enqueued from `first`. */
  ghost predicate ReconcileResult(cat: Catalog, db: Db, first: nat, orphans: seq<Row>, db': Db) {
    && Listing(orphans, OrphanRows(cat, db))
    && db' == PutJobs(cat, DeleteStates(db, StaleRows(cat, db)), first, JobsFor(cat, orphans))
  }

  /** The rows a reconcile enqueues are `Pending` already: its states are the old ones less the stale. */
  lemma ReconcileStates(cat: Catalog, db: Db, first: nat, orphans: seq<Row>, db': Db)
    requires cat.Valid() && ReconcileResult(cat, db, first, orphans, db')
    ensures db'.state == db.state - StaleRows(cat, db)
  {
    var kept := db.state - StaleRows(cat, db);
    JobsForRows(cat, orphans);
    forall r | r in RowsOf(cat, JobsFor(cat, orphans)) ensures r in kept && kept[r] == Pending {
      assert r in OrphanRows(cat, db);
    }
    PutPendingAgain(kept, RowsOf(cat, JobsFor(cat, orphans)));
  }

  lemma PutPendingAgain(state: map<Row, VectorState>, rows: set<Row>)
    requires forall r :: r in rows ==> r in state && state[r] == Pending
    ensures state + (map r | r in rows :: Pending) == state
  {
  }

  lemma ReconcileQueues(cat: Catalog, db: Db, first: nat, orphans: seq<Row>, db': Db)
    requires cat.Valid() && ReconcileResult(cat, db, first, orphans, db')
    requires forall id :: id in db.queue ==> id < first
    ensures QueuedRows(cat, db'.queue) == QueuedRows(cat, db.queue) + OrphanRows(cat, db)
  {
    JobsForRows(cat, orphans);
    PutJobsQueues(cat, DeleteStates(db, StaleRows(cat, db)), first, JobsFor(cat, orphans));
  }

  /** Reconcile is exact: one new entry per orphan, built from its field's template, and no other;
      the stale states deleted and no other, nothing else touched, and no `Pending` row left without
      an entry. */
  lemma ReconcileExact(cat: Catalog, db: Db, first: nat, orphans: seq<Row>, db': Db)
    requires cat.Valid() && ReconcileResult(cat, db, first, orphans, db')
    requires forall id :: id in db.queue ==> id < first
    ensures db'.vectors == db.vectors && db'.objects == db.objects
    ensures forall r :: r in orphans <==> Unqueued(cat, db, r) && HasOwnText(cat, db.objects, r)
    ensures forall r :: r in db'.state <==>
      r in db.state && !(Unqueued(cat, db, r) && !HasOwnText(cat, db.objects, r))
    ensures forall r :: r in db'.state ==> db'.state[r] == db.state[r]
    ensures forall id: nat :: id in db'.queue <==> id in db.queue || first <= id < first + |orphans|
    ensures forall id :: id in db.queue ==> db'.queue[id] == db.queue[id]
    ensures forall i :: 0 <= i < |orphans| ==> IsEntryFor(cat, orphans[i], db'.queue[first + i])
    ensures forall r :: !Unqueued(cat, db', r)
  {
    OrphansAndStale(cat, db);
    ReconcileStates(cat, db, first, orphans, db');
    OrphanJobs(cat, db, orphans);
    EnqueuedEntries(cat, DeleteStates(db, StaleRows(cat, db)), first, JobsFor(cat, orphans));
    ReconcileCovers(cat, db, first, orphans, db');
    forall r ensures !Unqueued(cat, db', r) { UnqueuedIs(cat, db', r); }
  }

  /** A live entry whose job is the row's object under its field's template, naming the row. */
  ghost predicate IsEntryFor(cat: Catalog, r: Row, entry: Entry) {
    && (r.typeId, r.fieldId) in cat.templates
    && var t := cat.templates[(r.typeId, r.fieldId)];
    && entry == Live(Job(t.typeName, r.objectId, t.sourceField, t.vectorField, t.model))
    && Names(cat, entry.job, r)
  }

  lemma OrphanJobs(cat: Catalog, db: Db, orphans: seq<Row>)
    requires cat.Valid() && Listing(orphans, OrphanRows(cat, db))
    ensures forall i :: 0 <= i < |orphans| ==>
      cat.Vectorizes(orphans[i]) && cat.RowOf(cat.JobFor(orphans[i])) == Some(orphans[i])
  {
    forall i | 0 <= i < |orphans|
      ensures cat.Vectorizes(orphans[i]) && cat.RowOf(cat.JobFor(orphans[i])) == Some(orphans[i]) {
      assert orphans[i] in OrphanRows(cat, db);
      cat.JobForResolves(orphans[i]);
    }
  }

  lemma EnqueuedEntries(cat: Catalog, db: Db, first: nat, jobs: seq<Job>)
    requires forall id :: id in db.queue ==> id < first
    ensures var q := PutJobs(cat, db, first, jobs).queue;
      && (forall id: nat :: id in q <==> id in db.queue || first <= id < first + |jobs|)
      && (forall id :: id in db.queue ==> q[id] == db.queue[id])
      && (forall i :: 0 <= i < |jobs| ==> q[first + i] == Live(jobs[i]))
  {
    EntriesAt(first, jobs);
  }

  lemma ReconcileCovers(cat: Catalog, db: Db, first: nat, orphans: seq<Row>, db': Db)
    requires cat.Valid() && ReconcileResult(cat, db, first, orphans, db')
    requires forall id :: id in db.queue ==> id < first
    ensures UnqueuedPending(cat, db') == {}
  {
    ReconcileStates(cat, db, first, orphans, db');
    ReconcileQueues(cat, db, first, orphans, db');
  }

  lemma PutNothing(cat: Catalog, db: Db, first: nat)
    ensures PutJobs(cat, db, first, []) == db
  {
    assert RowsOf(cat, []) == {};
  }

  lemma ListingInhabited(rows: seq<Row>, s: set<Row>)
    requires Listing(rows, s) && rows != []
    ensures s != {}
  {
    assert rows[0] in s;
  }

  /** With every `Pending` row queued, a reconcile finds nothing and changes nothing. */
  lemma NothingToReconcile(cat: Catalog, db: Db, first: nat, orphans: seq<Row>, db': Db)
    requires UnqueuedPending(cat, db) == {} && ReconcileResult(cat, db, first, orphans, db')
    ensures orphans == [] && db' == db
  {
    if orphans != [] {
      ListingInhabited(orphans, OrphanRows(cat, db));
    }
    assert StaleRows(cat, db) == {};
    assert DeleteStates(db, {}) == db;
    PutNothing(cat, db, first);
  }

  /** Reconcile is idempotent: a second run finds nothing and changes nothing. */
  lemma ReconcileIdempotent(cat: Catalog, db: Db, first: nat, orphans: seq<Row>, db': Db,
                            first': nat, orphans': seq<Row>, db'': Db)
    requires cat.Valid() && ReconcileResult(cat, db, first, orphans, db')
    requires forall id :: id in db.queue ==> id < first
    requires ReconcileResult(cat, db', first', orphans', db'')
    ensures orphans' == [] && db'' == db'
  {
    ReconcileCovers(cat, db, first, orphans, db');
    NothingToReconcile(cat, db', first', orphans', db'');
  }

  /** The scan of `reconcile_pending_jobs`: collect the rows the queue covers, then sort every
      `Pending` row of a `@vectorize` field into orphan or stale. */
  method FindOrphans(cat: Catalog, db: Db) returns (orphans: seq<Row>, stale: set<Row>)
    ensures Listing(orphans, OrphanRows(cat, db))
    ensures stale == StaleRows(cat, db)
    ensures forall r :: r in orphans <==> Unqueued(cat, db, r) && HasOwnText(cat, db.objects, r)
    ensures forall r :: r in stale <==> Unqueued(cat, db, r) && !HasOwnText(cat, db.objects, r)
  {
    OrphansAndStale(cat, db);
    var queued: set<Row> := {};
    var ids := db.queue.Keys;
    while ids != {}
      invariant ids <= db.queue.Keys
      invariant queued == QueuedRows(cat, map id | id in db.queue && id !in ids :: db.queue[id])
      decreases ids
    {
      var id :| id in ids;
      ghost var seen := map k | k in db.queue && k !in ids :: db.queue[k];
      var entry := db.queue[id];
      if entry.Live? && cat.RowOf(entry.job).Some? {
        queued := queued + {cat.RowOf(entry.job).value};
      }
      ids := ids - {id};
      QueuedAdd(cat, seen, id, entry);
      assert seen[id := entry] == map k | k in db.queue && k !in ids :: db.queue[k];
    }
    assert (map id | id in db.queue && id !in ids :: db.queue[id]) == db.queue;

    orphans, stale := [], {};
    var rows := db.state.Keys;
    while rows != {}
      invariant rows <= db.state.Keys
      invariant forall i, j :: 0 <= i < j < |orphans| ==> orphans[i] != orphans[j]
      invariant forall r :: r in orphans <==> r in OrphanRows(cat, db) && r !in rows
      invariant forall r :: r in stale <==> r in StaleRows(cat, db) && r !in rows
      decreases rows
    {
      var r :| r in rows;
      rows := rows - {r};
      if db.state[r] == Pending && cat.Vectorizes(r) && r !in queued {
        if SourceText(cat, db.objects, r).Some? {
          orphans := orphans + [r];
        } else {
          stale := stale + {r};
        }
      }
    }
  }

  lemma QueuedAdd(cat: Catalog, q: map<nat, Entry>, id: nat, entry: Entry)
    requires id !in q
    ensures QueuedRows(cat, q[id := entry]) == QueuedRows(cat, q) +
      if entry.Live? && cat.RowOf(entry.job).Some? then {cat.RowOf(entry.job).value} else {}
  {
    var q' := q[id := entry];
    forall r | r in QueuedRows(cat, q) ensures r in QueuedRows(cat, q') {
      var k :| k in q && q[k].Live? && cat.RowOf(q[k].job) == Some(r);
      assert q'[k] == q[k];
    }
    assert q'[id] == entry;
  }

  /** Recover the next job id at open: scan the queue for the highest id. */
  method RecoverNextJobId(q: map<nat, Entry>) returns (next: nat)
    ensures next == NextJobId(q)
  {
    var max, rest := 0, q.Keys;
    while rest != {}
      invariant rest <= q.Keys
      invariant forall id :: id in q && id !in rest ==> id <= max
      invariant max == 0 || max in q
      decreases rest
    {
      var id :| id in rest;
      if max < id { max := id; }
      rest := rest - {id};
    }
    next := max + 1;
    assert q.Keys != {} ==> Greatest(q.Keys) == max;
  }
}
