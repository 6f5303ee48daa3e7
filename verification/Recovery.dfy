/** The recovery harness: open over the durable state of any point of any run, process to a
    fixpoint, and check the outcome row by row. What the harness does is itself a continuation of
    the run. */
module Recovery {
  import opened Prelude
  import opened Store
  import opened ClaimWalk
  import opened Reconcile
  import opened Processing
  import opened VectorQueue
  import opened QueueSafety
  import opened CrashRecovery
  import opened Drain
  import opened VectorizerClass
  import opened Sequential

  // ---- The queue, listed ----

  /** A claim takes the first jobs of the queue and leaves the others as they were. */
  lemma ClaimTakesPrefix(q: map<nat, Entry>, bound: nat, n: nat, ids: seq<nat>, jobs: seq<Job>, q': map<nat, Entry>)
    requires ids == FirstLive(q, 0, bound, n) && JobsAt(q, ids, jobs)
    requires q' == q - set id | id in ids
    ensures var all := LiveJobs(q, 0, bound);
      jobs == all[..Min(n, |all|)] && LiveJobs(q', 0, bound) == all[Min(n, |all|)..]
  {
    var m := Min(n, |LiveIds(q, 0, bound)|);
    DeletePrefix(q, bound, m);
    LiveJobsAt(q, 0, bound);
    LiveJobsAt(q', 0, bound);
    assert forall i :: 0 <= i < |ids| ==> ids[i] == LiveIds(q, 0, bound)[i];
    assert forall i :: 0 <= i < |LiveIds(q', 0, bound)| ==> LiveIds(q', 0, bound)[i] == LiveIds(q, 0, bound)[m + i];
  }

  /** `taken` of the jobs first queued have been claimed, the others are still queued. */
  ghost predicate Listed(q: map<nat, Entry>, bound: nat, all: seq<Job>, taken: nat) {
    taken <= |all| && LiveJobs(q, 0, bound) == all[taken..]
  }

  /** A pass takes the next batch off the listing. */
  lemma TakesNext(q: map<nat, Entry>, q': map<nat, Entry>, bound: nat, n: nat, all: seq<Job>, taken: nat,
                  ids: seq<nat>, jobs: seq<Job>)
    requires Listed(q, bound, all, taken) && ids == FirstLive(q, 0, bound, n) && JobsAt(q, ids, jobs)
    requires q' == q - set id | id in ids
    ensures var next := taken + Min(n, |all| - taken); Listed(q', bound, all, next) && jobs == all[taken..next]
  {
    ClaimTakesPrefix(q, bound, n, ids, jobs, q');
    var k := Min(n, |all| - taken);
    assert all[taken..][k..] == all[taken + k..] && all[taken..][..k] == all[taken..taken + k];
  }

  lemma QueueExhausted(c: Config, s: Sys, bound: nat)
    requires SysInv(c, s) && LiveJobs(s.db.queue, 0, bound) == [] && forall id :: id in s.db.queue ==> id < bound
    ensures s.db.queue == map[]
  {
    LiveIdsExact(s.db.queue, 0, bound);
    LiveJobsAt(s.db.queue, 0, bound);
    forall id: nat ensures id !in s.db.queue {
      assert id !in LiveIds(s.db.queue, 0, bound);
    }
  }

  // ---- The harness ----

  /** What the harness keeps from pass to pass: the object agrees with a state of the run, nothing
      is in hand, and nothing was given up. */
  ghost predicate Recovering(c: Config, v: Vectorizer, s: Sys)
    reads v
  {
    Coupled(c, v, s) && SysInv(c, s) && s.session.ram.hand == map[] && s.session.ram.dropped == {}
  }

  lemma LoadingNeverRequeues(cat: Catalog, objects: Objects, jobs: seq<Job>, embedder: Embedder, log: seq<Commit>)
    requires Loads(embedder) && forall commit :: commit in log ==> Justified(cat, objects, jobs, embedder, commit)
    ensures forall i :: 0 <= i < |log| ==> !log[i].Requeue?
  {
    forall i | 0 <= i < |log| ensures !log[i].Requeue? {
      assert log[i] in log;
    }
  }

  /** A healthy embedder's transactions store or clear. */
  lemma HealthyNeverFails(c: Config, objects: Objects, jobs: seq<Job>, embedder: Embedder, log: seq<Commit>)
    requires forall commit :: commit in log ==> Justified(c.cat, objects, jobs, embedder, commit)
    ensures Healthy(embedder, c.embed) ==> forall i :: 0 <= i < |log| ==> log[i].StoreVector? || log[i].ClearStates?
  {
    forall i | Healthy(embedder, c.embed) && 0 <= i < |log| ensures log[i].StoreVector? || log[i].ClearStates? {
      assert log[i] in log;
    }
  }

  /** Recovery commits no new rows, and with a healthy embedder fails none. */
  ghost predicate SameOutcome(embedder: Embedder, c: Config, h: History, h': History) {
    h'.committed == h.committed && (Healthy(embedder, c.embed) ==> h' == h)
  }

  lemma {:induction false} QuietLogKeepsQueue(cat: Catalog, db: Db, log: seq<Commit>)
    requires forall i :: 0 <= i < |log| ==> !log[i].Requeue?
    ensures ApplyAll(cat, db, log).queue == db.queue && ApplyAll(cat, db, log).objects == db.objects
  {
    if log == [] {
    } else {
      QuietLogKeepsQueue(cat, db, log[..|log| - 1]);
    }
  }

  /** One `process_pending` with models that load: it takes exactly the next batch off the queue,
      never reports an unavailable model, and returns 0 exactly when the batch is not productive. */
  method Pass(v: Vectorizer, embedder: Embedder, ghost c: Config, ghost s: Sys, ghost all: seq<Job>, ghost taken: nat)
    returns (processed: nat, ghost steps: seq<Step>, ghost t: Sys)
    requires Recovering(c, v, s) && Faithful(embedder, c.embed) && Loads(embedder)
    requires Listed(s.db.queue, s.session.ram.nextId, all, taken)
    modifies v
    ensures Recovering(c, v, t) && Path(c, s, steps, t)
    ensures t.db.objects == s.db.objects && t.session.ram.nextId == s.session.ram.nextId
    ensures SameOutcome(embedder, c, s.history, t.history)
    ensures var next := taken + Min(c.batchSize, |all| - taken);
      && Listed(t.db.queue, t.session.ram.nextId, all, next)
      && (processed > 0 <==> ProductiveFor(c.cat, s.db.objects, embedder)(all[taken..next]))
  {
    ghost var ids, jobs, log;
    var unavailable;
    processed, unavailable, ids, jobs, log, steps, t := Passes(v, embedder, c, s);
    assert SysInv(c, t) by { PathKeeps(c, s, steps, t); }
    LoadingNeverRequeues(c.cat, s.db.objects, jobs, embedder, log);
    HealthyNeverFails(c, s.db.objects, jobs, embedder, log);
    assert !unavailable;
    PassTakesNext(c, s.db, t.db, s.session.ram.nextId, ids, jobs, log, all, taken);
    ProductiveIff(c.cat, s.db.objects, embedder, jobs);
  }

  lemma PassTakesNext(c: Config, db: Db, db': Db, bound: nat, ids: seq<nat>, jobs: seq<Job>, log: seq<Commit>,
                      all: seq<Job>, taken: nat)
    requires Listed(db.queue, bound, all, taken) && ids == FirstLive(db.queue, 0, bound, c.batchSize)
    requires JobsAt(db.queue, ids, jobs)
    requires db' == ApplyAll(c.cat, DeleteEntries(db, ids), log) && forall i :: 0 <= i < |log| ==> !log[i].Requeue?
    ensures var next := taken + Min(c.batchSize, |all| - taken);
      Listed(db'.queue, bound, all, next) && jobs == all[taken..next]
    ensures db'.objects == db.objects && NextAfter(log, bound) == bound
  {
    QuietLogKeepsQueue(c.cat, DeleteEntries(db, ids), log);
    NoRequeue(log, bound);
    TakesNext(db.queue, db'.queue, bound, c.batchSize, all, taken, ids, jobs);
  }

  lemma ProductiveIff(cat: Catalog, objects: Objects, embedder: Embedder, jobs: seq<Job>)
    ensures ProductiveFor(cat, objects, embedder)(jobs) <==> !forall job :: job in jobs ==>
      Quiet(cat, objects, jobs, embedder, job)
  {
  }

  /** What the drain loop keeps: the continuation of the run, and the stop it is headed for. */
  ghost predicate Driving(c: Config, v: Vectorizer, embedder: Embedder, all: seq<Job>, s: Sys, steps: seq<Step>,
                          t: Sys, taken: nat, more: bool)
    reads v
  {
    && Recovering(c, v, t) && Path(c, s, steps, t)
    && t.db.objects == s.db.objects && s.session.Up? && t.session.ram.nextId == s.session.ram.nextId
    && Listed(t.db.queue, t.session.ram.nextId, all, taken) && SameOutcome(embedder, c, s.history, t.history)
    && Heading(ProductiveFor(c.cat, s.db.objects, embedder), all, c.batchSize, taken, more)
  }

  method Advance(v: Vectorizer, embedder: Embedder, ghost c: Config, ghost all: seq<Job>,
                 ghost s: Sys, ghost steps: seq<Step>, ghost t: Sys, ghost taken: nat)
    returns (processed: nat, ghost steps': seq<Step>, ghost t': Sys, ghost taken': nat)
    requires Faithful(embedder, c.embed) && Loads(embedder)
    requires Driving(c, v, embedder, all, s, steps, t, taken, true)
    modifies v
    ensures Driving(c, v, embedder, all, s, steps', t', taken', processed > 0)
    ensures processed > 0 ==> taken < taken'
  {
    taken' := taken + Min(c.batchSize, |all| - taken);
    HeadingStep(ProductiveFor(c.cat, s.db.objects, embedder), all, c.batchSize, taken, taken');
    ghost var more;
    processed, more, t' := Pass(v, embedder, c, t, all, taken);
    steps' := steps + more;
    assert Path(c, s, steps', t') by { PathJoin(c, s, steps, t, more, t'); }
  }

  /** Looping `process_pending` until it returns 0 continues the run, and takes exactly as many
      entries off the queue as the reference says. */
  method DriveToFixpoint(v: Vectorizer, embedder: Embedder, ghost c: Config, ghost s: Sys, ghost all: seq<Job>)
    returns (ghost steps: seq<Step>, ghost t: Sys)
    requires Recovering(c, v, s) && Faithful(embedder, c.embed) && Loads(embedder)
    requires all == LiveJobs(s.db.queue, 0, s.session.ram.nextId)
    modifies v
    ensures Recovering(c, v, t) && Path(c, s, steps, t)
    ensures t.db.objects == s.db.objects && t.session.ram.nextId == s.session.ram.nextId
    ensures SameOutcome(embedder, c, s.history, t.history)
    ensures Listed(t.db.queue, t.session.ram.nextId, all, Consumed(ProductiveFor(c.cat, s.db.objects, embedder), all,
      c.batchSize))
  {
    ghost var taken: nat := 0;
    steps, t := [], s;
    assert all[0..] == all;
    var processed := 1;
    while processed > 0
      invariant Driving(c, v, embedder, all, s, steps, t, taken, processed > 0)
      decreases processed > 0, |all| - taken
    {
      processed, steps, t, taken := Advance(v, embedder, c, all, s, steps, t, taken);
    }
  }

  /** The jobs queued when a vectorizer has opened: those left on the queue, and the orphans. */
  ghost predicate StartsFrom(cat: Catalog, db: Db, queued: seq<Job>) {
    exists orphans, start ::
      && ReconcileResult(cat, db, NextJobId(db.queue), orphans, start)
      && queued == LiveJobs(start.queue, 0, NextJobId(db.queue) + |orphans|)
  }

  lemma StartsFromReconciled(cat: Catalog, db: Db, orphans: seq<Row>, start: Db, bound: nat)
    requires ReconcileResult(cat, db, NextJobId(db.queue), orphans, start) && bound == NextJobId(db.queue) + |orphans|
    ensures StartsFrom(cat, db, LiveJobs(start.queue, 0, bound))
  {
  }

  /** Every row whose enqueue committed has converged. */
  ghost predicate AllConverged(c: Config, db: Db, h: History) {
    forall r :: r in h.committed ==> RowConverged(c, db, h, r)
  }

  ghost predicate AllHaveText(c: Config, objects: Objects, h: History) {
    forall r :: r in h.committed ==> HasOwnText(c.cat, objects, r)
  }

  /** Every committed row is indexed under the embedding of its own text, durably and in the index. */
  ghost predicate AllIndexed(c: Config, db: Db, index: map<Row, Vector>, h: History) {
    forall r :: r in h.committed ==>
      && r in db.state && db.state[r] == Indexed
      && r in db.vectors && OwnVector(c, db.objects, r, db.vectors[r])
      && r in index && index[r] == db.vectors[r]
  }

  /** A crash, unless the process is down already. */
  lemma CrashPath(c: Config, s: Sys) returns (steps: seq<Step>, t: Sys)
    ensures Path(c, s, steps, t) && t == s.(session := Down)
    ensures forall i :: 0 <= i < |steps| ==> steps[i].Crash?
  {
    t := s.(session := Down);
    if s.session.Down? {
      steps := [];
    } else {
      steps := [Crash];
      PathOne(c, s, Crash, t);
    }
  }

  /** End to end, for every embedder whose models load. Take any point of any run; crash, reopen,
      reconcile, and process until `process_pending` returns 0. That continues the run, to a state
      `t` in which the object agrees with the protocol. The queue is empty there if and only if
      every batch before the last is productive, and then every row whose enqueue committed has
      converged. Every stored vector is in the index. When every committed row has text, no embed
      call of the run failed and the embedder is healthy, all of them end indexed under the
      embedding of their own text, durably and in the index, with nothing queued. */
  method RecoverFromRun(ghost c: Config, ghost run: seq<Sys>, ghost steps: seq<Step>, ghost n: nat,
                        cat: Catalog, batchSize: nat, db: Db, embedder: Embedder)
    returns (v: Vectorizer, ghost queued: seq<Job>, ghost more: seq<Step>, ghost t: Sys)
    requires c.boundFirst && c.cat.Valid() && IsRun(c, run, steps) && n <= |steps|
    requires cat == c.cat && batchSize == c.batchSize && db == run[n].db
    requires Faithful(embedder, c.embed) && Loads(embedder)
    ensures Path(c, run[n], more, t) && Recovering(c, v, t)
    ensures v.db.objects == db.objects && IndexAgrees(v.db, v.index)
    ensures StartsFrom(cat, db, queued)
    ensures v.db.queue == map[] <==> Drains(ProductiveFor(cat, db.objects, embedder), queued, batchSize)
    ensures v.db.queue == map[] ==> AllConverged(c, v.db, t.history)
    ensures SameOutcome(embedder, c, run[n].history, t.history)
    ensures (Healthy(embedder, c.embed) && batchSize > 0 && AllHaveText(c, db.objects, run[n].history)
             && forall i :: 0 <= i < n ==> !steps[i].FailCommit?) ==>
      v.db.queue == map[] && AllIndexed(c, v.db, v.index, t.history)
  {
    RunKeeps(c, run, steps, n);
    ghost var crash, down := CrashPath(c, run[n]);
    ghost var orphans, up, loop;
    v, orphans, up := Open(cat, batchSize, db, c, down);
    PathJoin(c, run[n], crash, down, [OpenClean(orphans), OpenEnqueue], up);
    more := crash + [OpenClean(orphans), OpenEnqueue];
    assert SysInv(c, up) by { PathKeeps(c, run[n], more, up); }
    queued := LiveJobs(v.db.queue, 0, v.nextJobId);
    StartsFromReconciled(cat, db, orphans, v.db, v.nextJobId);
    loop, t := DriveToFixpoint(v, embedder, c, up, queued);
    PathJoin(c, run[n], more, up, loop, t);
    more := more + loop;
    Concluded(c, t, queued, ProductiveFor(cat, db.objects, embedder));
    if Healthy(embedder, c.embed) && batchSize > 0 && AllHaveText(c, db.objects, run[n].history) &&
      forall i :: 0 <= i < n ==> !steps[i].FailCommit?
    {
      NeverFailed(c, run, steps, n);
      HealthyDrains(c, up, embedder, queued);
      ConvergedIndexed(c, v.db, v.index, t.history);
    }
  }

  /** With text everywhere and a healthy embedder every batch is productive. */
  lemma HealthyDrains(c: Config, s: Sys, embedder: Embedder, queued: seq<Job>)
    requires SysInv(c, s) && s.session.Up? && AllHaveText(c, s.db.objects, s.history) && c.batchSize > 0
    requires Healthy(embedder, c.embed) && queued == LiveJobs(s.db.queue, 0, s.session.ram.nextId)
    ensures Drains(ProductiveFor(c.cat, s.db.objects, embedder), queued, c.batchSize)
  {
    var p := ProductiveFor(c.cat, s.db.objects, embedder);
    forall lo, hi | 0 <= lo < hi <= |queued| ensures p(queued[lo..hi]) {
      var job := queued[lo];
      assert queued[lo..hi][0] == job && job in queued[lo..hi];
      QueuedHasText(c, s, queued, lo);
      assert !Quiet(c.cat, s.db.objects, queued[lo..hi], embedder, job);
    }
    AllProductiveDrains(p, queued, c.batchSize);
  }

  lemma QueuedHasText(c: Config, s: Sys, queued: seq<Job>, i: nat)
    requires SysInv(c, s) && s.session.Up? && AllHaveText(c, s.db.objects, s.history)
    requires queued == LiveJobs(s.db.queue, 0, s.session.ram.nextId) && i < |queued|
    ensures JobText(c.cat, s.db.objects, queued[i]).Some?
  {
    var live := LiveIds(s.db.queue, 0, s.session.ram.nextId);
    LiveJobsAt(s.db.queue, 0, s.session.ram.nextId);
    assert s.db.queue[live[i]] == Live(queued[i]) && Enqueued(c.cat, s.history, queued[i]);
    JobTextIsSource(c.cat, s.db.objects, queued[i]);
    SourceTextIs(c.cat, s.db.objects, RowFor(c.cat, queued[i]));
  }

  lemma ConvergedIndexed(c: Config, db: Db, index: map<Row, Vector>, h: History)
    requires AllConverged(c, db, h) && AllHaveText(c, db.objects, h) && h.failed == {} && IndexAgrees(db, index)
    ensures AllIndexed(c, db, index, h)
  {
    forall r | r in h.committed ensures r in db.state && db.state[r] == Indexed {
      assert RowConverged(c, db, h, r);
    }
  }

  /** What the fixpoint says, given what was queued at the start. */
  lemma Concluded(c: Config, t: Sys, queued: seq<Job>, p: Productive)
    requires SysInv(c, t) && t.session.Up? && t.session.ram.hand == map[] && t.session.ram.dropped == {}
    requires Listed(t.db.queue, t.session.ram.nextId, queued, Consumed(p, queued, c.batchSize))
    ensures t.db.queue == map[] <==> Drains(p, queued, c.batchSize)
    ensures t.db.queue == map[] ==> AllConverged(c, t.db, t.history)
    ensures IndexAgrees(t.db, t.session.ram.index)
  {
    var bound := t.session.ram.nextId;
    DrainsIff(p, queued, c.batchSize);
    LiveJobsAt(t.db.queue, 0, bound);
    assert |LiveJobs(t.db.queue, 0, bound)| == |queued| - Consumed(p, queued, c.batchSize);
    if t.db.queue == map[] {
      LiveIdsEmpty(t.db.queue, 0, bound);
      forall r | r in t.history.committed ensures RowConverged(c, t.db, t.history, r) {
        DrainedConverged(c, t, r);
      }
    } else if LiveJobs(t.db.queue, 0, bound) == [] {
      QueueExhausted(c, t, bound);
    }
    IndexInvAgrees(c, t.db, t.history, t.session.ram);
  }

  // ---- "0 means the queue was empty" ----

  /** The store after one enqueue of two jobs, with nothing but the second one's object written. */
  function TwoJobs(cat: Catalog, a: Job, b: Job, key: ObjectKey, fields: map<string, FieldValue>): Db {
    PutJobs(cat, Db(map[], map[], map[], map[key := fields]), 1, [a, b])
  }

  /** It is reachable. */
  lemma TwoJobsRun(c: Config, a: Job, b: Job, key: ObjectKey, fields: map<string, FieldValue>)
    returns (run: seq<Sys>, steps: seq<Step>)
    requires c.cat.WellBuilt(a) && c.cat.WellBuilt(b)
    ensures IsRun(c, run, steps) && run[|steps|].db == TwoJobs(c.cat, a, b, key, fields)
  {
    var s, o, u := Lone(EMPTY, Down, {}, {}), Lone(EMPTY, Opening([]), {}, {}), Lone(EMPTY, Up(FreshRam(1, map[], 0,
      Idle)), {}, {});
    OpenEmpty(c);
    PathTwo(c, s, OpenClean([]), o, OpenEnqueue, u);
    var w := u.(db := u.db.(objects := map[key := fields]));
    assert Next(c, u, WriteObject(key, fields), w) by { assert EMPTY.objects[key := fields] == map[key := fields]; }
    PathOne(c, u, WriteObject(key, fields), w);
    PathJoin(c, s, [OpenClean([]), OpenEnqueue], u, [WriteObject(key, fields)], w);
    var prefix := [OpenClean([]), OpenEnqueue] + [WriteObject(key, fields)];
    var more, t := EnqueuePath(c, w, [a, b], {});
    PathJoin(c, s, prefix, w, more, t);
    assert IsRun(c, [s], []);
    run := PathExtends(c, [s], [], prefix + more, t);
    steps := [] + (prefix + more);
  }

  /** Reopened over it, the queue lists the two jobs in order. */
  lemma TwoJobsQueued(cat: Catalog, a: Job, b: Job, key: ObjectKey, fields: map<string, FieldValue>, queued: seq<Job>)
    requires cat.Valid() && cat.WellBuilt(a) && cat.WellBuilt(b)
    requires StartsFrom(cat, TwoJobs(cat, a, b, key, fields), queued)
    ensures queued == [a, b]
  {
    var db := TwoJobs(cat, a, b, key, fields);
    TwoEntries(cat, a, b, key, fields);
    TwoJobsCovered(cat, a, b, db);
    NothingOrphaned(cat, db, queued);
    TwoLiveJobs(db.queue, a, b);
  }

  lemma NothingOrphaned(cat: Catalog, db: Db, queued: seq<Job>)
    requires UnqueuedPending(cat, db) == {} && StartsFrom(cat, db, queued)
    ensures queued == LiveJobs(db.queue, 0, NextJobId(db.queue))
  {
    var orphans, start :| ReconcileResult(cat, db, NextJobId(db.queue), orphans, start)
      && queued == LiveJobs(start.queue, 0, NextJobId(db.queue) + |orphans|);
    NothingToReconcile(cat, db, NextJobId(db.queue), orphans, start);
  }

  /** The queue holds `a` and `b` under ids 1 and 2. */
  ghost predicate HoldsTwo(q: map<nat, Entry>, a: Job, b: Job) {
    q.Keys == {1, 2} && q[1] == Live(a) && q[2] == Live(b)
  }

  lemma TwoEntries(cat: Catalog, a: Job, b: Job, key: ObjectKey, fields: map<string, FieldValue>)
    ensures HoldsTwo(TwoJobs(cat, a, b, key, fields).queue, a, b)
    ensures TwoJobs(cat, a, b, key, fields).state.Keys == RowsOf(cat, [a, b])
  {
    EntriesAt(1, [a, b]);
    assert Entries(1, [a, b]).Keys == {1, 2};
  }

  lemma TwoJobsCovered(cat: Catalog, a: Job, b: Job, db: Db)
    requires HoldsTwo(db.queue, a, b) && db.state.Keys == RowsOf(cat, [a, b])
    ensures UnqueuedPending(cat, db) == {}
  {
    forall r | r in db.state ensures r in QueuedRows(cat, db.queue) {
      var i :| 0 <= i < |[a, b]| && cat.RowOf([a, b][i]) == Some(r);
      assert db.queue[i + 1] == Live([a, b][i]);
    }
  }

  lemma TwoLiveJobs(q: map<nat, Entry>, a: Job, b: Job)
    requires HoldsTwo(q, a, b)
    ensures NextJobId(q) == 3 && LiveJobs(q, 0, 3) == [a, b]
  {
    assert Greatest(q.Keys) == 2;
    assert LiveJobs(q, 2, 3) == [b];
    assert LiveJobs(q, 1, 3) == [a, b];
  }

  /** "`Ok(0)` means the queue was empty" fails: over a reachable store whose queue is a job without
      text followed by one with text, with a batch size of 1 and any embedder that loads, the loop
      ends with the second job still queued. */
  method StopsEarly(cat: Catalog, a: Job, b: Job, fields: map<string, FieldValue>, embedder: Embedder, ghost c: Config)
    returns (v: Vectorizer)
    requires c.cat == cat && c.batchSize == 1 && c.boundFirst && cat.Valid() && cat.WellBuilt(a) && cat.WellBuilt(b)
    requires KeyOf(RowFor(cat, a)) != KeyOf(RowFor(cat, b)) && b.sourceField in fields && fields[b.sourceField].Text?
    requires Faithful(embedder, c.embed) && Loads(embedder)
    ensures v.db.queue != map[] && JobText(cat, v.db.objects, a).None? && JobText(cat, v.db.objects, b).Some?
  {
    var key := KeyOf(RowFor(cat, b));
    var db := TwoJobs(cat, a, b, key, fields);
    ghost var run, steps := TwoJobsRun(c, a, b, key, fields);
    ghost var queued, more, t;
    v, queued, more, t := RecoverFromRun(c, run, steps, |steps|, cat, 1, db, embedder);
    TwoJobsQueued(cat, a, b, key, fields, queued);
    TwoTexts(cat, db.objects, a, b, fields);
    TextlessFirst(cat, db.objects, embedder, a, b);
  }

  lemma TwoTexts(cat: Catalog, objects: Objects, a: Job, b: Job, fields: map<string, FieldValue>)
    requires cat.WellBuilt(a) && cat.WellBuilt(b) && objects == map[KeyOf(RowFor(cat, b)) := fields]
    requires KeyOf(RowFor(cat, a)) != KeyOf(RowFor(cat, b)) && b.sourceField in fields && fields[b.sourceField].Text?
    ensures JobText(cat, objects, a).None? && JobText(cat, objects, b).Some?
  {
  }

  lemma TextlessFirst(cat: Catalog, objects: Objects, embedder: Embedder, a: Job, b: Job)
    requires JobText(cat, objects, a).None?
    ensures !Drains(ProductiveFor(cat, objects, embedder), [a, b], 1)
  {
    var p := ProductiveFor(cat, objects, embedder);
    ProductiveIff(cat, objects, embedder, [a]);
    assert [a, b][0..1] == [a] && forall job :: job in [a] ==> job == a;
    assert BatchStart(0, 1) == 0 && BatchStart(1, 1) == 1;
    assert DeadBatch(p, [a, b], 1, 0);
  }
}
