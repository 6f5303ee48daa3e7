/** The vectorizer object: the operations of one session, run one at a time. Concurrency and
    crash points are the subject of `VectorQueue`. */
module VectorizerClass {
  import opened Prelude
  import opened Store
  import opened ClaimWalk
  import opened Reconcile
  import opened Processing

  class Vectorizer {
    const cat: Catalog
    const batchSize: nat
    var db: Db
    var nextJobId: nat
    var inflight: set<nat>
    var claimCursor: nat
    var index: map<Row, Vector>

    ghost predicate Valid()
      reads this
    {
      && cat.Valid()
      && inflight == {}
      && claimCursor <= nextJobId
      && (forall id :: id in db.queue ==> id < nextJobId)
      && (forall id :: id in db.queue && db.queue[id].Live? ==> claimCursor <= id)
    }

    /** Open over a durable state with no index snapshot: recover the next id, rebuild the index
        from the stored vectors, repair the orphans. */
    constructor (cat: Catalog, batchSize: nat, db: Db)
      requires cat.Valid()
      ensures Valid()
      ensures this.cat == cat && this.batchSize == batchSize && index == db.vectors && claimCursor == 0
      ensures exists orphans ::
        ReconcileResult(cat, db, NextJobId(db.queue), orphans, this.db) && nextJobId == NextJobId(db.queue) + |orphans|
    {
      this.cat, this.batchSize, this.db := cat, batchSize, db;
      inflight, claimCursor, index := {}, 0, db.vectors;
      var next := RecoverNextJobId(db.queue);
      nextJobId := next;
      new;
      var orphans := ReconcilePendingJobs();
    }

    /** Repair the rows a crash orphaned: delete the stale states, re-enqueue the rest. */
    method ReconcilePendingJobs() returns (orphans: seq<Row>)
      requires Valid()
      modifies this`db, this`nextJobId, this`inflight
      ensures Valid()
      ensures ReconcileResult(cat, old(db), old(nextJobId), orphans, db)
      ensures nextJobId == old(nextJobId) + |orphans|
    {
      var stale: set<Row>;
      orphans, stale := FindOrphans(cat, db);
      db := DeleteStates(db, stale);
      assert forall r :: r in orphans ==> cat.Vectorizes(r);
      var jobs := JobsFor(cat, orphans);
      forall i | 0 <= i < |jobs| ensures cat.RowOf(jobs[i]).Some? {
        assert orphans[i] in orphans;
        cat.JobForResolves(orphans[i]);
      }
      EnqueueMany(jobs);
    }

    /** Enqueue several jobs in one transaction. Names resolve, or the source panics. */
    method EnqueueMany(jobs: seq<Job>)
      requires Valid() && forall i :: 0 <= i < |jobs| ==> cat.RowOf(jobs[i]).Some?
      modifies this`db, this`nextJobId, this`inflight
      ensures Valid()
      ensures JobsPut(cat, old(db), old(nextJobId), jobs, db)
      ensures db == PutJobs(cat, old(db), old(nextJobId), jobs)
      ensures nextJobId == old(nextJobId) + |jobs|
    {
      PutJobsPuts(cat, db, nextJobId, jobs);
      var first := nextJobId;
      if jobs == [] {
        PutNothing(cat, db, first);
        return;
      }
      nextJobId := nextJobId + |jobs|;
      inflight := inflight + {first};
      EntriesAt(first, jobs);
      db := PutJobs(cat, db, first, jobs);
      inflight := inflight - {first};
    }

    /** The lowest in-flight range start, else the next id. */
    method ClaimBound() returns (bound: nat)
      ensures bound == nextJobId || bound in inflight
      ensures bound <= nextJobId && forall f :: f in inflight ==> bound <= f
    {
      bound := nextJobId;
      var rest := inflight;
      while rest != {}
        invariant rest <= inflight
        invariant bound == nextJobId || bound in inflight
        invariant bound <= nextJobId && forall f :: f in inflight && f !in rest ==> bound <= f
        decreases rest
      {
        var f :| f in rest;
        if f < bound { bound := f; }
        rest := rest - {f};
      }
    }

    /** Claim the lowest `batchSize` live entries: delete them and hand out their jobs. */
    method ClaimBatch() returns (ghost ids: seq<nat>, jobs: seq<Job>)
      requires Valid()
      modifies this`db, this`claimCursor
      ensures Valid()
      ensures ids == FirstLive(old(db.queue), 0, nextJobId, batchSize)
      ensures JobsAt(old(db.queue), ids, jobs)
      ensures db == DeleteEntries(old(db), ids)
      ensures WalkResult(old(db.queue), old(claimCursor), nextJobId, batchSize, ids, claimCursor)
    {
      var bound := ClaimBound();
      var snap, start := db.queue, claimCursor;
      var claimed, cursor := WalkWindows(snap, start, bound, batchSize);
      claimCursor := cursor;
      SkipDead(snap, start, bound);
      LiveIdsExact(snap, start, cursor);
      ids := claimed;
      jobs := JobsOf(snap, claimed);
      db := db.(queue := db.queue - set id | id in claimed);
      ClaimLeavesNoneBelow(snap, start, cursor, claimed);
    }

    /** Store one vector after another, each entering the index first. */
    method StoreEach(jobs: seq<Job>, vectors: seq<Vector>) returns (log: seq<Commit>)
      requires Valid() && |jobs| == |vectors| && forall job :: job in jobs ==> cat.RowOf(job).Some?
      modifies this`db, this`index
      ensures VectorsPut(cat, jobs, vectors, old(db), db, old(index), index)
      ensures Valid() && log == StoreAll(jobs, vectors)
      ensures db == ApplyAll(cat, old(db), log) && index == IndexAll(cat, old(index), log)
    {
      log := [];
      for i := 0 to |jobs|
        invariant Valid() && |log| == i && forall j :: 0 <= j < i ==> log[j] == StoreVector(jobs[j], vectors[j])
        invariant db == ApplyAll(cat, old(db), log) && index == IndexAll(cat, old(index), log)
      {
        assert jobs[i] in jobs;
        var row := cat.RowOf(jobs[i]).value;
        index := index[row := vectors[i]];
        db := PutVector(db, row, vectors[i]);
        ghost var before := log;
        log := log + [StoreVector(jobs[i], vectors[i])];
        assert log[..|log| - 1] == before;
      }
      assert log == StoreAll(jobs, vectors);
      StoresWrite(cat, jobs, vectors, old(db), old(index));
    }

    /** Mark one job after another `Failed`, each in a transaction of its own. */
    method MarkBatchFailed(jobs: seq<Job>) returns (log: seq<Commit>)
      requires Valid() && forall job :: job in jobs ==> cat.RowOf(job).Some?
      modifies this`db
      ensures FailuresPut(cat, jobs, old(db), db)
      ensures Valid() && log == FailAll(jobs)
      ensures db == ApplyAll(cat, old(db), log) && index == IndexAll(cat, old(index), log)
    {
      log := [];
      for i := 0 to |jobs|
        invariant Valid() && |log| == i && forall j :: 0 <= j < i ==> log[j] == MarkFailed(jobs[j])
        invariant db == ApplyAll(cat, old(db), log) && index == IndexAll(cat, old(index), log)
      {
        assert jobs[i] in jobs;
        db := PutFailed(db, cat.RowOf(jobs[i]).value);
        ghost var before := log;
        log := log + [MarkFailed(jobs[i])];
        assert log[..|log| - 1] == before;
      }
      assert log == FailAll(jobs);
      FailuresWrite(cat, jobs, old(db));
    }

    /** Pair the jobs with their texts; jobs whose text cannot be read go to a list of their own. */
    method PairWithText(group: seq<Job>) returns (readable: seq<Job>, texts: seq<string>, textless: seq<Job>)
      ensures readable == Readable(cat, db.objects, group) && textless == Unreadables(cat, db.objects, group)
      ensures texts == Texts(cat, db.objects, readable)
      ensures forall j :: 0 <= j < |readable| ==> JobHolds(cat, db.objects, readable[j], texts[j])
      ensures forall job, s :: job in textless ==> !JobHolds(cat, db.objects, job, s)
    {
      readable, texts, textless := [], [], [];
      for i := 0 to |group|
        invariant readable == Readable(cat, db.objects, group[..i])
        invariant textless == Unreadables(cat, db.objects, group[..i])
        invariant |texts| == |readable|
        invariant forall j :: 0 <= j < |readable| ==> JobText(cat, db.objects, readable[j]) == Some(texts[j])
      {
        assert group[..i + 1] == group[..i] + [group[i]];
        ReadableLast(cat, db.objects, group[..i], group[i]);
        var text := JobText(cat, db.objects, group[i]);
        if text.Some? {
          readable, texts := readable + [group[i]], texts + [text.value];
        } else {
          textless := textless + [group[i]];
        }
      }
      assert group[..|group|] == group;
      TextsUnique(cat, db.objects, readable, texts);
      TextsHeld(cat, db.objects, group);
    }

    /** The jobs of each model, in claim order. */
    method GroupByModel(jobs: seq<Job>) returns (groups: map<string, seq<Job>>)
      ensures Grouped(groups, jobs)
    {
      groups := map[];
      for i := 0 to |jobs|
        invariant Grouped(groups, jobs[..i])
      {
        assert jobs[..i + 1] == jobs[..i] + [jobs[i]];
        OneMoreGrouped(groups, jobs[..i], jobs[i]);
        groups := groups[jobs[i].model := GroupIn(groups, jobs[i].model) + [jobs[i]]];
      }
      assert jobs[..|jobs|] == jobs;
    }

    /** Embed a group's texts, then store, fail or re-enqueue its jobs. */
    method EmbedGroup(readable: seq<Job>, texts: seq<string>, model: string, embedder: Embedder)
      returns (log: seq<Commit>)
      requires Valid() && readable != [] && forall job :: job in readable ==> cat.RowOf(job).Some?
      modifies this`db, this`nextJobId, this`inflight, this`index
      ensures Valid() && log == EmbedCommits(readable, embedder(model, texts), old(nextJobId))
      ensures db == ApplyAll(cat, old(db), log) && index == IndexAll(cat, old(index), log)
      ensures nextJobId == old(nextJobId) + if embedder(model, texts).LoadFailed? then |readable| else 0
    {
      match embedder(model, texts)
      case LoadFailed =>
        log := [Requeue(nextJobId, readable)];
        assert log[..0] == [];
        EnqueueMany(readable);
      case EmbedFailed =>
        log := MarkBatchFailed(readable);
      case Answer(vectors) =>
        if |vectors| != |readable| {
          log := MarkBatchFailed(readable);
        } else {
          log := StoreEach(readable, vectors);
        }
    }

    /** Delete the states of jobs without text; a name that does not resolve has none. */
    method ClearOrphanedStates(textless: seq<Job>) returns (log: seq<Commit>)
      requires Valid()
      modifies this`db
      ensures StatesCleared(cat, textless, old(db), db)
      ensures Valid() && log == ClearLog(textless)
      ensures db == ApplyAll(cat, old(db), log) && index == IndexAll(cat, old(index), log)
    {
      log := [];
      if textless != [] {
        log := [ClearStates(textless)];
        assert log[..0] == [];
        db := DeleteStates(db, RowsOf(cat, textless));
      }
      ClearsWrite(cat, textless, old(db));
    }

    /** Process one model's jobs: clear the states of the textless, embed the rest. */
    method ProcessGroup(group: seq<Job>, model: string, embedder: Embedder) returns (log: seq<Commit>)
      requires Valid() && forall job :: job in Readable(cat, db.objects, group) ==> cat.RowOf(job).Some?
      modifies this`db, this`nextJobId, this`inflight, this`index
      ensures Valid()
      ensures var readable := Readable(cat, old(db).objects, group);
        log == CommitsFor(Unreadables(cat, old(db).objects, group), readable,
                          embedder(model, Texts(cat, old(db).objects, readable)), old(nextJobId))
      ensures db == ApplyAll(cat, old(db), log) && index == IndexAll(cat, old(index), log)
      ensures nextJobId == NextAfter(log, old(nextJobId))
    {
      var readable, texts, textless := PairWithText(group);
      log := CommitGroup(textless, readable, texts, model, embedder);
    }

    /** The transactions of a group whose texts have been read. */
    method CommitGroup(textless: seq<Job>, readable: seq<Job>, texts: seq<string>, model: string, embedder: Embedder)
      returns (log: seq<Commit>)
      requires Valid() && forall job :: job in readable ==> cat.RowOf(job).Some?
      modifies this`db, this`nextJobId, this`inflight, this`index
      ensures Valid() && log == CommitsFor(textless, readable, embedder(model, texts), old(nextJobId))
      ensures db == ApplyAll(cat, old(db), log) && index == IndexAll(cat, old(index), log)
      ensures nextJobId == NextAfter(log, old(nextJobId))
    {
      GroupFresh(textless, readable, embedder(model, texts), nextJobId);
      log := ClearOrphanedStates(textless);
      if readable == [] {
        assert log + [] == log;
      } else {
        var more := EmbedGroup(readable, texts, model, embedder);
        ApplyAppend(cat, old(db), log, more);
        IndexAppend(cat, old(index), log, more);
        log := log + more;
      }
    }

    /** Process a claimed batch, one model group after another in any order. The log accounts
        for every claimed job exactly once and each of its transactions is justified. A job whose
        type does not resolve counts as textless. */
    method ProcessBatch(jobs: seq<Job>, embedder: Embedder) returns (log: seq<Commit>)
      requires Valid() && forall job :: job in jobs && job.typeName in cat.typeIds ==> cat.RowOf(job).Some?
      modifies this`db, this`nextJobId, this`inflight, this`index
      ensures Valid() && nextJobId == NextAfter(log, old(nextJobId)) && FreshIds(log, old(nextJobId))
      ensures db == ApplyAll(cat, old(db), log) && index == IndexAll(cat, old(index), log)
      ensures JobsIn(log) == multiset(jobs)
      ensures forall c :: c in log ==> Justified(cat, old(db).objects, jobs, embedder, c)
    {
      log := [];
      var groups := GroupByModel(jobs);
      var models := groups.Keys;
      ghost var done: set<string> := {};
      InModelsNone(jobs);
      while models != {}
        invariant Valid() && done + models == Models(jobs) && done !! models
        invariant nextJobId == NextAfter(log, old(nextJobId))
        invariant db == ApplyAll(cat, old(db), log) && index == IndexAll(cat, old(index), log)
        invariant BatchLog(cat, old(db).objects, jobs, embedder, old(nextJobId), done, log)
        decreases models
      {
        var model :| model in models;
        ApplyKeepsObjects(cat, old(db), log);
        ReadableResolves(cat, db.objects, jobs, model);
        assert GroupIn(groups, model) == Group(jobs, model);
        var commits := ProcessGroup(groups[model], model, embedder);
        GroupDone(cat, old(db).objects, jobs, model, embedder, old(nextJobId), done, log, commits);
        ApplyAppend(cat, old(db), log, commits);
        IndexAppend(cat, old(index), log, commits);
        log := log + commits;
        models, done := models - {model}, done + {model};
      }
      InModelsAll(jobs, done);
    }

    /** Claim and process one batch. Returns the number of vectors stored, 0 for an empty claim;
        `unavailable` is the error return for a batch that stored nothing because a model would
        not load. */
    method ProcessPending(embedder: Embedder)
      returns (processed: nat, unavailable: bool, ghost ids: seq<nat>, ghost jobs: seq<Job>, ghost log: seq<Commit>)
      requires Valid()
      requires forall id :: id in db.queue && db.queue[id].Live? && db.queue[id].job.typeName in cat.typeIds ==>
        cat.RowOf(db.queue[id].job).Some?
      modifies this`db, this`nextJobId, this`inflight, this`claimCursor, this`index
      ensures Valid() && nextJobId == NextAfter(log, old(nextJobId)) && FreshIds(log, old(nextJobId))
      ensures WalkResult(old(db.queue), old(claimCursor), old(nextJobId), batchSize, ids, claimCursor)
      ensures ids == FirstLive(old(db.queue), 0, old(nextJobId), batchSize) && JobsAt(old(db.queue), ids, jobs)
      ensures db == ApplyAll(cat, DeleteEntries(old(db), ids), log) && index == IndexAll(cat, old(index), log)
      ensures JobsIn(log) == multiset(jobs) && processed == Stores(log)
      ensures unavailable <==> processed == 0 && exists c :: c in log && c.Requeue?
      ensures processed == 0 && !unavailable <==>
        forall job :: job in jobs ==> Quiet(cat, old(db).objects, jobs, embedder, job)
      ensures forall c :: c in log ==> Justified(cat, old(db).objects, jobs, embedder, c)
    {
      var batch: seq<Job>;
      ids, batch := ClaimBatch();
      jobs := batch;
      if batch == [] {
        log := [];
        processed, unavailable := 0, false;
      } else {
        forall job | job in batch && job.typeName in cat.typeIds ensures cat.RowOf(job).Some? {
          var i :| 0 <= i < |batch| && batch[i] == job;
          assert old(db.queue)[ids[i]] == Live(job);
        }
        var commits := ProcessBatch(batch, embedder);
        log := commits;
        processed := CountStores(commits);
        var loadFailed := exists c | c in commits :: c.Requeue?;
        unavailable := loadFailed && processed == 0;
      }
      QuietIff(cat, old(db).objects, jobs, embedder, log);
    }
  }

  function GroupIn(groups: map<string, seq<Job>>, model: string): seq<Job> {
    if model in groups then groups[model] else []
  }

  /** The groups are those of `jobs`. */
  ghost predicate Grouped(groups: map<string, seq<Job>>, jobs: seq<Job>) {
    && groups.Keys == Models(jobs)
    && forall model :: GroupIn(groups, model) == Group(jobs, model)
  }

  lemma OneMoreGrouped(groups: map<string, seq<Job>>, jobs: seq<Job>, job: Job)
    requires Grouped(groups, jobs)
    ensures Grouped(groups[job.model := GroupIn(groups, job.model) + [job]], jobs + [job])
  {
    var groups' := groups[job.model := GroupIn(groups, job.model) + [job]];
    forall model ensures GroupIn(groups', model) == Group(jobs + [job], model) {
      GroupLast(jobs, job, model);
      assert GroupIn(groups, model) == Group(jobs, model);
    }
    ModelsLast(jobs, job);
  }

  lemma ModelsLast(jobs: seq<Job>, job: Job)
    ensures Models(jobs + [job]) == Models(jobs) + {job.model}
  {
    var more := jobs + [job];
    forall model | model in Models(jobs) ensures model in Models(more) {
      var i :| 0 <= i < |jobs| && jobs[i].model == model;
      assert more[i].model == model;
    }
    assert more[|jobs|] == job;
  }

  /** The transactions for the jobs of the models `done`: each job once, each justified, re-enqueues
      under fresh ids. */
  ghost predicate BatchLog(cat: Catalog, objects: Objects, jobs: seq<Job>, embedder: Embedder, start: nat,
                           done: set<string>, log: seq<Commit>) {
    && JobsIn(log) == InModels(jobs, done) && FreshIds(log, start)
    && forall c :: c in log ==> Justified(cat, objects, jobs, embedder, c)
  }

  /** One more group of a batch. */
  lemma GroupDone(cat: Catalog, objects: Objects, jobs: seq<Job>, model: string, embedder: Embedder, start: nat,
                  done: set<string>, log: seq<Commit>, commits: seq<Commit>)
    requires model !in done && BatchLog(cat, objects, jobs, embedder, start, done, log)
    requires commits == GroupCommits(cat, objects, jobs, model, embedder, NextAfter(log, start))
    ensures BatchLog(cat, objects, jobs, embedder, start, done + {model}, log + commits)
    ensures NextAfter(log + commits, start) == NextAfter(commits, NextAfter(log, start))
  {
    var group, first := Group(jobs, model), NextAfter(log, start);
    var answer := GroupAnswer(cat, objects, jobs, embedder, model);
    JobsAppend(log, commits);
    InModelsAdd(jobs, done, model);
    NextAppend(log, commits, start);
    GroupConserves(cat, objects, jobs, model, embedder, first);
    GroupFresh(Unreadables(cat, objects, group), Readable(cat, objects, group), answer, first);
    FreshAppend(log, commits, start);
    forall c | c in commits ensures Justified(cat, objects, jobs, embedder, c) {
      GroupJustified(cat, objects, jobs, model, embedder, first, c);
    }
  }

  function JobsOf(q: map<nat, Entry>, ids: seq<nat>): (jobs: seq<Job>)
    requires forall id :: id in ids ==> id in q && q[id].Live?
    ensures JobsAt(q, ids, jobs)
  {
    if ids == [] then [] else [q[ids[0]].job] + JobsOf(q, ids[1..])
  }

  /** With nothing live below it, scanning from the cursor is scanning from zero. */
  lemma SkipDead(q: map<nat, Entry>, cursor: nat, bound: nat)
    requires cursor <= bound
    requires forall id :: id in q && q[id].Live? ==> cursor <= id
    ensures LiveIds(q, 0, bound) == LiveIds(q, cursor, bound)
  {
    LiveIdsSplit(q, 0, cursor, bound);
    LiveIdsEmpty(q, 0, cursor);
  }

  /** Once the claimed entries are deleted nothing live is left below the new cursor. */
  lemma ClaimLeavesNoneBelow(q: map<nat, Entry>, start: nat, cursor: nat, claimed: seq<nat>)
    requires forall id :: id in q && q[id].Live? ==> start <= id
    requires claimed == LiveIds(q, start, cursor)
    ensures var q' := q - set id | id in claimed;
      forall id :: id in q' && q'[id].Live? ==> cursor <= id
  {
    LiveIdsExact(q, start, cursor);
  }

  method CountStores(log: seq<Commit>) returns (n: nat)
    ensures n == Stores(log)
  {
    n := 0;
    for i := 0 to |log|
      invariant n == Stores(log[..i])
    {
      assert log[..i + 1][..i] == log[..i];
      if log[i].StoreVector? { n := n + 1; }
    }
    assert log[..|log|] == log;
  }
}
