/** Recovery over whole runs: whatever the interleaving and however often the process dies,
    a session that drains its queue leaves every enqueued row with the embedding of its own
    text. */
module CrashRecovery {
  import opened Prelude
  import opened Store
  import opened Reconcile
  import opened VectorQueue
  import opened QueueSafety

  predicate HasText(cat: Catalog, objects: Objects, r: Row) {
    cat.Vectorizes(r) && SourceText(cat, objects, r).Some?
  }

  /** The embedding of the row's own text. */
  function OwnEmbedding(cat: Catalog, embed: (string, string) -> Vector, objects: Objects, r: Row): Vector
    requires HasText(cat, objects, r)
  {
    embed(cat.JobFor(r).model, SourceText(cat, objects, r).value)
  }

  /** The vector is the embedding, under the template's model, of the text the object holds in the
      template's source field. */
  ghost predicate OwnVector(c: Config, objects: Objects, r: Row, v: Vector) {
    exists s :: OwnText(c.cat, objects, r, s) && v == c.embed(c.cat.templates[(r.typeId, r.fieldId)].model, s)
  }

  lemma OwnTextIs(c: Config, objects: Objects, r: Row)
    ensures HasText(c.cat, objects, r) <==> HasOwnText(c.cat, objects, r)
    ensures HasText(c.cat, objects, r) ==> OwnVector(c, objects, r, OwnEmbedding(c.cat, c.embed, objects, r))
  {
    if c.cat.Vectorizes(r) {
      SourceTextIs(c.cat, objects, r);
      if HasText(c.cat, objects, r) {
        assert OwnText(c.cat, objects, r, SourceText(c.cat, objects, r).value);
      }
    }
  }

  predicate EnqueuedRow(cat: Catalog, h: History, r: Row) {
    cat.Vectorizes(r) && KeyOf(r) in h.touched
  }

  /** A job built from the schema for an object that is no longer rewritten. */
  predicate Settled(cat: Catalog, h: History, job: Job) {
    cat.WellBuilt(job) && EnqueuedRow(cat, h, RowFor(cat, job))
  }

  /** A settled job whose enqueue has committed. */
  predicate Enqueued(cat: Catalog, h: History, job: Job) {
    Settled(cat, h, job) && RowFor(cat, job) in h.committed
  }

  ghost predicate QueuedJobsInv(cat: Catalog, h: History, q: map<nat, Entry>) {
    forall id :: id in q ==> q[id].Live? && Enqueued(cat, h, q[id].job)
  }

  /** A state row belongs to a committed enqueue; `Indexed` means its own embedding is stored. */
  ghost predicate StateRowInv(c: Config, db: Db, h: History, r: Row)
    requires r in db.state
  {
    && EnqueuedRow(c.cat, h, r) && r in h.committed
    && (db.state[r] == Indexed ==>
          && HasText(c.cat, db.objects, r)
          && r in db.vectors && db.vectors[r] == OwnEmbedding(c.cat, c.embed, db.objects, r))
    && (db.state[r] == Failed ==> HasText(c.cat, db.objects, r) && r in h.failed)
  }

  ghost predicate StatesInv(c: Config, db: Db, h: History) {
    forall r :: r in db.state ==> StateRowInv(c, db, h, r)
  }

  /** A vector kept for a row is the embedding of the row's own text. */
  ghost predicate VectorInv(c: Config, objects: Objects, h: History, r: Row, v: Vector) {
    EnqueuedRow(c.cat, h, r) && HasText(c.cat, objects, r) && v == OwnEmbedding(c.cat, c.embed, objects, r)
  }

  ghost predicate VectorsInv(c: Config, objects: Objects, h: History, vectors: map<Row, Vector>) {
    forall r :: r in vectors ==> VectorInv(c, objects, h, r, vectors[r])
  }

  /** A committed row whose object has text never loses its state. */
  ghost predicate CommittedInv(cat: Catalog, db: Db, h: History) {
    forall r :: r in h.committed ==> EnqueuedRow(cat, h, r) && (HasText(cat, db.objects, r) ==> r in db.state)
  }

  /** What every commit keeps true of the durable state. */
  ghost predicate DbInv(c: Config, db: Db, h: History) {
    && c.cat.Valid() && QueuedJobsInv(c.cat, h, db.queue) && StatesInv(c, db, h) && CommittedInv(c.cat, db, h)
    && VectorsInv(c, db.objects, h, db.vectors)
  }

  ghost predicate InHandInv(cat: Catalog, objects: Objects, h: History, item: InHand) {
    && Enqueued(cat, h, item.job)
    && var text := SourceText(cat, objects, RowFor(cat, item.job));
    && (item.WithText? || item.Inserted? ==> text == Some(item.text))
    && (item.Textless? ==> text == None)
  }

  ghost predicate HandInv(cat: Catalog, objects: Objects, h: History, hand: map<nat, InHand>, claimed: seq<nat>) {
    forall id :: id in hand ==> id in claimed && InHandInv(cat, objects, h, hand[id])
  }

  ghost predicate EnqueuesInv(cat: Catalog, h: History, ram: Ram) {
    && (forall f, i :: f in ram.enqueues && 0 <= i < |ram.enqueues[f].jobs| ==>
      Settled(cat, h, ram.enqueues[f].jobs[i]))
    && (forall f, id :: f in ram.enqueues && id in ram.enqueues[f].requeued ==>
          id in ram.claimed && (id in ram.hand ==> ram.hand[id].job in ram.enqueues[f].jobs))
  }

  function HandRows(cat: Catalog, hand: map<nat, InHand>): set<Row> {
    set id | id in hand && cat.RowOf(hand[id].job).Some? :: cat.RowOf(hand[id].job).value
  }

  /** The rows some job covers: queued, in a worker's hand, or given up on. */
  function CoveredRows(cat: Catalog, q: map<nat, Entry>, hand: map<nat, InHand>, dropped: set<Row>): set<Row> {
    QueuedRows(cat, q) + HandRows(cat, hand) + dropped
  }

  predicate IsPending(db: Db, r: Row) {
    r in db.state && db.state[r] == Pending
  }

  ghost predicate PendingWithin(db: Db, rows: set<Row>) {
    forall r :: IsPending(db, r) ==> r in rows
  }

  /** The index holds every stored vector and every one about to be stored, and no wrong one. */
  ghost predicate IndexInv(c: Config, db: Db, h: History, hand: map<nat, InHand>, index: map<Row, Vector>) {
    && VectorsInv(c, db.objects, h, index)
    && (forall r :: r in db.vectors ==> r in index)
    && (forall id :: id in hand && hand[id].Inserted? && c.cat.RowOf(hand[id].job).Some? ==>
          c.cat.RowOf(hand[id].job).value in index)
  }

  ghost predicate UpInv(c: Config, db: Db, h: History, ram: Ram) {
    && IndexInv(c, db, h, ram.hand, ram.index)
    && HandInv(c.cat, db.objects, h, ram.hand, ram.claimed)
    && EnqueuesInv(c.cat, h, ram)
    && PendingWithin(db, CoveredRows(c.cat, db.queue, ram.hand, ram.dropped))
  }

  ghost predicate OpeningInv(cat: Catalog, db: Db, orphans: seq<Row>) {
    && (forall r :: r in orphans ==> IsPending(db, r))
    && PendingWithin(db, QueuedRows(cat, db.queue) + set r | r in orphans)
  }

  ghost predicate SysInv(c: Config, s: Sys) {
    && SysQueueInv(s)
    && DbInv(c, s.db, s.history)
    && match s.session
       case Down => true
       case Opening(orphans) => OpeningInv(c.cat, s.db, orphans)
       case Up(ram) => UpInv(c, s.db, s.history, ram)
  }

  // ---- Commits and the durable state ----

  /** An object no enqueue has named may be written. */
  lemma WriteKeeps(c: Config, db: Db, h: History, ram: Ram, key: ObjectKey, fields: map<string, FieldValue>)
    requires DbInv(c, db, h) && UpInv(c, db, h, ram) && key !in h.touched
    ensures var db' := db.(objects := db.objects[key := fields]);
      DbInv(c, db', h) && UpInv(c, db', h, ram)
  {
    var db' := db.(objects := db.objects[key := fields]);
    forall r | EnqueuedRow(c.cat, h, r)
      ensures SourceText(c.cat, db'.objects, r) == SourceText(c.cat, db.objects, r)
    {
    }
    forall r, v | VectorInv(c, db.objects, h, r, v) ensures VectorInv(c, db'.objects, h, r, v) {
      assert SourceText(c.cat, db'.objects, r) == SourceText(c.cat, db.objects, r);
    }
    forall r | r in db'.state ensures StateRowInv(c, db', h, r) {
      assert StateRowInv(c, db, h, r);
    }
    forall id | id in ram.hand ensures InHandInv(c.cat, db'.objects, h, ram.hand[id]) {
      assert InHandInv(c.cat, db.objects, h, ram.hand[id]);
    }
    assert forall r :: IsPending(db', r) ==> IsPending(db, r);
  }

  /** Naming more objects changes nothing that is already settled. */
  lemma TouchKeeps(c: Config, db: Db, h: History, ram: Ram, h': History)
    requires DbInv(c, db, h) && UpInv(c, db, h, ram)
    requires h.touched <= h'.touched && h'.committed == h.committed && h'.failed == h.failed
    ensures DbInv(c, db, h') && UpInv(c, db, h', ram)
  {
    forall r | r in db.state ensures StateRowInv(c, db, h', r) {
      assert StateRowInv(c, db, h, r);
    }
    forall id | id in ram.hand ensures InHandInv(c.cat, db.objects, h', ram.hand[id]) {
      assert InHandInv(c.cat, db.objects, h, ram.hand[id]);
    }
  }

  lemma RowsOfSettled(cat: Catalog, h: History, jobs: seq<Job>, r: Row)
    requires forall i :: 0 <= i < |jobs| ==> Settled(cat, h, jobs[i])
    requires r in RowsOf(cat, jobs)
    ensures EnqueuedRow(cat, h, r)
  {
    var i :| 0 <= i < |jobs| && cat.RowOf(jobs[i]) == Some(r);
    assert Settled(cat, h, jobs[i]);
  }

  lemma PutJobsKeepsQueued(cat: Catalog, h: History, q: map<nat, Entry>, first: nat, jobs: seq<Job>, h': History)
    requires QueuedJobsInv(cat, h, q)
    requires forall i :: 0 <= i < |jobs| ==> Settled(cat, h, jobs[i])
    requires h' == h.(committed := h.committed + RowsOf(cat, jobs))
    ensures QueuedJobsInv(cat, h', q + Entries(first, jobs))
  {
    var q' := q + Entries(first, jobs);
    EntriesAt(first, jobs);
    forall id | id in q' ensures q'[id].Live? && Enqueued(cat, h', q'[id].job) {
      if id in Entries(first, jobs) {
        assert q'[id] == Live(jobs[id - first]) && Settled(cat, h, jobs[id - first]);
        assert RowFor(cat, jobs[id - first]) in RowsOf(cat, jobs);
      } else {
        assert q'[id] == q[id];
      }
    }
  }

  /** An enqueue's transaction keeps the durable invariant. */
  lemma PutJobsKeepsDb(c: Config, db: Db, h: History, first: nat, jobs: seq<Job>, h': History)
    requires DbInv(c, db, h)
    requires forall i :: 0 <= i < |jobs| ==> Settled(c.cat, h, jobs[i])
    requires h' == h.(committed := h.committed + RowsOf(c.cat, jobs))
    ensures DbInv(c, PutJobs(c.cat, db, first, jobs), h')
  {
    var db' := PutJobs(c.cat, db, first, jobs);
    PutJobsKeepsQueued(c.cat, h, db.queue, first, jobs, h');
    forall r | r in RowsOf(c.cat, jobs) ensures EnqueuedRow(c.cat, h, r) {
      RowsOfSettled(c.cat, h, jobs, r);
    }
    forall r | r in db'.state ensures StateRowInv(c, db', h', r) {
      if r !in RowsOf(c.cat, jobs) {
        assert db'.state[r] == db.state[r] && StateRowInv(c, db, h, r);
      }
    }
  }

  /** A commit that writes the state and vector of one row. */
  lemma RowWriteKeepsDb(c: Config, db: Db, h: History, row: Row, db': Db, h': History)
    requires DbInv(c, db, h)
    requires db'.queue == db.queue && db'.objects == db.objects
    requires h'.touched == h.touched && h'.committed == h.committed && h.failed <= h'.failed
    requires forall r :: r != row ==>
      (r in db'.state <==> r in db.state) && (r in db.state ==> db'.state[r] == db.state[r])
    requires forall r :: r != row ==>
      (r in db'.vectors <==> r in db.vectors) && (r in db.vectors ==> db'.vectors[r] == db.vectors[r])
    requires row in db'.vectors ==> VectorInv(c, db'.objects, h', row, db'.vectors[row])
    requires row in db'.state ==> StateRowInv(c, db', h', row)
    requires row in h.committed && HasText(c.cat, db.objects, row) ==> row in db'.state
    ensures DbInv(c, db', h')
  {
    forall r | r in db'.state ensures StateRowInv(c, db', h', r) {
      if r != row {
        assert StateRowInv(c, db, h, r);
      }
    }
    forall id | id in db'.queue ensures Enqueued(c.cat, h', db'.queue[id].job) {
      assert Enqueued(c.cat, h, db.queue[id].job);
    }
    forall r | r in db'.vectors ensures VectorInv(c, db'.objects, h', r, db'.vectors[r]) {
      if r != row { assert VectorInv(c, db.objects, h, r, db.vectors[r]); }
    }
  }

  // ---- Coverage ----

  /** Removing jobs from the hand uncovers at most those jobs' rows. */
  lemma ReleaseUncovers(cat: Catalog, hand: map<nat, InHand>, gone: set<nat>, r: Row)
    requires r in HandRows(cat, hand)
    ensures r in HandRows(cat, hand - gone) || exists id ::
      id in gone && id in hand && cat.RowOf(hand[id].job) == Some(r)
  {
    var k :| k in hand && cat.RowOf(hand[k].job) == Some(r);
    if k !in gone {
      assert k in hand - gone;
    }
  }

  /** Claiming moves rows from the queue to the hand. */
  lemma ClaimMovesRows(cat: Catalog, q: map<nat, Entry>, ids: seq<nat>, hand: map<nat, InHand>, hand': map<nat, InHand>)
    requires forall id :: id in ids ==> id in q && q[id].Live? && id in hand' && hand'[id].job == q[id].job
    requires forall id :: id in hand ==> id in hand' && hand'[id] == hand[id]
    ensures QueuedRows(cat, q) <= QueuedRows(cat, q - set id | id in ids) + HandRows(cat, hand')
    ensures HandRows(cat, hand) <= HandRows(cat, hand')
  {
    var q' := q - set id | id in ids;
    forall r | r in QueuedRows(cat, q) ensures r in QueuedRows(cat, q') + HandRows(cat, hand') {
      var id :| id in q && q[id].Live? && cat.RowOf(q[id].job) == Some(r);
      if id in ids {
        assert hand'[id].job == q[id].job;
      } else {
        assert q'[id] == q[id];
      }
    }
    forall r | r in HandRows(cat, hand) ensures r in HandRows(cat, hand') {
      var id :| id in hand && cat.RowOf(hand[id].job) == Some(r);
      assert hand'[id] == hand[id];
    }
  }

  // ---- Steps ----

  lemma AllocateKeeps(c: Config, s: Sys, jobs: seq<Job>, requeued: set<nat>, s': Sys)
    requires SysInv(c, s) && AllocateStep(c, s, jobs, requeued, s')
    ensures DbInv(c, s'.db, s'.history) && UpInv(c, s'.db, s'.history, s'.session.ram)
  {
    TouchKeeps(c, s.db, s.history, s.session.ram, s'.history);
    forall i | 0 <= i < |jobs| ensures Settled(c.cat, s'.history, jobs[i]) {
      assert RowFor(c.cat, jobs[i]) in RowsOf(c.cat, jobs);
    }
    AllocateKeepsEnqueues(c, s, jobs, requeued, s');
  }

  lemma AllocateKeepsEnqueues(c: Config, s: Sys, jobs: seq<Job>, requeued: set<nat>, s': Sys)
    requires s.session.Up? && EnqueuesInv(c.cat, s'.history, s.session.ram)
    requires HandInv(c.cat, s.db.objects, s'.history, s.session.ram.hand, s.session.ram.claimed)
    requires AllocateStep(c, s, jobs, requeued, s')
    requires forall i :: 0 <= i < |jobs| ==> Settled(c.cat, s'.history, jobs[i])
    ensures EnqueuesInv(c.cat, s'.history, s'.session.ram)
  {
  }

  lemma EnqueueCommitKeeps(c: Config, s: Sys, first: nat, s': Sys)
    requires SysInv(c, s) && EnqueueCommitStep(c, s, first, s')
    ensures DbInv(c, s'.db, s'.history) && UpInv(c, s'.db, s'.history, s'.session.ram)
  {
    var ram, ram' := s.session.ram, s'.session.ram;
    var e := ram.enqueues[first];
    PutJobsKeepsDb(c, s.db, s.history, first, e.jobs, s'.history);
    forall id | id in ram'.hand ensures InHandInv(c.cat, s'.db.objects, s'.history, ram'.hand[id]) {
      assert InHandInv(c.cat, s.db.objects, s.history, ram.hand[id]);
    }
    assert EnqueuesInv(c.cat, s'.history, ram');
    EnqueueCommitCovers(c, s, first, s');
  }

  lemma EnqueueCommitCovers(c: Config, s: Sys, first: nat, s': Sys)
    requires s.session.Up? && RangesInv(s.session.ram, s.db.queue) && EnqueuesInv(c.cat, s.history, s.session.ram)
    requires PendingWithin(s.db, CoveredRows(c.cat, s.db.queue, s.session.ram.hand, s.session.ram.dropped))
    requires EnqueueCommitStep(c, s, first, s')
    ensures PendingWithin(s'.db, CoveredRows(c.cat, s'.db.queue, s'.session.ram.hand, s'.session.ram.dropped))
  {
    var ram, ram' := s.session.ram, s'.session.ram;
    var e := ram.enqueues[first];
    PutJobsQueues(c.cat, s.db, first, e.jobs);
    forall r | r in HandRows(c.cat, ram.hand)
      ensures r in HandRows(c.cat, ram'.hand) || r in RowsOf(c.cat, e.jobs)
    {
      ReleaseUncovers(c.cat, ram.hand, e.requeued, r);
    }
    assert forall r :: IsPending(s'.db, r) ==> r in RowsOf(c.cat, e.jobs) || IsPending(s.db, r);
  }

  lemma ClaimCommitKeeps(c: Config, s: Sys, s': Sys)
    requires SysInv(c, s) && ClaimCommitStep(s, s')
    ensures DbInv(c, s'.db, s'.history) && UpInv(c, s'.db, s'.history, s'.session.ram)
  {
    var ram, ram', ids := s.session.ram, s'.session.ram, s.session.ram.claim.ids;
    ClaimCommitMoves(s, s');
    ClaimKeepsDb(c, s.db, s.history, ids);
    ClaimKeepsHand(c, s.db, s.history, ids, ram, ram');
    ClaimMovesRows(c.cat, s.db.queue, ids, ram.hand, ram'.hand);
    assert forall r :: IsPending(s'.db, r) ==> IsPending(s.db, r);
  }

  lemma ClaimKeepsDb(c: Config, db: Db, h: History, ids: seq<nat>)
    requires DbInv(c, db, h)
    ensures DbInv(c, DeleteEntries(db, ids), h)
  {
    var db' := DeleteEntries(db, ids);
    forall r | r in db'.state ensures StateRowInv(c, db', h, r) {
      assert StateRowInv(c, db, h, r);
    }
  }

  lemma ClaimKeepsHand(c: Config, db: Db, h: History, ids: seq<nat>, ram: Ram, ram': Ram)
    requires QueuedJobsInv(c.cat, h, db.queue) && HandInv(c.cat, db.objects, h, ram.hand, ram.claimed)
    requires EnqueuesInv(c.cat, h, ram) && IndexInv(c, db, h, ram.hand, ram.index)
    requires ram' == ram.(claim := ram'.claim, hand := ram'.hand, claimed := ram.claimed + ids)
    requires forall id :: id in ids ==>
      id !in ram.claimed && id in db.queue && id in ram'.hand && ram'.hand[id] == Unread(db.queue[id].job)
    requires forall id :: id in ram.hand ==> id in ram'.hand && ram'.hand[id] == ram.hand[id]
    requires forall id :: id in ram'.hand ==> id in ids || id in ram.hand
    ensures HandInv(c.cat, db.objects, h, ram'.hand, ram'.claimed) && EnqueuesInv(c.cat, h, ram')
    ensures IndexInv(c, DeleteEntries(db, ids), h, ram'.hand, ram'.index)
  {
  }

  /** Claimed entries enter the hand under ids no claim of the session ever returned. */
  lemma ClaimCommitMoves(s: Sys, s': Sys)
    requires s.session.Up? && QueueInv(s.session.ram, s.db.queue) && ClaimCommitStep(s, s')
    requires forall id :: id in s.session.ram.hand ==> id in s.session.ram.claimed
    ensures var ram, ram', q, ids := s.session.ram, s'.session.ram, s.db.queue, s.session.ram.claim.ids;
      && (forall id :: id in ids ==>
        id !in ram.claimed && id in q && q[id].Live? && id in ram'.hand && ram'.hand[id] == Unread(q[id].job))
      && (forall id :: id in ram.hand ==> id in ram'.hand && ram'.hand[id] == ram.hand[id])
      && (forall id :: id in ram'.hand ==> id in ids || id in ram.hand)
  {
    var ram, ids := s.session.ram, s.session.ram.claim.ids;
    forall id | id in ram.claimed ensures id !in ids {
      ClaimedNotCommitting(ram, id);
    }
    assert forall id :: id in ids ==> id in s.db.queue && s.db.queue[id].Live?;
  }

  /** The transaction a worker commits for a job in hand keeps the durable invariant. */
  lemma StoreKeepsDb(c: Config, db: Db, h: History, item: InHand)
    requires DbInv(c, db, h) && InHandInv(c.cat, db.objects, h, item) && (item.WithText? || item.Inserted?)
    ensures var r := RowFor(c.cat, item.job);
      && DbInv(c, PutVector(db, r, c.embed(item.job.model, item.text)), h)
      && DbInv(c, PutFailed(db, r), h.(failed := h.failed + {r}))
  {
    var r := RowFor(c.cat, item.job);
    assert c.cat.JobFor(r) == item.job;
    RowWriteKeepsDb(c, db, h, r, PutVector(db, r, c.embed(item.job.model, item.text)), h);
    RowWriteKeepsDb(c, db, h, r, PutFailed(db, r), h.(failed := h.failed + {r}));
  }

  lemma ClearKeepsDb(c: Config, db: Db, h: History, item: InHand)
    requires DbInv(c, db, h) && InHandInv(c.cat, db.objects, h, item) && item.Textless?
    ensures DbInv(c, DeleteStates(db, {RowFor(c.cat, item.job)}), h)
  {
    RowWriteKeepsDb(c, db, h, RowFor(c.cat, item.job), DeleteStates(db, {RowFor(c.cat, item.job)}), h);
  }

  /** Jobs leave the hand while objects, enqueues and the rest of the history stay. */
  lemma ReleaseKeepsHand(c: Config, s: Sys, ram: Ram, h': History, ram': Ram)
    requires HandInv(c.cat, s.db.objects, s.history, ram.hand, ram.claimed) && EnqueuesInv(c.cat, s.history, ram)
    requires h'.touched == s.history.touched && h'.committed == s.history.committed
    requires ram'.claimed == ram.claimed && ram'.enqueues == ram.enqueues
    requires forall id :: id in ram'.hand ==> id in ram.hand && ram'.hand[id] == ram.hand[id]
    ensures HandInv(c.cat, s.db.objects, h', ram'.hand, ram'.claimed) && EnqueuesInv(c.cat, h', ram')
  {
    forall id | id in ram'.hand ensures InHandInv(c.cat, s.db.objects, h', ram'.hand[id]) {
      assert InHandInv(c.cat, s.db.objects, s.history, ram.hand[id]);
    }
  }

  /** The job in hand leaves it: stored, cleared, failed or given up on. */
  lemma WorkerStepKeeps(c: Config, s: Sys, step: Step, s': Sys)
    requires SysInv(c, s) && Next(c, s, step, s')
    requires step.StoreCommit? || step.ClearCommit? || step.FailCommit? || step.DropJob?
    ensures DbInv(c, s'.db, s'.history) && UpInv(c, s'.db, s'.history, s'.session.ram)
  {
    var item := s.session.ram.hand[step.id];
    if item.WithText? || item.Inserted? { StoreKeepsDb(c, s.db, s.history, item); }
    if item.Textless? { ClearKeepsDb(c, s.db, s.history, item); }
    ReleaseKeepsHand(c, s, s.session.ram, s'.history, s'.session.ram);
    WorkerStepIndexed(c, s, step, s');
    WorkerStepCovers(c, s, step, s');
  }

  lemma WorkerStepIndexed(c: Config, s: Sys, step: Step, s': Sys)
    requires s.session.Up? && Next(c, s, step, s')
    requires IndexInv(c, s.db, s.history, s.session.ram.hand, s.session.ram.index)
    requires step.StoreCommit? || step.ClearCommit? || step.FailCommit? || step.DropJob?
    ensures IndexInv(c, s'.db, s'.history, s'.session.ram.hand, s'.session.ram.index)
  {
    forall r | r in s'.session.ram.index ensures VectorInv(c, s'.db.objects, s'.history, r, s'.session.ram.index[r]) {
      assert VectorInv(c, s.db.objects, s.history, r, s.session.ram.index[r]);
    }
  }

  lemma InsertKeeps(c: Config, s: Sys, id: nat, s': Sys)
    requires SysInv(c, s) && InsertStep(c, s, id, s')
    ensures UpInv(c, s'.db, s'.history, s'.session.ram)
  {
    var ram, ram' := s.session.ram, s'.session.ram;
    var item, r := ram.hand[id], RowFor(c.cat, ram.hand[id].job);
    SameJobsSameRows(c.cat, ram.hand, ram'.hand);
    forall k | k in ram'.hand ensures k in ram'.claimed && InHandInv(c.cat, s'.db.objects, s'.history, ram'.hand[k]) {
      assert InHandInv(c.cat, s.db.objects, s.history, ram.hand[k]);
    }
    assert VectorInv(c, s.db.objects, s.history, r, ram'.index[r]) by {
      assert InHandInv(c.cat, s.db.objects, s.history, item) && c.cat.JobFor(r) == item.job;
    }
    assert EnqueuesInv(c.cat, s'.history, ram');
  }

  lemma WorkerStepCovers(c: Config, s: Sys, step: Step, s': Sys)
    requires s.session.Up? && Next(c, s, step, s')
    requires PendingWithin(s.db, CoveredRows(c.cat, s.db.queue, s.session.ram.hand, s.session.ram.dropped))
    requires step.StoreCommit? || step.ClearCommit? || step.FailCommit? || step.DropJob?
    ensures PendingWithin(s'.db, CoveredRows(c.cat, s'.db.queue, s'.session.ram.hand, s'.session.ram.dropped))
  {
    var ram, ram', id := s.session.ram, s'.session.ram, step.id;
    forall r | IsPending(s'.db, r) ensures r in CoveredRows(c.cat, s'.db.queue, ram'.hand, ram'.dropped) {
      assert IsPending(s.db, r);
      if r in HandRows(c.cat, ram.hand) {
        ReleaseUncovers(c.cat, ram.hand, {id}, r);
      }
    }
  }

  lemma ReadTextKeeps(c: Config, s: Sys, id: nat, s': Sys)
    requires SysInv(c, s) && ReadTextStep(c, s, id, s')
    ensures UpInv(c, s'.db, s'.history, s'.session.ram)
  {
    var ram, ram' := s.session.ram, s'.session.ram;
    SameJobsSameRows(c.cat, ram.hand, ram'.hand);
    forall k | k in ram'.hand ensures k in ram'.claimed && InHandInv(c.cat, s'.db.objects, s'.history, ram'.hand[k]) {
      assert InHandInv(c.cat, s.db.objects, s.history, ram.hand[k]);
    }
    assert EnqueuesInv(c.cat, s'.history, ram');
    assert IndexInv(c, s'.db, s'.history, ram'.hand, ram'.index);
  }

  lemma SameJobsSameRows(cat: Catalog, hand: map<nat, InHand>, hand': map<nat, InHand>)
    requires forall k :: k in hand ==> k in hand' && hand'[k].job == hand[k].job
    ensures HandRows(cat, hand) <= HandRows(cat, hand')
  {
    forall r | r in HandRows(cat, hand) ensures r in HandRows(cat, hand') {
      var k :| k in hand && cat.RowOf(hand[k].job) == Some(r);
      assert hand'[k].job == hand[k].job;
    }
  }

  lemma OpenCleanKeeps(c: Config, s: Sys, orphans: seq<Row>, s': Sys)
    requires SysInv(c, s) && OpenCleanStep(c, s, orphans, s')
    ensures DbInv(c, s'.db, s'.history) && OpeningInv(c.cat, s'.db, orphans)
  {
    forall r | r in s'.db.state ensures StateRowInv(c, s'.db, s'.history, r) {
      assert StateRowInv(c, s.db, s.history, r);
    }
    assert forall r :: IsPending(s'.db, r) ==> IsPending(s.db, r);
  }

  /** The orphans of an open are settled: their enqueue committed before the crash. */
  lemma OrphansSettled(c: Config, db: Db, h: History, orphans: seq<Row>)
    requires c.cat.Valid() && StatesInv(c, db, h) && forall r :: r in orphans ==> IsPending(db, r)
    ensures forall r :: r in orphans ==> c.cat.Vectorizes(r)
    ensures RowsOf(c.cat, JobsFor(c.cat, orphans)) == (set r | r in orphans) <= h.committed
    ensures forall i :: 0 <= i < |orphans| ==> Settled(c.cat, h, JobsFor(c.cat, orphans)[i])
  {
    forall r | r in orphans ensures r in h.committed && EnqueuedRow(c.cat, h, r) {
      assert IsPending(db, r) && StateRowInv(c, db, h, r);
    }
    JobsForRows(c.cat, orphans);
    forall i | 0 <= i < |orphans| ensures Settled(c.cat, h, JobsFor(c.cat, orphans)[i]) {
      c.cat.JobForResolves(orphans[i]);
    }
  }

  lemma OpenEnqueueKeeps(c: Config, s: Sys, s': Sys)
    requires SysInv(c, s) && OpenEnqueueStep(c, s, s')
    ensures DbInv(c, s'.db, s'.history) && UpInv(c, s'.db, s'.history, s'.session.ram)
  {
    var orphans := s.session.orphans;
    var jobs, first := JobsFor(c.cat, orphans), NextJobId(s.db.queue);
    OrphansSettled(c, s.db, s.history, orphans);
    assert s.history.committed + RowsOf(c.cat, jobs) == s.history.committed;
    PutJobsKeepsDb(c, s.db, s.history, first, jobs, s.history);
    OpenCovers(c.cat, s.db, first, jobs);
  }

  lemma OpenCovers(cat: Catalog, db: Db, first: nat, jobs: seq<Job>)
    requires forall id :: id in db.queue ==> id < first
    requires PendingWithin(db, QueuedRows(cat, db.queue) + RowsOf(cat, jobs))
    ensures var db' := PutJobs(cat, db, first, jobs);
      PendingWithin(db', CoveredRows(cat, db'.queue, map[], {}))
  {
    PutJobsQueues(cat, db, first, jobs);
    assert forall r :: IsPending(PutJobs(cat, db, first, jobs), r) ==> r in RowsOf(cat, jobs) || IsPending(db, r);
  }

  /** The steps of a claim up to its commit, and an unregister, touch only the bookkeeping. */
  ghost predicate OnlyBookkeeping(s: Sys, s': Sys) {
    && s.session.Up? && s'.session.Up? && s'.db == s.db && s'.history == s.history
    && var ram, ram' := s.session.ram, s'.session.ram;
    && ram'.hand == ram.hand && ram'.claimed == ram.claimed && ram'.dropped == ram.dropped && ram'.index == ram.index
    && forall f :: f in ram'.enqueues ==> f in ram.enqueues && ram'.enqueues[f] == ram.enqueues[f]
  }

  lemma ClaimStepFrame(c: Config, s: Sys, step: Step, s': Sys)
    requires Next(c, s, step, s')
    requires step.Unregister? || step.ClaimReadBound? || step.ClaimSnapshot? || step.ClaimWalked? || step.ClaimConflict?
    ensures OnlyBookkeeping(s, s')
  {
  }

  lemma BookkeepingKeepsUp(c: Config, s: Sys, s': Sys)
    requires s.session.Up? && UpInv(c, s.db, s.history, s.session.ram) && OnlyBookkeeping(s, s')
    ensures UpInv(c, s'.db, s'.history, s'.session.ram)
  {
  }

  lemma ClaimStepKeeps(c: Config, s: Sys, step: Step, s': Sys)
    requires SysInv(c, s) && Next(c, s, step, s')
    requires step.Unregister? || step.ClaimReadBound? || step.ClaimSnapshot? || step.ClaimWalked? || step.ClaimConflict?
    ensures DbInv(c, s'.db, s'.history) && UpInv(c, s'.db, s'.history, s'.session.ram)
  {
    ClaimStepFrame(c, s, step, s');
    BookkeepingKeepsUp(c, s, s');
  }

  lemma SessionStepKeeps(c: Config, s: Sys, step: Step, s': Sys)
    requires SysInv(c, s) && SysQueueInv(s') && Next(c, s, step, s')
    requires step.WriteObject? || step.Crash? || step.OpenClean? || step.OpenEnqueue?
    ensures SysInv(c, s')
  {
    match step
    case WriteObject(key, fields) => WriteKeeps(c, s.db, s.history, s.session.ram, key, fields);
    case OpenClean(orphans) => OpenCleanKeeps(c, s, orphans, s');
    case OpenEnqueue => OpenEnqueueKeeps(c, s, s');
    case Crash =>
  }

  lemma CommitStepKeeps(c: Config, s: Sys, step: Step, s': Sys)
    requires SysInv(c, s) && SysQueueInv(s') && Next(c, s, step, s')
    requires step.EnqueueAllocate? || step.EnqueueCommit? || step.ClaimCommit? || step.ReadText? || step.StoreInsert?
    ensures SysInv(c, s')
  {
    match step
    case EnqueueAllocate(jobs, requeued) => AllocateKeeps(c, s, jobs, requeued, s');
    case EnqueueCommit(first) => EnqueueCommitKeeps(c, s, first, s');
    case ClaimCommit => ClaimCommitKeeps(c, s, s');
    case ReadText(id) => ReadTextKeeps(c, s, id, s');
    case StoreInsert(id) => InsertKeeps(c, s, id, s');
  }

  /** Every step of the protocol, crashes included, keeps the recovery invariant. */
  lemma StepKeeps(c: Config, s: Sys, step: Step, s': Sys)
    requires c.boundFirst && SysInv(c, s) && Next(c, s, step, s')
    ensures SysInv(c, s')
  {
    StepKeepsQueue(c, s, step, s');
    if step.WriteObject? || step.Crash? || step.OpenClean? || step.OpenEnqueue? {
      SessionStepKeeps(c, s, step, s');
    } else if step.EnqueueAllocate? || step.EnqueueCommit? || step.ClaimCommit? || step.ReadText? || step.StoreInsert? {
      CommitStepKeeps(c, s, step, s');
    } else if step.StoreCommit? || step.ClearCommit? || step.FailCommit? || step.DropJob? {
      WorkerStepKeeps(c, s, step, s');
    } else {
      ClaimStepKeeps(c, s, step, s');
    }
  }

  lemma {:induction false} RunKeeps(c: Config, run: seq<Sys>, steps: seq<Step>, n: nat)
    requires c.boundFirst && c.cat.Valid() && IsRun(c, run, steps) && n <= |steps|
    ensures SysInv(c, run[n])
  {
    if n == 0 {
    } else {
      RunKeeps(c, run, steps, n - 1);
      StepKeeps(c, run[n - 1], steps[n - 1], run[n]);
    }
  }

  /** The index holds every stored vector. */
  ghost predicate IndexAgrees(db: Db, index: map<Row, Vector>) {
    forall r :: r in db.vectors ==> r in index && index[r] == db.vectors[r]
  }

  lemma IndexInvAgrees(c: Config, db: Db, h: History, ram: Ram)
    requires DbInv(c, db, h) && UpInv(c, db, h, ram)
    ensures IndexAgrees(db, ram.index)
  {
    forall r | r in db.vectors ensures r in ram.index && ram.index[r] == db.vectors[r] {
      assert VectorInv(c, db.objects, h, r, db.vectors[r]) && VectorInv(c, db.objects, h, r, ram.index[r]);
    }
  }

  /** In every state of every run, under any interleaving of workers, every stored vector is in
      the index with the stored value. */
  lemma StoredIsIndexed(c: Config, run: seq<Sys>, steps: seq<Step>, n: nat)
    requires c.boundFirst && c.cat.Valid() && IsRun(c, run, steps) && n <= |steps| && run[n].session.Up?
    ensures IndexAgrees(run[n].db, run[n].session.ram.index)
  {
    RunKeeps(c, run, steps, n);
    IndexInvAgrees(c, run[n].db, run[n].history, run[n].session.ram);
  }

  /** In every state of every run, whatever is stored or indexed for a row is the embedding of the
      text its own object holds, and an `Indexed` row has such a vector. */
  lemma StoredIsOwn(c: Config, run: seq<Sys>, steps: seq<Step>, n: nat, r: Row)
    requires c.boundFirst && c.cat.Valid() && IsRun(c, run, steps) && n <= |steps|
    ensures var db := run[n].db;
      && (r in db.vectors ==> OwnVector(c, db.objects, r, db.vectors[r]))
      && (r in db.state && db.state[r] == Indexed ==> r in db.vectors)
      && (run[n].session.Up? && r in run[n].session.ram.index ==>
            OwnVector(c, db.objects, r, run[n].session.ram.index[r]))
  {
    RunKeeps(c, run, steps, n);
    OwnTextIs(c, run[n].db.objects, r);
    assert r in run[n].db.state ==> StateRowInv(c, run[n].db, run[n].history, r);
  }

  // ---- What each transaction writes ----

  /** An enqueue's commit, in terms of the store alone. */
  lemma EnqueueWrites(c: Config, s: Sys, first: nat, s': Sys)
    requires EnqueueCommitStep(c, s, first, s')
    ensures JobsPut(c.cat, s.db, first, s.session.ram.enqueues[first].jobs, s'.db)
  {
    PutJobsPuts(c.cat, s.db, first, s.session.ram.enqueues[first].jobs);
  }

  /** A claim deletes its entries; a worker's commit writes the state of the row its job names, and
      a store its vector too; nothing else is touched. */
  lemma CommitWrites(c: Config, s: Sys, step: Step, s': Sys)
    requires Next(c, s, step, s')
    ensures var db := s.db;
      match step
      case ClaimCommit =>
        var ids := set id | id in s.session.ram.claim.ids;
        s'.db == Db(db.queue - ids, db.state, db.vectors, db.objects)
      case StoreCommit(id) =>
        var item := s.session.ram.hand[id];
        exists r :: Names(c.cat, item.job, r) && s'.db ==
          Db(db.queue, db.state[r := Indexed], db.vectors[r := c.embed(item.job.model, item.text)], db.objects)
      case FailCommit(id) =>
        exists r :: Names(c.cat, s.session.ram.hand[id].job, r) && s'.db ==
          Db(db.queue, db.state[r := Failed], db.vectors, db.objects)
      case ClearCommit(id) =>
        exists r :: Names(c.cat, s.session.ram.hand[id].job, r) && s'.db ==
          Db(db.queue, db.state - {r}, db.vectors, db.objects)
      case _ => true
  {
    if step.StoreCommit? || step.FailCommit? || step.ClearCommit? {
      var job := s.session.ram.hand[step.id].job;
      assert Names(c.cat, job, RowFor(c.cat, job));
    }
  }

  /** Only a failed embed call marks a row failed. */
  lemma {:induction false} NeverFailed(c: Config, run: seq<Sys>, steps: seq<Step>, n: nat)
    requires IsRun(c, run, steps) && n <= |steps| && forall i :: 0 <= i < n ==> !steps[i].FailCommit?
    ensures run[n].history.failed == {}
  {
    if n == 0 {
    } else {
      NeverFailed(c, run, steps, n - 1);
      StepFailsNone(c, run[n - 1], steps[n - 1], run[n]);
    }
  }

  lemma StepFailsNone(c: Config, s: Sys, step: Step, s': Sys)
    requires Next(c, s, step, s') && !step.FailCommit?
    ensures s'.history.failed == s.history.failed
  {
  }

  /** Where a committed row must end: indexed under the embedding of its own text (or marked
      failed by an embedder error), and with no state at all when its object has no text. */
  ghost predicate RowConverged(c: Config, db: Db, h: History, r: Row) {
    if HasOwnText(c.cat, db.objects, r) then
      && r in db.state
      && match db.state[r]
         case Indexed => r in db.vectors && OwnVector(c, db.objects, r, db.vectors[r])
         case Failed => r in h.failed
         case Pending => false
    else
      r !in db.state
  }

  /** Nothing queued, nothing in hand, and no job given up on since the open. */
  predicate Drained(s: Sys) {
    && s.session.Up?
    && s.db.queue == map[]
    && s.session.ram.hand == map[]
    && s.session.ram.dropped == {}
  }

  lemma DrainedConverged(c: Config, s: Sys, r: Row)
    requires SysInv(c, s) && Drained(s) && r in s.history.committed
    ensures RowConverged(c, s.db, s.history, r)
  {
    assert CoveredRows(c.cat, s.db.queue, s.session.ram.hand, s.session.ram.dropped) == {};
    assert !IsPending(s.db, r);
    assert r in s.db.state ==> StateRowInv(c, s.db, s.history, r);
    OwnTextIs(c, s.db.objects, r);
  }

  /** Crash recovery over whole runs: in any run of enqueues, claims, stores, re-enqueues,
      give-ups, crashes and reopens, whenever a session has drained, every row whose enqueue
      ever committed has converged. */
  lemma DrainedRunConverged(c: Config, run: seq<Sys>, steps: seq<Step>, n: nat, r: Row)
    requires c.boundFirst && c.cat.Valid() && IsRun(c, run, steps) && n <= |steps|
    requires Drained(run[n]) && r in run[n].history.committed
    ensures RowConverged(c, run[n].db, run[n].history, r)
  {
    RunKeeps(c, run, steps, n);
    DrainedConverged(c, run[n], r);
  }
}
