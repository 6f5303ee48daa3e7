/** The vectorize queue as a protocol: enqueuers, claimers and workers interleave freely over
    one durable `Db`, and the process may die between any two commits. */
module VectorQueue {
  import opened Prelude
  import opened Store
  import opened ClaimWalk
  import opened Reconcile

  /** `boundFirst` is the order `claim_batch` uses: the bound is read before the snapshot. */
  datatype Config = Config(cat: Catalog, embed: (string, string) -> Vector, batchSize: nat, boundFirst: bool)

  /** An `enqueue_many` that has allocated its ids and not yet unregistered. `requeued` are the
      claimed ids whose jobs it puts back (the model-unavailable path). */
  datatype Enqueue = Enqueue(jobs: seq<Job>, requeued: set<nat>, committed: bool)

  /** Progress of the `claim_mutex` holder. */
  datatype Claim =
    | Idle
    | Bounded(bound: nat)
    | SnappedEarly(snap: map<nat, Entry>)
    | Snapped(snap: map<nat, Entry>, bound: nat)
    | Committing(snap: map<nat, Entry>, ids: seq<nat>)

  /** A claimed job in some worker's batch. */
  datatype InHand =
    | Unread(job: Job)
    | WithText(job: Job, text: string)
    | Inserted(job: Job, text: string)
    | Textless(job: Job)

  /** RAM of one session. `index` is the in-memory index, shared by all workers. `claimed` and
      `dropped` are history: the ids claim commits returned,
      and the rows of jobs a worker gave up on. */
  datatype Ram = Ram(
    nextId: nat,
    enqueues: map<nat, Enqueue>,
    cursor: nat,
    claim: Claim,
    hand: map<nat, InHand>,
    claimed: seq<nat>,
    dropped: set<Row>,
    index: map<Row, Vector>)

  datatype Session = Down | Opening(orphans: seq<Row>) | Up(ram: Ram)

  /** The objects named by some enqueue, the rows whose enqueue committed, and the rows marked
      `Failed`. */
  datatype History = History(touched: set<ObjectKey>, committed: set<Row>, failed: set<Row>)

  datatype Sys = Sys(db: Db, session: Session, history: History)

  datatype Step =
    | WriteObject(key: ObjectKey, fields: map<string, FieldValue>)
    | EnqueueAllocate(jobs: seq<Job>, requeued: set<nat>)
    | EnqueueCommit(first: nat)
    | Unregister(first: nat)
    | ClaimReadBound
    | ClaimSnapshot
    | ClaimWalked(ids: seq<nat>, cursor: nat)
    | ClaimCommit
    | ClaimConflict
    | ReadText(id: nat)
    | StoreInsert(id: nat)
    | StoreCommit(id: nat)
    | ClearCommit(id: nat)
    | FailCommit(id: nat)
    | DropJob(id: nat)
    | Crash
    | OpenClean(orphans: seq<Row>)
    | OpenEnqueue

  ghost function Least(s: set<nat>): (m: nat)
    requires s != {}
    ensures m in s && forall x :: x in s ==> m <= x
  {
    var x :| x in s;
    if s == {x} then x else
      assert s == (s - {x}) + {x};
      var m := Least(s - {x});
      if x < m then x else m
  }

  /** `claim_bound`: the lowest in-flight range start, else the next id. */
  ghost function ClaimBound(ram: Ram): nat {
    Least(ram.enqueues.Keys + {ram.nextId})
  }

  function RowFor(cat: Catalog, job: Job): Row
    requires cat.WellBuilt(job)
  {
    cat.RowOf(job).value
  }

  function KeysOf(cat: Catalog, jobs: seq<Job>): set<ObjectKey> {
    set r | r in RowsOf(cat, jobs) :: KeyOf(r)
  }

  ghost predicate Init(s: Sys) {
    && s.session.Down?
    && s.db.queue == map[] && s.db.state == map[] && s.db.vectors == map[]
    && s.history == History({}, {}, {})
  }

  function SetRam(s: Sys, ram: Ram): Sys {
    s.(session := Up(ram))
  }

  /** The id's job is in hand and resolves. */
  predicate Holds(c: Config, s: Sys, id: nat) {
    s.session.Up? && id in s.session.ram.hand && c.cat.WellBuilt(s.session.ram.hand[id].job)
  }

  function Release(s: Sys, id: nat): Ram
    requires s.session.Up?
  {
    s.session.ram.(hand := s.session.ram.hand - {id})
  }

  ghost predicate AllocateStep(c: Config, s: Sys, jobs: seq<Job>, requeued: set<nat>, s': Sys) {
    && s.session.Up?
    && var ram := s.session.ram;
    && jobs != []
    && (forall i :: 0 <= i < |jobs| ==> c.cat.WellBuilt(jobs[i]))
    && (forall id :: id in requeued ==> id in ram.hand && ram.hand[id].WithText? && ram.hand[id].job in jobs)
    && s' == SetRam(s, ram.(
        nextId := ram.nextId + |jobs|,
        enqueues := ram.enqueues[ram.nextId := Enqueue(jobs, requeued, false)]))
      .(history := s.history.(touched := s.history.touched + KeysOf(c.cat, jobs)))
  }

  ghost predicate EnqueueCommitStep(c: Config, s: Sys, first: nat, s': Sys) {
    && s.session.Up?
    && var ram := s.session.ram;
    && first in ram.enqueues && !ram.enqueues[first].committed
    && var e := ram.enqueues[first];
    && s' == SetRam(s, ram.(
        enqueues := ram.enqueues[first := e.(committed := true)],
        hand := ram.hand - e.requeued))
      .(db := PutJobs(c.cat, s.db, first, e.jobs),
        history := s.history.(committed := s.history.committed + RowsOf(c.cat, e.jobs)))
  }

  ghost predicate UnregisterStep(s: Sys, first: nat, s': Sys) {
    && s.session.Up?
    && first in s.session.ram.enqueues
    && s' == SetRam(s, s.session.ram.(enqueues := s.session.ram.enqueues - {first}))
  }

  ghost predicate ReadBoundStep(c: Config, s: Sys, s': Sys) {
    && s.session.Up?
    && var ram := s.session.ram;
    && var bound := ClaimBound(ram);
    && if c.boundFirst
       then ram.claim.Idle? && s' == SetRam(s, ram.(claim := Bounded(bound)))
       else ram.claim.SnappedEarly? && s' == SetRam(s, ram.(claim := Snapped(ram.claim.snap, bound)))
  }

  ghost predicate SnapshotStep(c: Config, s: Sys, s': Sys) {
    && s.session.Up?
    && var ram := s.session.ram;
    && if c.boundFirst
       then ram.claim.Bounded? && s' == SetRam(s, ram.(claim := Snapped(s.db.queue, ram.claim.bound)))
       else ram.claim.Idle? && s' == SetRam(s, ram.(claim := SnappedEarly(s.db.queue)))
  }

  ghost predicate WalkedStep(c: Config, s: Sys, ids: seq<nat>, cursor: nat, s': Sys) {
    && s.session.Up?
    && var ram := s.session.ram;
    && ram.claim.Snapped?
    && WalkResult(ram.claim.snap, ram.cursor, ram.claim.bound, c.batchSize, ids, cursor)
    && s' == SetRam(s, ram.(
        cursor := cursor,
        claim := if ids == [] then Idle else Committing(ram.claim.snap, ids)))
  }

  /** Write-write conflict detection: a key of the write set changed since the snapshot. */
  ghost predicate Unmodified(q: map<nat, Entry>, snap: map<nat, Entry>, ids: seq<nat>) {
    forall id :: id in ids ==> id in q && id in snap && q[id] == snap[id]
  }

  ghost predicate ClaimCommitStep(s: Sys, s': Sys) {
    && s.session.Up?
    && var ram := s.session.ram;
    && ram.claim.Committing?
    && var snap, ids := ram.claim.snap, ram.claim.ids;
    && Unmodified(s.db.queue, snap, ids)
    && s' == SetRam(s, ram.(
        claim := Idle,
        hand := ram.hand + map id | id in ids && id in snap && snap[id].Live? :: Unread(snap[id].job),
        claimed := ram.claimed + ids))
      .(db := DeleteEntries(s.db, ids))
  }

  /** The commit the claim's caller would see fail; the cursor has already moved. */
  ghost predicate ClaimConflictStep(s: Sys, s': Sys) {
    && s.session.Up?
    && var ram := s.session.ram;
    && ram.claim.Committing?
    && !Unmodified(s.db.queue, ram.claim.snap, ram.claim.ids)
    && s' == SetRam(s, ram.(claim := Idle))
  }

  ghost predicate ReadTextStep(c: Config, s: Sys, id: nat, s': Sys) {
    && Holds(c, s, id)
    && var ram := s.session.ram;
    && ram.hand[id].Unread?
    && var job := ram.hand[id].job;
    && var text := SourceText(c.cat, s.db.objects, RowFor(c.cat, job));
    && s' == SetRam(s, ram.(hand := ram.hand[id :=
        if text.Some? then WithText(job, text.value) else Textless(job)]))
  }

  /** The embedding enters the index before anything is durable. */
  ghost predicate InsertStep(c: Config, s: Sys, id: nat, s': Sys) {
    && Holds(c, s, id)
    && var ram := s.session.ram;
    && var item := ram.hand[id];
    && item.WithText?
    && s' == SetRam(s, ram.(
        hand := ram.hand[id := Inserted(item.job, item.text)],
        index := ram.index[RowFor(c.cat, item.job) := c.embed(item.job.model, item.text)]))
  }

  ghost predicate StoreStep(c: Config, s: Sys, id: nat, s': Sys) {
    && Holds(c, s, id)
    && var item := s.session.ram.hand[id];
    && item.Inserted?
    && s' == SetRam(s, Release(s, id))
      .(db := PutVector(s.db, RowFor(c.cat, item.job), c.embed(item.job.model, item.text)))
  }

  ghost predicate ClearStep(c: Config, s: Sys, id: nat, s': Sys) {
    && Holds(c, s, id)
    && var item := s.session.ram.hand[id];
    && item.Textless?
    && s' == SetRam(s, Release(s, id)).(db := DeleteStates(s.db, {RowFor(c.cat, item.job)}))
  }

  ghost predicate FailStep(c: Config, s: Sys, id: nat, s': Sys) {
    && Holds(c, s, id)
    && var item := s.session.ram.hand[id];
    && item.WithText?
    && var r := RowFor(c.cat, item.job);
    && s' == SetRam(s, Release(s, id)).(db := PutFailed(s.db, r),
      history := s.history.(failed := s.history.failed + {r}))
  }

  ghost predicate DropStep(c: Config, s: Sys, id: nat, s': Sys) {
    && Holds(c, s, id)
    && var ram := Release(s, id);
    && s' == SetRam(s, ram.(dropped := ram.dropped + {RowFor(c.cat, s.session.ram.hand[id].job)}))
  }

  ghost predicate OpenCleanStep(c: Config, s: Sys, orphans: seq<Row>, s': Sys) {
    && s.session.Down?
    && Listing(orphans, OrphanRows(c.cat, s.db))
    && s' == s.(db := DeleteStates(s.db, StaleRows(c.cat, s.db)), session := Opening(orphans))
  }

  ghost predicate OpenEnqueueStep(c: Config, s: Sys, s': Sys) {
    && s.session.Opening?
    && var orphans := s.session.orphans;
    && (forall r :: r in orphans ==> c.cat.Vectorizes(r))
    && var first := NextJobId(s.db.queue);
    && s' == s.(
        db := PutJobs(c.cat, s.db, first, JobsFor(c.cat, orphans)),
        session := Up(Ram(first + |orphans|, map[], 0, Idle, map[], [], {}, s.db.vectors)))
  }

  ghost predicate Next(c: Config, s: Sys, step: Step, s': Sys) {
    match step
    case WriteObject(key, fields) =>
      // Texts are fixed before enqueue: an object some enqueue has named is not rewritten.
      s.session.Up? && key !in s.history.touched && s' == s.(db := s.db.(objects := s.db.objects[key := fields]))
    case EnqueueAllocate(jobs, requeued) => AllocateStep(c, s, jobs, requeued, s')
    case EnqueueCommit(first) => EnqueueCommitStep(c, s, first, s')
    case Unregister(first) => UnregisterStep(s, first, s')
    case ClaimReadBound => ReadBoundStep(c, s, s')
    case ClaimSnapshot => SnapshotStep(c, s, s')
    case ClaimWalked(ids, cursor) => WalkedStep(c, s, ids, cursor, s')
    case ClaimCommit => ClaimCommitStep(s, s')
    case ClaimConflict => ClaimConflictStep(s, s')
    case ReadText(id) => ReadTextStep(c, s, id, s')
    case StoreInsert(id) => InsertStep(c, s, id, s')
    case StoreCommit(id) => StoreStep(c, s, id, s')
    case ClearCommit(id) => ClearStep(c, s, id, s')
    case FailCommit(id) => FailStep(c, s, id, s')
    case DropJob(id) => DropStep(c, s, id, s')
    case Crash => !s.session.Down? && s' == s.(session := Down)
    case OpenClean(orphans) => OpenCleanStep(c, s, orphans, s')
    case OpenEnqueue => OpenEnqueueStep(c, s, s')
  }

  ghost predicate IsRun(c: Config, run: seq<Sys>, steps: seq<Step>) {
    && |run| == |steps| + 1
    && Init(run[0])
    && forall i :: 0 <= i < |steps| ==> Next(c, run[i], steps[i], run[i + 1])
  }
}
