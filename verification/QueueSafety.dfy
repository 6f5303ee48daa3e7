/** Safety of the claim protocol under every interleaving of enqueues and claims: no committed
    entry is lost, no id is claimed twice, and claims come in id order. */
module QueueSafety {
  import opened Prelude
  import opened Store
  import opened ClaimWalk
  import opened Reconcile
  import opened VectorQueue

  /** In-flight ranges lie between the cursor and the next id, do not overlap, and hold no
      queue entry until they commit. */
  ghost predicate RangesInv(ram: Ram, q: map<nat, Entry>) {
    && ram.cursor <= ram.nextId
    && (forall id :: id in q ==> id < ram.nextId && q[id].Live?)
    && (forall f :: f in ram.enqueues ==> ram.cursor <= f < f + |ram.enqueues[f].jobs| <= ram.nextId)
    && (forall f, g :: f in ram.enqueues && g in ram.enqueues && f < g ==> f + |ram.enqueues[f].jobs| <= g)
    && (forall f, id :: f in ram.enqueues && !ram.enqueues[f].committed && id in q ==>
          !(f <= id < f + |ram.enqueues[f].jobs|))
  }

  ghost predicate BoundHolds(ram: Ram, bound: nat) {
    && ram.cursor <= bound <= ram.nextId
    && (forall f :: f in ram.enqueues ==> bound <= f)
  }

  ghost predicate AgreeBelow(bound: nat, q: map<nat, Entry>, snap: map<nat, Entry>) {
    && (forall id :: id in q && id < bound ==> id in snap && snap[id] == q[id])
    && (forall id :: id in snap && id < bound ==> id in q)
  }

  ghost predicate ClaimInv(ram: Ram, q: map<nat, Entry>) {
    match ram.claim
    case Idle => true
    case Bounded(bound) => BoundHolds(ram, bound)
    case SnappedEarly(_) => false
    case Snapped(snap, bound) => BoundHolds(ram, bound) && AgreeBelow(bound, q, snap)
    case Committing(snap, ids) => Unmodified(q, snap, ids)
  }

  /** The ids the claim holder is committing. */
  function InCommit(ram: Ram): seq<nat> {
    if ram.claim.Committing? then ram.claim.ids else []
  }

  /** Every committed, unclaimed entry is at or past the cursor, or in the batch being committed. */
  ghost predicate NoLoss(ram: Ram, q: map<nat, Entry>) {
    forall id :: id in q ==> id >= ram.cursor || id in InCommit(ram)
  }

  /** Claims so far, with the one being committed, ascend strictly and lie below the cursor. */
  ghost predicate ClaimsAscend(ram: Ram) {
    && Ascending(ram.claimed + InCommit(ram))
    && (forall id :: id in ram.claimed + InCommit(ram) ==> id < ram.cursor)
  }

  ghost predicate QueueInv(ram: Ram, q: map<nat, Entry>) {
    RangesInv(ram, q) && ClaimInv(ram, q) && NoLoss(ram, q) && ClaimsAscend(ram)
  }

  ghost predicate SysQueueInv(s: Sys) {
    match s.session
    case Up(ram) => QueueInv(ram, s.db.queue)
    case _ => forall id :: id in s.db.queue ==> s.db.queue[id].Live?
  }

  lemma AscendingConcat(a: seq<nat>, b: seq<nat>, pivot: nat)
    requires Ascending(a) && Ascending(b)
    requires forall x :: x in a ==> x < pivot
    requires forall x :: x in b ==> pivot <= x
    ensures Ascending(a + b)
  {
    forall i, j | 0 <= i < j < |a + b| ensures (a + b)[i] < (a + b)[j] {
      if i < |a| <= j {
        assert a[i] in a && b[j - |a|] in b;
      }
    }
  }

  lemma CommitKeepsRanges(ram: Ram, q: map<nat, Entry>, first: nat, q': map<nat, Entry>)
    requires RangesInv(ram, q)
    requires first in ram.enqueues && !ram.enqueues[first].committed
    requires q' == q + Entries(first, ram.enqueues[first].jobs)
    ensures RangesInv(ram.(enqueues := ram.enqueues[first := ram.enqueues[first].(committed := true)]), q')
    ensures forall id :: id in q ==> q'[id] == q[id]
    ensures forall id :: id in q' && id < first ==> id in q
  {
    var e := ram.enqueues[first];
    var enqueues := ram.enqueues[first := e.(committed := true)];
    EntriesAt(first, e.jobs);
    forall id | id in q' ensures id < ram.nextId && q'[id].Live? && (id in q || first <= id < first + |e.jobs|) {
      assert id in q || id in Entries(first, e.jobs);
    }
    forall id | id in q ensures q'[id] == q[id] {
      assert id !in Entries(first, e.jobs);
    }
    forall f, id | f in enqueues && !enqueues[f].committed && id in q'
      ensures !(f <= id < f + |enqueues[f].jobs|)
    {
      assert f != first && enqueues[f] == ram.enqueues[f];
    }
  }

  lemma CommitKeepsQueue(c: Config, s: Sys, first: nat, s': Sys)
    requires SysQueueInv(s) && EnqueueCommitStep(c, s, first, s')
    ensures SysQueueInv(s')
  {
    var ram, ram', q, q' := s.session.ram, s'.session.ram, s.db.queue, s'.db.queue;
    CommitKeepsRanges(ram, q, first, q');
    assert InCommit(ram') == InCommit(ram);
    forall id | id in q' ensures id >= ram'.cursor || id in InCommit(ram') {
    }
  }

  lemma WalkKeepsQueue(c: Config, s: Sys, ids: seq<nat>, cursor: nat, s': Sys)
    requires SysQueueInv(s) && WalkedStep(c, s, ids, cursor, s')
    ensures SysQueueInv(s')
  {
    var ram, ram', q := s.session.ram, s'.session.ram, s.db.queue;
    assert ids == LiveIds(ram.claim.snap, ram.cursor, cursor);
    LiveIdsExact(ram.claim.snap, ram.cursor, cursor);
    forall id | id in q && id < cursor ensures id in ids {
      assert id >= ram.cursor;
    }
    assert ram.claimed + InCommit(ram) == ram.claimed;
    AscendingConcat(ram.claimed, ids, ram.cursor);
    assert InCommit(ram') == ids;
  }

  lemma ClaimCommitKeepsQueue(s: Sys, s': Sys)
    requires SysQueueInv(s) && ClaimCommitStep(s, s')
    ensures SysQueueInv(s')
  {
    var ram, ram' := s.session.ram, s'.session.ram;
    assert ram'.claimed + InCommit(ram') == ram.claimed + InCommit(ram);
  }

  lemma AllocateKeepsQueue(c: Config, s: Sys, jobs: seq<Job>, requeued: set<nat>, s': Sys)
    requires SysQueueInv(s) && AllocateStep(c, s, jobs, requeued, s')
    ensures SysQueueInv(s')
  {
    var ram, ram' := s.session.ram, s'.session.ram;
    assert InCommit(ram') == InCommit(ram);
    assert ram'.claimed == ram.claimed;
  }

  /** Bound reads, snapshots and unregistrations. */
  lemma BookkeepingKeepsQueue(c: Config, s: Sys, step: Step, s': Sys)
    requires c.boundFirst && SysQueueInv(s) && Next(c, s, step, s')
    requires step.Unregister? || step.ClaimReadBound? || step.ClaimSnapshot?
    ensures SysQueueInv(s')
  {
    var ram, ram' := s.session.ram, s'.session.ram;
    assert InCommit(ram') == InCommit(ram);
    assert ram'.claimed == ram.claimed;
  }

  /** A committing claim never meets a write-write conflict: queue keys are written once, by
      their own enqueue, and deleted only by the claim that holds the mutex. */
  lemma ClaimNeverConflicts(s: Sys, s': Sys)
    requires SysQueueInv(s)
    ensures !ClaimConflictStep(s, s')
  {
  }

  lemma HandIsIrrelevant(ram: Ram, hand: map<nat, InHand>, dropped: set<Row>, index: map<Row, Vector>,
                         q: map<nat, Entry>)
    requires QueueInv(ram, q)
    ensures QueueInv(ram.(hand := hand, dropped := dropped, index := index), q)
  {
  }

  /** Steps that leave the queue and the claim machinery alone. */
  lemma WorkerKeepsQueue(c: Config, s: Sys, step: Step, s': Sys)
    requires SysQueueInv(s) && Next(c, s, step, s')
    requires step.WriteObject? || step.ReadText? || step.StoreInsert? || step.StoreCommit? || step.ClearCommit? ||
      step.FailCommit? || step.DropJob?
    ensures SysQueueInv(s')
  {
    var ram, ram' := s.session.ram, s'.session.ram;
    assert ram' == ram.(hand := ram'.hand, dropped := ram'.dropped, index := ram'.index);
    assert s'.db.queue == s.db.queue;
    HandIsIrrelevant(ram, ram'.hand, ram'.dropped, ram'.index, s.db.queue);
  }

  lemma ClaimStepKeepsQueue(c: Config, s: Sys, step: Step, s': Sys)
    requires SysQueueInv(s) && Next(c, s, step, s')
    requires step.EnqueueCommit? || step.ClaimWalked? || step.ClaimCommit? || step.ClaimConflict?
    ensures SysQueueInv(s')
  {
    match step
    case EnqueueCommit(first) => CommitKeepsQueue(c, s, first, s');
    case ClaimWalked(ids, cursor) => WalkKeepsQueue(c, s, ids, cursor, s');
    case ClaimCommit => ClaimCommitKeepsQueue(s, s');
    case ClaimConflict => ClaimNeverConflicts(s, s');
  }

  lemma OpenKeepsQueue(c: Config, s: Sys, step: Step, s': Sys)
    requires SysQueueInv(s) && Next(c, s, step, s')
    requires step.Crash? || step.OpenClean? || step.OpenEnqueue?
    ensures SysQueueInv(s')
  {
    if step.OpenEnqueue? {
      var first := NextJobId(s.db.queue);
      EntriesAt(first, JobsFor(c.cat, s.session.orphans));
    }
  }

  /** Every step of the protocol keeps the queue invariant. */
  lemma StepKeepsQueue(c: Config, s: Sys, step: Step, s': Sys)
    requires c.boundFirst && SysQueueInv(s) && Next(c, s, step, s')
    ensures SysQueueInv(s')
  {
    if step.EnqueueCommit? || step.ClaimWalked? || step.ClaimCommit? || step.ClaimConflict? {
      ClaimStepKeepsQueue(c, s, step, s');
    } else if step.EnqueueAllocate? {
      AllocateKeepsQueue(c, s, step.jobs, step.requeued, s');
    } else if step.Unregister? || step.ClaimReadBound? || step.ClaimSnapshot? {
      BookkeepingKeepsQueue(c, s, step, s');
    } else if step.Crash? || step.OpenClean? || step.OpenEnqueue? {
      OpenKeepsQueue(c, s, step, s');
    } else {
      WorkerKeepsQueue(c, s, step, s');
    }
  }

  lemma {:induction false} RunKeepsQueue(c: Config, run: seq<Sys>, steps: seq<Step>, n: nat)
    requires c.boundFirst && IsRun(c, run, steps) && n <= |steps|
    ensures SysQueueInv(run[n])
  {
    if n == 0 {
    } else {
      RunKeepsQueue(c, run, steps, n - 1);
      StepKeepsQueue(c, run[n - 1], steps[n - 1], run[n]);
    }
  }

  /** No lost job, at most once, in order: in every state of every run the cursor is at most
      the claim bound, which is at most the next id; a committed unclaimed entry is at or past
      the cursor or in the batch being committed; and the ids returned by all claims of the
      session ascend strictly, so no id is returned twice. */
  lemma NoLostJob(c: Config, run: seq<Sys>, steps: seq<Step>, n: nat)
    requires c.boundFirst && IsRun(c, run, steps) && n <= |steps| && run[n].session.Up?
    ensures var ram := run[n].session.ram;
      && ram.cursor <= ClaimBound(ram) <= ram.nextId
      && (forall id :: id in run[n].db.queue ==> id >= ram.cursor || id in InCommit(ram))
      && Ascending(ram.claimed + InCommit(ram))
      && (forall id :: id in ram.claimed ==> id !in run[n].db.queue)
  {
    RunKeepsQueue(c, run, steps, n);
    var ram := run[n].session.ram;
    forall id | id in ram.claimed ensures id !in run[n].db.queue {
      ClaimedNotCommitting(ram, id);
    }
  }

  lemma ClaimedNotCommitting(ram: Ram, id: nat)
    requires ClaimsAscend(ram) && id in ram.claimed
    ensures id < ram.cursor && id !in InCommit(ram)
  {
    var all := ram.claimed + InCommit(ram);
    assert id in all;
    var i :| 0 <= i < |ram.claimed| && ram.claimed[i] == id;
    assert all[i] == id;
    forall j | 0 <= j < |InCommit(ram)| ensures InCommit(ram)[j] != id {
      assert all[i] < all[|ram.claimed| + j];
    }
  }

  /** New ranges start at the next id. */
  lemma RangesGrowAtTop(c: Config, s: Sys, step: Step, s': Sys)
    requires Next(c, s, step, s') && s.session.Up? && s'.session.Up?
    ensures var ram, ram' := s.session.ram, s'.session.ram;
      ram.nextId <= ram'.nextId && forall f :: f in ram'.enqueues ==> f in ram.enqueues || f == ram.nextId
  {
  }

  lemma CursorMonotone(c: Config, s: Sys, step: Step, s': Sys)
    requires c.boundFirst && SysQueueInv(s) && Next(c, s, step, s') && s.session.Up? && s'.session.Up?
    ensures s.session.ram.cursor <= s'.session.ram.cursor
  {
  }

  lemma StepMonotone(c: Config, s: Sys, step: Step, s': Sys)
    requires c.boundFirst && SysQueueInv(s) && Next(c, s, step, s') && s.session.Up? && s'.session.Up?
    ensures s.session.ram.cursor <= s'.session.ram.cursor
    ensures ClaimBound(s.session.ram) <= ClaimBound(s'.session.ram)
  {
    RangesGrowAtTop(c, s, step, s');
    CursorMonotone(c, s, step, s');
    assert ClaimBound(s'.session.ram) in s'.session.ram.enqueues.Keys + {s'.session.ram.nextId};
  }

  /** Neither the cursor nor the claim bound moves back from `s` to `t`. */
  ghost predicate Rises(s: Sys, t: Sys) {
    && s.session.Up? && t.session.Up?
    && s.session.ram.cursor <= t.session.ram.cursor
    && ClaimBound(s.session.ram) <= ClaimBound(t.session.ram)
  }

  lemma RunStepRises(c: Config, run: seq<Sys>, steps: seq<Step>, k: nat)
    requires c.boundFirst && IsRun(c, run, steps) && k < |steps| && run[k].session.Up? && run[k + 1].session.Up?
    ensures Rises(run[k], run[k + 1])
  {
    RunKeepsQueue(c, run, steps, k);
    StepMonotone(c, run[k], steps[k], run[k + 1]);
  }

  lemma {:induction false} RisesThroughout(run: seq<Sys>, i: nat, j: nat)
    requires i <= j < |run| && run[i].session.Up? && forall k :: i <= k < j ==> Rises(run[k], run[k + 1])
    ensures Rises(run[i], run[j])
    decreases j - i
  {
    if i >= j {
    } else {
      RisesThroughout(run, i, j - 1);
      assert Rises(run[j - 1], run[j - 1 + 1]);
    }
  }

  /** Within a session neither the cursor nor the claim bound ever moves back. */
  lemma SessionMonotone(c: Config, run: seq<Sys>, steps: seq<Step>, i: nat, j: nat)
    requires c.boundFirst && IsRun(c, run, steps) && i <= j <= |steps|
    requires forall k :: i <= k <= j ==> run[k].session.Up?
    ensures Rises(run[i], run[j])
  {
    forall k | i <= k < j ensures Rises(run[k], run[k + 1]) {
      RunStepRises(c, run, steps, k);
    }
    RisesThroughout(run, i, j);
  }

  /** An empty store, with the given session and history of a single enqueue. */
  function Lone(db: Db, session: Session, keys: set<ObjectKey>, rows: set<Row>): Sys {
    Sys(db, session, History(keys, rows, {}))
  }

  const EMPTY := Db(map[], map[], map[], map[])

  function FreshRam(nextId: nat, enqueues: map<nat, Enqueue>, cursor: nat, claim: Claim): Ram {
    Ram(nextId, enqueues, cursor, claim, map[], [], {}, map[])
  }

  lemma OpenEmpty(c: Config)
    ensures Next(c, Lone(EMPTY, Down, {}, {}), OpenClean([]), Lone(EMPTY, Opening([]), {}, {}))
    ensures Next(c, Lone(EMPTY, Opening([]), {}, {}), OpenEnqueue, Lone(EMPTY, Up(FreshRam(1, map[], 0, Idle)), {}, {}))
  {
    assert UnqueuedPending(c.cat, EMPTY) == {};
    assert DeleteStates(EMPTY, StaleRows(c.cat, EMPTY)) == EMPTY;
    assert RowsOf(c.cat, []) == {};
    assert PutJobs(c.cat, EMPTY, 1, []) == EMPTY;
  }

  lemma EnqueueBetween(c: Config, job: Job)
    requires !c.boundFirst && c.cat.WellBuilt(job)
    ensures var keys, rows := KeysOf(c.cat, [job]), RowsOf(c.cat, [job]);
      var db := PutJobs(c.cat, EMPTY, 1, [job]);
      var e := map[1 := Enqueue([job], {}, false)];
      var done := map[1 := Enqueue([job], {}, true)];
      && Next(c, Lone(EMPTY, Up(FreshRam(1, map[], 0, Idle)), {}, {}), EnqueueAllocate([job], {}),
              Lone(EMPTY, Up(FreshRam(2, e, 0, Idle)), keys, {}))
      && Next(c, Lone(EMPTY, Up(FreshRam(2, e, 0, Idle)), keys, {}), ClaimSnapshot,
              Lone(EMPTY, Up(FreshRam(2, e, 0, SnappedEarly(map[]))), keys, {}))
      && Next(c, Lone(EMPTY, Up(FreshRam(2, e, 0, SnappedEarly(map[]))), keys, {}), EnqueueCommit(1),
              Lone(db, Up(FreshRam(2, done, 0, SnappedEarly(map[]))), keys, rows))
      && Next(c, Lone(db, Up(FreshRam(2, done, 0, SnappedEarly(map[]))), keys, rows), Unregister(1),
              Lone(db, Up(FreshRam(2, map[], 0, SnappedEarly(map[]))), keys, rows))
  {
    var hand: map<nat, InHand> := map[];
    var none: set<Row> := {};
    assert hand - {} == hand && none + RowsOf(c.cat, [job]) == RowsOf(c.cat, [job]);
    assert map[1 := Enqueue([job], {}, false)][1 := Enqueue([job], {}, true)] == map[1 := Enqueue([job], {}, true)];
    assert map[1 := Enqueue([job], {}, true)] - {1} == map[];
  }

  lemma WalkPast(c: Config, db: Db, keys: set<ObjectKey>, rows: set<Row>)
    requires !c.boundFirst && c.batchSize > 0
    ensures Next(c, Lone(db, Up(FreshRam(2, map[], 0, SnappedEarly(map[]))), keys, rows), ClaimReadBound,
                 Lone(db, Up(FreshRam(2, map[], 0, Snapped(map[], 2))), keys, rows))
    ensures Next(c, Lone(db, Up(FreshRam(2, map[], 0, Snapped(map[], 2))), keys, rows), ClaimWalked([], 2),
                 Lone(db, Up(FreshRam(2, map[], 2, Idle)), keys, rows))
  {
    assert ClaimBound(FreshRam(2, map[], 0, SnappedEarly(map[]))) == 2;
    assert LiveIds(map[], 0, 2) == [];
  }

  /** Why the bound is read first: with the snapshot taken before the bound, an enqueue that
      commits in between leaves its entry below the cursor and in no batch. */
  lemma SnapshotFirstLosesAJob(c: Config, job: Job)
    returns (run: seq<Sys>, steps: seq<Step>)
    requires !c.boundFirst && c.batchSize > 0 && c.cat.WellBuilt(job)
    ensures IsRun(c, run, steps)
    ensures var last := run[|steps|];
      && last.session.Up? && last.session.ram.claim.Idle?
      && last.session.ram.enqueues == map[] && last.session.ram.hand == map[]
      && 1 in last.db.queue && 1 < last.session.ram.cursor
  {
    var keys, rows := KeysOf(c.cat, [job]), RowsOf(c.cat, [job]);
    var db := PutJobs(c.cat, EMPTY, 1, [job]);
    var e := map[1 := Enqueue([job], {}, false)];
    var done := map[1 := Enqueue([job], {}, true)];
    run := [
      Lone(EMPTY, Down, {}, {}),
      Lone(EMPTY, Opening([]), {}, {}),
      Lone(EMPTY, Up(FreshRam(1, map[], 0, Idle)), {}, {}),
      Lone(EMPTY, Up(FreshRam(2, e, 0, Idle)), keys, {}),
      Lone(EMPTY, Up(FreshRam(2, e, 0, SnappedEarly(map[]))), keys, {}),
      Lone(db, Up(FreshRam(2, done, 0, SnappedEarly(map[]))), keys, rows),
      Lone(db, Up(FreshRam(2, map[], 0, SnappedEarly(map[]))), keys, rows),
      Lone(db, Up(FreshRam(2, map[], 0, Snapped(map[], 2))), keys, rows),
      Lone(db, Up(FreshRam(2, map[], 2, Idle)), keys, rows)];
    steps := [OpenClean([]), OpenEnqueue, EnqueueAllocate([job], {}), ClaimSnapshot, EnqueueCommit(1),
              Unregister(1), ClaimReadBound, ClaimWalked([], 2)];
    OpenEmpty(c);
    EnqueueBetween(c, job);
    WalkPast(c, db, keys, rows);
  }
}
