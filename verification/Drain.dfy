/** Looping `process_pending` until it returns 0: exactly when that empties the queue. */
module Drain {
  import opened Prelude
  import opened Store
  import opened ClaimWalk
  import opened Processing

  /** Whether a batch of these jobs makes `process_pending` return something other than 0. */
  type Productive = seq<Job> -> bool

  /** For a given embedder: some job of the batch is not quiet. */
  function ProductiveFor(cat: Catalog, objects: Objects, embedder: Embedder): Productive {
    (jobs: seq<Job>) => exists job :: job in jobs && !Quiet(cat, objects, jobs, embedder, job)
  }

  /** Where the loop stops, having taken `from` entries: after the first batch of `n` that is not
      productive. */
  function StopsAt(p: Productive, jobs: seq<Job>, n: nat, from: nat): (stop: nat)
    requires from <= |jobs|
    ensures from <= stop <= |jobs|
    decreases |jobs| - from
  {
    var next := from + Min(n, |jobs| - from);
    if next > from && p(jobs[from..next]) then StopsAt(p, jobs, n, next) else next
  }

  /** How many entries the loop takes off a queue. */
  function Consumed(p: Productive, jobs: seq<Job>, n: nat): nat {
    StopsAt(p, jobs, n, 0)
  }

  /** Having taken `taken` entries the loop is still headed for the same stop; without `more` it
      has reached it. */
  ghost predicate Heading(p: Productive, jobs: seq<Job>, n: nat, taken: nat, more: bool) {
    taken <= |jobs| && Consumed(p, jobs, n) == if more then StopsAt(p, jobs, n, taken) else taken
  }

  lemma HeadingStep(p: Productive, jobs: seq<Job>, n: nat, taken: nat, next: nat)
    requires Heading(p, jobs, n, taken, true) && next == taken + Min(n, |jobs| - taken) && !p([])
    ensures Heading(p, jobs, n, next, p(jobs[taken..next])) && (p(jobs[taken..next]) ==> taken < next)
  {
    assert next == taken ==> jobs[taken..next] == [];
  }

  /** Where the `k`-th batch starts. */
  function BatchStart(k: nat, n: nat): nat {
    k * n
  }

  /** The `k`-th batch is not the last, and not productive. */
  predicate DeadBatch(p: Productive, jobs: seq<Job>, n: nat, k: nat) {
    BatchStart(k, n) <= BatchStart(k + 1, n) < |jobs| && !p(jobs[BatchStart(k, n)..BatchStart(k + 1, n)])
  }

  lemma {:induction false} StopsAtEndIff(p: Productive, jobs: seq<Job>, n: nat, k: nat)
    requires n > 0 && BatchStart(k, n) <= |jobs|
    ensures StopsAt(p, jobs, n, BatchStart(k, n)) == |jobs| <==> forall j: nat :: j >= k ==> !DeadBatch(p, jobs, n, j)
    decreases |jobs| - BatchStart(k, n)
  {
    var start, next := BatchStart(k, n), BatchStart(k + 1, n);
    assert next == start + n;
    if next >= |jobs| {
      forall j: nat | j >= k ensures !DeadBatch(p, jobs, n, j) {
        BatchStartMonotone(k + 1, j + 1, n);
      }
    } else {
      StopsAtEndIff(p, jobs, n, k + 1);
      if p(jobs[start..next]) {
        assert StopsAt(p, jobs, n, start) == StopsAt(p, jobs, n, next);
        assert !DeadBatch(p, jobs, n, k);
      } else {
        assert DeadBatch(p, jobs, n, k);
      }
    }
  }

  lemma BatchStartMonotone(j: nat, k: nat, n: nat)
    requires j <= k
    ensures BatchStart(j, n) <= BatchStart(k, n)
  {
  }

  /** The loop empties a queue of these jobs. */
  ghost predicate Drains(p: Productive, jobs: seq<Job>, n: nat) {
    if n == 0 then jobs == [] else forall k: nat :: !DeadBatch(p, jobs, n, k)
  }

  /** The loop empties the queue if and only if every batch before the last is productive. */
  lemma DrainsIff(p: Productive, jobs: seq<Job>, n: nat)
    ensures Consumed(p, jobs, n) == |jobs| <==> Drains(p, jobs, n)
  {
    if n > 0 {
      assert BatchStart(0, n) == 0;
      StopsAtEndIff(p, jobs, n, 0);
    }
  }

  /** In particular when every job makes its batch productive. */
  lemma AllProductiveDrains(p: Productive, jobs: seq<Job>, n: nat)
    requires n > 0 && forall lo, hi :: 0 <= lo < hi <= |jobs| ==> p(jobs[lo..hi])
    ensures Drains(p, jobs, n)
  {
    forall k: nat ensures !DeadBatch(p, jobs, n, k) {
      assert BatchStart(k + 1, n) == BatchStart(k, n) + n;
    }
  }

  /** A batch in which every embed call fails stops the loop, text or no text. */
  lemma FailureIsQuiet(cat: Catalog, objects: Objects, embedder: Embedder, jobs: seq<Job>)
    requires forall job :: job in jobs ==> GroupAnswer(cat, objects, jobs, embedder, job.model).EmbedFailed?
    ensures !ProductiveFor(cat, objects, embedder)(jobs)
  {
  }

  lemma PrefixDisjoint(ids: seq<nat>, m: nat)
    requires Ascending(ids) && m <= |ids|
    ensures forall id :: id in ids[..m] ==> id !in ids[m..]
  {
    forall id | id in ids[..m] ensures id !in ids[m..] {
      var i :| 0 <= i < m && ids[i] == id;
      assert forall j :: m <= j < |ids| ==> ids[i] < ids[j];
    }
  }

  /** Deleting the first `m` live entries leaves the rest of the listing. */
  lemma DeletePrefix(q: map<nat, Entry>, bound: nat, m: nat)
    requires m <= |LiveIds(q, 0, bound)|
    ensures var live := LiveIds(q, 0, bound);
      LiveIds(q - (set id | id in live[..m]), 0, bound) == live[m..]
  {
    var live := LiveIds(q, 0, bound);
    var q' := q - set id | id in live[..m];
    LiveIdsExact(q, 0, bound);
    LiveIdsExact(q', 0, bound);
    forall id ensures id in live[m..] <==> id in LiveIds(q', 0, bound) {
      assert live == live[..m] + live[m..];
      PrefixDisjoint(live, m);
    }
    AscendingUnique(LiveIds(q', 0, bound), live[m..]);
  }
}
