/** The window walk of `claim_batch`: the queue is scanned in 256-id windows from a cursor
    instead of being sorted as a whole. */
module ClaimWalk {
  import opened Prelude
  import opened Store

  const CLAIM_WINDOW: nat := 256

  /** The simple claim: list every live entry of the range in id order and keep the first `n`. */
  function FirstLive(q: map<nat, Entry>, start: nat, bound: nat, n: nat): seq<nat> {
    var live := LiveIds(q, start, bound);
    live[..Min(n, |live|)]
  }

  /** What a walk from `start` to `bound` may return: the first `n` live entries, and a cursor
      with no unclaimed live entry below it. */
  ghost predicate WalkResult(q: map<nat, Entry>, start: nat, bound: nat, n: nat, ids: seq<nat>, cursor: nat) {
    && ids == FirstLive(q, start, bound, n)
    && cursor <= bound
    && (start <= bound ==> start <= cursor && ids == LiveIds(q, start, cursor))
    && (start <= bound && |ids| < n ==> cursor == bound)
  }

  /** Scan one window from `cursor`, appending live entries below `bound` until the batch is
      full. `reached` is the id up to which every live entry has been taken.

      An exact prefix scan yields a window's entries in ascending id order; the loop visits
      the window's ids in that order and passes over the ids that hold no entry. */
  method ScanWindow(q: map<nat, Entry>, window: nat, cursor: nat, bound: nat, batchSize: nat, taken: seq<nat>)
    returns (claimed: seq<nat>, lastLive: Option<nat>, ghost reached: nat)
    requires window * CLAIM_WINDOW <= cursor < (window + 1) * CLAIM_WINDOW
    requires cursor < bound && |taken| < batchSize
    ensures cursor <= reached && claimed == taken + LiveIds(q, cursor, reached)
    ensures |claimed| <= batchSize
    ensures |claimed| < batchSize ==> reached == Min((window + 1) * CLAIM_WINDOW, bound)
    ensures |claimed| == batchSize ==> lastLive.Some? && reached == lastLive.value + 1 <= bound
  {
    claimed, lastLive, reached := taken, None, cursor;
    var id, end := window * CLAIM_WINDOW, (window + 1) * CLAIM_WINDOW;
    while id < end
      invariant id <= end && |claimed| <= batchSize
      invariant |claimed| < batchSize ==> reached == if id <= cursor then cursor else Min(id, bound)
      invariant |claimed| == batchSize ==> lastLive.Some? && reached == lastLive.value + 1 <= bound
      invariant cursor <= reached && claimed == taken + LiveIds(q, cursor, reached)
    {
      if cursor <= id < bound && |claimed| < batchSize {
        LiveIdsNext(q, cursor, id);
        reached := id + 1;
      }
      if id in q && id >= cursor {
        if id >= bound || |claimed| >= batchSize {
          break;
        }
        if q[id].Live? {
          claimed := claimed + [id];
          lastLive := Some(id);
        }
      }
      id := id + 1;
    }
  }

  /** Walk the windows of `q` from `start` up to `bound`, taking at most `batchSize` live
      entries. Returns the claimed ids and the new cursor. */
  method WalkWindows(q: map<nat, Entry>, start: nat, bound: nat, batchSize: nat)
    returns (claimed: seq<nat>, cursor: nat)
    ensures WalkResult(q, start, bound, batchSize, claimed, cursor)
  {
    claimed, cursor := [], start;
    while cursor < bound && |claimed| < batchSize
      invariant start <= cursor && |claimed| <= batchSize
      invariant start <= bound ==> claimed == LiveIds(q, start, Min(cursor, bound))
      invariant bound < start ==> claimed == [] && cursor == start
      decreases bound - cursor
    {
      var window := cursor / CLAIM_WINDOW;
      ghost var reached: nat;
      var lastLive: Option<nat>;
      claimed, lastLive, reached := ScanWindow(q, window, cursor, bound, batchSize, claimed);
      LiveIdsSplit(q, start, cursor, reached);
      if lastLive.Some? && |claimed| >= batchSize {
        cursor := lastLive.value + 1;
      } else {
        cursor := (window + 1) * CLAIM_WINDOW;
      }
    }
    if start <= bound {
      LiveIdsSplit(q, start, Min(cursor, bound), bound);
    }
    cursor := Min(cursor, bound);
  }
}
