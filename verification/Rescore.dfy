/** Exact rescoring of a set of ids, and the order every search result is built on. */
module Rescore {
  import opened Prelude
  import opened Store

  /** Positive infinity, the distance of an id with no vector of the query's dimension. */
  const INFINITY: F32 := 0x7F80_0000

  /** The position of a bit pattern in the total order of floats. */
  function TotalKey(bits: F32): int {
    if bits < 0x8000_0000 then bits else 0x7FFF_FFFF - bits
  }

  predicate IsFinite(bits: F32) { bits % 0x8000_0000 < INFINITY }

  datatype Hit = Hit(id: nat, distance: F32)

  /** Ascending distance, ties by ascending id. */
  predicate AtMost(a: Hit, b: Hit) {
    TotalKey(a.distance) < TotalKey(b.distance) || (a.distance == b.distance && a.id <= b.id)
  }

  lemma AtMostIsTotalOrder(a: Hit, b: Hit, c: Hit)
    ensures AtMost(a, b) || AtMost(b, a)
    ensures AtMost(a, b) && AtMost(b, a) ==> a == b
    ensures AtMost(a, b) && AtMost(b, c) ==> AtMost(a, c)
  {
  }

  predicate Sorted(hits: seq<Hit>) {
    forall i, j :: 0 <= i < j < |hits| ==> AtMost(hits[i], hits[j])
  }

  /** The total order of floats by sign and magnitude, ties by ascending id. */
  predicate InOrder(a: Hit, b: Hit) {
    if a.distance == b.distance then a.id <= b.id
    else if a.distance >= 0x8000_0000 then b.distance < 0x8000_0000 || b.distance < a.distance
    else b.distance < 0x8000_0000 && a.distance < b.distance
  }

  /** Put a hit in its place. */
  function Insert(hits: seq<Hit>, h: Hit): seq<Hit> {
    if hits == [] then [h]
    else if AtMost(h, hits[0]) then [h] + hits
    else [hits[0]] + Insert(hits[1..], h)
  }

  lemma {:induction false} InsertKeeps(hits: seq<Hit>, h: Hit)
    ensures multiset(Insert(hits, h)) == multiset(hits) + multiset{h}
  {
    if hits == [] {
    } else {
      assert hits == [hits[0]] + hits[1..];
      InsertKeeps(hits[1..], h);
    }
  }

  lemma {:induction false} InsertSorts(hits: seq<Hit>, h: Hit)
    requires Sorted(hits)
    ensures Sorted(Insert(hits, h))
  {
    if hits == [] {
    } else {
      if AtMost(h, hits[0]) {
        forall j | 0 <= j < |hits| ensures AtMost(h, hits[j]) { AtMostIsTotalOrder(h, hits[0], hits[j]); }
      } else {
        InsertSorts(hits[1..], h);
        InsertAbove(hits[1..], h, hits[0]);
      }
    }
  }

  lemma InsertAbove(hits: seq<Hit>, h: Hit, least: Hit)
    requires !AtMost(h, least) && forall i :: 0 <= i < |hits| ==> AtMost(least, hits[i])
    ensures forall j :: 0 <= j < |Insert(hits, h)| ==> AtMost(least, Insert(hits, h)[j])
  {
    var all := Insert(hits, h);
    InsertKeeps(hits, h);
    AtMostIsTotalOrder(h, least, h);
    forall j | 0 <= j < |all| ensures AtMost(least, all[j]) {
      assert all[j] in multiset(all);
      assert all[j] == h || all[j] in hits;
    }
  }

  method SortHits(hits: seq<Hit>) returns (sorted: seq<Hit>)
    ensures Sorted(sorted) && multiset(sorted) == multiset(hits)
    ensures forall i, j :: 0 <= i < j < |sorted| ==> InOrder(sorted[i], sorted[j])
  {
    sorted := [];
    for n := 0 to |hits|
      invariant Sorted(sorted) && multiset(sorted) == multiset(hits[..n])
    {
      assert hits[..n + 1] == hits[..n] + [hits[n]];
      InsertSorts(sorted, hits[n]);
      InsertKeeps(sorted, hits[n]);
      sorted := Insert(sorted, hits[n]);
    }
    assert hits[..|hits|] == hits;
  }

  /** There is only one sorted arrangement. */
  lemma {:induction false} SortedUnique(a: seq<Hit>, b: seq<Hit>)
    requires Sorted(a) && Sorted(b) && multiset(a) == multiset(b)
    ensures a == b
  {
    assert |a| == |multiset(a)| == |multiset(b)| == |b|;
    if a == [] {
    } else {
      FirstIsLeast(a, b);
      FirstIsLeast(b, a);
      AtMostIsTotalOrder(a[0], b[0], a[0]);
      assert a == [a[0]] + a[1..] && b == [b[0]] + b[1..];
      assert multiset(a[1..]) == multiset(a) - multiset{a[0]};
      assert multiset(b[1..]) == multiset(b) - multiset{b[0]};
      SortedUnique(a[1..], b[1..]);
    }
  }

  lemma FirstIsLeast(a: seq<Hit>, b: seq<Hit>)
    requires Sorted(a) && multiset(a) == multiset(b) && a != [] && b != []
    ensures AtMost(a[0], b[0])
  {
    assert b[0] in multiset(b);
    var i :| 0 <= i < |a| && a[i] == b[0];
    AtMostIsTotalOrder(a[0], a[0], a[0]);
  }

  // ---- Scoring ----

  /** One read of the stored vectors, the query's dimension and its distance function. */
  datatype Query = Query(stored: nat -> Option<Vector>, dimension: nat, distance: Vector -> F32)
  {
    predicate Comparable(id: nat) { stored(id).Some? && |stored(id).value| == dimension }

    function DistanceTo(id: nat): F32 {
      if Comparable(id) then distance(stored(id).value) else INFINITY
    }
  }

  function Score(q: Query, ids: seq<nat>): (hits: seq<Hit>)
    ensures |hits| == |ids| && forall i :: 0 <= i < |ids| ==> hits[i] == Hit(ids[i], q.DistanceTo(ids[i]))
  {
    if ids == [] then [] else [Hit(ids[0], q.DistanceTo(ids[0]))] + Score(q, ids[1..])
  }

  /** The distance to the stored vector of an id; infinite where there is none of the query's
      dimension. */
  ghost predicate ExactDistance(q: Query, id: nat, d: F32) {
    match q.stored(id)
    case Some(v) => d == if |v| == q.dimension then q.distance(v) else 0x7F80_0000
    case None => d == 0x7F80_0000
  }

  /** The sorted list of all scored ids. */
  ghost predicate RescoreResult(q: Query, ids: seq<nat>, hits: seq<Hit>) {
    Sorted(hits) && multiset(hits) == multiset(Score(q, ids))
  }

  method ExactRescore(q: Query, ids: seq<nat>) returns (hits: seq<Hit>)
    ensures RescoreResult(q, ids, hits)
  {
    var scored: seq<Hit> := [];
    for n := 0 to |ids|
      invariant scored == Score(q, ids)[..n]
    {
      scored := scored + [Hit(ids[n], q.DistanceTo(ids[n]))];
    }
    assert scored == Score(q, ids);
    hits := SortHits(scored);
  }

  /** A scored hit occurs as often as its id. */
  lemma {:induction false} ScoreCounts(q: Query, ids: seq<nat>, h: Hit)
    ensures multiset(Score(q, ids))[h] == if h.distance == q.DistanceTo(h.id) then multiset(ids)[h.id] else 0
  {
    if ids == [] {
    } else {
      ScoreCounts(q, ids[1..], h);
      assert ids == [ids[0]] + ids[1..];
      assert Score(q, ids) == [Hit(ids[0], q.DistanceTo(ids[0]))] + Score(q, ids[1..]);
    }
  }

  lemma ScoreMultiset(q: Query, a: seq<nat>, b: seq<nat>)
    requires multiset(a) == multiset(b)
    ensures multiset(Score(q, a)) == multiset(Score(q, b))
  {
    forall h ensures multiset(Score(q, a))[h] == multiset(Score(q, b))[h] {
      ScoreCounts(q, a, h);
      ScoreCounts(q, b, h);
    }
  }

  /** The result does not depend on the order the ids are enumerated in. */
  lemma RescoreDeterministic(q: Query, a: seq<nat>, b: seq<nat>, x: seq<Hit>, y: seq<Hit>)
    requires multiset(a) == multiset(b) && RescoreResult(q, a, x) && RescoreResult(q, b, y)
    ensures x == y
  {
    ScoreMultiset(q, a, b);
    SortedUnique(x, y);
  }

  /** Each id keeps its place in the list: none is dropped, none added, each has its distance. */
  lemma RescoreKeepsIds(q: Query, ids: seq<nat>, hits: seq<Hit>)
    requires RescoreResult(q, ids, hits)
    ensures |hits| == |ids|
    ensures forall h :: h in hits <==> h.id in ids && h.distance == q.DistanceTo(h.id)
    ensures forall h :: h in hits <==> h.id in ids && ExactDistance(q, h.id, h.distance)
  {
    var s := Score(q, ids);
    assert |hits| == |multiset(hits)| == |multiset(s)| == |s|;
    forall h ensures h in hits <==> h.id in ids && h.distance == q.DistanceTo(h.id) {
      assert h in hits <==> h in multiset(hits);
      assert h in s <==> h in multiset(s);
      if h.id in ids && h.distance == q.DistanceTo(h.id) {
        var i :| 0 <= i < |ids| && ids[i] == h.id;
        assert s[i] == h;
      }
    }
  }

  /** The first `k` are the nearest `k`: nothing outside them is nearer, and an id that cannot be
      compared never comes before one at a finite distance. */
  lemma NearestFirst(q: Query, ids: seq<nat>, hits: seq<Hit>, i: nat, j: nat)
    requires RescoreResult(q, ids, hits) && i < j < |hits|
    ensures InOrder(hits[i], hits[j])
    ensures hits[i].distance == INFINITY ==> !IsFinite(hits[j].distance)
    ensures !q.Comparable(hits[i].id) ==> !IsFinite(hits[j].distance)
  {
    RescoreKeepsIds(q, ids, hits);
    assert hits[i] in hits && AtMost(hits[i], hits[j]);
  }
}
