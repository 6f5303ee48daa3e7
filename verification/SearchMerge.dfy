/** Text search after retrieval: the cross-encoder's ranking merged with the candidates it could
    not score. */
module SearchMerge {
  import opened Prelude
  import opened Store
  import opened Rescore

  datatype SimilarHit = SimilarHit(id: nat, distance: F32, score: Option<F32>)

  /** The index into the documents given to the reranker, and its relevance score. */
  datatype Ranked = Ranked(index: nat, score: F32)

  predicate DistinctIds(hits: seq<Hit>) {
    forall i, j :: 0 <= i < j < |hits| ==> hits[i].id != hits[j].id
  }

  /** The reranker returns at most `k` documents, each once. */
  predicate RerankContract(ranked: seq<Ranked>, documents: nat, k: nat) {
    && |ranked| <= k
    && (forall i :: 0 <= i < |ranked| ==> ranked[i].index < documents)
    && (forall i, j :: 0 <= i < j < |ranked| ==> ranked[i].index != ranked[j].index)
  }

  /** How many candidates to retrieve: `k`, or a bounded pool for the cross-encoder. */
  function RetrievalK(crossEncoder: bool, configured: Option<nat>, fromEnv: Option<nat>, k: nat): (n: nat)
    ensures n >= k && (!crossEncoder ==> n == k)
    ensures crossEncoder && configured.Some? ==> n >= configured.value && n in {k, configured.value}
    ensures crossEncoder && configured.None? && fromEnv.Some? ==> n >= fromEnv.value && n in {k, fromEnv.value}
    ensures crossEncoder && configured.None? && fromEnv.None? ==> n >= Min(3 * k, 48) && n in {k, 3 * k, 48}
    ensures crossEncoder && configured.None? && fromEnv.None? && k <= 48 ==> n <= 48
  {
    if !crossEncoder then k else
    var pool :=
      if configured.Some? then configured.value
      else if fromEnv.Some? then fromEnv.value
      else if 3 * k < 48 then 3 * k else 48;
    if pool < k then k else pool
  }

  function ByDistance(h: Hit): SimilarHit { SimilarHit(h.id, h.distance, None) }

  function Ids(out: seq<SimilarHit>): set<nat> { set h | h in out :: h.id }

  function CandidateIds(candidates: seq<Hit>): set<nat> { set h | h in candidates :: h.id }

  /** The candidates whose ids are not in `chosen`, in candidate order. */
  function Unchosen(candidates: seq<Hit>, chosen: set<nat>): seq<SimilarHit> {
    if candidates == [] then [] else
    (if candidates[0].id in chosen then [] else [ByDistance(candidates[0])]) + Unchosen(candidates[1..], chosen)
  }

  /** `at` are the positions of the candidates with readable text, in order, and `docs` their texts. */
  ghost predicate TextsAt(candidates: seq<Hit>, text: nat -> Option<string>, at: seq<nat>, docs: seq<string>) {
    && Ascending(at) && |docs| == |at|
    && (forall i: nat :: i in at <==> i < |candidates| && text(candidates[i].id).Some?)
    && (forall j :: 0 <= j < |at| ==> at[j] < |candidates| && text(candidates[at[j]].id) == Some(docs[j]))
  }

  /** `ids` are the ids of the candidates at the given positions. */
  ghost predicate IdsAt(candidates: seq<Hit>, at: seq<nat>, ids: seq<nat>) {
    |ids| == |at| && forall j :: 0 <= j < |at| ==> at[j] < |candidates| && ids[j] == candidates[at[j]].id
  }

  /** Fetch the text of each candidate that has one. */
  method FetchTexts(candidates: seq<Hit>, text: nat -> Option<string>)
    returns (ids: seq<nat>, docs: seq<string>, ghost at: seq<nat>)
    ensures TextsAt(candidates, text, at, docs) && IdsAt(candidates, at, ids)
  {
    ids, docs, at := [], [], [];
    for n := 0 to |candidates|
      invariant Ascending(at) && |docs| == |at| && IdsAt(candidates, at, ids)
      invariant forall i: nat :: i in at <==> i < n && text(candidates[i].id).Some?
      invariant forall j :: 0 <= j < |at| ==> at[j] < n && text(candidates[at[j]].id) == Some(docs[j])
    {
      var id := candidates[n].id;
      if text(id).Some? {
        ids, docs, at := ids + [id], docs + [text(id).value], at + [n];
      }
    }
  }

  lemma FetchedDistinct(candidates: seq<Hit>, at: seq<nat>, ids: seq<nat>)
    requires DistinctIds(candidates) && Ascending(at) && IdsAt(candidates, at, ids)
    ensures forall i, j :: 0 <= i < j < |ids| ==> ids[i] != ids[j]
    ensures forall i :: 0 <= i < |ids| ==> ids[i] in CandidateIds(candidates)
  {
    forall i, j | 0 <= i < j < |ids| ensures ids[i] != ids[j] {
      assert at[i] < at[j];
    }
    forall i | 0 <= i < |ids| ensures ids[i] in CandidateIds(candidates) {
      assert candidates[at[i]] in candidates;
    }
  }

  lemma CandidateIdsFirst(candidates: seq<Hit>)
    requires candidates != []
    ensures CandidateIds(candidates) == {candidates[0].id} + CandidateIds(candidates[1..])
    ensures DistinctIds(candidates) ==> candidates[0].id !in CandidateIds(candidates[1..])
  {
    assert candidates == [candidates[0]] + candidates[1..];
  }

  /** Distance lookup by object id; a later candidate with the same id would win. */
  function DistanceById(candidates: seq<Hit>): map<nat, F32> {
    if candidates == [] then map[] else
    var last := candidates[|candidates| - 1];
    DistanceById(candidates[..|candidates| - 1])[last.id := last.distance]
  }

  lemma {:induction false} DistanceFound(candidates: seq<Hit>, id: nat)
    ensures id in DistanceById(candidates) <==> id in CandidateIds(candidates)
    ensures id in DistanceById(candidates) ==> Hit(id, DistanceById(candidates)[id]) in candidates
  {
    if candidates == [] {
    } else {
      var n := |candidates| - 1;
      DistanceFound(candidates[..n], id);
      assert candidates == candidates[..n] + [candidates[n]];
      assert CandidateIds(candidates) == CandidateIds(candidates[..n]) + {candidates[n].id};
    }
  }

  function ScoredHit(distances: map<nat, F32>, id: nat, score: F32): SimilarHit {
    SimilarHit(id, if id in distances then distances[id] else INFINITY, Some(score))
  }

  /** What a search returns: as many hits as asked for or as there are, distinct candidates with
      their distances, first the `scored` ones, then the rest in candidate order. */
  ghost predicate MergeResult(candidates: seq<Hit>, k: nat, scored: seq<SimilarHit>, out: seq<SimilarHit>) {
    && |out| == (if k < |candidates| then k else |candidates|)
    && (forall i, j :: 0 <= i < j < |out| ==> out[i].id != out[j].id)
    && (forall h :: h in out ==> Hit(h.id, h.distance) in candidates)
    && |scored| <= |out| && out[..|scored|] == scored
    && (forall i :: 0 <= i < |out| ==> out[i].score.Some? == (i < |scored|))
    && out[|scored|..] <= Unchosen(candidates, Ids(scored))
  }

  /** Scored hits: distinct candidates, each with its distance and a score. */
  ghost predicate ScoredHits(candidates: seq<Hit>, scored: seq<SimilarHit>) {
    && (forall i, j :: 0 <= i < j < |scored| ==> scored[i].id != scored[j].id)
    && (forall h :: h in scored ==> Hit(h.id, h.distance) in candidates && h.score.Some?)
  }

  lemma {:induction false} UnchosenSound(candidates: seq<Hit>, chosen: set<nat>)
    requires DistinctIds(candidates)
    ensures var rest := Unchosen(candidates, chosen);
      && (forall h :: h in rest ==> h.score.None? && h.id !in chosen && Hit(h.id, h.distance) in candidates)
      && (forall i, j :: 0 <= i < j < |rest| ==> rest[i].id != rest[j].id)
  {
    if candidates == [] {
    } else {
      UnchosenSound(candidates[1..], chosen);
      var rest := Unchosen(candidates[1..], chosen);
      forall j | 0 <= j < |rest| ensures rest[j].id != candidates[0].id {
        assert rest[j] in rest && Hit(rest[j].id, rest[j].distance) in candidates[1..];
      }
    }
  }

  /** Choosing distinct candidates leaves the others. */
  lemma {:induction false} UnchosenCount(candidates: seq<Hit>, chosen: set<nat>)
    requires DistinctIds(candidates) && chosen <= CandidateIds(candidates)
    ensures |Unchosen(candidates, chosen)| == |candidates| - |chosen|
  {
    if candidates == [] {
      assert chosen == {};
    } else {
      var id, rest := candidates[0].id, candidates[1..];
      CandidateIdsFirst(candidates);
      UnchosenCount(rest, chosen - {id});
      UnchosenIgnores(rest, chosen, id);
    }
  }

  lemma {:induction false} UnchosenIgnores(candidates: seq<Hit>, chosen: set<nat>, id: nat)
    requires id !in CandidateIds(candidates)
    ensures Unchosen(candidates, chosen - {id}) == Unchosen(candidates, chosen)
  {
    if candidates == [] {
    } else {
      assert candidates[0] in candidates;
      UnchosenIgnores(candidates[1..], chosen, id);
    }
  }

  lemma {:induction false} IdsCount(out: seq<SimilarHit>)
    requires forall i, j :: 0 <= i < j < |out| ==> out[i].id != out[j].id
    ensures |Ids(out)| == |out|
  {
    if out == [] {
    } else {
      var n := |out| - 1;
      IdsCount(out[..n]);
      assert out == out[..n] + [out[n]];
      assert Ids(out) == Ids(out[..n]) + {out[n].id};
      assert out[n].id !in Ids(out[..n]);
    }
  }

  /** The merge is right: appending unchosen candidates up to `k` fills the result exactly. */
  lemma Merged(candidates: seq<Hit>, k: nat, scored: seq<SimilarHit>, out: seq<SimilarHit>)
    requires DistinctIds(candidates) && ScoredHits(candidates, scored) && |scored| <= k
    requires var rest := Unchosen(candidates, Ids(scored));
      out == scored + rest[..Min(k - |scored|, |rest|)]
    ensures MergeResult(candidates, k, scored, out)
  {
    var chosen := Ids(scored);
    var rest := Unchosen(candidates, chosen);
    IdsCount(scored);
    forall id | id in chosen ensures id in CandidateIds(candidates) {
      var h :| h in scored && h.id == id;
      assert Hit(h.id, h.distance) in candidates;
    }
    UnchosenCount(candidates, chosen);
    UnchosenSound(candidates, chosen);
    var tail := rest[..Min(k - |scored|, |rest|)];
    assert forall i :: 0 <= i < |tail| ==> tail[i] in rest;
    assert forall i :: 0 <= i < |scored| ==> scored[i] in scored && scored[i].id in chosen;
  }

  /** The first hits follow a ranking of the documents at the given positions. */
  ghost predicate FollowsRanking(candidates: seq<Hit>, at: seq<nat>, ranked: seq<Ranked>, out: seq<SimilarHit>) {
    && |ranked| <= |out|
    && forall i :: 0 <= i < |ranked| ==>
      && ranked[i].index < |at| && at[ranked[i].index] < |candidates|
      && out[i].id == candidates[at[ranked[i].index]].id && out[i].score == Some(ranked[i].score)
  }

  /** Merge the reranker's answer over the documents with the candidates left over. */
  method MergeReranked(candidates: seq<Hit>, ids: seq<nat>, ghost at: seq<nat>, ranked: seq<Ranked>, k: nat)
    returns (out: seq<SimilarHit>)
    requires DistinctIds(candidates) && RerankContract(ranked, |ids|, k)
    requires Ascending(at) && IdsAt(candidates, at, ids)
    ensures FollowsRanking(candidates, at, ranked, out) && MergeResult(candidates, k, out[..|ranked|], out)
  {
    FetchedDistinct(candidates, at, ids);
    var distances := DistanceById(candidates);
    out := [];
    for n := 0 to |ranked|
      invariant |out| == n
      invariant forall i :: 0 <= i < n ==> out[i] == ScoredHit(distances, ids[ranked[i].index], ranked[i].score)
    {
      out := out + [ScoredHit(distances, ids[ranked[n].index], ranked[n].score)];
    }
    RankedAreScored(candidates, ids, ranked, out);
    ghost var scored := out;
    out := FillUp(candidates, k, out);
    Merged(candidates, k, scored, out);
    assert out[..|ranked|] == scored;
  }

  /** Append the candidates not chosen yet, in order, up to `k`. */
  method FillUp(candidates: seq<Hit>, k: nat, scored: seq<SimilarHit>) returns (out: seq<SimilarHit>)
    requires |scored| <= k
    ensures var rest := Unchosen(candidates, Ids(scored)); out == scored + rest[..Min(k - |scored|, |rest|)]
  {
    out := scored;
    if |out| < k {
      var chosen := Ids(out);
      ghost var rest := Unchosen(candidates, chosen);
      ghost var taken: nat := 0;
      for n := 0 to |candidates|
        invariant taken <= |rest| && out == scored + rest[..taken] && |out| <= k
        invariant |out| < k ==> rest[taken..] == Unchosen(candidates[n..], chosen)
      {
        if |out| >= k { break; }
        assert candidates[n..][1..] == candidates[n + 1..];
        if candidates[n].id !in chosen {
          out := out + [ByDistance(candidates[n])];
          taken := taken + 1;
        }
      }
    }
  }

  lemma RankedAreScored(candidates: seq<Hit>, ids: seq<nat>, ranked: seq<Ranked>, scored: seq<SimilarHit>)
    requires forall i, j :: 0 <= i < j < |ids| ==> ids[i] != ids[j]
    requires forall i :: 0 <= i < |ids| ==> ids[i] in CandidateIds(candidates)
    requires RerankContract(ranked, |ids|, |ranked|) && |scored| == |ranked|
    requires forall i :: 0 <= i < |ranked| ==>
      scored[i] == ScoredHit(DistanceById(candidates), ids[ranked[i].index], ranked[i].score)
    ensures ScoredHits(candidates, scored)
  {
    forall i, j | 0 <= i < j < |scored| ensures scored[i].id != scored[j].id {
      assert ranked[i].index != ranked[j].index;
    }
    forall h | h in scored ensures Hit(h.id, h.distance) in candidates && h.score.Some? {
      var i :| 0 <= i < |scored| && scored[i] == h;
      DistanceFound(candidates, ids[ranked[i].index]);
    }
  }

  lemma {:induction false} NoneChosen(candidates: seq<Hit>)
    ensures |Unchosen(candidates, {})| == |candidates|
    ensures forall i :: 0 <= i < |candidates| ==> Unchosen(candidates, {})[i] == ByDistance(candidates[i])
  {
    if candidates == [] {
    } else {
      NoneChosen(candidates[1..]);
    }
  }

  /** Plain distance order: the first `k` candidates. */
  method TakeNearest(candidates: seq<Hit>, k: nat) returns (out: seq<SimilarHit>)
    requires DistinctIds(candidates)
    ensures MergeResult(candidates, k, [], out)
    ensures forall i :: 0 <= i < |out| ==> out[i] == ByDistance(candidates[i])
  {
    out := [];
    for n := 0 to Min(k, |candidates|)
      invariant |out| == n && forall i :: 0 <= i < n ==> out[i] == ByDistance(candidates[i])
    {
      out := out + [ByDistance(candidates[n])];
    }
    NothingScored(candidates, k, out);
  }

  lemma NothingScored(candidates: seq<Hit>, k: nat, out: seq<SimilarHit>)
    requires DistinctIds(candidates) && |out| == Min(k, |candidates|)
    requires forall i :: 0 <= i < |out| ==> out[i] == ByDistance(candidates[i])
    ensures MergeResult(candidates, k, [], out)
  {
    NoneChosen(candidates);
    assert Ids([]) == {};
    assert out == [] + Unchosen(candidates, {})[..|out|];
    Merged(candidates, k, [], out);
  }

  /** The reranker, if it loads: an answer for the documents it is given, or a failure. */
  type Reranker = seq<string> -> Option<seq<Ranked>>

  /** What the reranker answers for the documents, where there is one and something to ask. */
  ghost function Ranking(reranker: Option<Reranker>, docs: seq<string>): Option<seq<Ranked>> {
    if reranker.Some? && docs != [] then reranker.value(docs) else None
  }

  /** The hits of a search over the candidates: those the reranker ranked, in its order and with its
      scores, then the others by distance; without a ranking all by distance. */
  ghost predicate Assembled(candidates: seq<Hit>, k: nat, text: nat -> Option<string>, reranker: Option<Reranker>,
                            at: seq<nat>, docs: seq<string>, out: seq<SimilarHit>) {
    && TextsAt(candidates, text, at, docs)
    && match Ranking(reranker, docs)
       case Some(ranked) =>
         FollowsRanking(candidates, at, ranked, out) && MergeResult(candidates, k, out[..|ranked|], out)
       case None =>
         && |out| == Min(k, |candidates|)
         && forall i :: 0 <= i < |out| ==> out[i] == SimilarHit(candidates[i].id, candidates[i].distance, None)
  }

  /** Everything after retrieval. Whatever is off, missing or failing, the result is filled. */
  method FinishSearch(candidates: seq<Hit>, k: nat, text: nat -> Option<string>, reranker: Option<Reranker>)
    returns (out: seq<SimilarHit>, ghost at: seq<nat>, ghost docs: seq<string>)
    requires DistinctIds(candidates)
    requires reranker.Some? ==>
      forall docs :: reranker.value(docs).Some? ==> RerankContract(reranker.value(docs).value, |docs|, k)
    ensures Assembled(candidates, k, text, reranker, at, docs, out)
    ensures |out| == Min(k, |candidates|) && forall h :: h in out ==> Hit(h.id, h.distance) in candidates
    ensures forall i, j :: 0 <= i < j < |out| ==> out[i].id != out[j].id && (out[j].score.Some? ==> out[i].score.Some?)
  {
    var ids, texts;
    ids, texts, at := FetchTexts(candidates, text);
    docs := texts;
    if texts != [] && reranker.Some? {
      var ranked := reranker.value(texts);
      if ranked.Some? {
        out := MergeReranked(candidates, ids, at, ranked.value, k);
        return;
      }
    }
    out := TakeNearest(candidates, k);
  }

  const Nothing: nat -> Option<Vector> := (_: nat) => None

  /** What scoring can read: with the store unreadable every distance is infinite. */
  function Readable(q: Query, readable: bool): Query { if readable then q else q.(stored := Nothing) }

  /** Score every member of a filter set; an index whose names do not resolve has no hits. */
  method BruteForceRestricted(q: Query, ids: seq<nat>, resolves: bool, readable: bool) returns (hits: seq<Hit>)
    ensures if resolves then RescoreResult(Readable(q, readable), ids, hits) else hits == []
  {
    if resolves {
      hits := ExactRescore(Readable(q, readable), ids);
    } else {
      hits := [];
    }
  }

  /** A search inside a small filter set returns min(k, set size) hits on every path, and without
      a cross-encoder they are the nearest `k` of the set; an index whose names do not resolve
      returns none. */
  method SearchRestricted(q: Query, ids: seq<nat>, resolves: bool, readable: bool, k: nat, text: nat -> Option<string>,
                          reranker: Option<Reranker>, configured: Option<nat>, fromEnv: Option<nat>)
    returns (out: seq<SimilarHit>, ghost hits: seq<Hit>, ghost at: seq<nat>, ghost docs: seq<string>)
    requires forall i, j :: 0 <= i < j < |ids| ==> ids[i] != ids[j]
    requires reranker.Some? ==>
      forall docs :: reranker.value(docs).Some? ==> RerankContract(reranker.value(docs).value, |docs|, k)
    ensures |out| == if resolves then Min(k, |ids|) else 0
    ensures forall i, j :: 0 <= i < j < |out| ==> out[i].id != out[j].id
    ensures forall h :: h in out ==>
      h.id in ids && if readable then ExactDistance(q, h.id, h.distance) else h.distance == INFINITY
    ensures resolves ==> RescoreResult(Readable(q, readable), ids, hits)
    ensures var pool := Min(RetrievalK(reranker.Some?, configured, fromEnv, k), |hits|);
      Assembled(hits[..pool], k, text, reranker, at, docs, out)
  {
    var all := BruteForceRestricted(q, ids, resolves, readable);
    hits := all;
    if resolves {
      RescoreKeepsIds(Readable(q, readable), ids, all);
      DistinctAfterRescore(Readable(q, readable), ids, all);
    }
    var n := RetrievalK(reranker.Some?, configured, fromEnv, k);
    var candidates := all[..Min(n, |all|)];
    assert forall h :: h in candidates ==> h in all;
    out, at, docs := FinishSearch(candidates, k, text, reranker);
    forall h | h in out
      ensures h.id in ids && if readable then ExactDistance(q, h.id, h.distance) else h.distance == INFINITY {
      assert Hit(h.id, h.distance) in all;
    }
  }

  lemma DistinctAfterRescore(q: Query, ids: seq<nat>, hits: seq<Hit>)
    requires RescoreResult(q, ids, hits) && forall i, j :: 0 <= i < j < |ids| ==> ids[i] != ids[j]
    ensures DistinctIds(hits)
  {
    RescoreKeepsIds(q, ids, hits);
    forall i, j | 0 <= i < j < |hits| ensures hits[i].id != hits[j].id {
      assert hits[i] in hits && hits[j] in hits;
      ScoreCounts(q, ids, hits[i]);
      DistinctCountsOnce(ids, hits[i].id);
      if hits[i] == hits[j] {
        CountsTwice(hits, i, j);
      }
    }
  }

  lemma CountsTwice(hits: seq<Hit>, i: nat, j: nat)
    requires i < j < |hits| && hits[i] == hits[j]
    ensures multiset(hits)[hits[i]] >= 2
  {
    assert hits == hits[..j] + ([hits[j]] + hits[j + 1..]);
    assert hits[i] in hits[..j];
  }

  lemma {:induction false} DistinctCountsOnce(ids: seq<nat>, id: nat)
    requires forall i, j :: 0 <= i < j < |ids| ==> ids[i] != ids[j]
    ensures multiset(ids)[id] <= 1
  {
    if ids == [] {
    } else {
      assert ids == [ids[0]] + ids[1..];
      DistinctCountsOnce(ids[1..], id);
    }
  }
}
