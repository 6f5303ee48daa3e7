/** The object against the protocol: whatever one of its operations does is a sequence of protocol
    steps, and the object and the protocol state agree again at the end of it. */
module Sequential {
  import opened Prelude
  import opened Store
  import opened Reconcile
  import opened ClaimWalk
  import opened Processing
  import opened VectorQueue
  import opened QueueSafety
  import opened CrashRecovery
  import opened VectorizerClass

  // ---- Paths ----

  /** The steps lead from `s` to `t`. */
  ghost predicate Path(c: Config, s: Sys, steps: seq<Step>, t: Sys)
    decreases |steps|
  {
    if steps == [] then s == t else exists m :: Next(c, s, steps[0], m) && Path(c, m, steps[1..], t)
  }

  lemma PathOne(c: Config, s: Sys, step: Step, t: Sys)
    requires Next(c, s, step, t)
    ensures Path(c, s, [step], t)
  {
    assert [step][1..] == [] && Path(c, t, [step][1..], t);
  }

  lemma {:induction false} PathJoin(c: Config, s: Sys, a: seq<Step>, m: Sys, b: seq<Step>, t: Sys)
    requires Path(c, s, a, m) && Path(c, m, b, t)
    ensures Path(c, s, a + b, t)
    decreases |a|
  {
    if a == [] {
      assert a + b == b;
    } else {
      var n :| Next(c, s, a[0], n) && Path(c, n, a[1..], m);
      PathJoin(c, n, a[1..], m, b, t);
      assert (a + b)[1..] == a[1..] + b && (a + b)[0] == a[0];
    }
  }

  lemma PathTwo(c: Config, s: Sys, a: Step, m: Sys, b: Step, t: Sys)
    requires Next(c, s, a, m) && Next(c, m, b, t)
    ensures Path(c, s, [a, b], t)
  {
    PathOne(c, s, a, m);
    PathOne(c, m, b, t);
    PathJoin(c, s, [a], m, [b], t);
    assert [a] + [b] == [a, b];
  }

  /** A path from a state of a run continues the run. */
  lemma {:induction false} PathExtends(c: Config, run: seq<Sys>, steps: seq<Step>, more: seq<Step>, t: Sys)
    returns (run': seq<Sys>)
    requires IsRun(c, run, steps) && Path(c, run[|steps|], more, t)
    ensures IsRun(c, run', steps + more) && run'[|steps + more|] == t && run <= run'
    decreases |more|
  {
    if more == [] {
      run' := run;
      assert steps + more == steps;
    } else {
      var m :| Next(c, run[|steps|], more[0], m) && Path(c, m, more[1..], t);
      var longer := run + [m];
      assert IsRun(c, longer, steps + [more[0]]);
      run' := PathExtends(c, longer, steps + [more[0]], more[1..], t);
      assert steps + [more[0]] + more[1..] == steps + more;
    }
  }

  /** A path keeps the invariant, so it stays among the reachable states. */
  lemma {:induction false} PathKeeps(c: Config, s: Sys, steps: seq<Step>, t: Sys)
    requires c.boundFirst && SysInv(c, s) && Path(c, s, steps, t)
    ensures SysInv(c, t)
    decreases |steps|
  {
    if steps == [] {
    } else {
      var m :| Next(c, s, steps[0], m) && Path(c, m, steps[1..], t);
      StepKeeps(c, s, steps[0], m);
      PathKeeps(c, m, steps[1..], t);
    }
  }

  // ---- Embedders ----

  function EmbedAll(embed: (string, string) -> Vector, model: string, texts: seq<string>): (vs: seq<Vector>)
    ensures |vs| == |texts| && forall i :: 0 <= i < |texts| ==> vs[i] == embed(model, texts[i])
  {
    if texts == [] then [] else [embed(model, texts[0])] + EmbedAll(embed, model, texts[1..])
  }

  /** It may fail to load, fail, or answer short or long; an answer of the right length is the
      embedding of the texts. */
  ghost predicate Faithful(embedder: Embedder, embed: (string, string) -> Vector) {
    forall model, texts ::
      var answer := embedder(model, texts);
      answer.Answer? && |answer.vectors| == |texts| ==> answer.vectors == EmbedAll(embed, model, texts)
  }

  /** Models load. */
  ghost predicate Loads(embedder: Embedder) {
    forall model, texts :: !embedder(model, texts).LoadFailed?
  }

  /** Models load, and embed one vector per text. */
  ghost predicate Healthy(embedder: Embedder, embed: (string, string) -> Vector) {
    forall model, texts :: embedder(model, texts) == Answer(EmbedAll(embed, model, texts))
  }

  lemma HealthyLoads(embedder: Embedder, embed: (string, string) -> Vector)
    requires Healthy(embedder, embed)
    ensures Faithful(embedder, embed) && Loads(embedder)
  {
  }

  /** A justified store is of the embedding of the text the job's own object holds. */
  lemma StoresOwnText(c: Config, objects: Objects, jobs: seq<Job>, embedder: Embedder, job: Job, v: Vector)
    requires Faithful(embedder, c.embed) && Justified(c.cat, objects, jobs, embedder, StoreVector(job, v))
    ensures exists s :: JobHolds(c.cat, objects, job, s) && v == c.embed(job.model, s)
  {
    var readable := Readable(c.cat, objects, Group(jobs, job.model));
    var texts := Texts(c.cat, objects, readable);
    var i :| 0 <= i < |readable| && readable[i] == job &&
      v == GroupAnswer(c.cat, objects, jobs, embedder, job.model).vectors[i];
    TextsHeld(c.cat, objects, Group(jobs, job.model));
    assert JobHolds(c.cat, objects, job, texts[i]) && v == c.embed(job.model, texts[i]);
  }

  // ---- Transactions as steps ----

  /** A well-built job's text is its row's source text. */
  lemma JobTextIsSource(cat: Catalog, objects: Objects, job: Job)
    requires cat.WellBuilt(job)
    ensures JobText(cat, objects, job) == SourceText(cat, objects, RowFor(cat, job))
  {
  }

  /** A transaction some worker with the right jobs in hand may commit. */
  ghost predicate Enabled(c: Config, objects: Objects, commit: Commit) {
    && (forall i :: 0 <= i < |commit.Jobs()| ==> c.cat.WellBuilt(commit.Jobs()[i]))
    && match commit
       case StoreVector(job, v) => var t := JobText(c.cat, objects, job); t.Some? && v == c.embed(job.model, t.value)
       case MarkFailed(job) => JobText(c.cat, objects, job).Some?
       case ClearStates(jobs) => forall i :: 0 <= i < |jobs| ==> JobText(c.cat, objects, jobs[i]).None?
       case Requeue(_, jobs) => jobs != [] && forall i :: 0 <= i < |jobs| ==> JobText(c.cat, objects, jobs[i]).Some?
  }

  /** Justified transactions of well-built jobs are enabled. */
  lemma JustifiedEnabled(c: Config, objects: Objects, jobs: seq<Job>, embedder: Embedder, commit: Commit)
    requires Faithful(embedder, c.embed) && Justified(c.cat, objects, jobs, embedder, commit)
    requires forall job :: job in jobs ==> c.cat.WellBuilt(job)
    ensures Enabled(c, objects, commit)
  {
    forall model, job ensures job in Readable(c.cat, objects, Group(jobs, model)) ==>
      job in jobs && JobText(c.cat, objects, job).Some?
    {
      ReadableMember(c.cat, objects, Group(jobs, model), job);
      GroupMember(jobs, model, job);
    }
    match commit
    case StoreVector(job, v) =>
      var readable := Readable(c.cat, objects, Group(jobs, job.model));
      var i :| 0 <= i < |readable| && readable[i] == job &&
        v == GroupAnswer(c.cat, objects, jobs, embedder, job.model).vectors[i];
      assert job in readable;
    case ClearStates(js) =>
      assert forall i :: 0 <= i < |js| ==> js[i] in js;
    case Requeue(_, js) =>
      assert forall i :: 0 <= i < |js| ==> js[i] in js;
    case MarkFailed(_) =>
  }

  /** No enqueue in flight and nobody claiming. */
  ghost predicate Still(s: Sys) {
    s.session.Up? && s.session.ram.enqueues == map[] && s.session.ram.claim.Idle?
  }

  /** A claimed job with its text read. */
  function ItemFor(cat: Catalog, objects: Objects, job: Job): InHand {
    var text := JobText(cat, objects, job);
    if text.Some? then WithText(job, text.value) else Textless(job)
  }

  ghost predicate Distinct(ids: seq<nat>) {
    forall i, j :: 0 <= i < j < |ids| ==> ids[i] != ids[j]
  }

  /** Exactly the jobs of `ids` are in hand. */
  ghost predicate InHandAre(hand: map<nat, InHand>, ids: seq<nat>) {
    Distinct(ids) && forall id :: id in hand <==> id in ids
  }

  /** They are well built, and their texts have been read. */
  ghost predicate AllRead(c: Config, objects: Objects, hand: map<nat, InHand>) {
    forall id :: id in hand ==> c.cat.WellBuilt(hand[id].job) && hand[id] == ItemFor(c.cat, objects, hand[id].job)
  }

  ghost predicate Holding(c: Config, s: Sys, ids: seq<nat>) {
    Still(s) && InHandAre(s.session.ram.hand, ids) && AllRead(c, s.db.objects, s.session.ram.hand)
  }

  /** The jobs in hand under `ids`, counted. */
  ghost function Bag(hand: map<nat, InHand>, ids: seq<nat>): multiset<Job> {
    if ids == [] then multiset{}
    else Bag(hand, ids[1..]) + if ids[0] in hand then multiset{hand[ids[0]].job} else multiset{}
  }

  lemma {:induction false} BagAgrees(hand: map<nat, InHand>, hand': map<nat, InHand>, ids: seq<nat>)
    requires forall i :: 0 <= i < |ids| ==> ids[i] in hand && ids[i] in hand' && hand'[ids[i]].job == hand[ids[i]].job
    ensures Bag(hand', ids) == Bag(hand, ids)
  {
    if ids == [] {
    } else {
      BagAgrees(hand, hand', ids[1..]);
    }
  }

  lemma {:induction false} BagIsJobs(hand: map<nat, InHand>, ids: seq<nat>, jobs: seq<Job>)
    requires |ids| == |jobs| && forall i :: 0 <= i < |ids| ==> ids[i] in hand && hand[ids[i]].job == jobs[i]
    ensures Bag(hand, ids) == multiset(jobs)
  {
    if ids == [] {
    } else {
      BagIsJobs(hand, ids[1..], jobs[1..]);
      assert jobs == [jobs[0]] + jobs[1..];
    }
  }

  lemma {:induction false} BagHas(hand: map<nat, InHand>, ids: seq<nat>, job: Job) returns (i: nat)
    requires job in Bag(hand, ids)
    ensures i < |ids| && ids[i] in hand && hand[ids[i]].job == job
  {
    if ids[0] in hand && hand[ids[0]].job == job {
      i := 0;
    } else {
      i := BagHas(hand, ids[1..], job);
      i := i + 1;
    }
  }

  function Without(ids: seq<nat>, i: nat): (rest: seq<nat>)
    requires i < |ids|
    ensures |rest| == |ids| - 1 && forall j :: 0 <= j < |rest| ==> rest[j] == ids[if j < i then j else j + 1]
  {
    ids[..i] + ids[i + 1..]
  }

  lemma {:induction false} BagWithout(hand: map<nat, InHand>, ids: seq<nat>, i: nat)
    requires i < |ids| && ids[i] in hand
    ensures Bag(hand, ids) == Bag(hand, Without(ids, i)) + multiset{hand[ids[i]].job}
  {
    if i == 0 {
      assert Without(ids, 0) == ids[1..];
    } else {
      var tail, rest := ids[1..], Without(ids, i);
      BagWithout(hand, tail, i - 1);
      assert tail[i - 1] == ids[i] && rest[0] == ids[0] && rest[1..] == Without(tail, i - 1);
    }
  }

  lemma WithoutMembers(ids: seq<nat>, i: nat)
    requires Distinct(ids) && i < |ids|
    ensures Distinct(Without(ids, i)) && forall id :: id in Without(ids, i) <==> id in ids && id != ids[i]
  {
    var rest := Without(ids, i);
    forall id ensures id in rest <==> id in ids && id != ids[i] {
      if id in ids && id != ids[i] {
        var k :| 0 <= k < |ids| && ids[k] == id;
        assert rest[if k < i then k else k - 1] == id;
      }
    }
  }

  /** Some id in hand has the job; without it the others are left. */
  lemma TakeOne(hand: map<nat, InHand>, ids: seq<nat>, job: Job) returns (id: nat, rest: seq<nat>)
    requires InHandAre(hand, ids) && job in Bag(hand, ids)
    ensures id in hand && hand[id].job == job && InHandAre(hand - {id}, rest)
    ensures Bag(hand - {id}, rest) == Bag(hand, ids) - multiset{job}
  {
    var i := BagHas(hand, ids, job);
    id, rest := ids[i], Without(ids, i);
    WithoutMembers(ids, i);
    BagWithout(hand, ids, i);
    assert forall j :: 0 <= j < |rest| ==> rest[j] in rest;
    BagAgrees(hand, hand - {id}, rest);
  }

  /** What the steps of a transaction leave alone. */
  ghost predicate SameRest(s: Sys, t: Sys) {
    && Still(s) && Still(t) && t.db.objects == s.db.objects
    && t.session.ram.cursor == s.session.ram.cursor && t.session.ram.dropped == s.session.ram.dropped
  }

  /** What a transaction does to the index and to the next id. */
  function IndexOne(cat: Catalog, index: map<Row, Vector>, commit: Commit): map<Row, Vector> {
    var row := if commit.StoreVector? then cat.RowOf(commit.job) else None;
    if row.Some? then index[row.value := commit.vector] else index
  }

  function NextOne(first: nat, commit: Commit): nat { if commit.Requeue? then first + |commit.jobs| else first }

  /** From `s` with `ids` in hand to `t` with `rest` in hand by the given transaction. */
  ghost predicate Does(c: Config, s: Sys, ids: seq<nat>, commit: Commit, t: Sys, rest: seq<nat>) {
    && SameRest(s, t) && Holding(c, t, rest)
    && Bag(t.session.ram.hand, rest) == Bag(s.session.ram.hand, ids) - multiset(commit.Jobs())
    && t.db == Apply(c.cat, s.db, commit) && t.session.ram.nextId == NextOne(s.session.ram.nextId, commit)
    && t.session.ram.index == IndexOne(c.cat, s.session.ram.index, commit)
    && HistoryAfter(s.history, commit, t.history)
  }

  /** Only a re-enqueue adds to the committed rows, only a failure to the failed ones. */
  ghost predicate HistoryAfter(h: History, commit: Commit, h': History) {
    match commit
    case StoreVector(_, _) => h' == h
    case ClearStates(_) => h' == h
    case MarkFailed(_) => h'.committed == h.committed
    case Requeue(_, _) => true
  }

  /** A transaction that lets one job go. */
  lemma ReleasedDoes(c: Config, s: Sys, ids: seq<nat>, commit: Commit, id: nat, t: Sys, rest: seq<nat>)
    requires Holding(c, s, ids) && InHandAre(s.session.ram.hand - {id}, rest) && !commit.Requeue?
    requires Bag(s.session.ram.hand - {id}, rest) == Bag(s.session.ram.hand, ids) - multiset(commit.Jobs())
    requires t.db == Apply(c.cat, s.db, commit) && t.db.objects == s.db.objects
    requires t.session ==
      Up(s.session.ram.(hand := s.session.ram.hand - {id}, index := IndexOne(c.cat, s.session.ram.index, commit)))
    requires HistoryAfter(s.history, commit, t.history)
    ensures Does(c, s, ids, commit, t, rest)
  {
    AllReadLess(c, s.db.objects, s.session.ram.hand, id);
    assert Holding(c, t, rest);
    assert SameRest(s, t) && t.session.ram.nextId == NextOne(s.session.ram.nextId, commit);
  }

  lemma AllReadLess(c: Config, objects: Objects, hand: map<nat, InHand>, id: nat)
    requires AllRead(c, objects, hand)
    ensures AllRead(c, objects, hand - {id})
  {
  }

  lemma StorePath(c: Config, s: Sys, ids: seq<nat>, job: Job, v: Vector)
    returns (steps: seq<Step>, t: Sys, rest: seq<nat>)
    requires Holding(c, s, ids) && job in Bag(s.session.ram.hand, ids)
    requires c.cat.WellBuilt(job) && Enabled(c, s.db.objects, StoreVector(job, v))
    ensures Path(c, s, steps, t) && Does(c, s, ids, StoreVector(job, v), t, rest)
  {
    var ram, r := s.session.ram, RowFor(c.cat, job);
    var id: nat;
    id, rest := TakeOne(ram.hand, ids, job);
    var text := JobText(c.cat, s.db.objects, job).value;
    var m := SetRam(s, ram.(hand := ram.hand[id := Inserted(job, text)], index := ram.index[r := v]));
    t := SetRam(s, ram.(hand := ram.hand - {id}, index := ram.index[r := v])).(db := PutVector(s.db, r, v));
    steps := [StoreInsert(id), StoreCommit(id)];
    assert Path(c, s, steps, t) by {
      InsertThenCommit(c, s, id, text, m, t);
      PathTwo(c, s, StoreInsert(id), m, StoreCommit(id), t);
    }
    ReleasedDoes(c, s, ids, StoreVector(job, v), id, t, rest);
  }

  lemma InsertThenCommit(c: Config, s: Sys, id: nat, text: string, m: Sys, t: Sys)
    requires s.session.Up? && id in s.session.ram.hand && s.session.ram.hand[id].WithText?
    requires s.session.ram.hand[id].text == text
    requires c.cat.WellBuilt(s.session.ram.hand[id].job)
    requires var ram, job := s.session.ram, s.session.ram.hand[id].job;
      var r, v := RowFor(c.cat, job), c.embed(job.model, text);
      && m == SetRam(s, ram.(hand := ram.hand[id := Inserted(job, text)], index := ram.index[r := v]))
      && t == SetRam(s, ram.(hand := ram.hand - {id}, index := ram.index[r := v])).(db := PutVector(s.db, r, v))
    ensures Next(c, s, StoreInsert(id), m) && Next(c, m, StoreCommit(id), t)
  {
    assert m.session.ram.hand - {id} == s.session.ram.hand - {id};
  }

  lemma FailPath(c: Config, s: Sys, ids: seq<nat>, job: Job) returns (steps: seq<Step>, t: Sys, rest: seq<nat>)
    requires Holding(c, s, ids) && job in Bag(s.session.ram.hand, ids)
    requires c.cat.WellBuilt(job) && Enabled(c, s.db.objects, MarkFailed(job))
    ensures Path(c, s, steps, t) && Does(c, s, ids, MarkFailed(job), t, rest)
  {
    var r := RowFor(c.cat, job);
    var id: nat;
    id, rest := TakeOne(s.session.ram.hand, ids, job);
    t := SetRam(s, Release(s, id)).(db := PutFailed(s.db, r), history := s.history.(failed := s.history.failed + {r}));
    steps := [FailCommit(id)];
    assert Path(c, s, steps, t) by { PathOne(c, s, FailCommit(id), t); }
    ReleasedDoes(c, s, ids, MarkFailed(job), id, t, rest);
  }

  lemma ClearOne(c: Config, s: Sys, ids: seq<nat>, job: Job) returns (steps: seq<Step>, t: Sys, rest: seq<nat>)
    requires Holding(c, s, ids) && job in Bag(s.session.ram.hand, ids)
    requires c.cat.WellBuilt(job) && JobText(c.cat, s.db.objects, job).None?
    ensures Path(c, s, steps, t) && Does(c, s, ids, ClearStates([job]), t, rest)
  {
    var id: nat;
    id, rest := TakeOne(s.session.ram.hand, ids, job);
    t := SetRam(s, Release(s, id)).(db := DeleteStates(s.db, {RowFor(c.cat, job)}));
    steps := [ClearCommit(id)];
    assert Path(c, s, steps, t) by { PathOne(c, s, ClearCommit(id), t); }
    OneRow(c.cat, job);
    ReleasedDoes(c, s, ids, ClearStates([job]), id, t, rest);
  }

  lemma OneRow(cat: Catalog, job: Job)
    requires cat.RowOf(job).Some?
    ensures RowsOf(cat, [job]) == {cat.RowOf(job).value}
  {
    assert cat.RowOf([job][0]).Some?;
  }

  lemma BagFirst(jobs: seq<Job>, bag: multiset<Job>)
    requires jobs != [] && multiset(jobs) <= bag
    ensures jobs[0] in bag && multiset(jobs[1..]) <= bag - multiset{jobs[0]}
    ensures bag - multiset{jobs[0]} - multiset(jobs[1..]) == bag - multiset(jobs)
  {
    assert jobs == [jobs[0]] + jobs[1..];
    assert jobs[0] in multiset(jobs);
  }

  lemma RowsOfFirst(cat: Catalog, jobs: seq<Job>)
    requires jobs != [] && cat.RowOf(jobs[0]).Some?
    ensures RowsOf(cat, jobs) == {cat.RowOf(jobs[0]).value} + RowsOf(cat, jobs[1..])
  {
    var rest := jobs[1..];
    forall r | r in RowsOf(cat, rest) ensures r in RowsOf(cat, jobs) {
      var i :| 0 <= i < |rest| && cat.RowOf(rest[i]) == Some(r);
      assert cat.RowOf(jobs[i + 1]) == Some(r);
    }
    forall r | r in RowsOf(cat, jobs) ensures r == cat.RowOf(jobs[0]).value || r in RowsOf(cat, rest) {
      var i :| 0 <= i < |jobs| && cat.RowOf(jobs[i]) == Some(r);
      assert i > 0 ==> cat.RowOf(rest[i - 1]) == Some(r);
    }
  }

  /** Clearing the states of several jobs, one after another. */
  lemma {:induction false} ClearPath(c: Config, s: Sys, ids: seq<nat>, jobs: seq<Job>)
    returns (steps: seq<Step>, t: Sys, rest: seq<nat>)
    requires Holding(c, s, ids) && multiset(jobs) <= Bag(s.session.ram.hand, ids)
    requires Enabled(c, s.db.objects, ClearStates(jobs))
    ensures Path(c, s, steps, t) && Does(c, s, ids, ClearStates(jobs), t, rest)
    decreases |jobs|
  {
    if jobs == [] {
      steps, t, rest := [], s, ids;
      ClearNone(c, s, ids);
    } else {
      BagFirst(jobs, Bag(s.session.ram.hand, ids));
      ClearTail(c, s.db.objects, jobs);
      var first, m, left := ClearOne(c, s, ids, jobs[0]);
      var more: seq<Step>;
      more, t, rest := ClearPath(c, m, left, jobs[1..]);
      steps := first + more;
      assert Path(c, s, steps, t) by { PathJoin(c, s, first, m, more, t); }
      ClearJoin(c, s, ids, jobs, m, left, t, rest);
    }
  }

  lemma ClearNone(c: Config, s: Sys, ids: seq<nat>)
    requires Holding(c, s, ids)
    ensures Does(c, s, ids, ClearStates([]), s, ids)
  {
    assert RowsOf(c.cat, []) == {} && DeleteStates(s.db, {}) == s.db;
  }

  lemma ClearJoin(c: Config, s: Sys, ids: seq<nat>, jobs: seq<Job>, m: Sys, left: seq<nat>, t: Sys, rest: seq<nat>)
    requires s.session.Up? && jobs != [] && c.cat.RowOf(jobs[0]).Some? && multiset(jobs) <= Bag(s.session.ram.hand, ids)
    requires Does(c, s, ids, ClearStates([jobs[0]]), m, left) && Does(c, m, left, ClearStates(jobs[1..]), t, rest)
    ensures Does(c, s, ids, ClearStates(jobs), t, rest)
  {
    BagFirst(jobs, Bag(s.session.ram.hand, ids));
    ClearRest(c.cat, s.db, jobs);
  }

  lemma ClearRest(cat: Catalog, db: Db, jobs: seq<Job>)
    requires jobs != [] && cat.RowOf(jobs[0]).Some?
    ensures Apply(cat, Apply(cat, db, ClearStates([jobs[0]])), ClearStates(jobs[1..])) ==
      Apply(cat, db, ClearStates(jobs))
  {
    OneRow(cat, jobs[0]);
    RowsOfFirst(cat, jobs);
    DeleteTwice(db, {cat.RowOf(jobs[0]).value}, RowsOf(cat, jobs[1..]));
  }

  lemma ClearTail(c: Config, objects: Objects, jobs: seq<Job>)
    requires jobs != [] && Enabled(c, objects, ClearStates(jobs))
    ensures c.cat.WellBuilt(jobs[0]) && JobText(c.cat, objects, jobs[0]).None?
    ensures Enabled(c, objects, ClearStates(jobs[1..]))
  {
    assert c.cat.WellBuilt(ClearStates(jobs).Jobs()[0]);
    var all, rest := ClearStates(jobs).Jobs(), ClearStates(jobs[1..]).Jobs();
    assert forall i :: 0 <= i < |rest| ==> rest[i] == all[i + 1];
  }

  lemma DeleteTwice(db: Db, a: set<Row>, b: set<Row>)
    ensures DeleteStates(DeleteStates(db, a), b) == DeleteStates(db, a + b)
  {
    assert db.state - a - b == db.state - (a + b);
  }

  /** `rest` is what is left of `ids` once ids with the given jobs are `gone`. */
  ghost predicate Taken(hand: map<nat, InHand>, ids: seq<nat>, jobs: seq<Job>, gone: set<nat>, rest: seq<nat>) {
    && InHandAre(hand, ids) && InHandAre(hand - gone, rest)
    && (forall id :: id in gone ==> id in hand && hand[id].job in jobs)
    && Bag(hand - gone, rest) == Bag(hand, ids) - multiset(jobs)
  }

  lemma TakenNone(hand: map<nat, InHand>, ids: seq<nat>)
    requires InHandAre(hand, ids)
    ensures Taken(hand, ids, [], {}, ids)
  {
    assert hand - {} == hand;
  }

  lemma TakenMore(hand: map<nat, InHand>, ids: seq<nat>, jobs: seq<Job>, id: nat, left: seq<nat>, others: set<nat>,
                  rest: seq<nat>)
    requires InHandAre(hand, ids) && jobs != [] && id in hand && hand[id].job == jobs[0] && InHandAre(hand - {id}, left)
    requires multiset(jobs) <= Bag(hand, ids)
    requires Bag(hand - {id}, left) == Bag(hand, ids) - multiset{jobs[0]}
    requires Taken(hand - {id}, left, jobs[1..], others, rest)
    ensures Taken(hand, ids, jobs, others + {id}, rest)
  {
    var hand', gone := hand - {id}, others + {id};
    RemoveTwice(hand, id, others);
    BagFirst(jobs, Bag(hand, ids));
    TakenFrom(hand, jobs, id, others);
  }

  lemma RemoveTwice(hand: map<nat, InHand>, id: nat, others: set<nat>)
    ensures (hand - {id}) - others == hand - (others + {id})
  {
  }

  lemma TakenFrom(hand: map<nat, InHand>, jobs: seq<Job>, id: nat, others: set<nat>)
    requires jobs != [] && id in hand && hand[id].job == jobs[0]
    requires forall k :: k in others ==> k in hand - {id} && (hand - {id})[k].job in jobs[1..]
    ensures forall k :: k in others + {id} ==> k in hand && hand[k].job in jobs
  {
  }

  /** Ids in hand with the given jobs. */
  lemma {:induction false} TakeMany(hand: map<nat, InHand>, ids: seq<nat>, jobs: seq<Job>)
    returns (gone: set<nat>, rest: seq<nat>)
    requires InHandAre(hand, ids) && multiset(jobs) <= Bag(hand, ids)
    ensures Taken(hand, ids, jobs, gone, rest)
    decreases |jobs|
  {
    if jobs == [] {
      gone, rest := {}, ids;
      TakenNone(hand, ids);
    } else {
      BagFirst(jobs, Bag(hand, ids));
      var id, left := TakeOne(hand, ids, jobs[0]);
      var others: set<nat>;
      others, rest := TakeMany(hand - {id}, left, jobs[1..]);
      TakenMore(hand, ids, jobs, id, left, others, rest);
      gone := others + {id};
    }
  }

  /** An enqueue: allocate, commit, unregister. `gone` are claimed ids whose jobs it puts back. */
  lemma EnqueuePath(c: Config, s: Sys, jobs: seq<Job>, gone: set<nat>) returns (steps: seq<Step>, t: Sys)
    requires Still(s) && jobs != [] && forall i :: 0 <= i < |jobs| ==> c.cat.WellBuilt(jobs[i])
    requires forall id :: id in gone ==>
      id in s.session.ram.hand && s.session.ram.hand[id].WithText? && s.session.ram.hand[id].job in jobs
    ensures Path(c, s, steps, t) && SameRest(s, t)
    ensures t.db == PutJobs(c.cat, s.db, s.session.ram.nextId, jobs)
    ensures t.session == Up(s.session.ram.(nextId := s.session.ram.nextId + |jobs|, hand := s.session.ram.hand - gone))
  {
    var a, b, first := Allocated(c, s, jobs, gone), Committed(c, s, jobs, gone), s.session.ram.nextId;
    t := SetRam(b, b.session.ram.(enqueues := map[]));
    assert Next(c, s, EnqueueAllocate(jobs, gone), a);
    EnqueueCommits(c, s, jobs, gone);
    assert b.session.ram.enqueues - {first} == map[];
    assert Next(c, b, Unregister(first), t);
    steps := [EnqueueAllocate(jobs, gone), EnqueueCommit(first)] + [Unregister(first)];
    PathTwo(c, s, EnqueueAllocate(jobs, gone), a, EnqueueCommit(first), b);
    PathOne(c, b, Unregister(first), t);
    PathJoin(c, s, [EnqueueAllocate(jobs, gone), EnqueueCommit(first)], b, [Unregister(first)], t);
  }

  /** The states inside an enqueue: after its allocation, and after its commit. */
  ghost function Allocated(c: Config, s: Sys, jobs: seq<Job>, gone: set<nat>): Sys
    requires Still(s)
  {
    var ram := s.session.ram;
    SetRam(s, ram.(nextId := ram.nextId + |jobs|, enqueues := map[ram.nextId := Enqueue(jobs, gone, false)]))
    .(history := s.history.(touched := s.history.touched + KeysOf(c.cat, jobs)))
  }

  ghost function Committed(c: Config, s: Sys, jobs: seq<Job>, gone: set<nat>): Sys
    requires Still(s)
  {
    var a, first := Allocated(c, s, jobs, gone), s.session.ram.nextId;
    SetRam(a, a.session.ram.(enqueues := map[first := Enqueue(jobs, gone, true)], hand := s.session.ram.hand - gone))
    .(db := PutJobs(c.cat, s.db, first, jobs), history := a.history.(committed := a.history.committed + RowsOf(c.cat,
      jobs)))
  }

  lemma EnqueueCommits(c: Config, s: Sys, jobs: seq<Job>, gone: set<nat>)
    requires Still(s)
    ensures Next(c, Allocated(c, s, jobs, gone), EnqueueCommit(s.session.ram.nextId), Committed(c, s, jobs, gone))
  {
    var first := s.session.ram.nextId;
    assert map[first := Enqueue(jobs, gone, false)][first := Enqueue(jobs, gone, true)] ==
      map[first := Enqueue(jobs, gone, true)];
  }

  lemma RequeuePath(c: Config, s: Sys, ids: seq<nat>, jobs: seq<Job>) returns (steps: seq<Step>, t: Sys, rest: seq<nat>)
    requires Holding(c, s, ids) && multiset(jobs) <= Bag(s.session.ram.hand, ids)
    requires Enabled(c, s.db.objects, Requeue(s.session.ram.nextId, jobs))
    ensures Path(c, s, steps, t) && Does(c, s, ids, Requeue(s.session.ram.nextId, jobs), t, rest)
  {
    var hand := s.session.ram.hand;
    var gone: set<nat>;
    gone, rest := TakeMany(hand, ids, jobs);
    RequeuedHaveText(c, s.db.objects, hand, s.session.ram.nextId, jobs, gone);
    steps, t := EnqueuePath(c, s, jobs, gone);
    assert InHandAre(hand - gone, rest) && AllRead(c, s.db.objects, hand - gone);
  }

  lemma RequeuedHaveText(c: Config, objects: Objects, hand: map<nat, InHand>, first: nat, jobs: seq<Job>,
                         gone: set<nat>)
    requires AllRead(c, objects, hand) && Enabled(c, objects, Requeue(first, jobs))
    requires forall id :: id in gone ==> id in hand && hand[id].job in jobs
    ensures forall id :: id in gone ==> hand[id].WithText?
    ensures forall i :: 0 <= i < |jobs| ==> c.cat.WellBuilt(jobs[i])
  {
    var all := Requeue(first, jobs).Jobs();
    assert forall i :: 0 <= i < |jobs| ==> jobs[i] == all[i];
    forall id | id in gone ensures hand[id].WithText? {
      var i :| 0 <= i < |jobs| && jobs[i] == hand[id].job;
      assert hand[id] == ItemFor(c.cat, objects, hand[id].job);
    }
  }

  /** A transaction of a worker, as steps. */
  lemma CommitPath(c: Config, s: Sys, ids: seq<nat>, commit: Commit) returns (steps: seq<Step>, t: Sys, rest: seq<nat>)
    requires Holding(c, s, ids) && multiset(commit.Jobs()) <= Bag(s.session.ram.hand, ids)
    requires Enabled(c, s.db.objects, commit) && (commit.Requeue? ==> commit.first == s.session.ram.nextId)
    ensures Path(c, s, steps, t) && Does(c, s, ids, commit, t, rest)
  {
    match commit
    case StoreVector(job, v) =>
      assert job in multiset(commit.Jobs()) && c.cat.WellBuilt(commit.Jobs()[0]);
      steps, t, rest := StorePath(c, s, ids, job, v);
    case MarkFailed(job) =>
      assert job in multiset(commit.Jobs()) && c.cat.WellBuilt(commit.Jobs()[0]);
      steps, t, rest := FailPath(c, s, ids, job);
    case ClearStates(jobs) =>
      steps, t, rest := ClearPath(c, s, ids, jobs);
    case Requeue(_, jobs) =>
      steps, t, rest := RequeuePath(c, s, ids, jobs);
  }

  /** A log from its first transaction on. */
  lemma LogFirst(cat: Catalog, db: Db, index: map<Row, Vector>, log: seq<Commit>)
    requires log != []
    ensures ApplyAll(cat, db, log) == ApplyAll(cat, Apply(cat, db, log[0]), log[1..])
    ensures IndexAll(cat, index, log) == IndexAll(cat, IndexOne(cat, index, log[0]), log[1..])
    ensures JobsIn(log) == multiset(log[0].Jobs()) + JobsIn(log[1..])
  {
    var head, tail := [log[0]], log[1..];
    assert log == head + tail;
    assert ApplyAll(cat, db, head) == Apply(cat, db, log[0]) by { assert head[..0] == []; }
    assert IndexAll(cat, index, head) == IndexOne(cat, index, log[0]) by { assert head[..0] == []; }
    JobsInOne(log[0]);
    ApplyAppend(cat, db, head, tail);
    IndexAppend(cat, index, head, tail);
    JobsAppend(head, tail);
  }

  lemma FreshFirst(log: seq<Commit>, first: nat)
    requires log != [] && FreshIds(log, first)
    ensures NextAfter(log, first) == NextAfter(log[1..], NextOne(first, log[0]))
    ensures (log[0].Requeue? ==> log[0].first == first) && FreshIds(log[1..], NextOne(first, log[0]))
  {
    var head, tail := [log[0]], log[1..];
    assert log == head + tail && log[..0] == [];
    assert NextAfter(head, first) == NextOne(first, log[0]) by { assert head[..0] == []; }
    NextAppend(head, tail, first);
    forall i | 0 <= i < |tail| && tail[i].Requeue?
      ensures tail[i].first == NextAfter(tail[..i], NextOne(first, log[0])) {
      assert log[i + 1] == tail[i] && log[..i + 1] == head + tail[..i];
      NextAppend(head, tail[..i], first);
    }
  }

  ghost predicate HistoryAfterAll(h: History, log: seq<Commit>, h': History) {
    && ((forall i :: 0 <= i < |log| ==> !log[i].Requeue?) ==> h'.committed == h.committed)
    && ((forall i :: 0 <= i < |log| ==> log[i].StoreVector? || log[i].ClearStates?) ==> h' == h)
  }

  lemma HistoryJoin(h: History, log: seq<Commit>, mid: History, h': History)
    requires log != [] && HistoryAfter(h, log[0], mid) && HistoryAfterAll(mid, log[1..], h')
    ensures HistoryAfterAll(h, log, h')
  {
    assert forall i :: 0 <= i < |log| - 1 ==> log[1..][i] == log[i + 1];
  }

  /** From `s` to `t`, with nothing in hand, by the transactions of a log. */
  ghost predicate DoesAll(c: Config, s: Sys, log: seq<Commit>, t: Sys) {
    && SameRest(s, t) && t.session.ram.hand == map[]
    && t.db == ApplyAll(c.cat, s.db, log) && t.session.ram.nextId == NextAfter(log, s.session.ram.nextId)
    && t.session.ram.index == IndexAll(c.cat, s.session.ram.index, log)
    && HistoryAfterAll(s.history, log, t.history)
  }

  lemma DoesJoin(c: Config, s: Sys, ids: seq<nat>, log: seq<Commit>, m: Sys, rest: seq<nat>, t: Sys)
    requires log != [] && Still(s) && FreshIds(log, s.session.ram.nextId)
    requires Does(c, s, ids, log[0], m, rest) && DoesAll(c, m, log[1..], t)
    ensures DoesAll(c, s, log, t)
  {
    LogFirst(c.cat, s.db, s.session.ram.index, log);
    FreshFirst(log, s.session.ram.nextId);
    HistoryJoin(s.history, log, m.history, t.history);
  }

  /** The transactions of a whole batch, as steps; at the end nothing is in hand. */
  lemma {:induction false} LogPath(c: Config, s: Sys, ids: seq<nat>, log: seq<Commit>)
    returns (steps: seq<Step>, t: Sys)
    requires Holding(c, s, ids) && JobsIn(log) == Bag(s.session.ram.hand, ids)
    requires (forall i :: 0 <= i < |log| ==> Enabled(c, s.db.objects, log[i])) && FreshIds(log, s.session.ram.nextId)
    ensures Path(c, s, steps, t) && DoesAll(c, s, log, t)
    decreases |log|
  {
    if log == [] {
      steps, t := [], s;
      EmptyHand(s.session.ram.hand, ids);
    } else {
      assert JobsIn(log) == multiset(log[0].Jobs()) + JobsIn(log[1..]) by {
        LogFirst(c.cat, s.db, s.session.ram.index, log);
      }
      FreshFirst(log, s.session.ram.nextId);
      var first, m, rest := CommitPath(c, s, ids, log[0]);
      var more: seq<Step>;
      more, t := LogPath(c, m, rest, log[1..]);
      steps := first + more;
      assert Path(c, s, steps, t) by { PathJoin(c, s, first, m, more, t); }
      DoesJoin(c, s, ids, log, m, rest, t);
    }
  }

  lemma EmptyHand(hand: map<nat, InHand>, ids: seq<nat>)
    requires InHandAre(hand, ids) && Bag(hand, ids) == multiset{}
    ensures hand == map[]
  {
    assert forall i :: 0 <= i < |ids| ==> ids[i] in ids;
    BagSize(hand, ids);
  }

  lemma {:induction false} BagSize(hand: map<nat, InHand>, ids: seq<nat>)
    requires forall i :: 0 <= i < |ids| ==> ids[i] in hand
    ensures |Bag(hand, ids)| == |ids|
  {
    if ids == [] {
    } else {
      BagSize(hand, ids[1..]);
    }
  }

  /** The first `k` of the claimed jobs have their texts read, the others not yet. */
  ghost predicate ReadUpTo(c: Config, objects: Objects, hand: map<nat, InHand>, ids: seq<nat>, k: nat) {
    && InHandAre(hand, ids)
    && (forall i :: 0 <= i < |ids| ==> c.cat.WellBuilt(hand[ids[i]].job))
    && (forall i :: 0 <= i < |ids| ==>
          hand[ids[i]] == if i < k then ItemFor(c.cat, objects, hand[ids[i]].job) else Unread(hand[ids[i]].job))
  }

  lemma ReadOne(c: Config, s: Sys, ids: seq<nat>, k: nat) returns (m: Sys)
    requires Still(s) && k < |ids| && ReadUpTo(c, s.db.objects, s.session.ram.hand, ids, k)
    ensures Next(c, s, ReadText(ids[k]), m) && m == SetRam(s, s.session.ram.(hand := m.session.ram.hand))
    ensures ReadUpTo(c, s.db.objects, m.session.ram.hand, ids, k + 1)
    ensures Bag(m.session.ram.hand, ids) == Bag(s.session.ram.hand, ids)
  {
    var ram, id := s.session.ram, ids[k];
    assert id in ids;
    var job := ram.hand[id].job;
    JobTextIsSource(c.cat, s.db.objects, job);
    var hand := ram.hand[id := ItemFor(c.cat, s.db.objects, job)];
    m := SetRam(s, ram.(hand := hand));
    OneMoreRead(c, s.db.objects, ram.hand, ids, k);
  }

  lemma OneMoreRead(c: Config, objects: Objects, hand: map<nat, InHand>, ids: seq<nat>, k: nat)
    requires k < |ids| && ReadUpTo(c, objects, hand, ids, k) && ids[k] in hand
    ensures var hand' := hand[ids[k] := ItemFor(c.cat, objects, hand[ids[k]].job)];
      ReadUpTo(c, objects, hand', ids, k + 1) && Bag(hand', ids) == Bag(hand, ids)
  {
    var hand' := hand[ids[k] := ItemFor(c.cat, objects, hand[ids[k]].job)];
    assert forall i :: 0 <= i < |ids| ==> ids[i] in ids;
    BagAgrees(hand, hand', ids);
  }

  lemma {:induction false} ReadPath(c: Config, s: Sys, ids: seq<nat>, k: nat) returns (steps: seq<Step>, t: Sys)
    requires Still(s) && k <= |ids| && ReadUpTo(c, s.db.objects, s.session.ram.hand, ids, k)
    ensures Path(c, s, steps, t) && Holding(c, t, ids) && t == SetRam(s, s.session.ram.(hand := t.session.ram.hand))
    ensures Bag(t.session.ram.hand, ids) == Bag(s.session.ram.hand, ids)
    decreases |ids| - k
  {
    if k == |ids| {
      steps, t := [], s;
      AllUpToEnd(c, s.db.objects, s.session.ram.hand, ids);
    } else {
      var m := ReadOne(c, s, ids, k);
      var more: seq<Step>;
      more, t := ReadPath(c, m, ids, k + 1);
      steps := [ReadText(ids[k])] + more;
      PathOne(c, s, ReadText(ids[k]), m);
      PathJoin(c, s, [ReadText(ids[k])], m, more, t);
    }
  }

  lemma AllUpToEnd(c: Config, objects: Objects, hand: map<nat, InHand>, ids: seq<nat>)
    requires ReadUpTo(c, objects, hand, ids, |ids|)
    ensures AllRead(c, objects, hand)
  {
    forall id | id in hand ensures c.cat.WellBuilt(hand[id].job) && hand[id] == ItemFor(c.cat, objects, hand[id].job) {
      var i :| 0 <= i < |ids| && ids[i] == id;
    }
  }

  // ---- The object's operations ----

  /** The object and the protocol state agree, with no enqueue in flight and no claim under way. */
  ghost predicate Coupled(c: Config, v: Vectorizer, s: Sys)
    reads v
  {
    && v.Valid() && v.cat == c.cat && v.batchSize == c.batchSize && c.boundFirst
    && Still(s) && v.db == s.db && v.index == s.session.ram.index
    && v.nextJobId == s.session.ram.nextId && v.claimCursor == s.session.ram.cursor
  }

  /** Opening is `OpenClean` then `OpenEnqueue`. */
  method Open(cat: Catalog, batchSize: nat, db: Db, ghost c: Config, ghost s: Sys)
    returns (v: Vectorizer, ghost orphans: seq<Row>, ghost t: Sys)
    requires c.cat == cat && c.batchSize == batchSize && cat.Valid() && c.boundFirst
    requires s.session.Down? && s.db == db
    ensures fresh(v) && Coupled(c, v, t) && Path(c, s, [OpenClean(orphans), OpenEnqueue], t)
    ensures t.session.ram.hand == map[] && t.session.ram.dropped == {} && t.history == s.history
    ensures ReconcileResult(cat, db, NextJobId(db.queue), orphans, v.db)
    ensures v.nextJobId == NextJobId(db.queue) + |orphans|
  {
    v := new Vectorizer(cat, batchSize, db);
    orphans :| ReconcileResult(cat, db, NextJobId(db.queue), orphans, v.db) && v.nextJobId ==
      NextJobId(db.queue) + |orphans|;
    t := OpenPath(c, s, orphans, v.db);
  }

  lemma OpenPath(c: Config, s: Sys, orphans: seq<Row>, db: Db) returns (t: Sys)
    requires s.session.Down? && ReconcileResult(c.cat, s.db, NextJobId(s.db.queue), orphans, db)
    ensures Path(c, s, [OpenClean(orphans), OpenEnqueue], t)
    ensures t == s.(db := db, session := Up(Ram(NextJobId(s.db.queue) + |orphans|, map[], 0, Idle, map[], [], {},
      s.db.vectors)))
  {
    var first := NextJobId(s.db.queue);
    var m := s.(db := DeleteStates(s.db, StaleRows(c.cat, s.db)), session := Opening(orphans));
    t := s.(db := db, session := Up(Ram(first + |orphans|, map[], 0, Idle, map[], [], {}, s.db.vectors)));
    assert Next(c, s, OpenClean(orphans), m);
    assert Next(c, m, OpenEnqueue, t);
    PathTwo(c, s, OpenClean(orphans), m, OpenEnqueue, t);
  }

  /** An enqueue is allocate, commit, unregister; an empty one is nothing. */
  method Enqueues(v: Vectorizer, jobs: seq<Job>, ghost c: Config, ghost s: Sys)
    returns (ghost steps: seq<Step>, ghost t: Sys)
    requires Coupled(c, v, s) && forall i :: 0 <= i < |jobs| ==> c.cat.WellBuilt(jobs[i])
    modifies v
    ensures Coupled(c, v, t) && Path(c, s, steps, t) && t.session.ram.hand == s.session.ram.hand
    ensures v.db == PutJobs(c.cat, old(v.db), old(v.nextJobId), jobs)
  {
    if jobs == [] {
      steps, t := [], s;
      PutNothing(c.cat, v.db, v.nextJobId);
    } else {
      steps, t := EnqueuePath(c, s, jobs, {});
      assert s.session.ram.hand - {} == s.session.ram.hand;
    }
    v.EnqueueMany(jobs);
  }

  /** What a claim of `ids` puts in hand. */
  function Claimed(q: map<nat, Entry>, ids: seq<nat>): map<nat, InHand> {
    map id | id in ids && id in q && q[id].Live? :: Unread(q[id].job)
  }

  /** A claim is a bound read, a snapshot, a walk and, when it found something, a commit. */
  lemma ClaimPath(c: Config, s: Sys, ids: seq<nat>, cursor: nat) returns (steps: seq<Step>, t: Sys)
    requires c.boundFirst && Still(s)
    requires WalkResult(s.db.queue, s.session.ram.cursor, s.session.ram.nextId, c.batchSize, ids, cursor)
    ensures Path(c, s, steps, t) && t.history == s.history && t.db == DeleteEntries(s.db, ids)
    ensures var ram := s.session.ram;
      t.session == Up(ram.(cursor := cursor, hand := ram.hand + Claimed(s.db.queue, ids), claimed := ram.claimed + ids))
  {
    var ram, q := s.session.ram, s.db.queue;
    var bound := ram.nextId;
    assert ram.enqueues.Keys + {bound} == {bound};
    assert ClaimBound(ram) == bound;
    var a := SetRam(s, ram.(claim := Bounded(bound)));
    var b := SetRam(s, ram.(claim := Snapped(q, bound)));
    var w := SetRam(s, ram.(cursor := cursor, claim := if ids == [] then Idle else Committing(q, ids)));
    steps := [ClaimReadBound, ClaimSnapshot] + [ClaimWalked(ids, cursor)];
    assert Path(c, s, steps, w) by {
      PathTwo(c, s, ClaimReadBound, a, ClaimSnapshot, b);
      PathOne(c, b, ClaimWalked(ids, cursor), w);
      PathJoin(c, s, [ClaimReadBound, ClaimSnapshot], b, [ClaimWalked(ids, cursor)], w);
    }
    if ids == [] {
      t := w;
      assert DeleteEntries(s.db, ids) == s.db && ram.claimed + ids == ram.claimed;
      assert Claimed(q, ids) == map[] && ram.hand + map[] == ram.hand;
    } else {
      t := SetRam(s, ram.(cursor := cursor, hand := ram.hand + Claimed(q, ids), claimed := ram.claimed + ids))
        .(db := DeleteEntries(s.db, ids));
      ClaimCommits(c, s, ids, cursor, w, t);
      PathOne(c, w, ClaimCommit, t);
      PathJoin(c, s, steps, w, [ClaimCommit], t);
      steps := steps + [ClaimCommit];
    }
  }

  lemma ClaimCommits(c: Config, s: Sys, ids: seq<nat>, cursor: nat, w: Sys, t: Sys)
    requires s.session.Up?
    requires WalkResult(s.db.queue, s.session.ram.cursor, s.session.ram.nextId, c.batchSize, ids, cursor)
    requires w == SetRam(s, s.session.ram.(cursor := cursor, claim := Committing(s.db.queue, ids)))
    requires var ram, hand := s.session.ram, s.session.ram.hand + Claimed(s.db.queue, ids);
      t == SetRam(s, ram.(cursor := cursor, claim := Idle, hand := hand, claimed := ram.claimed + ids))
        .(db := DeleteEntries(s.db, ids))
    ensures Next(c, w, ClaimCommit, t)
  {
    LiveIdsExact(s.db.queue, s.session.ram.cursor, s.session.ram.nextId);
  }

  method Claims(v: Vectorizer, ghost c: Config, ghost s: Sys)
    returns (jobs: seq<Job>, ghost ids: seq<nat>, ghost steps: seq<Step>, ghost t: Sys)
    requires Coupled(c, v, s) && s.session.ram.hand == map[]
    modifies v
    ensures Coupled(c, v, t) && Path(c, s, steps, t) && t.history == s.history
    ensures ids == FirstLive(s.db.queue, 0, s.session.ram.nextId, c.batchSize) && JobsAt(s.db.queue, ids, jobs)
    ensures InHandAre(t.session.ram.hand, ids)
    ensures forall i :: 0 <= i < |ids| ==> ids[i] in t.session.ram.hand && t.session.ram.hand[ids[i]] == Unread(jobs[i])
  {
    ids, jobs := v.ClaimBatch();
    steps, t := ClaimReady(c, s, ids, jobs, v.claimCursor);
  }

  /** After a claim with nothing in hand, exactly the claimed jobs are. */
  lemma ClaimReady(c: Config, s: Sys, ids: seq<nat>, jobs: seq<Job>, cursor: nat) returns (steps: seq<Step>, t: Sys)
    requires c.boundFirst && Still(s) && s.session.ram.hand == map[]
    requires WalkResult(s.db.queue, s.session.ram.cursor, s.session.ram.nextId, c.batchSize, ids, cursor)
    requires ids == FirstLive(s.db.queue, 0, s.session.ram.nextId, c.batchSize) && JobsAt(s.db.queue, ids, jobs)
    ensures Path(c, s, steps, t) && t.history == s.history && t.db == DeleteEntries(s.db, ids)
    ensures t.session.Up? && t.session.ram ==
      s.session.ram.(cursor := cursor, hand := t.session.ram.hand, claimed := s.session.ram.claimed + ids)
    ensures InHandAre(t.session.ram.hand, ids)
    ensures forall i :: 0 <= i < |ids| ==> ids[i] in t.session.ram.hand && t.session.ram.hand[ids[i]] == Unread(jobs[i])
  {
    steps, t := ClaimPath(c, s, ids, cursor);
    ClaimedInHand(s.db.queue, s.session.ram.nextId, c.batchSize, ids, jobs);
    assert s.session.ram.hand + Claimed(s.db.queue, ids) == Claimed(s.db.queue, ids);
  }

  lemma ClaimedInHand(q: map<nat, Entry>, bound: nat, n: nat, ids: seq<nat>, jobs: seq<Job>)
    requires ids == FirstLive(q, 0, bound, n) && JobsAt(q, ids, jobs)
    ensures InHandAre(Claimed(q, ids), ids)
    ensures forall i :: 0 <= i < |ids| ==> ids[i] in Claimed(q, ids) && Claimed(q, ids)[ids[i]] == Unread(jobs[i])
  {
    LiveIdsExact(q, 0, bound);
    assert forall i :: 0 <= i < |ids| ==> ids[i] in ids && ids[i] == LiveIds(q, 0, bound)[i];
    forall id | id in ids ensures id in Claimed(q, ids) {
      var i :| 0 <= i < |ids| && ids[i] == id;
    }
  }

  /** Processing a claimed batch is reading its texts and then, transaction by transaction, storing,
      failing, clearing or re-enqueuing its jobs. */
  lemma BatchPath(c: Config, s: Sys, ids: seq<nat>, jobs: seq<Job>, embedder: Embedder, log: seq<Commit>)
    returns (steps: seq<Step>, t: Sys)
    requires Still(s) && InHandAre(s.session.ram.hand, ids) && |jobs| == |ids|
    requires forall i :: 0 <= i < |ids| ==>
      ids[i] in s.session.ram.hand && s.session.ram.hand[ids[i]] == Unread(jobs[i])
    requires forall i :: 0 <= i < |jobs| ==> c.cat.WellBuilt(jobs[i])
    requires Faithful(embedder, c.embed) && JobsIn(log) == multiset(jobs) && FreshIds(log, s.session.ram.nextId)
    requires forall commit :: commit in log ==> Justified(c.cat, s.db.objects, jobs, embedder, commit)
    ensures Path(c, s, steps, t) && DoesAll(c, s, log, t)
  {
    var texts, m := ReadPath(c, s, ids, 0);
    BagIsJobs(s.session.ram.hand, ids, jobs);
    BatchEnabled(c, s.db.objects, jobs, embedder, log);
    var commits: seq<Step>;
    commits, t := LogPath(c, m, ids, log);
    PathJoin(c, s, texts, m, commits, t);
    steps := texts + commits;
  }

  lemma BatchEnabled(c: Config, objects: Objects, jobs: seq<Job>, embedder: Embedder, log: seq<Commit>)
    requires Faithful(embedder, c.embed) && forall i :: 0 <= i < |jobs| ==> c.cat.WellBuilt(jobs[i])
    requires forall commit :: commit in log ==> Justified(c.cat, objects, jobs, embedder, commit)
    ensures forall i :: 0 <= i < |log| ==> Enabled(c, objects, log[i])
  {
    forall i | 0 <= i < |log| ensures Enabled(c, objects, log[i]) {
      assert log[i] in log;
      JustifiedEnabled(c, objects, jobs, embedder, log[i]);
    }
  }

  method Processes(v: Vectorizer, jobs: seq<Job>, embedder: Embedder, ghost c: Config, ghost s: Sys,
                   ghost ids: seq<nat>)
    returns (log: seq<Commit>, ghost steps: seq<Step>, ghost t: Sys)
    requires Coupled(c, v, s) && Faithful(embedder, c.embed) && InHandAre(s.session.ram.hand, ids) && |jobs| == |ids|
    requires forall i :: 0 <= i < |ids| ==>
      ids[i] in s.session.ram.hand && s.session.ram.hand[ids[i]] == Unread(jobs[i])
    requires forall i :: 0 <= i < |jobs| ==> c.cat.WellBuilt(jobs[i])
    modifies v
    ensures Coupled(c, v, t) && Path(c, s, steps, t) && t.session.ram.hand == map[]
  {
    log := v.ProcessBatch(jobs, embedder);
    steps, t := BatchPath(c, s, ids, jobs, embedder, log);
  }

  lemma PassPath(c: Config, s: Sys, ids: seq<nat>, jobs: seq<Job>, cursor: nat, embedder: Embedder, log: seq<Commit>)
    returns (steps: seq<Step>, t: Sys)
    requires c.boundFirst && Still(s) && s.session.ram.hand == map[] && Faithful(embedder, c.embed)
    requires forall i :: 0 <= i < |jobs| ==> c.cat.WellBuilt(jobs[i])
    requires WalkResult(s.db.queue, s.session.ram.cursor, s.session.ram.nextId, c.batchSize, ids, cursor)
    requires ids == FirstLive(s.db.queue, 0, s.session.ram.nextId, c.batchSize) && JobsAt(s.db.queue, ids, jobs)
    requires JobsIn(log) == multiset(jobs) && FreshIds(log, s.session.ram.nextId)
    requires forall commit :: commit in log ==> Justified(c.cat, s.db.objects, jobs, embedder, commit)
    ensures Path(c, s, steps, t) && Still(t) && t.session.ram.hand == map[]
    ensures t.session.ram.dropped == s.session.ram.dropped && t.session.ram.cursor == cursor
    ensures t.db == ApplyAll(c.cat, DeleteEntries(s.db, ids), log)
    ensures t.session.ram.nextId == NextAfter(log, s.session.ram.nextId)
    ensures t.session.ram.index == IndexAll(c.cat, s.session.ram.index, log)
    ensures HistoryAfterAll(s.history, log, t.history)
  {
    var claim, m := ClaimReady(c, s, ids, jobs, cursor);
    assert Still(m) && m.db.objects == s.db.objects && m.session.ram.nextId == s.session.ram.nextId;
    var batch: seq<Step>;
    batch, t := BatchPath(c, m, ids, jobs, embedder, log);
    PathJoin(c, s, claim, m, batch, t);
    steps := claim + batch;
  }

  /** One `process_pending`, whatever the embedder does: a claim, then the batch. */
  method Passes(v: Vectorizer, embedder: Embedder, ghost c: Config, ghost s: Sys)
    returns (processed: nat, unavailable: bool, ghost ids: seq<nat>, ghost jobs: seq<Job>, ghost log: seq<Commit>,
             ghost steps: seq<Step>, ghost t: Sys)
    requires Coupled(c, v, s) && s.session.ram.hand == map[] && Faithful(embedder, c.embed)
    requires QueuedJobsInv(c.cat, s.history, s.db.queue)
    modifies v
    ensures Coupled(c, v, t) && Path(c, s, steps, t) && t.session.ram.hand == map[]
    ensures t.session.ram.dropped == s.session.ram.dropped
    ensures ids == FirstLive(s.db.queue, 0, s.session.ram.nextId, c.batchSize) && JobsAt(s.db.queue, ids, jobs)
    ensures t.db == ApplyAll(c.cat, DeleteEntries(s.db, ids), log) && processed == Stores(log)
    ensures JobsIn(log) == multiset(jobs) && t.session.ram.nextId == NextAfter(log, s.session.ram.nextId)
    ensures HistoryAfterAll(s.history, log, t.history)
    ensures forall commit :: commit in log ==> Justified(c.cat, s.db.objects, jobs, embedder, commit)
    ensures unavailable <==> processed == 0 && exists commit :: commit in log && commit.Requeue?
    ensures processed == 0 && !unavailable <==>
      forall job :: job in jobs ==> Quiet(c.cat, s.db.objects, jobs, embedder, job)
  {
    ghost var q := v.db.queue;
    forall id | id in q ensures c.cat.WellBuilt(q[id].job) {
      assert Enqueued(c.cat, s.history, q[id].job);
    }
    processed, unavailable, ids, jobs, log := v.ProcessPending(embedder);
    forall i | 0 <= i < |jobs| ensures c.cat.WellBuilt(jobs[i]) {
      assert q[ids[i]] == Live(jobs[i]);
    }
    steps, t := PassPath(c, s, ids, jobs, v.claimCursor, embedder, log);
  }
}
