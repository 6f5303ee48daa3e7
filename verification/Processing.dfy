/** What `process_batch` commits for a claimed batch: one log entry per transaction. */
module Processing {
  import opened Prelude
  import opened Store

  /** What one load-and-embed attempt for a model group returned. */
  datatype EmbedOutcome = LoadFailed | EmbedFailed | Answer(vectors: seq<Vector>)

  type Embedder = (string, seq<string>) -> EmbedOutcome

  /** A transaction of `process_batch`. */
  datatype Commit =
    | StoreVector(job: Job, vector: Vector)
    | Requeue(first: nat, jobs: seq<Job>)
    | MarkFailed(job: Job)
    | ClearStates(jobs: seq<Job>)
  {
    function Jobs(): seq<Job> {
      match this
      case StoreVector(job, _) => [job]
      case Requeue(_, jobs) => jobs
      case MarkFailed(job) => [job]
      case ClearStates(jobs) => jobs
    }
  }

  function Apply(cat: Catalog, db: Db, commit: Commit): Db {
    match commit
    case StoreVector(job, v) => if cat.RowOf(job).Some? then PutVector(db, cat.RowOf(job).value, v) else db
    case Requeue(first, jobs) => PutJobs(cat, db, first, jobs)
    case MarkFailed(job) => if cat.RowOf(job).Some? then PutFailed(db, cat.RowOf(job).value) else db
    case ClearStates(jobs) => DeleteStates(db, RowsOf(cat, jobs))
  }

  function ApplyAll(cat: Catalog, db: Db, log: seq<Commit>): Db {
    if log == [] then db else Apply(cat, ApplyAll(cat, db, log[..|log| - 1]), log[|log| - 1])
  }

  function JobsIn(log: seq<Commit>): multiset<Job> {
    if log == [] then multiset{} else JobsIn(log[..|log| - 1]) + multiset(log[|log| - 1].Jobs())
  }

  function Stores(log: seq<Commit>): nat {
    if log == [] then 0 else Stores(log[..|log| - 1]) + if log[|log| - 1].StoreVector? then 1 else 0
  }

  /** The in-memory index after a log: every stored vector replaces its row's entry. */
  function IndexAll(cat: Catalog, index: map<Row, Vector>, log: seq<Commit>): map<Row, Vector> {
    if log == [] then index
    else
      var before := IndexAll(cat, index, log[..|log| - 1]);
      var last := log[|log| - 1];
      var row := if last.StoreVector? then cat.RowOf(last.job) else None;
      if row.Some? then before[row.value := last.vector] else before
  }

  /** The text `process_batch` reads for a job. */
  function JobText(cat: Catalog, objects: Objects, job: Job): Option<string> {
    if job.typeName in cat.typeIds
    then TextAt(objects, ObjectKey(cat.typeIds[job.typeName], job.objectId), job.sourceField)
    else None
  }

  /** The object the job names holds the string `s` in the job's source field. */
  ghost predicate JobHolds(cat: Catalog, objects: Objects, job: Job, s: string) {
    && job.typeName in cat.typeIds
    && HoldsText(objects, ObjectKey(cat.typeIds[job.typeName], job.objectId), job.sourceField, s)
  }

  lemma JobTextIs(cat: Catalog, objects: Objects, job: Job)
    ensures forall s :: JobText(cat, objects, job) == Some(s) <==> JobHolds(cat, objects, job, s)
    ensures JobText(cat, objects, job).None? <==> !exists s :: JobHolds(cat, objects, job, s)
  {
    if JobText(cat, objects, job).Some? {
      assert JobHolds(cat, objects, job, JobText(cat, objects, job).value);
    }
  }

  /** The batch's jobs for one model, in claim order. */
  function Group(jobs: seq<Job>, model: string): seq<Job> {
    if jobs == [] then []
    else if jobs[0].model == model then [jobs[0]] + Group(jobs[1..], model)
    else Group(jobs[1..], model)
  }

  function Readable(cat: Catalog, objects: Objects, jobs: seq<Job>): (r: seq<Job>)
    ensures forall i :: 0 <= i < |r| ==> JobText(cat, objects, r[i]).Some?
  {
    if jobs == [] then []
    else if JobText(cat, objects, jobs[0]).Some? then [jobs[0]] + Readable(cat, objects, jobs[1..])
    else Readable(cat, objects, jobs[1..])
  }

  function Unreadables(cat: Catalog, objects: Objects, jobs: seq<Job>): (r: seq<Job>)
    ensures forall i :: 0 <= i < |r| ==> JobText(cat, objects, r[i]).None?
  {
    if jobs == [] then []
    else if JobText(cat, objects, jobs[0]).None? then [jobs[0]] + Unreadables(cat, objects, jobs[1..])
    else Unreadables(cat, objects, jobs[1..])
  }

  function Texts(cat: Catalog, objects: Objects, jobs: seq<Job>): (ts: seq<string>)
    requires forall i :: 0 <= i < |jobs| ==> JobText(cat, objects, jobs[i]).Some?
    ensures |ts| == |jobs| && forall i :: 0 <= i < |jobs| ==> JobText(cat, objects, jobs[i]) == Some(ts[i])
  {
    if jobs == [] then [] else [JobText(cat, objects, jobs[0]).value] + Texts(cat, objects, jobs[1..])
  }

  /** What the model of `job` answered for its group's readable texts. */
  function GroupAnswer(cat: Catalog, objects: Objects, jobs: seq<Job>, embedder: Embedder,
                       model: string): EmbedOutcome {
    var readable := Readable(cat, objects, Group(jobs, model));
    embedder(model, Texts(cat, objects, readable))
  }

  /** One vector per readable job of the group. */
  predicate Aligned(cat: Catalog, objects: Objects, jobs: seq<Job>, embedder: Embedder, model: string) {
    var answer := GroupAnswer(cat, objects, jobs, embedder, model);
    answer.Answer? && |answer.vectors| == |Readable(cat, objects, Group(jobs, model))|
  }

  /** Why a commit is right: a stored vector answers the position of the job's own text in a
      full-length answer; only a load failure re-enqueues, only an embed failure or a
      wrong-length answer marks failed, and only unreadable jobs lose their state. */
  ghost predicate Justified(cat: Catalog, objects: Objects, jobs: seq<Job>, embedder: Embedder, commit: Commit) {
    match commit
    case StoreVector(job, v) =>
      && Aligned(cat, objects, jobs, embedder, job.model)
      && var readable := Readable(cat, objects, Group(jobs, job.model));
      && exists i :: 0 <= i < |readable| && readable[i] == job &&
           v == GroupAnswer(cat, objects, jobs, embedder, job.model).vectors[i]
    case Requeue(_, js) =>
      js != [] && GroupAnswer(cat, objects, jobs, embedder, js[0].model).LoadFailed? &&
      js == Readable(cat, objects, Group(jobs, js[0].model))
    case MarkFailed(job) =>
      && job in Readable(cat, objects, Group(jobs, job.model))
      && !GroupAnswer(cat, objects, jobs, embedder, job.model).LoadFailed?
      && !Aligned(cat, objects, jobs, embedder, job.model)
    case ClearStates(js) =>
      forall job :: job in js ==> job in jobs && JobText(cat, objects, job).None?
  }

  lemma {:induction false} GroupMember(jobs: seq<Job>, model: string, job: Job)
    ensures job in Group(jobs, model) <==> job in jobs && job.model == model
  {
    if jobs == [] {
    } else {
      GroupMember(jobs[1..], model, job);
      assert jobs == [jobs[0]] + jobs[1..];
    }
  }

  lemma {:induction false} ReadableMember(cat: Catalog, objects: Objects, jobs: seq<Job>, job: Job)
    ensures job in Readable(cat, objects, jobs) <==> job in jobs && JobText(cat, objects, job).Some?
    ensures job in Unreadables(cat, objects, jobs) <==> job in jobs && JobText(cat, objects, job).None?
  {
    if jobs == [] {
    } else {
      ReadableMember(cat, objects, jobs[1..], job);
      assert jobs == [jobs[0]] + jobs[1..];
    }
  }

  lemma {:induction false} ReadableSplits(cat: Catalog, objects: Objects, jobs: seq<Job>)
    ensures multiset(Readable(cat, objects, jobs)) + multiset(Unreadables(cat, objects, jobs)) == multiset(jobs)
  {
    if jobs == [] {
    } else {
      ReadableSplits(cat, objects, jobs[1..]);
      assert jobs == [jobs[0]] + jobs[1..];
    }
  }

  /** The models of a batch's jobs. */
  function Models(jobs: seq<Job>): set<string> {
    set i | 0 <= i < |jobs| :: jobs[i].model
  }

  /** Jobs whose model is in `models`, as a multiset. */
  function InModels(jobs: seq<Job>, models: set<string>): multiset<Job> {
    if jobs == [] then multiset{}
    else (if jobs[0].model in models then multiset{jobs[0]} else multiset{}) + InModels(jobs[1..], models)
  }

  lemma {:induction false} InModelsAdd(jobs: seq<Job>, models: set<string>, model: string)
    requires model !in models
    ensures InModels(jobs, models + {model}) == InModels(jobs, models) + multiset(Group(jobs, model))
  {
    if jobs == [] {
    } else {
      InModelsAdd(jobs[1..], models, model);
    }
  }

  lemma {:induction false} InModelsAll(jobs: seq<Job>, models: set<string>)
    requires forall i :: 0 <= i < |jobs| ==> jobs[i].model in models
    ensures InModels(jobs, models) == multiset(jobs)
  {
    if jobs == [] {
    } else {
      InModelsAll(jobs[1..], models);
      assert jobs == [jobs[0]] + jobs[1..];
    }
  }

  lemma {:induction false} InModelsNone(jobs: seq<Job>)
    ensures InModels(jobs, {}) == multiset{}
  {
    if jobs == [] {
    } else {
      InModelsNone(jobs[1..]);
    }
  }

  lemma {:induction false} ApplyAppend(cat: Catalog, db: Db, a: seq<Commit>, b: seq<Commit>)
    ensures ApplyAll(cat, db, a + b) == ApplyAll(cat, ApplyAll(cat, db, a), b)
  {
    if b == [] {
      assert a + b == a;
    } else {
      assert (a + b)[..|a + b| - 1] == a + b[..|b| - 1];
      ApplyAppend(cat, db, a, b[..|b| - 1]);
    }
  }

  lemma {:induction false} IndexAppend(cat: Catalog, index: map<Row, Vector>, a: seq<Commit>, b: seq<Commit>)
    ensures IndexAll(cat, index, a + b) == IndexAll(cat, IndexAll(cat, index, a), b)
  {
    if b == [] {
      assert a + b == a;
    } else {
      assert (a + b)[..|a + b| - 1] == a + b[..|b| - 1];
      IndexAppend(cat, index, a, b[..|b| - 1]);
    }
  }

  lemma {:induction false} JobsAppend(a: seq<Commit>, b: seq<Commit>)
    ensures JobsIn(a + b) == JobsIn(a) + JobsIn(b)
  {
    if b == [] {
      assert a + b == a;
    } else {
      assert (a + b)[..|a + b| - 1] == a + b[..|b| - 1];
      JobsAppend(a, b[..|b| - 1]);
    }
  }

  /** No transaction of a batch writes an object. */
  lemma {:induction false} ApplyKeepsObjects(cat: Catalog, db: Db, log: seq<Commit>)
    ensures ApplyAll(cat, db, log).objects == db.objects
  {
    if log == [] {
    } else {
      ApplyKeepsObjects(cat, db, log[..|log| - 1]);
    }
  }

  function FailAll(jobs: seq<Job>): (log: seq<Commit>)
    ensures |log| == |jobs| && forall i :: 0 <= i < |jobs| ==> log[i] == MarkFailed(jobs[i])
  {
    if jobs == [] then [] else FailAll(jobs[..|jobs| - 1]) + [MarkFailed(jobs[|jobs| - 1])]
  }

  function StoreAll(jobs: seq<Job>, vectors: seq<Vector>): (log: seq<Commit>)
    requires |jobs| == |vectors|
    ensures |log| == |jobs| && forall i :: 0 <= i < |jobs| ==> log[i] == StoreVector(jobs[i], vectors[i])
  {
    if jobs == [] then []
    else
      var n := |jobs| - 1;
      StoreAll(jobs[..n], vectors[..n]) + [StoreVector(jobs[n], vectors[n])]
  }

  /** The transactions for one model's readable jobs, by what its embedder did. */
  function EmbedCommits(readable: seq<Job>, outcome: EmbedOutcome, first: nat): seq<Commit> {
    match outcome
    case LoadFailed => [Requeue(first, readable)]
    case EmbedFailed => FailAll(readable)
    case Answer(vectors) =>
      if |vectors| != |readable| then FailAll(readable) else StoreAll(readable, vectors)
  }

  // ---- What the loops of a group write, in terms of the store alone ----

  ghost predicate SameRow(r: Row, db: Db, db': Db) {
    && (r in db'.state <==> r in db.state) && (r in db.state ==> db'.state[r] == db.state[r])
    && (r in db'.vectors <==> r in db.vectors) && (r in db.vectors ==> db'.vectors[r] == db.vectors[r])
  }

  /** The last job that names the row. */
  ghost function LastNaming(cat: Catalog, jobs: seq<Job>, r: Row): (at: Option<nat>)
    ensures at.Some? ==> at.value < |jobs| && Names(cat, jobs[at.value], r)
    ensures forall i :: 0 <= i < |jobs| && Names(cat, jobs[i], r) ==> at.Some? && i <= at.value
  {
    if jobs == [] then None
    else if Names(cat, jobs[|jobs| - 1], r) then Some(|jobs| - 1)
    else LastNaming(cat, jobs[..|jobs| - 1], r)
  }

  /** A row gets the vector of the last job that names it, in the store and in the index, and is
      `Indexed`; a row no job names does not change. */
  ghost predicate RowPut(cat: Catalog, jobs: seq<Job>, vectors: seq<Vector>, r: Row, db: Db, db': Db,
                         index: map<Row, Vector>, index': map<Row, Vector>)
    requires |jobs| == |vectors|
  {
    match LastNaming(cat, jobs, r)
    case None => SameRow(r, db, db') && (r in index' <==> r in index) && (r in index ==> index'[r] == index[r])
    case Some(i) =>
      && r in db'.state && db'.state[r] == Indexed
      && r in db'.vectors && db'.vectors[r] == vectors[i] && r in index' && index'[r] == vectors[i]
  }

  ghost predicate VectorsPut(cat: Catalog, jobs: seq<Job>, vectors: seq<Vector>, db: Db, db': Db,
                             index: map<Row, Vector>, index': map<Row, Vector>)
    requires |jobs| == |vectors|
  {
    && db'.queue == db.queue && db'.objects == db.objects
    && forall r :: RowPut(cat, jobs, vectors, r, db, db', index, index')
  }

  lemma {:induction false} StoreWrites(cat: Catalog, jobs: seq<Job>, vectors: seq<Vector>, db: Db,
                                       index: map<Row, Vector>, r: Row)
    requires |jobs| == |vectors|
    ensures var log := StoreAll(jobs, vectors);
      && ApplyAll(cat, db, log).queue == db.queue && ApplyAll(cat, db, log).objects == db.objects
      && RowPut(cat, jobs, vectors, r, db, ApplyAll(cat, db, log), index, IndexAll(cat, index, log))
  {
    if jobs == [] {
    } else {
      var n := |jobs| - 1;
      var init := StoreAll(jobs[..n], vectors[..n]);
      StoreWrites(cat, jobs[..n], vectors[..n], db, index, r);
      assert StoreAll(jobs, vectors)[..n] == init;
      LastStore(cat, jobs, vectors, r, db, ApplyAll(cat, db, init), index, IndexAll(cat, index, init));
    }
  }

  lemma LastStore(cat: Catalog, jobs: seq<Job>, vectors: seq<Vector>, r: Row, db: Db, mid: Db,
                  index: map<Row, Vector>, held: map<Row, Vector>)
    requires |jobs| == |vectors| > 0
    requires RowPut(cat, jobs[..|jobs| - 1], vectors[..|jobs| - 1], r, db, mid, index, held)
    ensures var job, v := jobs[|jobs| - 1], vectors[|jobs| - 1];
      RowPut(cat, jobs, vectors, r, db, Apply(cat, mid, StoreVector(job, v)), index,
             if cat.RowOf(job).Some? then held[cat.RowOf(job).value := v] else held)
  {
    var n := |jobs| - 1;
    if Names(cat, jobs[n], r) {
      assert cat.RowOf(jobs[n]) == Some(r) && LastNaming(cat, jobs, r) == Some(n);
    } else {
      assert cat.RowOf(jobs[n]) != Some(r) && LastNaming(cat, jobs, r) == LastNaming(cat, jobs[..n], r);
    }
  }

  lemma StoresWrite(cat: Catalog, jobs: seq<Job>, vectors: seq<Vector>, db: Db, index: map<Row, Vector>)
    requires |jobs| == |vectors|
    ensures var log := StoreAll(jobs, vectors);
      VectorsPut(cat, jobs, vectors, db, ApplyAll(cat, db, log), index, IndexAll(cat, index, log))
  {
    var log := StoreAll(jobs, vectors);
    StoreWrites(cat, jobs, vectors, db, index, Row(0, 0, 0));
    forall r ensures RowPut(cat, jobs, vectors, r, db, ApplyAll(cat, db, log), index, IndexAll(cat, index, log)) {
      StoreWrites(cat, jobs, vectors, db, index, r);
    }
  }

  lemma UnnamedLast(cat: Catalog, jobs: seq<Job>, r: Row)
    requires jobs != []
    ensures var n := |jobs| - 1;
      Unnamed(cat, jobs, r) <==> Unnamed(cat, jobs[..n], r) && !Names(cat, jobs[n], r)
  {
    var n := |jobs| - 1;
    assert forall k :: 0 <= k < n ==> jobs[..n][k] == jobs[k];
  }

  /** Every named row is `Failed`; no vector, no other state, no entry and no object changes. */
  ghost predicate FailuresPut(cat: Catalog, jobs: seq<Job>, db: Db, db': Db) {
    && db'.queue == db.queue && db'.objects == db.objects && db'.vectors == db.vectors
    && (forall r :: Unnamed(cat, jobs, r) ==> SameRow(r, db, db'))
    && (forall i, r :: 0 <= i < |jobs| && Names(cat, jobs[i], r) ==> r in db'.state && db'.state[r] == Failed)
  }

  lemma {:induction false} FailuresWrite(cat: Catalog, jobs: seq<Job>, db: Db)
    ensures FailuresPut(cat, jobs, db, ApplyAll(cat, db, FailAll(jobs)))
  {
    if jobs == [] {
    } else {
      var n := |jobs| - 1;
      FailuresWrite(cat, jobs[..n], db);
      assert FailAll(jobs)[..n] == FailAll(jobs[..n]);
      OneMoreFailure(cat, jobs, db, ApplyAll(cat, db, FailAll(jobs[..n])));
    }
  }

  lemma OneMoreFailure(cat: Catalog, jobs: seq<Job>, db: Db, mid: Db)
    requires jobs != [] && FailuresPut(cat, jobs[..|jobs| - 1], db, mid)
    ensures FailuresPut(cat, jobs, db, Apply(cat, mid, MarkFailed(jobs[|jobs| - 1])))
  {
    var n := |jobs| - 1;
    forall r ensures Names(cat, jobs[n], r) <==> cat.RowOf(jobs[n]) == Some(r) { }
    forall r ensures Unnamed(cat, jobs, r) <==> Unnamed(cat, jobs[..n], r) && !Names(cat, jobs[n], r) {
      UnnamedLast(cat, jobs, r);
    }
  }

  /** The named rows lose their states; nothing else changes. */
  ghost predicate StatesCleared(cat: Catalog, jobs: seq<Job>, db: Db, db': Db) {
    && db'.queue == db.queue && db'.objects == db.objects && db'.vectors == db.vectors
    && (forall r :: r in db'.state <==> r in db.state && Unnamed(cat, jobs, r))
    && (forall r :: r in db'.state ==> db'.state[r] == db.state[r])
  }

  lemma ClearsWrite(cat: Catalog, jobs: seq<Job>, db: Db)
    ensures StatesCleared(cat, jobs, db, ApplyAll(cat, db, ClearLog(jobs)))
  {
    if jobs != [] {
      assert ClearLog(jobs)[..0] == [];
    }
    forall r ensures r in RowsOf(cat, jobs) <==> !Unnamed(cat, jobs, r) { RowsAreNamed(cat, jobs, r); }
  }

  function ClearLog(unreadable: seq<Job>): seq<Commit> {
    if unreadable == [] then [] else [ClearStates(unreadable)]
  }

  /** Unreadable jobs lose their `Pending` state; the rest follow the embedder's outcome. */
  function CommitsFor(unreadable: seq<Job>, readable: seq<Job>, outcome: EmbedOutcome, first: nat): seq<Commit> {
    ClearLog(unreadable) + (if readable == [] then [] else EmbedCommits(readable, outcome, first))
  }

  /** The transactions for one model group, its readable texts embedded in one call. `first`
      is the next job id. */
  function GroupCommits(cat: Catalog, objects: Objects, jobs: seq<Job>, model: string, embedder: Embedder,
                        first: nat): seq<Commit> {
    var group := Group(jobs, model);
    var answer := GroupAnswer(cat, objects, jobs, embedder, model);
    CommitsFor(Unreadables(cat, objects, group), Readable(cat, objects, group), answer, first)
  }

  lemma {:induction false} FailAllJobs(jobs: seq<Job>)
    ensures JobsIn(FailAll(jobs)) == multiset(jobs)
  {
    if jobs == [] {
    } else {
      var n := |jobs| - 1;
      FailAllJobs(jobs[..n]);
      assert FailAll(jobs)[..n] == FailAll(jobs[..n]);
      assert jobs == jobs[..n] + [jobs[n]];
    }
  }

  lemma {:induction false} StoreAllJobs(jobs: seq<Job>, vectors: seq<Vector>)
    requires |jobs| == |vectors|
    ensures JobsIn(StoreAll(jobs, vectors)) == multiset(jobs)
  {
    if jobs == [] {
    } else {
      var n := |jobs| - 1;
      StoreAllJobs(jobs[..n], vectors[..n]);
      assert StoreAll(jobs, vectors)[..n] == StoreAll(jobs[..n], vectors[..n]);
      assert jobs == jobs[..n] + [jobs[n]];
    }
  }

  lemma JobsInOne(commit: Commit)
    ensures JobsIn([commit]) == multiset(commit.Jobs())
  {
    assert [commit][..0] == [];
  }

  lemma EmbedConserves(readable: seq<Job>, outcome: EmbedOutcome, first: nat)
    ensures JobsIn(EmbedCommits(readable, outcome, first)) == multiset(readable)
  {
    match outcome
    case LoadFailed => JobsInOne(Requeue(first, readable));
    case EmbedFailed => FailAllJobs(readable);
    case Answer(vectors) =>
      if |vectors| != |readable| { FailAllJobs(readable); } else { StoreAllJobs(readable, vectors); }
  }

  lemma CommitsConserve(unreadable: seq<Job>, readable: seq<Job>, outcome: EmbedOutcome, first: nat)
    ensures JobsIn(CommitsFor(unreadable, readable, outcome, first)) == multiset(readable) + multiset(unreadable)
  {
    var clear := if unreadable == [] then [] else [ClearStates(unreadable)];
    var embeds := if readable == [] then [] else EmbedCommits(readable, outcome, first);
    assert JobsIn(clear) == multiset(unreadable) by { JobsInOne(ClearStates(unreadable)); }
    assert JobsIn(embeds) == multiset(readable) by { EmbedConserves(readable, outcome, first); }
    JobsAppend(clear, embeds);
  }

  /** Conservation: a group's transactions account for each of its jobs exactly once. */
  lemma GroupConserves(cat: Catalog, objects: Objects, jobs: seq<Job>, model: string, embedder: Embedder, first: nat)
    ensures JobsIn(GroupCommits(cat, objects, jobs, model, embedder, first)) == multiset(Group(jobs, model))
  {
    var group := Group(jobs, model);
    var answer := GroupAnswer(cat, objects, jobs, embedder, model);
    CommitsConserve(Unreadables(cat, objects, group), Readable(cat, objects, group), answer, first);
    ReadableSplits(cat, objects, group);
  }

  /** Alignment: every transaction of a group is justified by the texts and the embedder. */
  lemma GroupJustified(cat: Catalog, objects: Objects, jobs: seq<Job>, model: string, embedder: Embedder, first: nat,
                       commit: Commit)
    requires commit in GroupCommits(cat, objects, jobs, model, embedder, first)
    ensures Justified(cat, objects, jobs, embedder, commit)
  {
    var group := Group(jobs, model);
    var readable, unreadable := Readable(cat, objects, group), Unreadables(cat, objects, group);
    forall job ensures job in readable ==> job.model == model {
      ReadableMember(cat, objects, group, job);
      GroupMember(jobs, model, job);
    }
    if unreadable != [] && commit == ClearStates(unreadable) {
      forall job | job in unreadable ensures job in jobs && JobText(cat, objects, job).None? {
        ReadableMember(cat, objects, group, job);
        GroupMember(jobs, model, job);
      }
    } else {
      var embeds := EmbedCommits(readable, GroupAnswer(cat, objects, jobs, embedder, model), first);
      var i :| 0 <= i < |embeds| && embeds[i] == commit;
      EmbedJustified(cat, objects, jobs, model, embedder, first, i);
    }
  }

  lemma EmbedJustified(cat: Catalog, objects: Objects, jobs: seq<Job>, model: string, embedder: Embedder, first: nat,
                       i: nat)
    requires var readable := Readable(cat, objects, Group(jobs, model));
      && readable != [] && (forall job :: job in readable ==> job.model == model)
      && i < |EmbedCommits(readable, GroupAnswer(cat, objects, jobs, embedder, model), first)|
    ensures Justified(cat, objects, jobs, embedder,
      EmbedCommits(Readable(cat, objects, Group(jobs, model)), GroupAnswer(cat, objects, jobs, embedder, model),
        first)[i])
  {
    var readable := Readable(cat, objects, Group(jobs, model));
    assert readable[0] in readable;
    assert i < |readable| ==> readable[i] in readable;
  }

  lemma {:induction false} JobsInMember(log: seq<Commit>, commit: Commit, job: Job)
    requires commit in log && job in commit.Jobs()
    ensures job in JobsIn(log)
  {
    var n := |log| - 1;
    if commit != log[n] {
      assert log == log[..n] + [log[n]];
      JobsInMember(log[..n], commit, job);
    }
  }

  lemma {:induction false} JobInLog(log: seq<Commit>, job: Job)
    requires job in JobsIn(log)
    ensures exists i :: 0 <= i < |log| && job in log[i].Jobs()
  {
    var n := |log| - 1;
    if job in log[n].Jobs() {
    } else {
      JobInLog(log[..n], job);
      var i :| 0 <= i < n && job in log[..n][i].Jobs();
      assert log[..n][i] == log[i];
    }
  }

  lemma {:induction false} StoresZero(log: seq<Commit>)
    ensures Stores(log) == 0 <==> forall i :: 0 <= i < |log| ==> !log[i].StoreVector?
  {
    if log == [] {
    } else {
      StoresZero(log[..|log| - 1]);
    }
  }

  // ---- Loops that walk a batch front to back ----

  lemma {:induction false} GroupLast(jobs: seq<Job>, job: Job, model: string)
    ensures Group(jobs + [job], model) == Group(jobs, model) + if job.model == model then [job] else []
  {
    if jobs == [] {
    } else {
      assert (jobs + [job])[1..] == jobs[1..] + [job];
      GroupLast(jobs[1..], job, model);
    }
  }

  lemma {:induction false} ReadableLast(cat: Catalog, objects: Objects, jobs: seq<Job>, job: Job)
    ensures Readable(cat, objects, jobs + [job]) ==
      Readable(cat, objects, jobs) + if JobText(cat, objects, job).Some? then [job] else []
    ensures Unreadables(cat, objects, jobs + [job]) ==
      Unreadables(cat, objects, jobs) + if JobText(cat, objects, job).None? then [job] else []
  {
    if jobs == [] {
    } else {
      assert (jobs + [job])[1..] == jobs[1..] + [job];
      ReadableLast(cat, objects, jobs[1..], job);
    }
  }

  /** The texts of readable jobs are what their objects hold, and the others' objects hold none. */
  lemma TextsHeld(cat: Catalog, objects: Objects, jobs: seq<Job>)
    ensures var readable := Readable(cat, objects, jobs);
      forall j :: 0 <= j < |readable| ==> JobHolds(cat, objects, readable[j], Texts(cat, objects, readable)[j])
    ensures forall job, s :: job in Unreadables(cat, objects, jobs) ==> !JobHolds(cat, objects, job, s)
  {
    var readable, textless := Readable(cat, objects, jobs), Unreadables(cat, objects, jobs);
    forall j | 0 <= j < |readable| ensures JobHolds(cat, objects, readable[j], Texts(cat, objects, readable)[j]) {
      JobTextIs(cat, objects, readable[j]);
    }
    forall job, s | job in textless ensures !JobHolds(cat, objects, job, s) {
      ReadableMember(cat, objects, jobs, job);
      JobTextIs(cat, objects, job);
    }
  }

  lemma TextsUnique(cat: Catalog, objects: Objects, jobs: seq<Job>, ts: seq<string>)
    requires forall i :: 0 <= i < |jobs| ==> JobText(cat, objects, jobs[i]).Some?
    requires |ts| == |jobs| && forall i :: 0 <= i < |jobs| ==> JobText(cat, objects, jobs[i]) == Some(ts[i])
    ensures ts == Texts(cat, objects, jobs)
  {
  }

  /** A readable job's type resolves, so its row does. */
  lemma ReadableResolves(cat: Catalog, objects: Objects, jobs: seq<Job>, model: string)
    requires forall job :: job in jobs && job.typeName in cat.typeIds ==> cat.RowOf(job).Some?
    ensures forall job :: job in Readable(cat, objects, Group(jobs, model)) ==> cat.RowOf(job).Some?
  {
    forall job | job in Readable(cat, objects, Group(jobs, model)) ensures cat.RowOf(job).Some? {
      ReadableMember(cat, objects, Group(jobs, model), job);
      GroupMember(jobs, model, job);
    }
  }

  // ---- Fresh ids of re-enqueues ----

  /** The next job id after a log that started at `first`. */
  function NextAfter(log: seq<Commit>, first: nat): nat {
    if log == [] then first
    else NextAfter(log[..|log| - 1], first) + if log[|log| - 1].Requeue? then |log[|log| - 1].jobs| else 0
  }

  /** Every re-enqueue takes the ids next in turn. */
  ghost predicate FreshIds(log: seq<Commit>, first: nat) {
    forall i :: 0 <= i < |log| && log[i].Requeue? ==> log[i].first == NextAfter(log[..i], first)
  }

  lemma {:induction false} NextAppend(a: seq<Commit>, b: seq<Commit>, first: nat)
    ensures NextAfter(a + b, first) == NextAfter(b, NextAfter(a, first))
    decreases |b|
  {
    if b == [] {
      assert a + b == a;
    } else {
      assert (a + b)[..|a + b| - 1] == a + b[..|b| - 1];
      NextAppend(a, b[..|b| - 1], first);
    }
  }

  lemma FreshAppend(a: seq<Commit>, b: seq<Commit>, first: nat)
    requires FreshIds(a, first) && FreshIds(b, NextAfter(a, first))
    ensures FreshIds(a + b, first)
  {
    forall i | 0 <= i < |a + b| && (a + b)[i].Requeue? ensures (a + b)[i].first == NextAfter((a + b)[..i], first) {
      if i < |a| {
        assert (a + b)[..i] == a[..i];
      } else {
        assert (a + b)[..i] == a + b[..i - |a|];
        NextAppend(a, b[..i - |a|], first);
      }
    }
  }

  /** A group re-enqueues at most once, under the next ids, and then it does nothing else. */
  lemma GroupFresh(unreadable: seq<Job>, readable: seq<Job>, outcome: EmbedOutcome, first: nat)
    ensures var log := CommitsFor(unreadable, readable, outcome, first);
      && FreshIds(log, first)
      && NextAfter(log, first) == first + if readable != [] && outcome.LoadFailed? then |readable| else 0
  {
    var clear := ClearLog(unreadable);
    NoRequeue(clear, first);
    if readable != [] && outcome.LoadFailed? {
      RequeueLast(clear, readable, first);
    } else {
      NoRequeue(CommitsFor(unreadable, readable, outcome, first), first);
    }
  }

  lemma RequeueLast(clear: seq<Commit>, jobs: seq<Job>, first: nat)
    requires NextAfter(clear, first) == first && forall i :: 0 <= i < |clear| ==> !clear[i].Requeue?
    ensures var log := clear + [Requeue(first, jobs)];
      FreshIds(log, first) && NextAfter(log, first) == first + |jobs|
  {
    var log := clear + [Requeue(first, jobs)];
    assert log[..|clear|] == clear;
  }

  lemma {:induction false} NoRequeue(log: seq<Commit>, first: nat)
    requires forall i :: 0 <= i < |log| ==> !log[i].Requeue?
    ensures NextAfter(log, first) == first
  {
    if log == [] {
    } else {
      NoRequeue(log[..|log| - 1], first);
    }
  }

  // ---- When a batch returns 0 ----

  /** Nothing is stored for the job and its model loaded: it has no text, or the embed call failed
      or answered with the wrong length. */
  predicate Quiet(cat: Catalog, objects: Objects, jobs: seq<Job>, embedder: Embedder, job: Job) {
    || JobText(cat, objects, job).None?
    || (&& !GroupAnswer(cat, objects, jobs, embedder, job.model).LoadFailed?
        && !Aligned(cat, objects, jobs, embedder, job.model))
  }

  /** For every embedder: a batch stores nothing and re-enqueues nothing exactly when all its jobs
      are quiet. */
  lemma QuietIff(cat: Catalog, objects: Objects, jobs: seq<Job>, embedder: Embedder, log: seq<Commit>)
    requires JobsIn(log) == multiset(jobs) && forall c :: c in log ==> Justified(cat, objects, jobs, embedder, c)
    ensures Stores(log) == 0 && (forall c :: c in log ==> !c.Requeue?) <==>
      forall job :: job in jobs ==> Quiet(cat, objects, jobs, embedder, job)
  {
    StoresZero(log);
    if Stores(log) == 0 && forall c :: c in log ==> !c.Requeue? {
      forall job | job in jobs ensures Quiet(cat, objects, jobs, embedder, job) {
        assert job in multiset(jobs);
        JobInLog(log, job);
        var i :| 0 <= i < |log| && job in log[i].Jobs();
        assert log[i] in log;
      }
    } else {
      var i :| 0 <= i < |log| && (log[i].StoreVector? || log[i].Requeue?);
      assert log[i] in log;
      var job := log[i].Jobs()[0];
      LoudCommit(cat, objects, jobs, embedder, log[i]);
      JobsInMember(log, log[i], job);
      assert job in multiset(jobs);
    }
  }

  lemma LoudCommit(cat: Catalog, objects: Objects, jobs: seq<Job>, embedder: Embedder, commit: Commit)
    requires (commit.StoreVector? || commit.Requeue?) && Justified(cat, objects, jobs, embedder, commit)
    ensures commit.Jobs() != [] && !Quiet(cat, objects, jobs, embedder, commit.Jobs()[0])
  {
    var job := commit.Jobs()[0];
    ReadableMember(cat, objects, Group(jobs, job.model), job);
  }
}
