/** Model loading with exponential backoff. Times are instants on a clock that never goes back. */
module Backoff {
  import opened Prelude

  datatype Settings = Settings(initial: nat, max: nat)

  /** One request for a model: when the gate is passed, when the loader returned, and how. */
  datatype Attempt = Attempt(model: string, now: nat, done: nat, ok: bool)

  datatype Outcome = Cached | Refused(wait: nat) | Loaded | LoadFailed

  /** A call of the loader: when it returned, how, and the failures in a row it ends (0 on success). */
  datatype Load = Load(model: string, done: nat, ok: bool, streak: nat)

  /** `failures` are the instants of the consecutive load failures since the last success, `loads`
      all calls of the loader. */
  datatype State = State(delay: nat, retryAt: Option<nat>, cache: set<string>, failures: seq<nat>, loads: seq<Load>)

  function Start(s: Settings): State { State(s.initial, None, {}, [], []) }

  function Wait(st: State, now: nat): nat {
    if st.retryAt.Some? && st.retryAt.value > now then st.retryAt.value - now else 0
  }

  function Step(s: Settings, st: State, a: Attempt): (Outcome, State) {
    if a.model in st.cache then (Cached, st)
    else if Wait(st, a.now) > 0 then (Refused(Wait(st, a.now)), st)
    else if a.ok then
      (Loaded, State(s.initial, None, st.cache + {a.model}, [], st.loads + [Load(a.model, a.done, true, 0)]))
    else
      var loads := st.loads + [Load(a.model, a.done, false, |st.failures| + 1)];
      (LoadFailed, State(Min(2 * st.delay, s.max), Some(a.done + st.delay), st.cache, st.failures + [a.done], loads))
  }

  function Power(n: nat): (p: nat)
    ensures p > 0
  {
    if n == 0 then 1 else 2 * Power(n - 1)
  }

  /** The wait after the `n`-th consecutive failure. The cap does not apply to the first. */
  function WaitAfter(s: Settings, n: nat): nat
    requires n > 0
  {
    if n == 1 then s.initial else Min(s.initial * Power(n - 1), s.max)
  }

  /** With `initial <= max` the cap makes no exception. */
  lemma WaitWithinMax(s: Settings, n: nat)
    requires n > 0
    ensures (WaitAfter(s, n) == Min(s.initial * Power(n - 1), s.max)) <==> n > 1 || s.initial <= s.max
  {
  }

  lemma {:induction false} DoublingTwice(s: Settings, n: nat)
    requires n > 0
    ensures Min(2 * WaitAfter(s, n), s.max) == WaitAfter(s, n + 1)
  {
    assert Power(n) == 2 * Power(n - 1);
    assert s.initial * Power(n) == 2 * (s.initial * Power(n - 1));
  }

  /** The state is determined by the failures since the last success, and they are spaced. */
  ghost predicate Inv(s: Settings, st: State, clock: nat) {
    var n := |st.failures|;
    && st.delay == WaitAfter(s, n + 1)
    && st.retryAt == (if n == 0 then None else Some(st.failures[n - 1] + WaitAfter(s, n)))
    && (forall i :: 0 <= i < n ==> st.failures[i] <= clock)
    && (forall i :: 0 < i < n ==> st.failures[i - 1] + WaitAfter(s, i) <= st.failures[i])
  }

  /** Every attempt keeps the invariant. The loader runs only when the wait after the last failure
      is over; a cached or refused attempt changes nothing. */
  lemma StepKeeps(s: Settings, st: State, a: Attempt, clock: nat)
    requires Inv(s, st, clock) && clock <= a.now <= a.done
    ensures var (r, st') := Step(s, st, a);
      && Inv(s, st', a.done)
      && (r.Cached? || r.Refused? ==> st' == st)
      && (r.Refused? ==>
        |st.failures| > 0 && a.now + r.wait == st.failures[|st.failures| - 1] + WaitAfter(s, |st.failures|))
      && (r.Loaded? || r.LoadFailed? ==>
        |st.failures| > 0 ==> st.failures[|st.failures| - 1] + WaitAfter(s, |st.failures|) <= a.now)
      && (r.Loaded? ==> st'.failures == [] && st'.delay == s.initial && st'.retryAt == None)
  {
    DoublingTwice(s, |st.failures| + 1);
  }

  /** The attempts of a run follow each other. */
  ghost predicate Clocked(run: seq<Attempt>) {
    && (forall i :: 0 <= i < |run| ==> run[i].now <= run[i].done)
    && (forall i :: 0 < i < |run| ==> run[i - 1].done <= run[i].now)
  }

  function After(s: Settings, run: seq<Attempt>): State {
    if run == [] then Start(s) else Step(s, After(s, run[..|run| - 1]), run[|run| - 1]).1
  }

  lemma {:induction false} RunKeeps(s: Settings, run: seq<Attempt>)
    requires Clocked(run)
    ensures Inv(s, After(s, run), if run == [] then 0 else run[|run| - 1].done)
  {
    if run == [] {
    } else {
      var n := |run| - 1;
      RunKeeps(s, run[..n]);
      StepKeeps(s, After(s, run[..n]), run[n], if n == 0 then 0 else run[n - 1].done);
    }
  }

  function TotalWait(s: Settings, n: nat): nat {
    if n == 0 then 0 else TotalWait(s, n - 1) + WaitAfter(s, n)
  }

  /** Any two of the failures in a row are at least the waits between them apart. */
  lemma {:induction false} ElapsedBound(s: Settings, st: State, clock: nat, i: nat, j: nat)
    requires Inv(s, st, clock) && i <= j < |st.failures|
    ensures st.failures[i] + TotalWait(s, j) <= st.failures[j] + TotalWait(s, i)
    decreases j - i
  {
    if i == j {
    } else {
      ElapsedBound(s, st, clock, i, j - 1);
    }
  }

  lemma {:induction false} WaitGrows(s: Settings, n: nat)
    requires n > 0 && s.initial <= s.max
    ensures s.initial <= WaitAfter(s, n)
  {
    if n == 1 {
    } else {
      WaitGrows(s, n - 1);
      DoublingTwice(s, n - 1);
    }
  }

  // ---- All calls of the loader ----

  /** What a call makes the next one wait. */
  function WaitOf(s: Settings, l: Load): nat {
    if l.ok || l.streak == 0 then 0 else WaitAfter(s, l.streak)
  }

  /** Every call keeps the wait of the one before it. */
  ghost predicate Spaced(s: Settings, loads: seq<Load>) {
    && (forall i :: 0 <= i < |loads| ==> loads[i].ok || loads[i].streak > 0)
    && (forall i :: 0 < i < |loads| ==> loads[i - 1].done + WaitOf(s, loads[i - 1]) <= loads[i].done)
  }

  /** The last call is the last failure, or there is none since the last success. */
  ghost predicate LastLoad(st: State, clock: nat) {
    var n, m := |st.loads|, |st.failures|;
    if n == 0 then m == 0
    else (
      && st.loads[n - 1].done <= clock && (st.loads[n - 1].ok <==> m == 0)
      && (m > 0 ==> st.loads[n - 1].streak == m && st.loads[n - 1].done == st.failures[m - 1])
    )
  }

  /** A model is loaded at most once. */
  ghost predicate LoadedOnce(st: State) {
    && (forall i :: 0 <= i < |st.loads| && st.loads[i].ok ==> st.loads[i].model in st.cache)
    && (forall i, j :: 0 <= i < j < |st.loads| && st.loads[i].ok && st.loads[j].ok ==>
      st.loads[i].model != st.loads[j].model)
  }

  ghost predicate LoadsInv(s: Settings, st: State, clock: nat) {
    Spaced(s, st.loads) && LastLoad(st, clock) && LoadedOnce(st)
  }

  lemma StepKeepsLoads(s: Settings, st: State, a: Attempt, clock: nat)
    requires Inv(s, st, clock) && LoadsInv(s, st, clock) && clock <= a.now <= a.done
    ensures LoadsInv(s, Step(s, st, a).1, a.done)
  {
    var (r, st') := Step(s, st, a);
    if r.Loaded? || r.LoadFailed? {
      var n := |st.loads|;
      var l := st'.loads[n];
      assert st'.loads == st.loads + [l];
      assert n > 0 ==> st.loads[n - 1].done + WaitOf(s, st.loads[n - 1]) <= a.now;
      OneMoreSpaced(s, st.loads, l);
      OneMoreLoaded(st, l, st');
    }
  }

  lemma OneMoreSpaced(s: Settings, loads: seq<Load>, l: Load)
    requires Spaced(s, loads) && (l.ok || l.streak > 0)
    requires loads != [] ==> loads[|loads| - 1].done + WaitOf(s, loads[|loads| - 1]) <= l.done
    ensures Spaced(s, loads + [l])
  {
  }

  lemma OneMoreLoaded(st: State, l: Load, st': State)
    requires LoadedOnce(st) && st'.loads == st.loads + [l] && st.cache <= st'.cache
    requires l.ok ==> l.model !in st.cache && l.model in st'.cache
    ensures LoadedOnce(st')
  {
  }

  lemma {:induction false} RunKeepsLoads(s: Settings, run: seq<Attempt>)
    requires Clocked(run)
    ensures LoadsInv(s, After(s, run), if run == [] then 0 else run[|run| - 1].done)
  {
    if run == [] {
    } else {
      var n := |run| - 1;
      RunKeepsLoads(s, run[..n]);
      RunKeeps(s, run[..n]);
      StepKeepsLoads(s, After(s, run[..n]), run[n], if n == 0 then 0 else run[n - 1].done);
    }
  }

  /** The failed calls among `i` to `j - 1`, and what they make their successors wait. */
  function Fails(loads: seq<Load>, i: nat, j: nat): nat
    requires i <= j <= |loads|
  {
    if i == j then 0 else Fails(loads, i, j - 1) + if loads[j - 1].ok then 0 else 1
  }

  function Waited(s: Settings, loads: seq<Load>, i: nat, j: nat): nat
    requires i <= j <= |loads|
  {
    if i == j then 0
    else Waited(s, loads, i, j - 1) + WaitOf(s, loads[j - 1])
  }

  /** Between any two calls of the loader lies at least the sum of the waits of the failures between. */
  lemma {:induction false} LoadsElapsed(s: Settings, loads: seq<Load>, i: nat, j: nat)
    requires Spaced(s, loads) && i <= j < |loads|
    ensures loads[i].done + Waited(s, loads, i, j) <= loads[j].done
    decreases j - i
  {
    if i == j {
    } else {
      LoadsElapsed(s, loads, i, j - 1);
    }
  }

  lemma {:induction false} WaitedBound(s: Settings, loads: seq<Load>, i: nat, j: nat)
    requires Spaced(s, loads) && i <= j <= |loads| && s.initial <= s.max
    ensures Fails(loads, i, j) * s.initial <= Waited(s, loads, i, j)
    decreases j - i
  {
    if i == j {
    } else {
      WaitedBound(s, loads, i, j - 1);
      OneMoreUnit(Fails(loads, i, j - 1), s.initial);
      if !loads[j - 1].ok {
        WaitGrows(s, loads[j - 1].streak);
      }
    }
  }

  lemma OneMoreUnit(n: nat, unit: nat)
    ensures (n + 1) * unit == n * unit + unit
  {
  }

  /** The models loaded by calls `i` to `j - 1`. */
  function Models(loads: seq<Load>, i: nat, j: nat): set<string>
    requires i <= j <= |loads|
  {
    set k | i <= k < j && loads[k].ok :: loads[k].model
  }

  lemma {:induction false} SuccessesBound(st: State, i: nat, j: nat)
    requires LoadedOnce(st) && i <= j <= |st.loads|
    ensures j - i == Fails(st.loads, i, j) + |Models(st.loads, i, j)|
    decreases j - i
  {
    if i == j {
      assert Models(st.loads, i, j) == {};
    } else {
      SuccessesBound(st, i, j - 1);
      var l := st.loads[j - 1];
      if l.ok {
        assert Models(st.loads, i, j) == Models(st.loads, i, j - 1) + {l.model};
        assert l.model !in Models(st.loads, i, j - 1);
      } else {
        assert Models(st.loads, i, j) == Models(st.loads, i, j - 1);
      }
    }
  }

  lemma SubsetSize(a: set<string>, b: set<string>)
    requires a <= b
    ensures |a| <= |b|
  {
    assert b == a + (b - a);
  }

  /** Over any run, between any two calls of the loader there are at most as many other calls as
      there are models plus one per `initial` of the time elapsed: each model succeeds at most
      once, and every failure makes the next call wait. */
  lemma CallsBound(s: Settings, run: seq<Attempt>, i: nat, j: nat)
    requires Clocked(run) && s.initial <= s.max && i <= j < |After(s, run).loads|
    ensures var st := After(s, run);
      st.loads[i].done + Waited(s, st.loads, i, j) <= st.loads[j].done
    ensures var st := After(s, run);
      st.loads[i].done + (j - i) * s.initial <= st.loads[j].done + |st.cache| * s.initial
  {
    var st := After(s, run);
    RunKeepsLoads(s, run);
    LoadsElapsed(s, st.loads, i, j);
    WaitedBound(s, st.loads, i, j);
    SuccessesBound(st, i, j);
    SubsetSize(Models(st.loads, i, j), st.cache);
    Weigh(j - i, Fails(st.loads, i, j), |st.cache|, s.initial);
  }

  lemma Weigh(n: nat, fails: nat, models: nat, unit: nat)
    requires n <= fails + models
    ensures n * unit <= fails * unit + models * unit
  {
    assert n * unit <= (fails + models) * unit;
  }

  class ModelLoader {
    const settings: Settings
    var nextRetryDelay: nat
    var nextRetryAt: Option<nat>
    var embedders: set<string>
    var modelError: bool
    var modelLoaded: bool
    ghost var failures: seq<nat>
    ghost var loads: seq<Load>

    ghost function Abs(): State
      reads this
    {
      State(nextRetryDelay, nextRetryAt, embedders, failures, loads)
    }

    ghost predicate Valid()
      reads this
    {
      && modelError == nextRetryAt.Some? == (failures != [])
      && (embedders != {} ==> modelLoaded)
    }

    constructor (settings: Settings)
      ensures Valid() && Abs() == Start(settings) && this.settings == settings && !modelLoaded
    {
      this.settings := settings;
      nextRetryDelay, nextRetryAt, embedders := settings.initial, None, {};
      modelError, modelLoaded, failures, loads := false, false, [], [];
    }

    method RecordSuccess(ghost a: Attempt)
      modifies this
      ensures modelLoaded && !modelError && embedders == old(embedders)
      ensures Abs() == old(Abs()).(delay := settings.initial, retryAt := None, failures := [],
                                   loads := old(loads) + [Load(a.model, a.done, true, 0)])
    {
      modelError, modelLoaded := false, true;
      nextRetryDelay, nextRetryAt := settings.initial, None;
      failures, loads := [], loads + [Load(a.model, a.done, true, 0)];
    }

    method RecordFailure(now: nat, ghost a: Attempt)
      modifies this
      ensures modelError && modelLoaded == old(modelLoaded) && embedders == old(embedders)
      ensures Abs() == old(Abs()).(delay := Min(2 * old(nextRetryDelay), settings.max),
                                   retryAt := Some(now + old(nextRetryDelay)), failures := old(failures) + [now],
                                   loads := old(loads) + [Load(a.model, now, false, |old(failures)| + 1)])
    {
      modelError := true;
      nextRetryAt := Some(now + nextRetryDelay);
      nextRetryDelay := Min(2 * nextRetryDelay, settings.max);
      failures, loads := failures + [now], loads + [Load(a.model, now, false, |failures| + 1)];
    }

    method TimeUntilNextRetry(now: nat) returns (wait: nat)
      ensures wait == Wait(Abs(), now)
    {
      match nextRetryAt
      case Some(at) => wait := if at > now then at - now else 0;
      case None => wait := 0;
    }

    method GetOrLoadEmbedder(a: Attempt) returns (r: Outcome)
      requires Valid()
      modifies this
      ensures Valid() && (r, Abs()) == Step(settings, old(Abs()), a)
      ensures r.Cached? || r.Loaded? ==> a.model in embedders && modelLoaded
      ensures r.Refused? ==> modelError && modelLoaded == old(modelLoaded)
    {
      if a.model in embedders { return Cached; }
      var wait := TimeUntilNextRetry(a.now);
      if wait > 0 { return Refused(wait); }
      if a.ok {
        embedders := embedders + {a.model};
        RecordSuccess(a);
        return Loaded;
      }
      RecordFailure(a.done, a);
      return LoadFailed;
    }
  }
}
