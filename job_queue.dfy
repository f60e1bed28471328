/** The bounded worker pool (`HighPerformanceJobQueue`). The thread pool is
    abstracted: a submitted job becomes an in-flight task with a fresh
    identity, and the caller of `GetCompletedJobs` says which in-flight
    tasks have finished and how (returned a value or raised). */
module JobQueue {
  import opened Common

  /** How a finished task ended: the worker returned a value, or raised with a message. */
  datatype Outcome<R> = Returned(value: R) | Raised(error: string)

  /** An in-flight task: the future's identity and the job it runs. */
  datatype Task<J> = Task(id: nat, job: J)

  /** One drained `(job, result, error)` triple. */
  datatype Completion<J, R> = Completion(job: J, result: Option<R>, error: Option<string>)

  function IdsOf<J>(ts: seq<Task<J>>): set<nat> {
    set i | 0 <= i < |ts| :: ts[i].id
  }

  /** The tasks of `ts`, in order, whose future has finished. */
  function Done<J, R>(ts: seq<Task<J>>, finished: map<nat, Outcome<R>>): (d: seq<Task<J>>)
    ensures forall i :: 0 <= i < |d| ==> d[i].id in finished
    ensures |d| <= |ts|
  {
    if ts == [] then []
    else (if ts[0].id in finished then [ts[0]] else []) + Done(ts[1..], finished)
  }

  /** The tasks of `ts`, in order, whose identity is not in `ids`. */
  function Without<J>(ts: seq<Task<J>>, ids: set<nat>): (w: seq<Task<J>>)
    ensures forall i :: 0 <= i < |w| ==> w[i].id !in ids
    ensures |w| <= |ts|
  {
    if ts == [] then []
    else (if ts[0].id in ids then [] else [ts[0]]) + Without(ts[1..], ids)
  }

  /** Jobs submitted to the pool as tasks numbered from `next`. */
  function Admit<J>(jobs: seq<J>, next: nat): (a: seq<Task<J>>)
    ensures |a| == |jobs|
    ensures forall i :: 0 <= i < |a| ==> a[i] == Task(next + i, jobs[i])
  {
    if jobs == [] then [] else [Task(next, jobs[0])] + Admit(jobs[1..], next + 1)
  }

  function ToCompletion<J, R>(t: Task<J>, o: Outcome<R>): Completion<J, R> {
    match o
    case Returned(v) => Completion(t.job, Some(v), None)
    case Raised(e) => Completion(t.job, None, Some(e))
  }

  /** The triples drained for `done`, in order; a task with no outcome is
      skipped, as a future already popped is. */
  function Completions<J, R>(done: seq<Task<J>>, finished: map<nat, Outcome<R>>): (cs: seq<Completion<J, R>>)
    ensures |cs| <= |done|
    ensures (forall i :: 0 <= i < |done| ==> done[i].id in finished) ==> |cs| == |done|
  {
    if done == [] then []
    else if done[0].id in finished then [ToCompletion(done[0], finished[done[0].id])] + Completions(done[1..], finished)
    else Completions(done[1..], finished)
  }

  /** Every in-flight task is either drained or still in flight, so draining
      splits the in-flight list without losing or duplicating a task. */
  lemma {:induction false} DoneWithoutSplit<J, R>(ts: seq<Task<J>>, finished: map<nat, Outcome<R>>)
    ensures |Done(ts, finished)| + |Without(ts, finished.Keys)| == |ts|
  {
    if ts != [] {
      DoneWithoutSplit(ts[1..], finished);
    }
  }

  /** The same split as a multiset equation: each in-flight task lands in
      exactly one of the drained and the remaining lists. */
  lemma {:induction false} DoneWithoutPartition<J, R>(ts: seq<Task<J>>, finished: map<nat, Outcome<R>>)
    ensures multiset(Done(ts, finished)) + multiset(Without(ts, finished.Keys)) == multiset(ts)
  {
    if ts != [] {
      var rest := ts[1..];
      DoneWithoutPartition(rest, finished);
      assert ts == [ts[0]] + rest;
      SplitHead(ts[0], multiset(Done(rest, finished)), multiset(Without(rest, finished.Keys)), multiset(rest));
      if ts[0].id in finished {
        assert Done(ts, finished) == [ts[0]] + Done(rest, finished);
        assert Without(ts, finished.Keys) == Without(rest, finished.Keys);
      } else {
        assert Done(ts, finished) == Done(rest, finished);
        assert Without(ts, finished.Keys) == [ts[0]] + Without(rest, finished.Keys);
      }
    }
  }

  /** Adding one task to either side of a split multiset adds it to the whole. */
  lemma SplitHead<J>(t: Task<J>, d: multiset<Task<J>>, w: multiset<Task<J>>, all: multiset<Task<J>>)
    requires d + w == all
    ensures (multiset{t} + d) + w == multiset{t} + all
    ensures d + (multiset{t} + w) == multiset{t} + all
  {
  }

  /** One task is drained exactly when its future has finished. */
  lemma DoneSingle<J, R>(t: Task<J>, finished: map<nat, Outcome<R>>)
    ensures Done([t], finished) == if t.id in finished then [t] else []
  {
    assert [t][1..] == [];
  }

  /** Draining keeps the pool's order: the finished tasks of a concatenation
      are those of each part, in turn. */
  lemma {:induction false} DoneAppend<J, R>(a: seq<Task<J>>, b: seq<Task<J>>, finished: map<nat, Outcome<R>>)
    ensures Done(a + b, finished) == Done(a, finished) + Done(b, finished)
  {
    if a == [] {
      assert a + b == b;
    } else {
      assert (a + b)[0] == a[0];
      assert (a + b)[1..] == a[1..] + b;
      DoneAppend(a[1..], b, finished);
    }
  }

  lemma WithoutAppend<J>(a: seq<Task<J>>, b: seq<Task<J>>, ids: set<nat>)
    ensures Without(a + b, ids) == Without(a, ids) + Without(b, ids)
  {
    if a != [] {
      assert (a + b)[0] == a[0];
      assert (a + b)[1..] == a[1..] + b;
      WithoutAppend(a[1..], b, ids);
      var h := if a[0].id in ids then [] else [a[0]];
      assert Without(a + b, ids) == h + Without(a[1..] + b, ids);
      assert Without(a, ids) == h + Without(a[1..], ids);
    } else {
      assert a + b == b;
    }
  }

  lemma WithoutNone<J>(a: seq<Task<J>>, ids: set<nat>)
    requires forall i :: 0 <= i < |a| ==> a[i].id !in ids
    ensures Without(a, ids) == a
  {
  }

  lemma WithoutTwice<J>(a: seq<Task<J>>, s: set<nat>, x: nat)
    ensures Without(Without(a, s), {x}) == Without(a, s + {x})
  {
    if a != [] {
      WithoutTwice(a[1..], s, x);
      if a[0].id !in s {
        assert Without(a, s) == [a[0]] + Without(a[1..], s);
        assert Without(a, s)[1..] == Without(a[1..], s);
      } else {
        assert Without(a, s) == Without(a[1..], s);
      }
    }
  }

  lemma WithoutSame<J>(a: seq<Task<J>>, s1: set<nat>, s2: set<nat>)
    requires forall i :: 0 <= i < |a| ==> (a[i].id in s1 <==> a[i].id in s2)
    ensures Without(a, s1) == Without(a, s2)
  {
    if a != [] {
      WithoutSame(a[1..], s1, s2);
    }
  }

  lemma AdmitOne<J>(jobs: seq<J>, next: nat, j: J)
    ensures Admit(jobs + [j], next) == Admit(jobs, next) + [Task(next + |jobs|, j)]
  {
  }

  lemma PopStep<J>(oa: seq<Task<J>>, done: seq<Task<J>>, i: nat, jobs: seq<J>, on: nat)
    requires i < |done| && done[i].id < on
    ensures Without(Without(oa, IdsOf(done[..i])) + Admit(jobs, on), {done[i].id})
         == Without(oa, IdsOf(done[..i + 1])) + Admit(jobs, on)
  {
    var t := done[i];
    var oldPart := Without(oa, IdsOf(done[..i]));
    var newPart := Admit(jobs, on);
    WithoutAppend(oldPart, newPart, {t.id});
    WithoutNone(newPart, {t.id});
    WithoutTwice(oa, IdsOf(done[..i]), t.id);
    assert done[..i + 1] == done[..i] + [t];
    assert IdsOf(done[..i + 1]) == IdsOf(done[..i]) + {t.id};
  }

  lemma AdmitStep<J>(jobs: seq<J>, n: nat, on: nat)
    requires n < |jobs|
    ensures Admit(jobs[..n + 1], on) == Admit(jobs[..n], on) + [Task(on + n, jobs[n])]
    ensures jobs[n..][1..] == jobs[n + 1..] && jobs[n..][0] == jobs[n]
  {
    assert jobs[..n + 1] == jobs[..n] + [jobs[n]];
    AdmitOne(jobs[..n], on, jobs[n]);
  }

  /** Admitting the head of the queue left after `n` admissions. */
  lemma AdmitNext<J>(jobs: seq<J>, n: nat, on: nat, queued: seq<J>)
    requires n <= |jobs| && queued == jobs[n..] && queued != []
    ensures Admit(jobs[..n + 1], on) == Admit(jobs[..n], on) + [Task(on + n, queued[0])]
    ensures queued[1..] == jobs[n + 1..]
  {
    AdmitStep(jobs, n, on);
  }

  lemma AdmitBelow<J>(jobs: seq<J>, on: nat, next: nat)
    requires on + |jobs| <= next
    ensures forall i :: 0 <= i < |Admit(jobs, on)| ==> Admit(jobs, on)[i].id < next
  {
  }

  lemma CompletionsStep<J, R>(done: seq<Task<J>>, i: nat, finished: map<nat, Outcome<R>>)
    requires i < |done| && done[i].id in finished
    ensures Completions(done[..i + 1], finished) == Completions(done[..i], finished) + [ToCompletion(done[i], finished[done[i].id])]
  {
    assert done[..i + 1] == done[..i] + [done[i]];
    CompletionsSnoc(done[..i], done[i], finished);
  }

  lemma CompletionsSnoc<J, R>(done: seq<Task<J>>, t: Task<J>, finished: map<nat, Outcome<R>>)
    requires t.id in finished
    ensures Completions(done + [t], finished) == Completions(done, finished) + [ToCompletion(t, finished[t.id])]
  {
    if done != [] {
      assert (done + [t])[1..] == done[1..] + [t];
      CompletionsSnoc(done[1..], t, finished);
    }
  }

  /** Every finished task of `ts` is among the drained ones. */
  lemma {:induction false} DoneCovers<J, R>(ts: seq<Task<J>>, finished: map<nat, Outcome<R>>)
    ensures forall i :: 0 <= i < |ts| && ts[i].id in finished ==> ts[i].id in IdsOf(Done(ts, finished))
  {
    if ts != [] {
      DoneCovers(ts[1..], finished);
      var d := Done(ts, finished);
      var h := if ts[0].id in finished then [ts[0]] else [];
      assert d == h + Done(ts[1..], finished);
      forall i | 0 <= i < |ts| && ts[i].id in finished ensures ts[i].id in IdsOf(d) {
        if i == 0 {
          assert d[0] == ts[0];
        } else {
          assert ts[i] == ts[1..][i - 1];
          var j :| 0 <= j < |Done(ts[1..], finished)| && Done(ts[1..], finished)[j].id == ts[i].id;
          assert d[|h| + j] == Done(ts[1..], finished)[j];
        }
      }
    }
  }

  predicate IdsBelow<J>(ts: seq<Task<J>>, n: nat) {
    forall i :: 0 <= i < |ts| ==> ts[i].id < n
  }

  lemma IdsBelowAppend<J>(a: seq<Task<J>>, b: seq<Task<J>>, n: nat)
    requires IdsBelow(a, n) && IdsBelow(b, n)
    ensures IdsBelow(a + b, n)
  {
    forall i | 0 <= i < |a + b| ensures (a + b)[i].id < n {
      if i >= |a| {
        assert (a + b)[i] == b[i - |a|];
      }
    }
  }

  lemma {:induction false} DoneBelow<J, R>(ts: seq<Task<J>>, finished: map<nat, Outcome<R>>, n: nat)
    requires IdsBelow(ts, n)
    ensures IdsBelow(Done(ts, finished), n)
  {
    if ts != [] {
      DoneBelow(ts[1..], finished, n);
    }
  }

  lemma {:induction false} WithoutBelow<J>(ts: seq<Task<J>>, ids: set<nat>, n: nat)
    requires IdsBelow(ts, n)
    ensures IdsBelow(Without(ts, ids), n)
  {
    if ts != [] {
      WithoutBelow(ts[1..], ids, n);
    }
  }

  /** Every task left by `Without` was in the original list. */
  lemma {:induction false} WithoutFrom<J>(ts: seq<Task<J>>, ids: set<nat>)
    ensures forall i :: 0 <= i < |Without(ts, ids)| ==> Without(ts, ids)[i].id in IdsOf(ts)
  {
    if ts != [] {
      WithoutFrom(ts[1..], ids);
      var h: seq<Task<J>> := if ts[0].id in ids then [] else [ts[0]];
      var w := Without(ts[1..], ids);
      assert Without(ts, ids) == h + w;
      forall i | 0 <= i < |h + w| ensures (h + w)[i].id in IdsOf(ts) {
        if i < |h| {
          assert (h + w)[i] == ts[0];
        } else {
          var j :| 0 <= j < |ts[1..]| && ts[1..][j].id == w[i - |h|].id;
          assert ts[j + 1] == ts[1..][j];
        }
      }
    }
  }

  lemma DrainEnd<J, R>(oa: seq<Task<J>>, done: seq<Task<J>>, finished: map<nat, Outcome<R>>)
    requires done == Done(oa, finished)
    ensures done[..|done|] == done
    ensures Without(oa, IdsOf(done)) == Without(oa, finished.Keys)
  {
    assert done[..|done|] == done;
    DoneCovers(oa, finished);
    WithoutSame(oa, IdsOf(done), finished.Keys);
  }

  class JobQueueManager<J, R> {
    /** The internal FIFO of jobs not yet handed to the pool. */
    var fifo: seq<J>
    /** `active_futures`, in submission order. */
    var active: seq<Task<J>>
    var completedCount: nat
    var totalSubmitted: nat
    /** Whether finished tasks are replaced from the FIFO. */
    var isRunning: bool
    /** The identity the pool gives the next submitted task. */
    var nextId: nat
    /** Futures cancelled by `Stop`: they stay in `active` and count as done. */
    var cancelledIds: set<nat>

    /** Every job ever added is in the FIFO, in flight, or completed; task
        identities are below `nextId`. */
    ghost predicate Valid()
      reads this
    {
      && completedCount + |active| + |fifo| == totalSubmitted
      && IdsBelow(active, nextId)
      && (forall id :: id in cancelledIds ==> id < nextId)
    }

    constructor ()
      ensures Valid()
      ensures fifo == [] && active == [] && completedCount == 0 && totalSubmitted == 0
      ensures !isRunning && cancelledIds == {}
    {
      fifo := [];
      active := [];
      completedCount := 0;
      totalSubmitted := 0;
      isRunning := false;
      nextId := 0;
      cancelledIds := {};
    }

    /** `add_job`: enqueue, and count the job as submitted exactly once. */
    method AddJob(job: J)
      requires Valid()
      modifies this
      ensures Valid()
      ensures fifo == old(fifo) + [job] && totalSubmitted == old(totalSubmitted) + 1
      ensures active == old(active) && completedCount == old(completedCount)
      ensures isRunning == old(isRunning) && nextId == old(nextId) && cancelledIds == old(cancelledIds)
    {
      fifo := fifo + [job];
      totalSubmitted := totalSubmitted + 1;
    }

    /** The number of jobs `start_processing` hands to the pool. */
    static function InitialAdmissions(maxConcurrentTasks: int, queued: nat): (n: nat)
      ensures n <= queued
      ensures maxConcurrentTasks <= 0 ==> n == 0
      ensures maxConcurrentTasks > 0 ==> n as int <= maxConcurrentTasks
      ensures maxConcurrentTasks > 0 ==> (n == queued || n as int == maxConcurrentTasks)
    {
      if maxConcurrentTasks <= 0 then 0
      else if maxConcurrentTasks < queued then maxConcurrentTasks
      else queued
    }

    /** `start_processing`: set running and submit up to `maxConcurrentTasks`
        jobs from the head of the FIFO. */
    method StartProcessing(maxConcurrentTasks: int)
      requires Valid()
      modifies this
      ensures Valid()
      ensures isRunning
      ensures var n := InitialAdmissions(maxConcurrentTasks, |old(fifo)|);
        && fifo == old(fifo)[n..]
        && active == old(active) + Admit(old(fifo)[..n], old(nextId))
        && nextId == old(nextId) + n
      ensures completedCount == old(completedCount) && totalSubmitted == old(totalSubmitted)
      ensures cancelledIds == old(cancelledIds)
    {
      ghost var oa := active;
      isRunning := true;
      var n := InitialAdmissions(maxConcurrentTasks, |fifo|);
      var pool, queued := AdmitLoop(active, fifo, nextId, n);
      AdmitBelow(fifo[..n], nextId, nextId + n);
      IdsBelowAppend(oa, Admit(fifo[..n], nextId), nextId + n);
      active, fifo, nextId := pool, queued, nextId + n;
    }

    /** The loop of `start_processing`: submit the first `n` queued jobs. */
    static method AdmitLoop(oa: seq<Task<J>>, of: seq<J>, on: nat, n: nat) returns (pool: seq<Task<J>>, queued: seq<J>)
      requires n <= |of|
      ensures queued == of[n..]
      ensures pool == oa + Admit(of[..n], on)
    {
      pool, queued := oa, of;
      var next := on;
      var i := 0;
      assert of[..0] == [];
      while i < n
        invariant 0 <= i <= n
        invariant queued == of[i..]
        invariant pool == oa + Admit(of[..i], on)
        invariant next == on + i
      {
        var task := Task(next, queued[0]);
        ghost var before := Admit(of[..i], on);
        AdmitStep(of, i, on);
        ConcatAssoc(oa, before, [task]);
        pool := pool + [task];
        queued := queued[1..];
        next := next + 1;
        i := i + 1;
      }
    }

    /** The number of replacements `get_completed_jobs` submits for `d`
        finished tasks with `queued` jobs waiting. */
    static function Replacements(running: bool, d: nat, queued: nat): (k: nat)
      ensures k <= d && k <= queued
      ensures !running ==> k == 0
      ensures running ==> (k == d || k == queued)
    {
      if !running then 0 else if d <= queued then d else queued
    }

    /** One more finished task frees one more slot, while jobs are queued. */
    static lemma ReplacementsStep(running: bool, d: nat, queued: nat)
      ensures Replacements(running, d + 1, queued)
        == if running && Replacements(running, d, queued) < queued then Replacements(running, d, queued) + 1
           else Replacements(running, d, queued)
    {
    }

    /** How each in-flight future stands: the caller's `finished` map, with every
        cancelled future done and raising a `CancelledError`, whose message is empty. */
    function Outcomes(finished: map<nat, Outcome<R>>): (o: map<nat, Outcome<R>>)
      reads this
      ensures o.Keys == finished.Keys + cancelledIds
      ensures forall id :: id in cancelledIds ==> o[id] == Raised("")
      ensures forall id :: id in finished && id !in cancelledIds ==> o[id] == finished[id]
    {
      finished + map id | id in cancelledIds :: Raised("")
    }

    /** What the loop of `get_completed_jobs` has built after `i` of the
        finished futures `done`. */
    static ghost predicate Drained(oa: seq<Task<J>>, of: seq<J>, on: nat, running: bool,
                                   done: seq<Task<J>>, outcomes: map<nat, Outcome<R>>, i: nat,
                                   results: seq<Completion<J, R>>, pool: seq<Task<J>>, queued: seq<J>, admitted: nat)
    {
      && i <= |done|
      && admitted == Replacements(running, i, |of|)
      && results == Completions(done[..i], outcomes)
      && queued == of[admitted..]
      && pool == Without(oa, IdsOf(done[..i])) + Admit(of[..admitted], on)
    }

    /** One turn of that loop: pop the `i`-th finished future, record its
        triple and, while running, submit the next queued job. */
    static method DrainOne(oa: seq<Task<J>>, of: seq<J>, on: nat, running: bool,
                           done: seq<Task<J>>, outcomes: map<nat, Outcome<R>>, i: nat,
                           results: seq<Completion<J, R>>, pool: seq<Task<J>>, queued: seq<J>, admitted: nat)
      returns (results': seq<Completion<J, R>>, pool': seq<Task<J>>, queued': seq<J>, admitted': nat)
      requires IdsBelow(done, on) && i < |done| && done[i].id in outcomes
      requires Drained(oa, of, on, running, done, outcomes, i, results, pool, queued, admitted)
      ensures Drained(oa, of, on, running, done, outcomes, i + 1, results', pool', queued', admitted')
    {
      var t := done[i];
      var next := on + admitted;
      ghost var rest := Without(oa, IdsOf(done[..i + 1]));
      ghost var admittedSoFar := Admit(of[..admitted], on);
      assert Without(pool, {t.id}) == rest + admittedSoFar by {
        PopStep(oa, done, i, of[..admitted], on);
      }
      pool' := Without(pool, {t.id});
      assert results + [ToCompletion(t, outcomes[t.id])] == Completions(done[..i + 1], outcomes) by {
        CompletionsStep(done, i, outcomes);
      }
      results' := results + [ToCompletion(t, outcomes[t.id])];
      queued', admitted' := queued, admitted;
      assert |queued| == |of| - admitted;
      ReplacementsStep(running, i, |of|);
      if running && queued != [] {
        var task := Task(next, queued[0]);
        AdmitNext(of, admitted, on, queued);
        ConcatAssoc(rest, admittedSoFar, [task]);
        pool' := pool' + [task];
        queued' := queued[1..];
        admitted' := admitted + 1;
      }
    }

    /** The loop of `get_completed_jobs` over the finished futures `done`
        (in submission order): pop each from the pool, record its triple, and
        while running submit the next queued job in its place. */
    static method DrainLoop(oa: seq<Task<J>>, of: seq<J>, on: nat, running: bool,
                            done: seq<Task<J>>, outcomes: map<nat, Outcome<R>>)
      returns (results: seq<Completion<J, R>>, pool: seq<Task<J>>, queued: seq<J>, admitted: nat)
      requires IdsBelow(done, on)
      requires forall i :: 0 <= i < |done| ==> done[i].id in outcomes
      ensures admitted == Replacements(running, |done|, |of|)
      ensures results == Completions(done, outcomes)
      ensures queued == of[admitted..]
      ensures pool == Without(oa, IdsOf(done)) + Admit(of[..admitted], on)
    {
      WithoutNone(oa, {});
      assert IdsOf(done[..0]) == {};
      assert of[..0] == [] && Admit(of[..0], on) == [];
      pool, queued, results, admitted := oa, of, [], 0;
      var i := 0;
      while i < |done|
        invariant Drained(oa, of, on, running, done, outcomes, i, results, pool, queued, admitted)
      {
        results, pool, queued, admitted := DrainOne(oa, of, on, running, done, outcomes, i, results, pool, queued, admitted);
        i := i + 1;
      }
      assert done[..i] == done;
    }

    /** `get_completed_jobs`: drain every finished in-flight task in submission
        order, count each exactly once, and submit one queued job per freed
        slot while running. */
    method GetCompletedJobs(finished: map<nat, Outcome<R>>) returns (results: seq<Completion<J, R>>)
      requires Valid()
      modifies this
      ensures Valid()
      ensures var outcomes := old(Outcomes(finished));
        var done := Done(old(active), outcomes);
        var k := Replacements(old(isRunning), |done|, |old(fifo)|);
        && results == Completions(done, outcomes)
        && completedCount == old(completedCount) + |done|
        && fifo == old(fifo)[k..]
        && active == Without(old(active), outcomes.Keys) + Admit(old(fifo)[..k], old(nextId))
        && nextId == old(nextId) + k
      ensures |results| == completedCount - old(completedCount)
      ensures |active| <= |old(active)|
      ensures totalSubmitted == old(totalSubmitted) && isRunning == old(isRunning)
      ensures cancelledIds == old(cancelledIds)
    {
      var outcomes := Outcomes(finished);
      var done := Done(active, outcomes);
      DoneBelow(active, outcomes, nextId);
      var pool, queued, admitted;
      results, pool, queued, admitted := DrainLoop(active, fifo, nextId, isRunning, done, outcomes);
      DrainEnd(active, done, outcomes);
      DoneWithoutSplit(active, outcomes);
      WithoutBelow(active, outcomes.Keys, nextId);
      completedCount := completedCount + |done|;
      active, fifo, nextId := pool, queued, nextId + admitted;
    }

    /** `get_progress`: (completed, in flight, submitted), or all zero when
        nothing was ever submitted. */
    function Progress(): (p: (nat, nat, nat))
      reads this
      requires Valid()
      ensures totalSubmitted == 0 ==> p == (0, 0, 0)
      ensures totalSubmitted > 0 ==> p == (completedCount, |active|, totalSubmitted)
      ensures p.0 <= p.2 && p.1 <= p.2
    {
      if totalSubmitted == 0 then (0, 0, 0) else (completedCount, |active|, totalSubmitted)
    }

    /** `is_finished`: holds exactly when the FIFO and the pool are empty, and
        then every submitted job has been counted. */
    function IsFinished(): (r: bool)
      reads this
      requires Valid()
      ensures r <==> fifo == [] && active == []
      ensures r ==> completedCount == totalSubmitted
    {
      fifo == [] && |active| == 0 && completedCount >= totalSubmitted
    }

    /** `stop`: no more admissions, and every in-flight future that has not
        started (`started` holds those running or done) is cancelled. Cancelled
        futures stay in the pool until the next drain; the FIFO is left as is. */
    method Stop(started: set<nat>)
      requires Valid()
      modifies this
      ensures Valid()
      ensures !isRunning
      ensures cancelledIds == old(cancelledIds) + (IdsOf(old(active)) - started)
      ensures active == old(active) && fifo == old(fifo) && completedCount == old(completedCount)
      ensures totalSubmitted == old(totalSubmitted) && nextId == old(nextId)
    {
      isRunning := false;
      cancelledIds := cancelledIds + (IdsOf(active) - started);
    }
  }

  /** After `Stop`, the next drain takes every future that was not running:
      nothing that had not started is left in the pool. */
  lemma StopThenDrain<J, R>(active: seq<Task<J>>, cancelled: set<nat>, finished: map<nat, Outcome<R>>, started: set<nat>)
    requires IdsOf(active) - started <= cancelled
    ensures forall i :: 0 <= i < |Without(active, finished.Keys + cancelled)| ==>
      Without(active, finished.Keys + cancelled)[i].id in started
  {
    WithoutFrom(active, finished.Keys + cancelled);
  }
}
