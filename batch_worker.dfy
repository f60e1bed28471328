/** One batch worker (`OptimizedEmailSenderThread`): it loads its batch into a
    private job queue, attaches per-server limiters, polls the queue for
    finished sends and books each one as a success or a failure. The polling
    schedule, the stop request and the state of every future are inputs. */
module BatchWorker {
  import opened Common
  import opened Jobs
  import opened JobQueue
  import opened RateLimiter

  type Drained = Completion<Job, SendResult>

  /** The booking of one drained `(job, result, error)` triple: a non-empty
      task error, a successful result, or anything else (a failed or missing
      result, or a task error whose message is empty). */
  datatype Verdict = TaskFault | Sent | NotSent

  function Classify(c: Drained): Verdict {
    if c.error.Some? && c.error.value != "" then TaskFault
    else if c.result.Some? && c.result.value.success then Sent
    else NotSent
  }

  /** Only a successful transport result with no task error counts as sent. */
  lemma ClassifySent(c: Drained)
    ensures Classify(c) == Sent <==> (c.error.None? || c.error.value == "") && c.result.Some? && c.result.value.success
  {
  }

  datatype Stats = Stats(completed: nat, successful: nat, failed: nat)

  function Add(a: Stats, b: Stats): Stats {
    Stats(a.completed + b.completed, a.successful + b.successful, a.failed + b.failed)
  }

  /** The counters a drain adds: each triple is completed once and is either
      successful or failed. */
  function Tally(cs: seq<Drained>): (s: Stats)
    ensures s.completed == |cs|
    ensures s.completed == s.successful + s.failed
  {
    if cs == [] then Stats(0, 0, 0)
    else
      var rest := Tally(cs[1..]);
      if Classify(cs[0]) == Sent then rest.(completed := rest.completed + 1, successful := rest.successful + 1)
      else rest.(completed := rest.completed + 1, failed := rest.failed + 1)
  }

  /** The jobs announced as primary successes: the sent ones that are not test jobs. */
  function PrimaryEvents(cs: seq<Drained>): (e: seq<Job>)
    ensures |e| <= Tally(cs).successful
  {
    if cs == [] then []
    else
      var rest := PrimaryEvents(cs[1..]);
      if Classify(cs[0]) == Sent && !IsTestJob(cs[0].job) then [cs[0].job] + rest else rest
  }

  /** Counter sums regroup freely. */
  lemma AddAssoc(a: Stats, b: Stats, c: Stats)
    ensures Add(Add(a, b), c) == Add(a, Add(b, c))
  {
  }

  /** What one drained triple adds to the counters. */
  function CountOf(c: Drained): Stats {
    if Classify(c) == Sent then Stats(1, 1, 0) else Stats(1, 0, 1)
  }

  /** The primary-success event one drained triple raises, if any. */
  function EventOf(c: Drained): seq<Job> {
    if Classify(c) == Sent && !IsTestJob(c.job) then [c.job] else []
  }

  /** A drain's counters are its first triple's plus the rest's. */
  lemma TallyHead(d: seq<Drained>)
    requires d != []
    ensures Tally(d) == Add(CountOf(d[0]), Tally(d[1..]))
  {
  }

  /** A drain's events are its first triple's followed by the rest's. */
  lemma EventsHead(d: seq<Drained>)
    requires d != []
    ensures PrimaryEvents(d) == EventOf(d[0]) + PrimaryEvents(d[1..])
  {
  }

  /** The drain from `i` is triple `i` followed by the drain from `i + 1`. */
  lemma DrainStep(cs: seq<Drained>, i: nat)
    requires i < |cs|
    ensures Tally(cs[i..]) == Add(CountOf(cs[i]), Tally(cs[i + 1..]))
    ensures PrimaryEvents(cs[i..]) == EventOf(cs[i]) + PrimaryEvents(cs[i + 1..])
  {
    var d := cs[i..];
    assert d[0] == cs[i] && d[1..] == cs[i + 1..];
    TallyHead(d);
    EventsHead(d);
  }

  /** No primary-success event is for a job whose id starts with `TEST_`. */
  lemma {:induction false} PrimaryEventsNotTests(cs: seq<Drained>)
    ensures forall i :: 0 <= i < |PrimaryEvents(cs)| ==> !IsTestJob(PrimaryEvents(cs)[i])
  {
    if cs != [] {
      PrimaryEventsNotTests(cs[1..]);
    }
  }

  /** `x` is the job of a drained triple that was sent. */
  predicate SentIn(cs: seq<Drained>, x: Job) {
    exists j :: 0 <= j < |cs| && cs[j].job == x && Classify(cs[j]) == Sent
  }

  /** Every primary-success event is for a job that was sent. */
  lemma {:induction false} PrimaryEventsSent(cs: seq<Drained>)
    ensures forall i :: 0 <= i < |PrimaryEvents(cs)| ==> SentIn(cs, PrimaryEvents(cs)[i])
  {
    if cs != [] {
      var tail := cs[1..];
      PrimaryEventsSent(tail);
      var e := PrimaryEvents(cs);
      var rest := PrimaryEvents(tail);
      var h := if Classify(cs[0]) == Sent && !IsTestJob(cs[0].job) then [cs[0].job] else [];
      assert e == h + rest;
      forall i | 0 <= i < |e| ensures SentIn(cs, e[i]) {
        if i < |h| {
          assert cs[0].job == e[i] && Classify(cs[0]) == Sent;
        } else {
          assert e[i] == rest[i - |h|];
          assert SentIn(tail, rest[i - |h|]);
          var j :| 0 <= j < |tail| && tail[j].job == rest[i - |h|] && Classify(tail[j]) == Sent;
          assert cs[j + 1] == tail[j];
        }
      }
    }
  }

  /** A drain of test jobs only raises no primary-success event. */
  lemma {:induction false} PrimaryEventsNoneForTests(cs: seq<Drained>)
    requires forall j :: 0 <= j < |cs| ==> IsTestJob(cs[j].job)
    ensures PrimaryEvents(cs) == []
  {
    if cs != [] {
      var tail := cs[1..];
      forall j | 0 <= j < |tail| ensures IsTestJob(tail[j].job) {
        assert tail[j] == cs[j + 1];
      }
      PrimaryEventsNoneForTests(tail);
    }
  }

  /** A drain without test jobs raises one event per successful send. */
  lemma {:induction false} PrimaryEventsAllPrimary(cs: seq<Drained>)
    requires forall j :: 0 <= j < |cs| ==> !IsTestJob(cs[j].job)
    ensures |PrimaryEvents(cs)| == Tally(cs).successful
  {
    if cs != [] {
      var tail := cs[1..];
      forall j | 0 <= j < |tail| ensures !IsTestJob(tail[j].job) {
        assert tail[j] == cs[j + 1];
      }
      PrimaryEventsAllPrimary(tail);
    }
  }

  /** A primary-success event is only ever raised for a sent job whose id does
      not start with `TEST_`, and every such job raises one. */
  lemma {:induction false} PrimaryEventsExact(cs: seq<Drained>)
    ensures forall i :: 0 <= i < |PrimaryEvents(cs)| ==> !IsTestJob(PrimaryEvents(cs)[i])
    ensures forall i :: 0 <= i < |PrimaryEvents(cs)| ==> SentIn(cs, PrimaryEvents(cs)[i])
    ensures (forall j :: 0 <= j < |cs| ==> IsTestJob(cs[j].job)) ==> PrimaryEvents(cs) == []
    ensures (forall j :: 0 <= j < |cs| ==> !IsTestJob(cs[j].job)) ==> |PrimaryEvents(cs)| == Tally(cs).successful
  {
    PrimaryEventsNotTests(cs);
    PrimaryEventsSent(cs);
    if forall j :: 0 <= j < |cs| ==> IsTestJob(cs[j].job) {
      PrimaryEventsNoneForTests(cs);
    }
    if forall j :: 0 <= j < |cs| ==> !IsTestJob(cs[j].job) {
      PrimaryEventsAllPrimary(cs);
    }
  }

  /** The limiter attachment of the loading loop: a `genericsmtp` job whose
      nickname is non-empty and in the pool gets that limiter; any other
      `genericsmtp` job is sent unlimited and warned about. */
  function AttachLimiter(j: Job, pool: set<string>): (r: (Job, bool))
    ensures r.0 == j.(limiter := r.0.limiter)
    ensures r.0.limiter != j.limiter ==> j.kind == GenericSmtp && r.0.limiter == j.nickname && j.nickname.Some? && j.nickname.value in pool
    ensures r.1 <==> j.kind == GenericSmtp && (j.nickname.None? || j.nickname.value == "" || j.nickname.value !in pool)
  {
    if j.kind == GenericSmtp then
      if j.nickname.Some? && j.nickname.value != "" && j.nickname.value in pool then (j.(limiter := j.nickname), false)
      else (j, true)
    else (j, false)
  }

  /** The jobs the loading loop queues: each with its limiter attached. */
  function Loaded(js: seq<Job>, pool: set<string>): (r: seq<Job>)
    ensures |r| == |js|
    ensures forall i :: 0 <= i < |js| ==> r[i] == AttachLimiter(js[i], pool).0
  {
    seq(|js|, i requires 0 <= i < |js| => AttachLimiter(js[i], pool).0)
  }

  /** The jobs the loading loop warns about, in order. */
  function Warned(js: seq<Job>, pool: set<string>): seq<Job>
    decreases |js|
  {
    if js == [] then []
    else
      var last := js[|js| - 1];
      Warned(js[..|js| - 1], pool) + if AttachLimiter(last, pool).1 then [last] else []
  }

  /** Only `genericsmtp` jobs are warned about. */
  lemma {:induction false} WarnedAreSmtp(js: seq<Job>, pool: set<string>)
    ensures forall i :: 0 <= i < |Warned(js, pool)| ==> Warned(js, pool)[i].kind == GenericSmtp
    decreases |js|
  {
    if js != [] {
      WarnedAreSmtp(js[..|js| - 1], pool);
    }
  }

  /** Loading one more job extends both lists by that job alone. */
  lemma LoadStep(js: seq<Job>, k: nat, pool: set<string>)
    requires k < |js|
    ensures Loaded(js[..k + 1], pool) == Loaded(js[..k], pool) + [AttachLimiter(js[k], pool).0]
    ensures Warned(js[..k + 1], pool) == Warned(js[..k], pool) + if AttachLimiter(js[k], pool).1 then [js[k]] else []
  {
    assert js[..k + 1][..k] == js[..k];
  }

  /** Which send function a batch uses. */
  datatype Transport = ViaAppsScript | ViaSmtp

  /** The first job decides: `appsscript` means Apps Script, anything else SMTP. */
  function TransportFor(batch: seq<Job>): (t: Transport)
    requires batch != []
    ensures t == ViaAppsScript <==> batch[0].kind == AppsScript
  {
    if batch[0].kind == AppsScript then ViaAppsScript else ViaSmtp
  }

  const RateLimitTimeout: real := 15.0
  const RateLimitMessage: string := "SMTP Rate Limit Timeout"

  /** The limiter check at the head of the SMTP send: with a limiter attached,
      `acquire(15)` is tried first and a timeout fails the send; otherwise the
      delivery's own result stands. */
  method SmtpRateGate(limiter: TokenBucket?, start: real, ticks: seq<Turn>, delivered: SendResult, elapsed: real)
    returns (r: SendResult)
    modifies limiter
    ensures limiter == null ==> r == delivered
    ensures limiter != null ==>
      var (ok, b) := Retry(old(limiter.State()), start, RateLimitTimeout, ticks);
      && limiter.State() == b
      && r == (if ok then delivered else SendResult(false, RateLimitMessage, elapsed))
  {
    if limiter != null {
      var ok := limiter.Acquire(RateLimitTimeout, start, ticks);
      if !ok {
        return SendResult(false, RateLimitMessage, elapsed);
      }
    }
    r := delivered;
  }

  /** What happens between two polls of the loop, as seen from the worker. */
  datatype PollEvent =
    /** `get_completed_jobs` returns and its triples are booked. */
    | Poll(finished: map<nat, Outcome<SendResult>>)
    /** `stop()` arrives while `get_completed_jobs` runs: the drained triples are not booked. */
    | PollInterrupted(finished: map<nat, Outcome<SendResult>>, started: set<nat>)
    /** `stop()` arrives between polls; `started` are the futures running or done. */
    | StopRequest(started: set<nat>)

  /** How `run` ends, with the success flag of its finished signal. */
  datatype BatchEnd = EmptyBatch | StoppedDuringSetup | StoppedByUser | Completed
    /** The schedule ran out while the batch was still in progress. */
    | StillPolling

  function FinishedFlag(e: BatchEnd): bool {
    e == EmptyBatch || e == Completed
  }

  class Worker {
    const jobs: seq<Job>
    const queue: JobQueueManager<Job, SendResult>
    /** `_is_running_batch_thread`. */
    var running: bool
    var completed: nat
    var successful: nat
    var failed: nat
    /** The `primary_email_sent_successfully` signals raised so far. */
    var primaryEvents: seq<Job>
    /** Jobs loaded without the limiter they asked for. */
    var unlimited: seq<Job>
    var transport: Option<Transport>

    ghost predicate Valid()
      reads this, queue
    {
      && queue.Valid()
      && completed == successful + failed
      && completed <= queue.completedCount
      && queue.totalSubmitted <= |jobs|
      && (forall i :: 0 <= i < |primaryEvents| ==> !IsTestJob(primaryEvents[i]))
    }

    constructor (batch: seq<Job>)
      ensures Valid() && fresh(queue)
      ensures jobs == batch && running && completed == 0 && successful == 0 && failed == 0
      ensures primaryEvents == [] && unlimited == [] && transport == None
      ensures queue.fifo == [] && queue.active == [] && queue.completedCount == 0 && queue.totalSubmitted == 0
      ensures queue.cancelledIds == {}
    {
      jobs := batch;
      queue := new JobQueueManager<Job, SendResult>();
      running := true;
      completed := 0;
      successful := 0;
      failed := 0;
      primaryEvents := [];
      unlimited := [];
      transport := None;
    }

    /** `stop()`: clear the run flag, stop admissions and cancel every future
        that has not started. */
    method Stop(started: set<nat>)
      requires Valid()
      modifies this, queue
      ensures Valid() && !running && !queue.isRunning
      ensures queue.cancelledIds == old(queue.cancelledIds) + (IdsOf(old(queue.active)) - started)
      ensures queue.active == old(queue.active) && queue.fifo == old(queue.fifo)
      ensures queue.completedCount == old(queue.completedCount) && queue.totalSubmitted == old(queue.totalSubmitted)
      ensures completed == old(completed) && successful == old(successful) && failed == old(failed)
      ensures primaryEvents == old(primaryEvents) && unlimited == old(unlimited) && transport == old(transport)
    {
      running := false;
      queue.Stop(started);
    }

    /** The loop over one drain's triples, on the counters and the signals so far. */
    static method BookAll(cs: seq<Drained>, before: Stats, events: seq<Job>) returns (after: Stats, events': seq<Job>)
      ensures after == Add(before, Tally(cs))
      ensures events' == events + PrimaryEvents(cs)
    {
      after, events' := before, events;
      var i := 0;
      while i < |cs|
        invariant 0 <= i <= |cs|
        invariant Add(after, Tally(cs[i..])) == Add(before, Tally(cs))
        invariant events' + PrimaryEvents(cs[i..]) == events + PrimaryEvents(cs)
      {
        var c := cs[i];
        DrainStep(cs, i);
        ConcatAssoc(events', EventOf(c), PrimaryEvents(cs[i + 1..]));
        AddAssoc(after, CountOf(c), Tally(cs[i + 1..]));
        if Classify(c) == Sent {
          after := Add(after, Stats(1, 1, 0));
          if !IsTestJob(c.job) {
            events' := events' + [c.job];
          }
        } else {
          after := Add(after, Stats(1, 0, 1));
        }
        i := i + 1;
      }
      assert cs[i..] == [];
    }

    /** Booking one drain: every triple counts once, as a success or a
        failure, and every sent non-test job raises its signal. */
    method Book(cs: seq<Drained>)
      requires Valid() && completed + |cs| <= queue.completedCount
      modifies this
      ensures Valid()
      ensures completed == old(completed) + Tally(cs).completed
      ensures successful == old(successful) + Tally(cs).successful
      ensures failed == old(failed) + Tally(cs).failed
      ensures primaryEvents == old(primaryEvents) + PrimaryEvents(cs)
      ensures running == old(running) && unlimited == old(unlimited) && transport == old(transport)
    {
      PrimaryEventsExact(cs);
      var after, events := BookAll(cs, Stats(completed, successful, failed), primaryEvents);
      assert forall k :: 0 <= k < |events| ==> !IsTestJob(events[k]) by {
        forall k | 0 <= k < |events| ensures !IsTestJob(events[k]) {
          if k >= |primaryEvents| {
            assert events[k] == PrimaryEvents(cs)[k - |primaryEvents|];
          }
        }
      }
      completed, successful, failed, primaryEvents := after.completed, after.successful, after.failed, events;
    }

    /** One loading step: job `k` gets its limiter and joins the queue, and
        is warned about when it asked for a limiter the pool lacks. */
    method LoadOne(k: nat, pool: set<string>)
      requires Valid() && k < |jobs| && queue.totalSubmitted == k
      modifies this`unlimited, queue
      ensures Valid()
      ensures queue.fifo == old(queue.fifo) + [AttachLimiter(jobs[k], pool).0]
      ensures unlimited == old(unlimited) + if AttachLimiter(jobs[k], pool).1 then [jobs[k]] else []
      ensures queue.totalSubmitted == k + 1 && queue.active == old(queue.active) && queue.completedCount == old(queue.completedCount)
      ensures queue.isRunning == old(queue.isRunning) && queue.cancelledIds == old(queue.cancelledIds)
    {
      var (j, warned) := AttachLimiter(jobs[k], pool);
      if warned {
        unlimited := unlimited + [jobs[k]];
      }
      queue.AddJob(j);
    }

    /** The loading loop of `run()` and the stop test after it: each job
        gets its limiter and joins the queue, until a `stop()` arrives before
        loading step `stopAtLoad` (after the last job when it equals the
        batch size). */
    method LoadJobs(pool: set<string>, stopAtLoad: Option<nat>)
      requires Valid()
      requires queue.active == [] && queue.completedCount == 0 && queue.totalSubmitted == 0 && completed == 0
      modifies this, queue
      ensures Valid()
      ensures queue.active == [] && queue.completedCount == 0 && completed == 0
      ensures queue.totalSubmitted <= |jobs|
      ensures queue.fifo == Loaded(jobs[..queue.totalSubmitted], pool)
      ensures unlimited == old(unlimited) + Warned(jobs[..queue.totalSubmitted], pool)
      ensures running ==> queue.totalSubmitted == |jobs|
      ensures !old(running) ==> !running && queue.totalSubmitted == 0
      ensures old(running) && stopAtLoad.Some? && stopAtLoad.value <= |jobs| ==>
        !running && queue.totalSubmitted == stopAtLoad.value
      ensures old(running) && (stopAtLoad.None? || stopAtLoad.value > |jobs|) ==> running
      ensures primaryEvents == old(primaryEvents) && transport == old(transport)
    {
      var k := 0;
      while k < |jobs| && running && stopAtLoad != Some(k)
        invariant 0 <= k <= |jobs|
        invariant Valid()
        invariant queue.active == [] && queue.completedCount == 0 && completed == 0
        invariant queue.totalSubmitted == k
        invariant queue.fifo == Loaded(jobs[..k], pool)
        invariant unlimited == old(unlimited) + Warned(jobs[..k], pool)
        invariant running == old(running)
        invariant running ==> !(stopAtLoad.Some? && stopAtLoad.value < k)
        invariant !running ==> k == 0
        invariant primaryEvents == old(primaryEvents) && transport == old(transport)
      {
        LoadOne(k, pool);
        LoadStep(jobs, k, pool);
        k := k + 1;
      }
      if running && stopAtLoad == Some(k) {
        Stop({});
      }
    }

    /** The polling loop of `run()`: drain and book until the queue is
        finished, a stop arrives, or the schedule runs out. */
    method PollLoop(events: seq<PollEvent>)
      requires Valid() && queue.totalSubmitted == |jobs|
      requires running ==> completed == queue.completedCount
      modifies this, queue
      ensures Valid() && queue.totalSubmitted == |jobs|
      ensures running ==> completed == queue.completedCount
      ensures unlimited == old(unlimited) && transport == old(transport)
    {
      var i := 0;
      while i < |events| && running && !queue.IsFinished()
        invariant 0 <= i <= |events|
        invariant Valid()
        invariant queue.totalSubmitted == |jobs|
        invariant running ==> completed == queue.completedCount
        invariant unlimited == old(unlimited) && transport == old(transport)
      {
        match events[i] {
          case Poll(finished) =>
            var cs := queue.GetCompletedJobs(finished);
            Book(cs);
          case PollInterrupted(finished, started) =>
            var cs := queue.GetCompletedJobs(finished);
            Stop(started);
          case StopRequest(started) =>
            Stop(started);
        }
        i := i + 1;
      }
    }

    /** `run()`: `stopAtLoad` is the loading step before which a `stop()`
        arrives, if any; `events` is the polling schedule; `finalStarted` are
        the futures running or done when the final `stop` of the queue runs. */
    method Run(pool: set<string>, maxConcurrent: int, stopAtLoad: Option<nat>, events: seq<PollEvent>, finalStarted: set<nat>)
      returns (end: BatchEnd)
      requires Valid()
      requires queue.fifo == [] && queue.active == [] && queue.completedCount == 0 && queue.totalSubmitted == 0
      requires completed == 0 && primaryEvents == [] && unlimited == []
      modifies this, queue
      ensures Valid() && !queue.isRunning
      ensures end == EmptyBatch <==> jobs == []
      ensures end == StoppedDuringSetup ==> queue.completedCount == 0 && completed == 0
      ensures end == Completed ==> completed == |jobs| && successful + failed == |jobs|
      ensures end == Completed ==> queue.fifo == [] && queue.active == [] && queue.completedCount == |jobs|
      ensures end != EmptyBatch && end != StoppedDuringSetup ==> transport == Some(TransportFor(jobs))
      ensures forall i :: 0 <= i < |unlimited| ==> unlimited[i].kind == GenericSmtp
      ensures old(running) && jobs != [] && stopAtLoad.Some? && stopAtLoad.value <= |jobs| ==>
        end == StoppedDuringSetup && queue.totalSubmitted == stopAtLoad.value
      ensures old(running) && jobs != [] && (stopAtLoad.None? || stopAtLoad.value > |jobs|) ==> end != StoppedDuringSetup
      ensures end == StoppedDuringSetup ==>
        queue.fifo == Loaded(jobs[..queue.totalSubmitted], pool) && unlimited == Warned(jobs[..queue.totalSubmitted], pool)
      ensures end != EmptyBatch && end != StoppedDuringSetup ==> unlimited == Warned(jobs, pool)
    {
      if jobs == [] {
        end := EmptyBatch;
        queue.Stop(finalStarted);
        return;
      }
      LoadJobs(pool, stopAtLoad);
      WarnedAreSmtp(jobs[..queue.totalSubmitted], pool);
      if !running {
        end := StoppedDuringSetup;
        queue.Stop(finalStarted);
        return;
      }
      assert jobs[..queue.totalSubmitted] == jobs;
      transport := Some(TransportFor(jobs));
      queue.StartProcessing(maxConcurrent);
      PollLoop(events);
      if !running {
        end := StoppedByUser;
      } else if queue.IsFinished() {
        end := Completed;
      } else {
        end := StillPolling;
      }
      queue.Stop(finalStarted);
    }
  }
}
