/** The campaign orchestrator of the main window: the prepared job queue,
    the dispatch cursor, the running batch and test workers, the active and
    paused flags, the overall totals, the periodic test-send counter and the
    pool of per-server limiters. Workers are named by identities the
    orchestrator hands out; what a worker does with its batch is the batch
    worker's model, and its finished signal arrives as a call. */
module Campaign {
  import opened Common
  import opened Jobs
  import opened RateLimiter
  import BatchWorker
  import JobAssembly

  /** Where the batch that starts at `cursor` ends: `min(cursor + size, n)`. */
  function BatchEnd(cursor: nat, size: nat, n: nat): (e: nat)
    requires cursor <= n
    ensures cursor <= e <= n && e - cursor <= size
    ensures e < n ==> e - cursor == size
  {
    if cursor + size <= n then cursor + size else n
  }

  /** The batches handed out, one after the other. */
  function Flatten(bs: seq<seq<Job>>): seq<Job>
    decreases |bs|
  {
    if bs == [] then [] else Flatten(bs[..|bs| - 1]) + bs[|bs| - 1]
  }

  lemma FlattenSnoc(bs: seq<seq<Job>>, b: seq<Job>)
    ensures Flatten(bs + [b]) == Flatten(bs) + b
  {
    assert (bs + [b])[..|bs|] == bs;
  }

  /** The batches handed out are non-empty, each at most the batch size
      `sizes` records for it, and together exactly the queue `q` up to
      `cursor`. */
  ghost predicate Batched(q: seq<Job>, cursor: nat, bs: seq<seq<Job>>, sizes: seq<nat>) {
    && cursor <= |q|
    && |sizes| == |bs|
    && Flatten(bs) == q[..cursor]
    && (forall i :: 0 <= i < |bs| ==> 0 < |bs[i]| <= sizes[i])
  }

  /** Handing out the next slice keeps the batches contiguous. */
  lemma BatchedSnoc(q: seq<Job>, start: nat, end: nat, bs: seq<seq<Job>>, sizes: seq<nat>, size: nat)
    requires Batched(q, start, bs, sizes) && start < end <= |q| && end - start <= size
    ensures Batched(q, end, bs + [q[start..end]], sizes + [size])
  {
    FlattenSnoc(bs, q[start..end]);
    assert q[..start] + q[start..end] == q[..end];
  }

  /** A job joining the end of the queue leaves the batches as they are. */
  lemma BatchedGrow(q: seq<Job>, cursor: nat, bs: seq<seq<Job>>, sizes: seq<nat>, job: Job)
    requires Batched(q, cursor, bs, sizes)
    ensures Batched(q + [job], cursor, bs, sizes)
  {
    assert (q + [job])[..cursor] == q[..cursor];
  }

  /** `list.remove` on a list of worker identities, without the error for a
      missing one: the caller checks membership first. */
  function RemoveFirst(s: seq<nat>, x: nat): seq<nat> {
    if s == [] then []
    else if s[0] == x then s[1..]
    else [s[0]] + RemoveFirst(s[1..], x)
  }

  /** Where `x` first occurs in `s`. */
  function Position(s: seq<nat>, x: nat): (i: nat)
    requires x in s
    ensures i < |s| && s[i] == x
    ensures forall j :: 0 <= j < i ==> s[j] != x
  {
    if s[0] == x then 0 else 1 + Position(s[1..], x)
  }

  /** A list without `x` is left as it is. */
  lemma {:induction false} RemoveFirstAbsent(s: seq<nat>, x: nat)
    requires x !in s
    ensures RemoveFirst(s, x) == s
  {
    if s != [] {
      assert s[0] != x;
      RemoveFirstAbsent(s[1..], x);
      assert s == [s[0]] + s[1..];
    }
  }

  /** Otherwise the first occurrence of `x` goes and the rest keeps its order. */
  lemma {:induction false} RemoveFirstAt(s: seq<nat>, x: nat)
    requires x in s
    ensures RemoveFirst(s, x) == s[..Position(s, x)] + s[Position(s, x) + 1..]
  {
    if s[0] != x {
      assert x in s[1..] by {
        assert s == [s[0]] + s[1..];
      }
      RemoveFirstAt(s[1..], x);
      var i := Position(s[1..], x);
      assert s[..i + 1] == [s[0]] + s[1..][..i];
      assert s[i + 2..] == s[1..][i + 1..];
    }
  }

  /** Exactly one occurrence of `x` goes, if there is one, and nothing else. */
  lemma RemoveFirstRemovesOne(s: seq<nat>, x: nat)
    requires x in s
    ensures multiset(s) == multiset(RemoveFirst(s, x)) + multiset{x}
  {
    RemoveFirstAt(s, x);
    var i := Position(s, x);
    var a, b := s[..i], s[i + 1..];
    assert s == a + [x] + b;
    calc {
      multiset(s);
      multiset(a + [x]) + multiset(b);
      multiset(a) + multiset{x} + multiset(b);
      multiset(a + b) + multiset{x};
    }
  }

  // ---- The periodic test send ----

  /** One primary success seen by the test counter: the counter goes up,
      and when the test address is usable (`armed`), the threshold is
      positive and the counter has reached it, it is reset and a test is due. */
  function CounterStep(count: nat, armed: bool, trigger: int): (nat, bool) {
    var c := count + 1;
    if armed && trigger > 0 && c >= trigger then (0, true) else (c, false)
  }

  /** `k` primary successes in a row: the final counter and the tests due. */
  function CounterRun(count: nat, armed: bool, trigger: int, k: nat): (nat, nat)
    decreases k
  {
    if k == 0 then (count, 0)
    else
      var (c, n) := CounterRun(count, armed, trigger, k - 1);
      var (c', due) := CounterStep(c, armed, trigger);
      (c', n + if due then 1 else 0)
  }

  lemma MulSucc(n: nat, t: int)
    ensures (n + 1) * t == n * t + t
  {
  }

  /** With a usable address and a positive threshold `t`, one test goes out
      for every `t` primary successes: after `k` more successes from a
      counter below `t`, `tests * t + counter` has grown by exactly `k`, the
      counter stays below `t`, and nothing is lost or sent twice. */
  lemma {:induction false} OneTestPerThreshold(count: nat, trigger: int, k: nat)
    requires 0 < trigger && count < trigger
    ensures var (c, tests) := CounterRun(count, true, trigger, k);
      tests * trigger + c == count + k && c < trigger
    decreases k
  {
    if k > 0 {
      OneTestPerThreshold(count, trigger, k - 1);
      var (c, n) := CounterRun(count, true, trigger, k - 1);
      MulSucc(n, trigger);
    }
  }

  /** The first of `k` successes taken on its own: the run is that one
      counter step followed by the other `k - 1` successes. */
  lemma {:induction false} CounterRunFront(count: nat, armed: bool, trigger: int, k: nat)
    requires k > 0
    ensures var (c1, due) := CounterStep(count, armed, trigger);
      CounterRun(count, armed, trigger, k)
        == (CounterRun(c1, armed, trigger, k - 1).0, CounterRun(c1, armed, trigger, k - 1).1 + if due then 1 else 0)
    decreases k
  {
    if k > 1 {
      CounterRunFront(count, armed, trigger, k - 1);
    }
  }

  /** A counter already at or past the threshold `t` (it grew while no test
      address was set, or the threshold was lowered): the first success
      sends a test and resets the counter, and from then on one test goes
      out for every `t` successes. */
  lemma {:induction false} OverThresholdResetsFirst(count: nat, trigger: int, k: nat)
    requires 0 < trigger <= count + 1 && k > 0
    ensures var (c, tests) := CounterRun(count, true, trigger, k);
      tests >= 1 && (tests - 1) * trigger + c == k - 1 && c < trigger
  {
    CounterRunFront(count, true, trigger, k);
    assert CounterStep(count, true, trigger) == (0, true);
    OneTestPerThreshold(0, trigger, k - 1);
  }

  /** Without a usable address, or with a threshold of 0 (disabled), the
      counter only grows and no test is sent. */
  lemma {:induction false} NoTestWhenDisabled(count: nat, armed: bool, trigger: int, k: nat)
    requires !armed || trigger <= 0
    ensures CounterRun(count, armed, trigger, k) == (count + k, 0)
    decreases k
  {
    if k > 0 {
      NoTestWhenDisabled(count, armed, trigger, k - 1);
    }
  }

  /** The test address is used when, stripped, it holds `@`. */
  predicate Armed(target: string) {
    target != [] && '@' in target
  }

  // ---- The limiter pool ----

  /** A saved SMTP server entry as the reconciler reads it; an absent field is `None`. */
  datatype ServerEntry = ServerEntry(nickname: Option<string>, rateLimitEmails: Option<int>, rateLimitSeconds: Option<real>, burstSize: Option<int>)

  const DefaultRateEmails: int := 10
  const DefaultRateSeconds: real := 1.0
  const DefaultBurst: int := 5
  /** The rate given to a server whose configured period is not positive. */
  const UnlimitedRate: real := 1000.0

  function GetOr<T>(o: Option<T>, d: T): T {
    if o.Some? then o.value else d
  }

  /** Emails per second: the configured count over the configured period,
      or the unlimited rate when either is not positive. */
  function EffectiveRate(emails: int, seconds: real): (r: real)
    ensures r > 0.0
    ensures emails > 0 && seconds > 0.0 ==> r * seconds == emails as real
    ensures !(emails > 0 && seconds > 0.0) ==> r == UnlimitedRate
  {
    if emails > 0 && seconds > 0.0 then emails as real / seconds else UnlimitedRate
  }

  function EntryRate(e: ServerEntry): real {
    EffectiveRate(GetOr(e.rateLimitEmails, DefaultRateEmails), GetOr(e.rateLimitSeconds, DefaultRateSeconds))
  }

  function EntryBurst(e: ServerEntry): int {
    GetOr(e.burstSize, DefaultBurst)
  }

  /** The entry's pool key: entries without a nickname, or with an empty one, are skipped. */
  predicate Named(e: ServerEntry) {
    e.nickname.Some? && e.nickname.value != ""
  }

  function Nicknames(es: seq<ServerEntry>): set<string> {
    set i | 0 <= i < |es| && Named(es[i]) :: es[i].nickname.value
  }

  /** A limiter the reconciler creates, as the constructor leaves it. */
  function Created(e: ServerEntry, now: real): Bucket {
    Bucket(MaxReal(EntryRate(e), MinRate), MaxInt(EntryBurst(e), MinBurst), EntryBurst(e) as real, now)
  }

  /** One entry: a new nickname gets a new limiter; a known one has its rate
      and burst overwritten, unclamped. */
  function PoolStep(m: map<string, Bucket>, e: ServerEntry, now: real): map<string, Bucket> {
    if !Named(e) then m
    else
      var n := e.nickname.value;
      if n in m then m[n := m[n].(rate := EntryRate(e), burst := EntryBurst(e))] else m[n := Created(e, now)]
  }

  function PoolFold(m: map<string, Bucket>, es: seq<ServerEntry>, now: real): map<string, Bucket>
    decreases |es|
  {
    if es == [] then m else PoolStep(PoolFold(m, es[..|es| - 1], now), es[|es| - 1], now)
  }

  /** The reconciled pool: the entries applied in order, then every limiter
      that was in the pool before but is not configured any more removed. */
  function Reconciled(m: map<string, Bucket>, es: seq<ServerEntry>, now: real): map<string, Bucket> {
    Without(PoolFold(m, es, now), m.Keys - Nicknames(es))
  }

  /** `m` with the keys in `drop` deleted. */
  function Without<V>(m: map<string, V>, drop: set<string>): map<string, V> {
    map k | k in m && k !in drop :: m[k]
  }

  /** Deleting keys one at a time deletes the union. */
  lemma WithoutMore<V>(m: map<string, V>, drop: set<string>, x: string)
    ensures Without(Without(m, drop), {x}) == Without(m, drop + {x})
  {
  }

  lemma NicknamesSnoc(es: seq<ServerEntry>, e: ServerEntry)
    ensures Nicknames(es + [e]) == Nicknames(es) + (if Named(e) then {e.nickname.value} else {})
  {
    var es' := es + [e];
    forall n | n in Nicknames(es') ensures n in Nicknames(es) + (if Named(e) then {e.nickname.value} else {}) {
      var i :| 0 <= i < |es'| && Named(es'[i]) && es'[i].nickname.value == n;
      if i < |es| {
        assert es'[i] == es[i];
      }
    }
    forall n | n in Nicknames(es) ensures n in Nicknames(es') {
      var i :| 0 <= i < |es| && Named(es[i]) && es[i].nickname.value == n;
      assert es'[i] == es[i];
    }
    if Named(e) {
      assert es'[|es|] == e;
    }
  }

  /** The entries add exactly their nicknames to the pool's keys. */
  lemma {:induction false} PoolFoldKeys(m: map<string, Bucket>, es: seq<ServerEntry>, now: real)
    ensures PoolFold(m, es, now).Keys == m.Keys + Nicknames(es)
    decreases |es|
  {
    if es != [] {
      var p := es[..|es| - 1];
      PoolFoldKeys(m, p, now);
      assert es == p + [es[|es| - 1]];
      NicknamesSnoc(p, es[|es| - 1]);
    }
  }

  /** After reconciling, the pool holds exactly one limiter per configured nickname. */
  lemma ReconciledKeys(m: map<string, Bucket>, es: seq<ServerEntry>, now: real)
    ensures Reconciled(m, es, now).Keys == Nicknames(es)
  {
    PoolFoldKeys(m, es, now);
  }

  /** A limiter that was already pooled keeps its tokens and its refill
      time, whatever its new rate and burst. */
  lemma {:induction false} PoolFoldKeepsTokens(m: map<string, Bucket>, es: seq<ServerEntry>, now: real, n: string)
    requires n in m
    ensures n in PoolFold(m, es, now)
    ensures PoolFold(m, es, now)[n].tokens == m[n].tokens && PoolFold(m, es, now)[n].last == m[n].last
    decreases |es|
  {
    if es != [] {
      PoolFoldKeepsTokens(m, es[..|es| - 1], now, n);
    }
  }

  /** A limiter the reconciler creates carries the reconcile time as its
      last refill, and it is never created twice. */
  lemma {:induction false} PoolFoldStampsNew(m: map<string, Bucket>, es: seq<ServerEntry>, now: real, n: string)
    requires n !in m && n in PoolFold(m, es, now)
    ensures PoolFold(m, es, now)[n].last == now
    decreases |es|
  {
    if es != [] {
      var p := es[..|es| - 1];
      if n in PoolFold(m, p, now) {
        PoolFoldStampsNew(m, p, now, n);
      }
    }
  }

  /** An existing limiter that is still configured keeps its bucket
      contents, and a new one starts its refill clock at the reconcile time:
      only the update lowers a burst without capping the tokens. */
  lemma ReconciledTokens(m: map<string, Bucket>, es: seq<ServerEntry>, now: real, n: string)
    requires n in Reconciled(m, es, now)
    ensures n in m ==> Reconciled(m, es, now)[n].tokens == m[n].tokens && Reconciled(m, es, now)[n].last == m[n].last
    ensures n !in m ==> Reconciled(m, es, now)[n].last == now
  {
    if n in m {
      PoolFoldKeepsTokens(m, es, now, n);
    } else {
      PoolFoldStampsNew(m, es, now, n);
    }
  }

  /** Entries naming someone else leave a pooled limiter as it is. */
  lemma {:induction false} PoolFoldOthers(m: map<string, Bucket>, es: seq<ServerEntry>, now: real, n: string)
    requires forall j :: 0 <= j < |es| ==> !(Named(es[j]) && es[j].nickname.value == n)
    ensures n in m <==> n in PoolFold(m, es, now)
    ensures n in m ==> PoolFold(m, es, now)[n] == m[n]
    decreases |es|
  {
    if es != [] {
      var p := es[..|es| - 1];
      assert forall j :: 0 <= j < |p| ==> p[j] == es[j];
      PoolFoldOthers(m, p, now, n);
    }
  }

  lemma {:induction false} PoolFoldAppend(m: map<string, Bucket>, a: seq<ServerEntry>, b: seq<ServerEntry>, now: real)
    ensures PoolFold(m, a + b, now) == PoolFold(PoolFold(m, a, now), b, now)
    decreases |b|
  {
    if b == [] {
      assert a + b == a;
    } else {
      var b' := b[..|b| - 1];
      PoolFoldAppend(m, a, b', now);
      assert (a + b)[..|a + b| - 1] == a + b';
    }
  }

  /** The last entry naming `n` decides its rate and burst: a limiter that
      existed before it (pooled already, or created by an earlier entry)
      takes both values unclamped; one created by this entry gets the
      constructor's clamps. */
  lemma LastEntryDecides(m: map<string, Bucket>, es: seq<ServerEntry>, now: real, i: nat)
    requires i < |es| && Named(es[i])
    requires forall j :: i < j < |es| ==> !(Named(es[j]) && es[j].nickname.value == es[i].nickname.value)
    ensures var n := es[i].nickname.value;
      var r := Reconciled(m, es, now);
      && n in r
      && (n in m || n in Nicknames(es[..i]) ==> r[n].rate == EntryRate(es[i]) && r[n].burst == EntryBurst(es[i]))
      && (n !in m && n !in Nicknames(es[..i]) ==> r[n] == Created(es[i], now))
  {
    var n := es[i].nickname.value;
    var a, rest := es[..i + 1], es[i + 1..];
    assert es == a + rest;
    assert a[..i] == es[..i];
    PoolFoldAppend(m, a, rest, now);
    PoolFoldKeys(m, es[..i], now);
    assert forall j :: 0 <= j < |rest| ==> rest[j] == es[i + 1 + j];
    PoolFoldOthers(PoolFold(m, a, now), rest, now, n);
    assert n in Nicknames(es) by {
      assert Named(es[i]) && es[i].nickname.value == n;
    }
  }

  /** The limiter objects of a pool. */
  ghost function Values(pool: map<string, TokenBucket>): set<TokenBucket> {
    set n | n in pool :: pool[n]
  }

  /** No two nicknames share a limiter object. */
  ghost predicate Distinct(pool: map<string, TokenBucket>) {
    forall a, b :: a in pool && b in pool && a != b ==> pool[a] != pool[b]
  }

  /** The pool's limiters as values. */
  ghost function BucketsOf(pool: map<string, TokenBucket>): map<string, Bucket>
    reads Values(pool)
  {
    map n | n in pool :: pool[n].State()
  }

  /** Deleting keys from a pool deletes the same keys from its buckets. */
  lemma BucketsWithout(pool: map<string, TokenBucket>, drop: set<string>)
    ensures Distinct(pool) ==> Distinct(Without(pool, drop))
    ensures BucketsOf(Without(pool, drop)) == Without(BucketsOf(pool), drop)
  {
  }

  /** The body of the first reconcile loop for a named entry: a new limiter
      for a new nickname, new rate and burst for a known one. */
  method Upsert(pool: map<string, TokenBucket>, e: ServerEntry, now: real) returns (pool': map<string, TokenBucket>)
    requires Distinct(pool) && Named(e)
    modifies Values(pool)
    ensures Distinct(pool')
    ensures BucketsOf(pool') == PoolStep(old(BucketsOf(pool)), e, now)
    ensures forall n :: n in pool' ==> (n in pool && pool'[n] == pool[n]) || fresh(pool'[n])
  {
    ghost var prev := BucketsOf(pool);
    var n := e.nickname.value;
    var rate := EntryRate(e);
    var burst := EntryBurst(e);
    if n !in pool {
      var limiter := new TokenBucket(rate, burst, now);
      pool' := pool[n := limiter];
      assert BucketsOf(pool') == prev[n := limiter.State()];
    } else {
      pool' := pool;
      pool[n].Reconfigure(rate, burst);
      assert BucketsOf(pool') == prev[n := prev[n].(rate := rate, burst := burst)];
    }
  }

  /** The first reconcile loop: every entry in order. */
  method UpsertAll(pool: map<string, TokenBucket>, servers: seq<ServerEntry>, now: real)
    returns (pool': map<string, TokenBucket>, configured: set<string>)
    requires Distinct(pool)
    modifies Values(pool)
    ensures Distinct(pool')
    ensures BucketsOf(pool') == PoolFold(old(BucketsOf(pool)), servers, now)
    ensures configured == Nicknames(servers)
    ensures forall n :: n in pool' ==> (n in pool && pool'[n] == pool[n]) || fresh(pool'[n])
  {
    ghost var m0 := BucketsOf(pool);
    configured := {};
    pool' := pool;
    var i := 0;
    while i < |servers|
      invariant 0 <= i <= |servers|
      invariant Distinct(pool')
      invariant forall n :: n in pool' ==> (n in pool && pool'[n] == pool[n]) || fresh(pool'[n])
      invariant BucketsOf(pool') == PoolFold(m0, servers[..i], now)
      invariant configured == Nicknames(servers[..i])
    {
      var e := servers[i];
      assert servers[..i + 1][..i] == servers[..i] && servers[..i + 1] == servers[..i] + [e];
      NicknamesSnoc(servers[..i], e);
      if Named(e) {
        configured := configured + {e.nickname.value};
        pool' := Upsert(pool', e, now);
      }
      i := i + 1;
    }
    assert servers[..i] == servers;
  }

  /** The second reconcile loop: the stale nicknames are deleted. */
  method DropStale(pool: map<string, TokenBucket>, stale: set<string>) returns (pool': map<string, TokenBucket>)
    ensures pool' == Without(pool, stale)
  {
    pool' := pool;
    var rest := stale;
    while rest != {}
      invariant rest <= stale
      invariant pool' == Without(pool, stale - rest)
      decreases rest
    {
      var x :| x in rest;
      WithoutMore(pool, stale - rest, x);
      if x in pool' {
        pool' := Without(pool', {x});
      }
      rest := rest - {x};
      assert stale - rest == (stale - (rest + {x})) + {x};
    }
  }

  /** The reconcile loops of `load_configured_generic_smtp_servers` over the
      pool: create or update by nickname, then delete the stale limiters. */
  method ReconcileLimiters(pool: map<string, TokenBucket>, servers: seq<ServerEntry>, now: real)
    returns (pool': map<string, TokenBucket>)
    requires Distinct(pool)
    modifies Values(pool)
    ensures Distinct(pool')
    ensures BucketsOf(pool') == Reconciled(old(BucketsOf(pool)), servers, now)
    ensures forall n :: n in pool' ==> (n in pool && pool'[n] == pool[n]) || fresh(pool'[n])
  {
    var before := pool.Keys;
    var full, configured := UpsertAll(pool, servers, now);
    pool' := DropStale(full, before - configured);
    BucketsWithout(full, before - configured);
  }

  /** `rate_limiters_pool`: the per-server limiters by nickname. */
  class LimiterPool {
    var limiters: map<string, TokenBucket>

    ghost predicate Valid()
      reads this
    {
      Distinct(limiters)
    }

    constructor ()
      ensures Valid() && limiters == map[]
    {
      limiters := map[];
    }

    /** The limiter-pool part of `load_configured_generic_smtp_servers`, at
        clock reading `now`. */
    method Reconcile(servers: seq<ServerEntry>, now: real)
      requires Valid()
      modifies this, Values(limiters)
      ensures Valid()
      ensures BucketsOf(limiters) == Reconciled(old(BucketsOf(limiters)), servers, now)
      ensures limiters.Keys == Nicknames(servers)
    {
      ghost var m0 := BucketsOf(limiters);
      var reconciled := ReconcileLimiters(limiters, servers, now);
      limiters := reconciled;
      ReconciledKeys(m0, servers, now);
      assert limiters.Keys == BucketsOf(limiters).Keys;
    }
  }

  // ---- The orchestrator ----

  /** How a dispatch attempt ends. */
  datatype Dispatch =
    /** Paused, or processing is not active. */
    | NotDispatching
    /** Nothing is left to hand out while batches are still running. */
    | AwaitingWorkers
    /** Nothing is left to hand out and no batch is running: the campaign ends. */
    | Finalized
    | Dispatched(worker: nat, batch: seq<Job>)

  datatype StartResult = QueueEmpty | AlreadyRunning | NoSendersSelected | Started(dispatch: Dispatch)

  /** What follows a batch worker's finished signal once its totals are in. */
  datatype FollowUp = DispatchScheduled | FinalizedAfterBatch | NoFollowUp

  datatype ToggleResult = NothingToToggle | CampaignFinished | PausedNow | ResumedDispatchScheduled | ResumedFinalized

  datatype StopResult = NothingToStop | NotConfirmed | Stopped(signalled: seq<nat>, cleared: nat)

  class Orchestrator {
    /** `email_job_queue`: the prepared campaign. */
    var queue: seq<Job>
    /** `current_job_index_for_dispatch`. */
    var cursor: nat
    /** `active_batch_send_workers` and `active_test_email_workers`. */
    var batchWorkers: seq<nat>
    var testWorkers: seq<nat>
    /** The identity the next worker gets. */
    var nextWorker: nat
    /** `queue_processing_active` and `is_paused_flag`. */
    var processing: bool
    var paused: bool
    var totalProcessed: nat
    var totalSuccessful: nat
    /** `primary_emails_sent_since_last_test`. */
    var sinceLastTest: nat
    /** `batch_size_for_main_workers`, which the spin box may change at
        any time; each dispatch reads it afresh. */
    var batchSize: nat
    /** The batches handed out since the cursor last started from 0. */
    ghost var batches: seq<seq<Job>>
    /** The batch size in force when each of those batches was handed out. */
    ghost var sizes: seq<nat>

    /** The batches handed out are contiguous, non-empty, each at most the
        batch size of its dispatch, and together they are exactly the queue
        up to the cursor. */
    ghost predicate Valid()
      reads this`queue, this`cursor, this`batches, this`sizes, this`totalProcessed, this`totalSuccessful
    {
      Batched(queue, cursor, batches, sizes) && totalSuccessful <= totalProcessed
    }

    constructor (batchSize: nat)
      ensures Valid() && this.batchSize == batchSize
      ensures queue == [] && cursor == 0 && batchWorkers == [] && testWorkers == [] && nextWorker == 0
      ensures !processing && !paused && totalProcessed == 0 && totalSuccessful == 0 && sinceLastTest == 0
      ensures batches == [] && sizes == []
    {
      this.batchSize := batchSize;
      queue := [];
      cursor := 0;
      batchWorkers := [];
      testWorkers := [];
      nextWorker := 0;
      processing := false;
      paused := false;
      totalProcessed := 0;
      totalSuccessful := 0;
      sinceLastTest := 0;
      batches := [];
      sizes := [];
    }

    /** A prepared job joins the end of the campaign queue. */
    method Enqueue(job: Job)
      requires Valid()
      modifies this`queue
      ensures Valid() && queue == old(queue) + [job]
    {
      BatchedGrow(queue, cursor, batches, sizes, job);
      queue := queue + [job];
    }

    /** `on_batch_size_changed`: the next dispatch cuts batches of the new
        size; the batches already handed out keep the size they had. */
    method SetBatchSize(size: nat)
      requires Valid()
      modifies this`batchSize
      ensures Valid() && batchSize == size
    {
      batchSize := size;
    }

    /** `finalize_overall_queue_processing`: both flags are cleared. */
    method Finalize()
      modifies this`processing, this`paused
      ensures !processing && !paused
    {
      processing := false;
      paused := false;
    }

    /** `dispatch_next_email_batch_to_worker`: hand the next slice of the
        queue to a new worker and advance the cursor past it. */
    method Dispatch() returns (d: Dispatch)
      requires Valid()
      modifies this`cursor, this`batches, this`sizes, this`batchWorkers, this`nextWorker, this`processing, this`paused
      ensures Valid()
      ensures d == NotDispatching <==> old(paused) || !old(processing)
      ensures d.Dispatched? <==> !old(paused) && old(processing) && old(cursor) < |queue| && batchSize > 0
      ensures d == Finalized <==> !old(paused) && old(processing) && old(batchWorkers) == [] && (old(cursor) == |queue| || batchSize == 0)
      ensures d.Dispatched? ==>
        && cursor == BatchEnd(old(cursor), batchSize, |queue|)
        && d.batch == queue[old(cursor)..cursor] && d.batch != []
        && d.worker == old(nextWorker) && nextWorker == old(nextWorker) + 1
        && batchWorkers == old(batchWorkers) + [d.worker] && batches == old(batches) + [d.batch]
        && sizes == old(sizes) + [batchSize]
        && processing == old(processing) && paused == old(paused)
      ensures d == Finalized ==>
        && !processing && !paused && cursor == old(cursor) && batchWorkers == old(batchWorkers)
        && nextWorker == old(nextWorker) && batches == old(batches) && sizes == old(sizes)
      ensures d == NotDispatching || d == AwaitingWorkers ==> unchanged(this)
    {
      if paused || !processing {
        return NotDispatching;
      }
      if cursor >= |queue| {
        if batchWorkers == [] {
          Finalize();
          return Finalized;
        }
        return AwaitingWorkers;
      }
      var start := cursor;
      var end := BatchEnd(start, batchSize, |queue|);
      var batch := queue[start..end];
      if batch == [] {
        if batchWorkers == [] {
          Finalize();
          return Finalized;
        }
        return AwaitingWorkers;
      }
      var worker := nextWorker;
      nextWorker := nextWorker + 1;
      batchWorkers := batchWorkers + [worker];
      BatchedSnoc(queue, start, end, batches, sizes, batchSize);
      batches := batches + [batch];
      sizes := sizes + [batchSize];
      cursor := end;
      d := Dispatched(worker, batch);
    }

    /** `action_start_queue_processing`; `sendersSelected` is whether the
        chosen send method has at least one account or server selected. */
    method Start(sendersSelected: bool) returns (r: StartResult)
      requires Valid()
      modifies this`processing, this`paused, this`totalProcessed, this`totalSuccessful, this`sinceLastTest
      modifies this`cursor, this`batches, this`sizes, this`batchWorkers, this`nextWorker
      ensures Valid()
      ensures r == QueueEmpty <==> queue == []
      ensures r == AlreadyRunning <==> queue != [] && old(processing) && !old(paused)
      ensures r == NoSendersSelected <==> queue != [] && !(old(processing) && !old(paused)) && !sendersSelected
      ensures !r.Started? ==> unchanged(this)
      ensures r.Started? ==> sinceLastTest == 0
      ensures r.Started? && old(cursor) == 0 ==> totalProcessed == 0 && totalSuccessful == 0
      ensures r.Started? && old(cursor) != 0 ==> totalProcessed == old(totalProcessed) && totalSuccessful == old(totalSuccessful)
      ensures r.Started? && batchSize > 0 ==>
        var from := if old(cursor) == |queue| then 0 else old(cursor);
        && processing && !paused
        && cursor == BatchEnd(from, batchSize, |queue|)
        && r.dispatch.Dispatched? && r.dispatch.batch == queue[from..cursor]
    {
      if queue == [] {
        return QueueEmpty;
      }
      if processing && !paused {
        return AlreadyRunning;
      }
      if !sendersSelected {
        return NoSendersSelected;
      }
      var d := Launch();
      r := Started(d);
    }

    /** The part of `action_start_queue_processing` past its checks: the flags
        are set, the totals reset on a fresh start, the cursor rewound when
        the whole queue was sent before, and the first batch dispatched. */
    method Launch() returns (d: Dispatch)
      requires Valid() && queue != []
      modifies this`processing, this`paused, this`totalProcessed, this`totalSuccessful, this`sinceLastTest
      modifies this`cursor, this`batches, this`sizes, this`batchWorkers, this`nextWorker
      ensures Valid()
      ensures sinceLastTest == 0
      ensures old(cursor) == 0 ==> totalProcessed == 0 && totalSuccessful == 0
      ensures old(cursor) != 0 ==> totalProcessed == old(totalProcessed) && totalSuccessful == old(totalSuccessful)
      ensures batchSize > 0 ==>
        var from := if old(cursor) == |queue| then 0 else old(cursor);
        && processing && !paused
        && cursor == BatchEnd(from, batchSize, |queue|)
        && d.Dispatched? && d.batch == queue[from..cursor]
    {
      Prepare();
      d := Dispatch();
    }

    /** The state changes of `Launch` before its dispatch. */
    method Prepare()
      requires Valid() && queue != []
      modifies this`processing, this`paused, this`totalProcessed, this`totalSuccessful, this`sinceLastTest
      modifies this`cursor, this`batches, this`sizes
      ensures Valid() && processing && !paused && sinceLastTest == 0
      ensures cursor == if old(cursor) == |queue| then 0 else old(cursor)
      ensures old(cursor) == 0 ==> totalProcessed == 0 && totalSuccessful == 0
      ensures old(cursor) != 0 ==> totalProcessed == old(totalProcessed) && totalSuccessful == old(totalSuccessful)
    {
      processing := true;
      paused := false;
      if cursor == 0 {
        totalProcessed := 0;
        totalSuccessful := 0;
      }
      sinceLastTest := 0;
      if cursor >= |queue| {
        cursor := 0;
        batches := [];
        sizes := [];
      }
    }

    /** `on_batch_worker_finished` for worker `w` with its batch counters:
        the worker leaves the active list, its counters join the totals,
        then the next dispatch is scheduled or the campaign finalized. */
    method OnBatchFinished(w: nat, stats: BatchWorker.Stats) returns (f: FollowUp)
      requires Valid() && stats.successful <= stats.completed
      modifies this`batchWorkers, this`totalProcessed, this`totalSuccessful, this`processing, this`paused
      ensures Valid()
      ensures batchWorkers == RemoveFirst(old(batchWorkers), w)
      ensures totalProcessed == old(totalProcessed) + stats.completed
      ensures totalSuccessful == old(totalSuccessful) + stats.successful
      ensures f == DispatchScheduled <==> old(processing) && !old(paused)
      ensures f == FinalizedAfterBatch <==>
        !(old(processing) && !old(paused)) && batchWorkers == [] && (cursor == |queue| || !old(processing))
      ensures f == FinalizedAfterBatch ==> !processing && !paused
      ensures f != FinalizedAfterBatch ==> processing == old(processing) && paused == old(paused)
    {
      if w in batchWorkers {
        batchWorkers := RemoveFirst(batchWorkers, w);
      } else {
        RemoveFirstAbsent(batchWorkers, w);
      }
      totalProcessed := totalProcessed + stats.completed;
      totalSuccessful := totalSuccessful + stats.successful;
      if processing && !paused {
        f := DispatchScheduled;
      } else if batchWorkers == [] && (cursor >= |queue| || !processing) {
        Finalize();
        f := FinalizedAfterBatch;
      } else {
        f := NoFollowUp;
      }
    }

    /** `dispatch_single_test_email`: the test copy of `base` goes to a new
        test worker. */
    method DispatchTest(target: string, base: Job, uuid: string) returns (t: Job)
      modifies this`testWorkers, this`nextWorker
      ensures t == JobAssembly.TestPayload(base, target, uuid)
      ensures IsTestJob(t) && t.recipients == [target]
      ensures testWorkers == old(testWorkers) + [old(nextWorker)] && nextWorker == old(nextWorker) + 1
    {
      t := JobAssembly.TestPayload(base, target, uuid);
      testWorkers := testWorkers + [nextWorker];
      nextWorker := nextWorker + 1;
    }

    /** `on_primary_email_success_trigger_test`: `testAddress` and
        `triggerAfter` are the two settings fields, `uuid` the test id's source. */
    method OnPrimarySuccess(job: Job, testAddress: string, triggerAfter: int, uuid: string) returns (test: Option<Job>)
      modifies this`sinceLastTest, this`testWorkers, this`nextWorker
      ensures (sinceLastTest, test.Some?) == CounterStep(old(sinceLastTest), Armed(Strip(testAddress)), triggerAfter)
      ensures test.Some? ==>
        && test.value == JobAssembly.TestPayload(job, Strip(testAddress), uuid)
        && testWorkers == old(testWorkers) + [old(nextWorker)] && nextWorker == old(nextWorker) + 1
      ensures test.None? ==> testWorkers == old(testWorkers) && nextWorker == old(nextWorker)
    {
      sinceLastTest := sinceLastTest + 1;
      var target := Strip(testAddress);
      if target != [] && '@' in target && triggerAfter > 0 && sinceLastTest >= triggerAfter {
        sinceLastTest := 0;
        var t := DispatchTest(target, job, uuid);
        test := Some(t);
      } else {
        test := None;
      }
    }

    /** `on_test_email_worker_finished`: the test worker leaves its list. */
    method OnTestFinished(w: nat)
      modifies this`testWorkers
      ensures testWorkers == RemoveFirst(old(testWorkers), w)
    {
      if w in testWorkers {
        testWorkers := RemoveFirst(testWorkers, w);
      } else {
        RemoveFirstAbsent(testWorkers, w);
      }
    }

    /** `action_toggle_pause_resume_queue`. A resume that leaves work to do
        schedules a dispatch; one that leaves none finalizes. */
    method TogglePause() returns (t: ToggleResult)
      modifies this`processing, this`paused
      ensures t == NothingToToggle <==> !old(processing) && queue == []
      ensures t == CampaignFinished <==>
        (old(processing) || queue != []) && !old(paused) && cursor >= |queue| && batchWorkers == []
      ensures t == NothingToToggle || t == CampaignFinished ==> unchanged(this)
      ensures t == PausedNow <==>
        (old(processing) || queue != []) && !old(paused) && !(cursor >= |queue| && batchWorkers == [])
      ensures t == PausedNow ==> paused && processing == old(processing)
      ensures t == ResumedDispatchScheduled <==>
        (old(processing) || queue != []) && old(paused) && (cursor < |queue| || batchWorkers != [])
      ensures t == ResumedDispatchScheduled ==> processing && !paused
      ensures t == ResumedFinalized ==> !processing && !paused
    {
      if !processing && queue == [] {
        return NothingToToggle;
      }
      if !paused && cursor >= |queue| && batchWorkers == [] {
        return CampaignFinished;
      }
      paused := !paused;
      if paused {
        t := PausedNow;
      } else {
        processing := true;
        if cursor < |queue| || batchWorkers != [] {
          t := ResumedDispatchScheduled;
        } else {
          Finalize();
          t := ResumedFinalized;
        }
      }
    }

    /** `action_stop_queue_processing_and_clear`; `confirmed` is the answer
        to the confirmation question. Every worker is signalled to stop, both
        worker lists and the queue are emptied and the cursor goes back to 0;
        the totals are kept. */
    method StopAndClear(confirmed: bool) returns (r: StopResult)
      requires Valid()
      modifies this`processing, this`paused, this`batchWorkers, this`testWorkers, this`queue, this`cursor, this`batches, this`sizes
      ensures Valid()
      ensures r == NothingToStop <==> !old(processing) && old(queue) == [] && old(batchWorkers) == [] && old(testWorkers) == []
      ensures r == NotConfirmed <==> !(!old(processing) && old(queue) == [] && old(batchWorkers) == [] && old(testWorkers) == []) && !confirmed
      ensures !r.Stopped? ==> unchanged(this)
      ensures r.Stopped? ==>
        && !processing && paused && queue == [] && cursor == 0 && batchWorkers == [] && testWorkers == [] && batches == [] && sizes == []
        && r.signalled == old(batchWorkers) + old(testWorkers)
        && r.cleared == (if |old(queue)| >= totalProcessed then |old(queue)| - totalProcessed else 0)
    {
      if !processing && queue == [] && batchWorkers == [] && testWorkers == [] {
        return NothingToStop;
      }
      if !confirmed {
        return NotConfirmed;
      }
      processing := false;
      paused := true;
      var signalled := batchWorkers + testWorkers;
      batchWorkers := [];
      testWorkers := [];
      var cleared := if |queue| >= totalProcessed then |queue| - totalProcessed else 0;
      queue := [];
      cursor := 0;
      batches := [];
      sizes := [];
      r := Stopped(signalled, cleared);
    }
  }
}
