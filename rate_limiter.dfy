/** The per-endpoint token bucket (`AdvancedRateLimiter`). Time is a
    parameter: every clock reading the limiter makes is passed in. */
module RateLimiter {

  function MaxReal(a: real, b: real): real { if a >= b then a else b }
  function MinReal(a: real, b: real): real { if a <= b then a else b }
  function MaxInt(a: int, b: int): int { if a >= b then a else b }

  /** The rate floor and the burst floor the constructor applies. */
  const MinRate: real := 0.1
  const MinBurst: int := 1

  /** The bucket's state as a value: rate in tokens per second, burst
      capacity, current (fractional) token count, time of the last refill. */
  datatype Bucket = Bucket(rate: real, burst: int, tokens: real, last: real)

  /** Token count after refilling at time `now`: elapsed time times the
      rate is added, capped at the burst capacity. */
  function Refill(b: Bucket, now: real): (t: real)
    ensures t <= b.burst as real
    ensures t <= b.tokens + (now - b.last) * b.rate
    ensures t == b.burst as real || t == b.tokens + (now - b.last) * b.rate
  {
    MinReal(b.burst as real, b.tokens + (now - b.last) * b.rate)
  }

  /** One locked attempt of `acquire`: refill, then take a token if one is there. */
  function Attempt(b: Bucket, now: real): (bool, Bucket) {
    var t := Refill(b, now);
    if t >= 1.0 then (true, b.(tokens := t - 1.0, last := now))
    else (false, b.(tokens := t, last := now))
  }

  lemma AttemptSpec(b: Bucket, now: real)
    ensures var (ok, b') := Attempt(b, now);
      && (ok <==> Refill(b, now) >= 1.0)
      && (ok ==> b'.tokens == Refill(b, now) - 1.0)
      && (!ok ==> b'.tokens == Refill(b, now))
      && b'.tokens <= b.burst as real
      && b'.rate == b.rate && b'.burst == b.burst && b'.last == now
  {
  }

  /** A sequence of attempts at the given times: how many succeeded, and the final state. */
  function Attempts(b: Bucket, times: seq<real>): (nat, Bucket)
    decreases |times|
  {
    if times == [] then (0, b)
    else
      var (ok, b1) := Attempt(b, times[0]);
      var (n, b2) := Attempts(b1, times[1..]);
      (n + (if ok then 1 else 0), b2)
  }

  function LastTime(start: real, times: seq<real>): real {
    if times == [] then start else times[|times| - 1]
  }

  predicate Monotone(start: real, times: seq<real>) {
    (forall i :: 0 <= i < |times| ==> start <= times[i])
    && (forall i, j :: 0 <= i < j < |times| ==> times[i] <= times[j])
  }

  /** Attempts keep the rate and the burst and end at the last reading. */
  lemma {:induction false} AttemptsFrame(b: Bucket, times: seq<real>)
    ensures var b' := Attempts(b, times).1;
      b'.rate == b.rate && b'.burst == b.burst && b'.last == LastTime(b.last, times)
    decreases |times|
  {
    if times != [] {
      var (ok, b1) := Attempt(b, times[0]);
      AttemptsFrame(b1, times[1..]);
    }
  }

  lemma Distribute(r: real, a: real, m: real, e: real)
    ensures r * (e - a) == (m - a) * r + r * (e - m)
  {
  }

  /** One attempt: the token it may grant plus the tokens left are at most
      the tokens before plus what the rate added since the last refill. */
  lemma AttemptBound(b: Bucket, now: real)
    ensures (if Attempt(b, now).0 then 1.0 else 0.0) + Attempt(b, now).1.tokens
      <= b.tokens + (now - b.last) * b.rate
  {
    var t := Refill(b, now);
    assert t <= b.tokens + (now - b.last) * b.rate;
  }

  /** What the rate adds between two clock readings. */
  function Gain(rate: real, from: real, to: real): real {
    (to - from) * rate
  }

  /** What the rate adds over the refills at the given times, refill by refill. */
  function Added(rate: real, start: real, times: seq<real>): real
    decreases |times|
  {
    if times == [] then 0.0 else Gain(rate, start, times[0]) + Added(rate, times[0], times[1..])
  }

  /** The refills add up to the rate times the whole span. */
  lemma {:induction false} AddedTelescopes(rate: real, start: real, times: seq<real>)
    ensures Added(rate, start, times) == rate * (LastTime(start, times) - start)
    decreases |times|
  {
    if times != [] {
      AddedTelescopes(rate, times[0], times[1..]);
      assert LastTime(times[0], times[1..]) == LastTime(start, times);
      Distribute(rate, start, times[0], LastTime(start, times));
    }
  }

  /** One unfolding of the left side of `SpentPlusLeftStepwise`. */
  lemma SpentUnfold(b: Bucket, times: seq<real>)
    requires times != []
    ensures Attempts(b, times).0 as real + Attempts(b, times).1.tokens
      == (Attempts(Attempt(b, times[0]).1, times[1..]).0 + if Attempt(b, times[0]).0 then 1 else 0) as real
         + Attempts(Attempt(b, times[0]).1, times[1..]).1.tokens
  {
  }

  /** One unfolding of the right side of `SpentPlusLeftStepwise`. */
  lemma AddedUnfold(b: Bucket, times: seq<real>)
    requires times != []
    ensures b.tokens + Added(b.rate, b.last, times)
      == b.tokens + (Gain(b.rate, b.last, times[0]) + Added(Attempt(b, times[0]).1.rate, Attempt(b, times[0]).1.last, times[1..]))
  {
    var b1 := Attempt(b, times[0]).1;
    assert b1.rate == b.rate && b1.last == times[0];
  }

  /** The inductive step of `SpentPlusLeftStepwise`, for one attempt at
      `now` followed by attempts that spend `n` and leave `left`. */
  lemma SpentPlusLeftStep(b: Bucket, now: real, n: nat, left: real, added: real)
    ensures n as real + left <= Attempt(b, now).1.tokens + added
      ==> (n + if Attempt(b, now).0 then 1 else 0) as real + left <= b.tokens + (Gain(b.rate, b.last, now) + added)
  {
    AttemptBound(b, now);
    var (ok, b1) := Attempt(b, now);
    SumStep(n, if ok then 1 else 0, left, b1.tokens, added, b.tokens, Gain(b.rate, b.last, now));
  }

  /** The linear step behind `SpentPlusLeftStep`, over plain numbers. */
  lemma SumStep(n: nat, spent: nat, left: real, tokens1: real, added: real, tokens0: real, gain: real)
    requires spent as real + tokens1 <= tokens0 + gain
    ensures n as real + left <= tokens1 + added ==> (n + spent) as real + left <= tokens0 + (gain + added)
  {
  }

  /** Spent plus left is bounded by the start count plus the refills. */
  lemma {:induction false} SpentPlusLeftStepwise(b: Bucket, times: seq<real>)
    ensures Attempts(b, times).0 as real + Attempts(b, times).1.tokens <= b.tokens + Added(b.rate, b.last, times)
    decreases |times|
  {
    if times != [] {
      var b1, rest := Attempt(b, times[0]).1, times[1..];
      SpentPlusLeftStepwise(b1, rest);
      SpentUnfold(b, times);
      AddedUnfold(b, times);
      SpentPlusLeftStep(b, times[0], Attempts(b1, rest).0, Attempts(b1, rest).1.tokens, Added(b1.rate, b1.last, rest));
    }
  }

  /** Tokens spent plus tokens left never exceed tokens at the start plus
      what the rate has added since. This holds whatever the clock does,
      because the burst cap only ever lowers the count. */
  lemma SpentPlusLeft(b: Bucket, times: seq<real>)
    ensures Attempts(b, times).0 as real + Attempts(b, times).1.tokens
      <= b.tokens + b.rate * (LastTime(b.last, times) - b.last)
  {
    SpentPlusLeftStepwise(b, times);
    AddedTelescopes(b.rate, b.last, times);
  }

  lemma NonNegativeProduct(x: real, y: real)
    requires x >= 0.0 && y >= 0.0
    ensures x * y >= 0.0
  {
  }

  /** One refill to `tokens + gain` or to the burst, then maybe one token
      taken, stays at or above a floor that is at most 0 and at most the
      starting count. */
  lemma FloorStep(t: real, tokens: real, gain: real, burst: real, floor: real)
    requires gain >= 0.0 && burst >= 0.0
    requires floor <= 0.0 && floor <= tokens
    requires t == burst || t == tokens + gain
    ensures (if t >= 1.0 then t - 1.0 else t) >= floor
  {
  }

  /** With a clock that never runs backwards and a non-negative rate and
      burst, the token count never drops below min(start count, 0). */
  lemma {:induction false} TokensFloor(b: Bucket, times: seq<real>, floor: real)
    requires Monotone(b.last, times)
    requires b.rate >= 0.0 && b.burst >= 0
    requires floor <= 0.0 && floor <= b.tokens
    ensures Attempts(b, times).1.tokens >= floor
    decreases |times|
  {
    if times != [] {
      var (ok, b1) := Attempt(b, times[0]);
      assert b.last <= times[0];
      var gain := (times[0] - b.last) * b.rate;
      NonNegativeProduct(times[0] - b.last, b.rate);
      FloorStep(Refill(b, times[0]), b.tokens, gain, b.burst as real, floor);
      assert Monotone(b1.last, times[1..]) by {
        forall i | 0 <= i < |times[1..]| ensures b1.last <= times[1..][i] {
          assert times[1..][i] == times[i + 1];
        }
      }
      TokensFloor(b1, times[1..], floor);
    }
  }

  /** Conservation: over attempts spanning T seconds, a bucket that starts
      at most full grants at most burst + rate * T tokens. */
  lemma Conservation(b: Bucket, times: seq<real>)
    requires Monotone(b.last, times)
    requires b.rate >= 0.0 && b.burst >= 0 && b.tokens <= b.burst as real
    ensures Attempts(b, times).0 as real <= b.burst as real + b.rate * (LastTime(b.last, times) - b.last)
  {
    SpentPlusLeft(b, times);
    var floor := MinReal(b.tokens, 0.0);
    TokensFloor(b, times, floor);
  }

  /** One turn of `acquire`'s retry loop reads the clock twice: `check` for
      the loop test against the deadline, then `now` under the lock for the
      attempt. Waiting for the lock can put `now` past the deadline. */
  datatype Turn = Turn(check: real, now: real)

  /** The attempt readings of a run of turns. */
  function Nows(ts: seq<Turn>): (r: seq<real>)
    ensures |r| == |ts|
  {
    seq(|ts|, i requires 0 <= i < |ts| => ts[i].now)
  }

  /** The retry loop of `acquire`: while a turn's loop test reads before
      `start + timeout`, one attempt at that turn's attempt reading, until a
      token is granted; a schedule that ends first is a timeout too. */
  function Retry(b: Bucket, start: real, timeout: real, ticks: seq<Turn>): (bool, Bucket)
    decreases |ticks|
  {
    if ticks == [] || ticks[0].check - start >= timeout then (false, b)
    else
      var (ok, b1) := Attempt(b, ticks[0].now);
      if ok then (true, b1) else Retry(b1, start, timeout, ticks[1..])
  }

  /** Attempt readings of `k + 1` turns: the first turn's, then those of the next `k`. */
  lemma NowsCons(ticks: seq<Turn>, k: nat)
    requires k < |ticks|
    ensures Nows(ticks[..k + 1]) == [ticks[0].now] + Nows(ticks[1..][..k])
  {
  }

  /** An `acquire` call is a prefix of single attempts: it grants one token if
      it succeeds and none if it fails, so `Conservation` bounds every run of
      `acquire` calls too. */
  lemma {:induction false} RetryIsAttempts(b: Bucket, start: real, timeout: real, ticks: seq<Turn>)
    ensures exists k :: (0 <= k <= |ticks|
      && Attempts(b, Nows(ticks[..k])) == (if Retry(b, start, timeout, ticks).0 then 1 else 0, Retry(b, start, timeout, ticks).1))
    decreases |ticks|
  {
    if ticks == [] || ticks[0].check - start >= timeout {
      assert Nows(ticks[..0]) == [];
    } else {
      var (ok, b1) := Attempt(b, ticks[0].now);
      if ok {
        NowsCons(ticks, 0);
        assert Nows(ticks[..1]) == [ticks[0].now];
        assert Attempts(b, Nows(ticks[..1])) == (1, b1);
      } else {
        RetryIsAttempts(b1, start, timeout, ticks[1..]);
        var k :| 0 <= k <= |ticks[1..]|
          && Attempts(b1, Nows(ticks[1..][..k])) == (if Retry(b1, start, timeout, ticks[1..]).0 then 1 else 0, Retry(b1, start, timeout, ticks[1..]).1);
        NowsCons(ticks, k);
        var ns := Nows(ticks[..k + 1]);
        assert ns[0] == ticks[0].now && ns[1..] == Nows(ticks[1..][..k]);
        assert Attempts(b, ns) == Attempts(b1, Nows(ticks[1..][..k]));
      }
    }
  }

  /** A granted `acquire` took its token in a turn whose loop test, like every
      earlier turn's, read before the deadline; the attempt reading of that
      turn is not bounded. */
  lemma {:induction false} RetryGrantsBeforeDeadline(b: Bucket, start: real, timeout: real, ticks: seq<Turn>)
    requires Retry(b, start, timeout, ticks).0
    ensures exists i :: (0 <= i < |ticks|
      && (forall j :: 0 <= j <= i ==> ticks[j].check - start < timeout)
      && Attempt(Attempts(b, Nows(ticks[..i])).1, ticks[i].now).0)
    decreases |ticks|
  {
    var (ok, b1) := Attempt(b, ticks[0].now);
    if ok {
      assert Nows(ticks[..0]) == [];
      assert Attempt(Attempts(b, Nows(ticks[..0])).1, ticks[0].now).0;
    } else {
      var tail := ticks[1..];
      RetryGrantsBeforeDeadline(b1, start, timeout, tail);
      var i :| 0 <= i < |tail|
        && (forall j :: 0 <= j <= i ==> tail[j].check - start < timeout)
        && Attempt(Attempts(b1, Nows(tail[..i])).1, tail[i].now).0;
      NowsCons(ticks, i);
      var ns := Nows(ticks[..i + 1]);
      assert ns[0] == ticks[0].now && ns[1..] == Nows(tail[..i]);
      assert Attempts(b, ns).1 == Attempts(b1, Nows(tail[..i])).1;
      forall j | 0 <= j <= i + 1 ensures ticks[j].check - start < timeout {
        if j > 0 {
          assert ticks[j] == tail[j - 1];
        }
      }
      assert ticks[i + 1] == tail[i];
    }
  }

  /** The grant can come after the deadline: a loop test at 14 s of a 15 s
      timeout, followed by an attempt at 20 s, still takes a token. */
  lemma LateGrant()
    ensures var b := Bucket(1.0, 5, 5.0, 0.0);
      Retry(b, 0.0, 15.0, [Turn(14.0, 20.0)]) == (true, Bucket(1.0, 5, 4.0, 20.0))
  {
    var b := Bucket(1.0, 5, 5.0, 0.0);
    assert Refill(b, 20.0) == 5.0;
  }

  /** One turn of the retry loop at turn `i`. */
  lemma RetryStep(b: Bucket, start: real, timeout: real, ticks: seq<Turn>, i: nat)
    requires i < |ticks| && ticks[i].check - start < timeout
    ensures var (ok, b1) := Attempt(b, ticks[i].now);
      Retry(b, start, timeout, ticks[i..]) == if ok then (true, b1) else Retry(b1, start, timeout, ticks[i + 1..])
  {
    assert ticks[i..][1..] == ticks[i + 1..];
  }

  class TokenBucket {
    var rate: real
    var burst: int
    var tokens: real
    var lastUpdate: real

    function State(): Bucket
      reads this
    {
      Bucket(rate, burst, tokens, lastUpdate)
    }

    /** Clamps the rate to at least 0.1 and the burst to at least 1; the
        token count starts at the unclamped burst argument. */
    constructor (emailsPerSecond: real, burstSize: int, now: real)
      ensures rate == MaxReal(emailsPerSecond, MinRate) && rate >= MinRate
      ensures burst == MaxInt(burstSize, MinBurst) && burst >= MinBurst
      ensures tokens == burstSize as real && tokens <= burst as real
      ensures lastUpdate == now
    {
      rate := MaxReal(emailsPerSecond, MinRate);
      burst := MaxInt(burstSize, MinBurst);
      tokens := burstSize as real;
      lastUpdate := now;
    }

    /** One locked attempt inside `acquire`, at clock reading `now`. */
    method TryAcquire(now: real) returns (ok: bool)
      modifies this
      ensures (ok, State()) == Attempt(old(State()), now)
      ensures ok <==> Refill(old(State()), now) >= 1.0
      ensures tokens <= burst as real
    {
      ghost var before := State();
      var refilled := MinReal(burst as real, tokens + (now - lastUpdate) * rate);
      assert refilled == Refill(before, now);
      tokens := refilled;
      lastUpdate := now;
      if tokens >= 1.0 {
        tokens := tokens - 1.0;
        ok := true;
      } else {
        ok := false;
      }
      assert State() == Attempt(before, now).1;
    }

    /** The pool's in-place update of a limiter's settings: neither value
        is clamped, and the token count is kept even above a lowered burst
        until the next refill caps it. */
    method Reconfigure(emailsPerSecond: real, burstSize: int)
      modifies this
      ensures State() == old(State()).(rate := emailsPerSecond, burst := burstSize)
    {
      rate := emailsPerSecond;
      burst := burstSize;
    }

    /** `acquire(timeout)`: `start` is the first clock reading and `ticks`
        the two readings of each turn of the retry loop. */
    method Acquire(timeout: real, start: real, ticks: seq<Turn>) returns (ok: bool)
      modifies this
      ensures (ok, State()) == Retry(old(State()), start, timeout, ticks)
    {
      var i := 0;
      ok := false;
      while i < |ticks| && ticks[i].check - start < timeout
        invariant 0 <= i <= |ticks|
        invariant Retry(old(State()), start, timeout, ticks) == Retry(State(), start, timeout, ticks[i..])
        decreases |ticks| - i
      {
        RetryStep(State(), start, timeout, ticks, i);
        ok := TryAcquire(ticks[i].now);
        if ok {
          return;
        }
        i := i + 1;
      }
    }
  }
}
