/** Token-bucket admission control: the `RateLimiter` class of
    performance/async_api.py. Time is passed in explicitly; the asyncio lock
    only serialises the passes, so each pass is one atomic step here. */
module RateLimiting {
  import opened Common

  /** The four fields of a limiter: `_capacity`, `_tokens`, `_per`, `_last`. */
  datatype Bucket = Bucket(capacity: real, tokens: real, per: real, last: real)

  /** How one pass through the body of `acquire` ends: the tokens are taken,
      the caller must sleep `wait` seconds and try again, or a division by
      zero raises (`per == 0` in the refill, `capacity == 0` in the wait). */
  datatype Attempt = Granted | MustWait(wait: real) | DivisionByZero

  datatype Step = Step(bucket: Bucket, attempt: Attempt)

  /** The bucket `__init__(rate, per)` creates at time `now`: full. */
  function Fresh(rate: real, per: real, now: real): Bucket {
    Bucket(rate, rate, per, now)
  }

  predicate InBounds(b: Bucket) {
    0.0 <= b.tokens <= b.capacity
  }

  /** tokens regenerate at `capacity / per` per second */
  function RateOf(b: Bucket): real
    requires b.per != 0.0
  {
    b.capacity / b.per
  }

  /** The refill at the start of a pass: `_last` moves only when the refill is positive. */
  function Refill(b: Bucket, now: real): Bucket
    requires b.per != 0.0
  {
    var refill := (now - b.last) * RateOf(b);
    if refill > 0.0 then b.(tokens := MinReal(b.capacity, b.tokens + refill), last := now) else b
  }

  /** One pass of `acquire(cost)` at time `now`. */
  function TryAcquire(b: Bucket, cost: real, now: real): Step {
    if b.per == 0.0 then Step(b, DivisionByZero)
    else
      var r := Refill(b, now);
      if cost <= r.tokens then Step(r.(tokens := r.tokens - cost), Granted)
      else if r.capacity == 0.0 then Step(r, DivisionByZero)
      else Step(r, MustWait((cost - r.tokens) * (r.per / r.capacity)))
  }

  /** A limiter whose capacity and period are positive. */
  predicate Configured(b: Bucket) {
    b.capacity > 0.0 && b.per > 0.0
  }

  /** On a clock that does not run backwards, a refill brings the tokens to
      `min(capacity, tokens + elapsed * capacity / per)` and stamps `now`. */
  lemma RefillOnMonotoneClock(b: Bucket, now: real)
    requires Configured(b) && InBounds(b) && b.last <= now
    ensures Refill(b, now).last == now
    ensures Refill(b, now).tokens == MinReal(b.capacity, b.tokens + (now - b.last) * RateOf(b))
    ensures Refill(b, now).capacity == b.capacity && Refill(b, now).per == b.per
  {
    var rate := RateOf(b);
    assert rate > 0.0;
    if now > b.last {
      assert (now - b.last) * rate > 0.0;
    }
  }

  /** A clock reading at or before `_last` changes nothing. */
  lemma RefillIgnoresEarlierClock(b: Bucket, now: real)
    requires Configured(b) && now <= b.last
    ensures Refill(b, now) == b
  {
    var rate := RateOf(b);
    assert rate > 0.0;
    assert (now - b.last) * rate <= 0.0;
  }

  /** Tokens are taken only when there are enough, and a refill is capped,
      so a pass keeps the tokens within [0, capacity]. */
  lemma TryAcquireInBounds(b: Bucket, cost: real, now: real)
    requires InBounds(b) && 0.0 <= cost
    ensures InBounds(TryAcquire(b, cost, now).bucket)
    ensures TryAcquire(b, cost, now).bucket.capacity == b.capacity
    ensures TryAcquire(b, cost, now).bucket.per == b.per
  {
    if b.per != 0.0 {
      var r := Refill(b, now);
      assert 0.0 <= r.tokens <= r.capacity by {
        var refill := (now - b.last) * RateOf(b);
        if refill > 0.0 {
          assert r.tokens == MinReal(b.capacity, b.tokens + refill);
        }
      }
    }
  }

  /** On a shortfall the wait is `(cost - tokens) * per / capacity`; with no
      other caller, a pass at least that much later is granted when the cost
      fits in the bucket. */
  lemma {:induction false} WaitIsEnough(b: Bucket, cost: real, now: real, later: real)
    requires Configured(b) && InBounds(b) && b.last <= now
    requires 0.0 <= cost <= b.capacity
    requires TryAcquire(b, cost, now).attempt.MustWait?
    requires later >= now + TryAcquire(b, cost, now).attempt.wait
    ensures TryAcquire(TryAcquire(b, cost, now).bucket, cost, later).attempt == Granted
  {
    RefillOnMonotoneClock(b, now);
    var b1 := TryAcquire(b, cost, now).bucket;
    assert b1 == Refill(b, now);
    var w := TryAcquire(b, cost, now).attempt.wait;
    var rate := RateOf(b1);
    var inv := b1.per / b1.capacity;
    assert w == (cost - b1.tokens) * inv;
    assert inv * rate == 1.0;
    assert b1.tokens < cost;
    var elapsed := later - b1.last;
    assert elapsed >= w;
    assert rate > 0.0;
    assert elapsed * rate >= w * rate;
    assert w * rate == (cost - b1.tokens) * (inv * rate);
    var refill := elapsed * rate;
    assert refill >= cost - b1.tokens;
    var b2 := Refill(b1, later);
    assert b2.tokens == MinReal(b1.capacity, b1.tokens + refill);
    assert b2.tokens >= cost;
  }

  /** A cost above the capacity is never granted, because a refill is capped
      at the capacity. */
  lemma OverCapacityRefused(b: Bucket, cost: real, now: real)
    requires InBounds(b) && cost > b.capacity
    ensures TryAcquire(b, cost, now).attempt != Granted
    ensures InBounds(TryAcquire(b, cost, now).bucket)
    ensures TryAcquire(b, cost, now).bucket.capacity == b.capacity
  {
    TryAcquireInBounds(b, cost, now);
  }

  // ---------------------------------------------------------------------------
  // `acquire`: passes repeated until one is granted

  /** `Acquired`: a pass was granted; `Raised`: a pass raised
      ZeroDivisionError; `ClockStopped`: the clock readings given ran out
      while the caller was still waiting. */
  datatype AcquireEnd = Acquired | Raised | ClockStopped

  datatype AcquireRun = AcquireRun(bucket: Bucket, waits: seq<real>, end: AcquireEnd)

  /** `acquire(cost)` in which the i-th pass reads the clock as `clock[i]`;
      `waits` are the sleeps between passes. */
  function RunAcquire(b: Bucket, cost: real, clock: seq<real>): AcquireRun
    decreases |clock|
  {
    if clock == [] then AcquireRun(b, [], ClockStopped)
    else
      var s := TryAcquire(b, cost, clock[0]);
      match s.attempt
      case Granted => AcquireRun(s.bucket, [], Acquired)
      case DivisionByZero => AcquireRun(s.bucket, [], Raised)
      case MustWait(w) =>
        var rest := RunAcquire(s.bucket, cost, clock[1..]);
        rest.(waits := [w] + rest.waits)
  }

  /** However long the caller keeps trying, a cost above the capacity is
      never acquired, and the bucket stays within bounds. */
  lemma {:induction false} OverCapacityNeverAcquired(b: Bucket, cost: real, clock: seq<real>)
    requires InBounds(b) && cost > b.capacity
    ensures RunAcquire(b, cost, clock).end != Acquired
    ensures InBounds(RunAcquire(b, cost, clock).bucket)
    decreases |clock|
  {
    if clock != [] {
      OverCapacityRefused(b, cost, clock[0]);
      var s := TryAcquire(b, cost, clock[0]);
      if s.attempt.MustWait? {
        OverCapacityNeverAcquired(s.bucket, cost, clock[1..]);
      }
    }
  }

  /** With no other caller and sleeps that last at least as long as asked,
      a cost that fits in the bucket is acquired within two passes. */
  lemma AcquireWithinTwoPasses(b: Bucket, cost: real, clock: seq<real>)
    requires Configured(b) && InBounds(b) && 0.0 <= cost <= b.capacity
    requires |clock| >= 2 && b.last <= clock[0]
    requires TryAcquire(b, cost, clock[0]).attempt.MustWait? ==>
               clock[1] >= clock[0] + TryAcquire(b, cost, clock[0]).attempt.wait
    ensures RunAcquire(b, cost, clock).end == Acquired
    ensures |RunAcquire(b, cost, clock).waits| <= 1
  {
    var s := TryAcquire(b, cost, clock[0]);
    if s.attempt.MustWait? {
      WaitIsEnough(b, cost, clock[0], clock[1]);
      assert clock[1..][0] == clock[1];
    }
  }

  // ---------------------------------------------------------------------------
  // No token fabrication over a history of passes

  datatype Call = Call(cost: real, now: real)

  datatype Served = Served(bucket: Bucket, granted: real)

  /** What the rate regenerates from `from` to `to`. */
  function Inflow(from: real, to: real, rate: real): real {
    (to - from) * rate
  }

  /** Regeneration over consecutive intervals adds up. */
  lemma InflowAdds(t0: real, t1: real, t2: real, rate: real)
    ensures Inflow(t1, t2, rate) + Inflow(t0, t1, rate) == Inflow(t0, t2, rate)
  {
    assert (t2 - t1) * rate + (t1 - t0) * rate == (t2 - t0) * rate;
  }

  /** The cost a pass grants. */
  function Gain(s: Step, cost: real): real {
    if s.attempt == Granted then cost else 0.0
  }

  /** One pass per call, in order, from bucket `b`; `granted` sums the
      costs that were granted. */
  function Serve(b: Bucket, calls: seq<Call>): Served
    decreases |calls|
  {
    if calls == [] then Served(b, 0.0)
    else
      var s := TryAcquire(b, calls[0].cost, calls[0].now);
      var rest := Serve(s.bucket, calls[1..]);
      Served(rest.bucket, rest.granted + Gain(s, calls[0].cost))
  }

  /** Passes at non-decreasing times, none before `from`, none with a
      negative cost. */
  predicate Orderly(from: real, calls: seq<Call>)
    decreases |calls|
  {
    calls == [] || (from <= calls[0].now && 0.0 <= calls[0].cost && Orderly(calls[0].now, calls[1..]))
  }

  lemma {:induction false} OrderlyCostsNonNegative(from: real, calls: seq<Call>)
    requires Orderly(from, calls)
    ensures forall i :: 0 <= i < |calls| ==> 0.0 <= calls[i].cost
    decreases |calls|
  {
    if calls != [] {
      OrderlyCostsNonNegative(calls[0].now, calls[1..]);
      forall i | 0 <= i < |calls| ensures 0.0 <= calls[i].cost {
        if i > 0 { assert calls[i] == calls[1..][i - 1]; }
      }
    }
  }

  function EndTime(from: real, calls: seq<Call>): real
    decreases |calls|
  {
    if calls == [] then from else EndTime(calls[0].now, calls[1..])
  }

  /** One pass on a monotone clock: the tokens it grants plus the tokens it
      leaves are at most the tokens before plus what regenerated since
      `_last`. */
  lemma StepBudget(b: Bucket, cost: real, now: real, rate: real)
    requires Configured(b) && InBounds(b) && b.last <= now && 0.0 <= cost
    requires rate == RateOf(b)
    ensures TryAcquire(b, cost, now).bucket.last == now
    ensures TryAcquire(b, cost, now).bucket.capacity == b.capacity
    ensures TryAcquire(b, cost, now).bucket.per == b.per
    ensures InBounds(TryAcquire(b, cost, now).bucket)
    ensures TryAcquire(b, cost, now).bucket.tokens + Gain(TryAcquire(b, cost, now), cost)
            <= b.tokens + Inflow(b.last, now, rate)
  {
    RefillOnMonotoneClock(b, now);
    TryAcquireInBounds(b, cost, now);
  }

  /** Every pass keeps the tokens within [0, capacity]. */
  lemma {:induction false} ServeInBounds(b: Bucket, calls: seq<Call>)
    requires InBounds(b) && forall i :: 0 <= i < |calls| ==> 0.0 <= calls[i].cost
    ensures InBounds(Serve(b, calls).bucket)
    decreases |calls|
  {
    if calls != [] {
      TryAcquireInBounds(b, calls[0].cost, calls[0].now);
      var tail := calls[1..];
      assert forall i :: 0 <= i < |tail| ==> 0.0 <= tail[i].cost by {
        forall i | 0 <= i < |tail| ensures 0.0 <= tail[i].cost {
          assert tail[i] == calls[i + 1];
        }
      }
      ServeInBounds(TryAcquire(b, calls[0].cost, calls[0].now).bucket, tail);
    }
  }

  /** Over any history of passes at non-decreasing times, the tokens granted
      plus the tokens left never exceed the tokens at the start plus what
      the rate `capacity / per` regenerates over the elapsed time. */
  lemma {:induction false} NoTokenFabrication(b: Bucket, calls: seq<Call>, rate: real)
    requires Configured(b) && InBounds(b) && Orderly(b.last, calls)
    requires rate == RateOf(b)
    ensures Serve(b, calls).bucket.tokens + Serve(b, calls).granted
            <= b.tokens + Inflow(b.last, EndTime(b.last, calls), rate)
    decreases |calls|
  {
    if calls != [] {
      NextBucket(b, calls, rate);
      NoTokenFabrication(TryAcquire(b, calls[0].cost, calls[0].now).bucket, calls[1..], rate);
      BudgetStep(b, calls, rate);
    } else {
      assert Inflow(b.last, EndTime(b.last, calls), rate) == 0.0;
    }
  }

  /** After the first pass of an orderly history the bucket is still
      configured and in bounds, stamped with the pass's time, and the pass
      kept within the budget of its interval. */
  lemma NextBucket(b: Bucket, calls: seq<Call>, rate: real)
    requires Configured(b) && InBounds(b) && Orderly(b.last, calls) && calls != []
    requires rate == RateOf(b)
    ensures var s := TryAcquire(b, calls[0].cost, calls[0].now);
      && Configured(s.bucket) && InBounds(s.bucket) && Orderly(s.bucket.last, calls[1..])
      && rate == RateOf(s.bucket) && s.bucket.last == calls[0].now
      && s.bucket.tokens + Gain(s, calls[0].cost) <= b.tokens + Inflow(b.last, calls[0].now, rate)
  {
    StepBudget(b, calls[0].cost, calls[0].now, rate);
  }

  /** The budget of a history follows from the budget of its first pass
      and the budget of the rest. */
  lemma BudgetStep(b: Bucket, calls: seq<Call>, rate: real)
    requires calls != []
    requires var s := TryAcquire(b, calls[0].cost, calls[0].now);
      && s.bucket.last == calls[0].now
      && s.bucket.tokens + Gain(s, calls[0].cost) <= b.tokens + Inflow(b.last, calls[0].now, rate)
    ensures var next := TryAcquire(b, calls[0].cost, calls[0].now).bucket;
      (Serve(next, calls[1..]).bucket.tokens + Serve(next, calls[1..]).granted
         <= next.tokens + Inflow(next.last, EndTime(next.last, calls[1..]), rate))
      ==> (Serve(b, calls).bucket.tokens + Serve(b, calls).granted
         <= b.tokens + Inflow(b.last, EndTime(b.last, calls), rate))
  {
    InflowAdds(b.last, calls[0].now, EndTime(calls[0].now, calls[1..]), rate);
  }

  /** Hence the total granted is at most `capacity + elapsed * rate`. */
  lemma GrantedBounded(b: Bucket, calls: seq<Call>, rate: real)
    requires Configured(b) && InBounds(b) && Orderly(b.last, calls)
    requires rate == RateOf(b)
    ensures Serve(b, calls).granted <= b.capacity + Inflow(b.last, EndTime(b.last, calls), rate)
  {
    OrderlyCostsNonNegative(b.last, calls);
    ServeInBounds(b, calls);
    NoTokenFabrication(b, calls, rate);
  }

  // ---------------------------------------------------------------------------
  // The limiter object

  class RateLimiter {
    var capacity: real
    var tokens: real
    var per: real
    var last: real

    function State(): Bucket
      reads this
    {
      Bucket(capacity, tokens, per, last)
    }

    /** `RateLimiter(rate, per)` created at time `now`: the bucket starts full. */
    constructor (rate: real, per: real, now: real)
      ensures State() == Fresh(rate, per, now)
      ensures rate >= 0.0 ==> InBounds(State())
    {
      capacity := rate;
      tokens := rate;
      this.per := per;
      last := now;
    }

    /** One pass through the body of `acquire`, at time `now`. */
    method Pass(cost: real, now: real) returns (a: Attempt)
      modifies this
      ensures Step(State(), a) == TryAcquire(old(State()), cost, now)
    {
      if per == 0.0 {
        return DivisionByZero;
      }
      ghost var b0 := State();
      var refill := (now - last) * (capacity / per);
      assert refill == (now - b0.last) * RateOf(b0);
      if refill > 0.0 {
        tokens := MinReal(capacity, tokens + refill);
        last := now;
      }
      assert State() == Refill(b0, now);
      ghost var b1 := State();
      if cost <= tokens {
        tokens := tokens - cost;
        assert TryAcquire(b0, cost, now) == Step(State(), Granted);
        return Granted;
      }
      var need := cost - tokens;
      if capacity == 0.0 {
        assert TryAcquire(b0, cost, now) == Step(State(), DivisionByZero);
        return DivisionByZero;
      }
      var wait := need * (per / capacity);
      assert b1 == Refill(b0, now) && !(cost <= b1.tokens) && b1.capacity != 0.0;
      assert wait == (cost - b1.tokens) * (b1.per / b1.capacity);
      a := MustWait(wait);
      assert TryAcquire(b0, cost, now).bucket == b1;
      assert TryAcquire(b0, cost, now).attempt == a;
    }

    /** `acquire(cost)`: the recursive re-try after each sleep is a loop
        here; `clock[i]` is the time read on the i-th pass. */
    method Acquire(cost: real, clock: seq<real>) returns (end: AcquireEnd, waits: seq<real>)
      modifies this
      ensures AcquireRun(State(), waits, end) == RunAcquire(old(State()), cost, clock)
    {
      waits := [];
      var i := 0;
      while i < |clock|
        invariant 0 <= i <= |clock|
        invariant var rest := RunAcquire(State(), cost, clock[i..]);
          RunAcquire(old(State()), cost, clock) == rest.(waits := waits + rest.waits)
      {
        ghost var before := State();
        var a := Pass(cost, clock[i]);
        assert clock[i..][1..] == clock[i + 1..];
        match a {
          case Granted =>
            return Acquired, waits;
          case DivisionByZero =>
            return Raised, waits;
          case MustWait(w) =>
            waits := waits + [w];
        }
        i := i + 1;
      }
      end := ClockStopped;
    }
  }
}
