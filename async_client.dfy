/** The request engine of `AsyncAPIClient` in performance/async_api.py: the
    URL join, the retry loop of `_request` with its response classification
    and jittered backoff, and the order of `parallel_get`'s results. The
    HTTP session, the JSON decoder, `random.random()` and the clock are
    parameters; the semaphores only serialise work and are not modelled. */
module AsyncClient {
  import opened Common
  import opened RateLimiting

  // ---------------------------------------------------------------------------
  // URL join

  predicate IsSlash(c: char) { c == '/' }

  /** The constructor stores `base_url.rstrip('/')`. */
  function BaseUrl(base: string): string {
    RStripWhere(base, IsSlash)
  }

  /** The URL `_request` builds: the stored base, one '/', and the path
      with its leading slashes removed. */
  function RequestUrl(baseUrl: string, path: string): string {
    baseUrl + "/" + LStripWhere(path, IsSlash)
  }

  /** Exactly one slash at the seam: the URL is the stored base, one '/',
      and the stripped path, and the characters on both sides of that '/'
      are not slashes. */
  lemma OneSlashAtSeam(baseUrl: string, path: string)
    requires baseUrl == [] || baseUrl[|baseUrl| - 1] != '/'
    ensures var u := RequestUrl(baseUrl, path);
      && u[..|baseUrl|] == baseUrl
      && u[|baseUrl|] == '/'
      && (|baseUrl| + 1 < |u| ==> u[|baseUrl| + 1] != '/')
      && u[|baseUrl| + 1..] == LStripWhere(path, IsSlash)
  {
    var p := LStripWhere(path, IsSlash);
    var u := RequestUrl(baseUrl, path);
    assert u == baseUrl + "/" + p;
    assert u[..|baseUrl|] == baseUrl;
    assert u[|baseUrl| + 1..] == p;
    if |baseUrl| + 1 < |u| {
      assert u[|baseUrl| + 1] == p[0];
    }
  }

  /** The stored base is the given one without its trailing slashes: it
      does not end with '/', and only slashes were dropped. */
  lemma StoredBase(base: string)
    ensures var b := BaseUrl(base);
      && (b == [] || b[|b| - 1] != '/')
      && b == base[..|b|]
      && (forall i :: |b| <= i < |base| ==> base[i] == '/')
  {
  }

  /** The path part keeps everything after the leading slashes. */
  lemma StrippedPath(path: string)
    ensures var p := LStripWhere(path, IsSlash);
      && (p == [] || p[0] != '/')
      && p == path[|path| - |p|..]
      && (forall i :: 0 <= i < |path| - |p| ==> path[i] == '/')
  {
  }

  /** Extra slashes on either side do not change the URL, and storing an
      already stripped base changes nothing. */
  lemma {:induction false} ExtraSlashesIgnored(base: string, path: string)
    ensures RequestUrl(BaseUrl(base + "/"), path) == RequestUrl(BaseUrl(base), path)
    ensures RequestUrl(BaseUrl(base), "/" + path) == RequestUrl(BaseUrl(base), path)
    ensures BaseUrl(BaseUrl(base)) == BaseUrl(base)
  {
    assert (base + "/")[..|base + "/"| - 1] == base;
    assert ("/" + path)[1..] == path;
    RStripIdempotent(base, IsSlash);
  }

  // ---------------------------------------------------------------------------
  // One attempt of `_request`

  /** What the session produced for one attempt: a response with its status
      and body text, an exception raised by the session (a timeout, a
      connection error), or the cancellation of the calling task. */
  datatype Transport = Response(status: int, body: string) | TransportError | Cancelled

  /** What `_request` returns: the decoded JSON document, or the raw text of
      a successful response whose body is not JSON. */
  datatype Reply<J> = Json(doc: J) | Text(text: string)

  /** The exceptions `_request` can end with: `RuntimeError("server
      error")`, the decoder's error on a 4xx body, the session's own
      exception, `CancelledError`, the `ZeroDivisionError` of a limiter
      with zero capacity or period (raised outside the `try`), and
      `RuntimeError("unreachable")` after zero attempts. */
  datatype Failure =
    | ServerError(status: int)
    | BodyNotJson
    | SessionError
    | CancelledError
    | LimiterError
    | Unreachable

  /** `ClockExhausted`: the clock readings given to the limiter ran out
      while it was still waiting, so the call has not finished. */
  datatype Outcome<J> = Value(reply: Reply<J>) | Exception(failure: Failure) | ClockExhausted

  /** How the body of the `try` ends: with a return, with an `Exception`
      that the handler retries, or with the re-raised `CancelledError`. */
  datatype Verdict<J> = Return(reply: Reply<J>) | Retry(failure: Failure) | Propagate

  /** The classification inside the `try`; `decode` is `json.loads`, `None`
      standing for its exception. */
  function Classify<J>(t: Transport, decode: string -> Option<J>): Verdict<J> {
    match t
    case Cancelled => Propagate
    case TransportError => Retry(SessionError)
    case Response(status, body) =>
      if status >= 500 then Retry(ServerError(status))
      else if status >= 400 then
        (match decode(body)
         case Some(j) => Return(Json(j))
         case None => Retry(BodyNotJson))
      else
        (match decode(body)
         case Some(j) => Return(Json(j))
         case None => Return(Text(body)))
  }

  /** The classification rules: a 5xx is retried; a 4xx returns its decoded
      body, but a 4xx whose body is not JSON raises inside the `try` and is
      retried; a success returns the document or, failing that, the text;
      only a cancellation escapes the handler. */
  lemma ClassifyRules<J>(t: Transport, decode: string -> Option<J>)
    ensures Classify(t, decode).Propagate? <==> t.Cancelled?
    ensures Classify(t, decode).Retry? <==>
              t.TransportError?
              || (t.Response? && (t.status >= 500 || (t.status >= 400 && decode(t.body).None?)))
    ensures t.Response? && t.status >= 500 ==> Classify(t, decode) == Retry(ServerError(t.status))
    ensures t.Response? && t.status < 500 && decode(t.body).Some? ==>
              Classify(t, decode) == Return(Json(decode(t.body).value))
    ensures t.Response? && t.status < 400 && decode(t.body).None? ==>
              Classify(t, decode) == Return(Text(t.body))
  {
  }

  // ---------------------------------------------------------------------------
  // The retry loop

  /** What the loop does, in order: a completed `acquire` with the sleeps
      the limiter asked for, a request sent on attempt `attempt`, a backoff
      sleep of `Pause(backoff, random)` seconds, `random` being the draw of
      `random.random()`. */
  datatype Event = Acquire(waits: seq<real>) | Send(attempt: nat) | Sleep(backoff: real, random: real)

  datatype Run<J> = Run(outcome: Outcome<J>, limiter: Bucket, events: seq<Event>)

  /** The backoff before the j-th retry sleep when the first is `b`: `b`
      doubled j times. */
  function Backoff(b: real, j: nat): real
    decreases j
  {
    if j == 0 then b else Backoff(2.0 * b, j - 1)
  }

  /** The world one call of `_request` runs in: on attempt i the limiter
      reads the clock as `clocks(i)`, the session produces `respond(i)`,
      `random.random()` returns `jitter(i)`; `decode` is `json.loads` and
      `gate` is what one `acquire()` does to the limiter. */
  datatype World<J> = World(clocks: nat -> seq<real>, respond: nat -> Transport, jitter: nat -> real,
                            decode: string -> Option<J>, gate: (Bucket, seq<real>) -> AcquireRun)

  /** `acquire()` with its default cost of one token. */
  function LimiterGate(b: Bucket, clock: seq<real>): AcquireRun {
    RunAcquire(b, 1.0, clock)
  }

  /** Attempts `k..retries` of `_request` with the current `backoff` and
      limiter state `b`, in the world `w`. */
  function Attempts<J>(k: nat, retries: int, backoff: real, b: Bucket,
                       w: World<J>): Run<J>
    decreases retries - k
  {
    if k > retries then Run(Exception(Unreachable), b, [])
    else
      var acq := w.gate(b, w.clocks(k));
      match acq.end
      case Raised => Run(Exception(LimiterError), acq.bucket, [Acquire(acq.waits)])
      case ClockStopped => Run(ClockExhausted, acq.bucket, [Acquire(acq.waits)])
      case Acquired =>
        var sent := [Acquire(acq.waits), Send(k)];
        match Classify(w.respond(k), w.decode)
        case Return(r) => Run(Value(r), acq.bucket, sent)
        case Propagate => Run(Exception(CancelledError), acq.bucket, sent)
        case Retry(f) =>
          if k == retries then Run(Exception(f), acq.bucket, sent)
          else
            var rest := Attempts(k + 1, retries, 2.0 * backoff, acq.bucket, w);
            rest.(events := [Acquire(acq.waits), Send(k), Sleep(backoff, w.jitter(k))] + rest.events)
  }

  /** The jittered sleep `backoff + random() * backoff`. */
  function Pause(backoff: real, r: real): real {
    backoff + r * backoff
  }

  /** Unfolding `Attempts` when attempt `k` fails retryably before the last
      attempt: its events, one sleep, then the later attempts with the
      backoff doubled. */
  lemma RetryStep<J>(k: nat, retries: int, backoff: real, b: Bucket, w: World<J>)
    requires k < retries
    requires w.gate(b, w.clocks(k)).end == Acquired && Classify(w.respond(k), w.decode).Retry?
    ensures var acq := w.gate(b, w.clocks(k));
      var rest := Attempts(k + 1, retries, 2.0 * backoff, acq.bucket, w);
      Attempts(k, retries, backoff, b, w)
      == rest.(events := [Acquire(acq.waits), Send(k), Sleep(backoff, w.jitter(k))] + rest.events)
  {
    var v := Classify(w.respond(k), w.decode);
    assert v.Retry?;
    var acq := w.gate(b, w.clocks(k));
    var rest := Attempts(k + 1, retries, 2.0 * backoff, acq.bucket, w);
    var run := Attempts(k, retries, backoff, b, w);
    assert run.outcome == rest.outcome;
    assert run.limiter == rest.limiter;
    assert run.events == [Acquire(acq.waits), Send(k), Sleep(backoff, w.jitter(k))] + rest.events;
  }

  /** Unfolding `Attempts` when attempt `k` ends the run: after its
      `acquire`, or after its send. */
  lemma FinalStep<J>(k: nat, retries: int, backoff: real, b: Bucket, w: World<J>)
    requires k <= retries
    requires !(k < retries && w.gate(b, w.clocks(k)).end == Acquired && Classify(w.respond(k), w.decode).Retry?)
    ensures var acq := w.gate(b, w.clocks(k));
      var run := Attempts(k, retries, backoff, b, w);
      && run.limiter == acq.bucket
      && (acq.end != Acquired ==> run.events == [Acquire(acq.waits)])
      && (acq.end == Raised ==> run.outcome == Exception(LimiterError))
      && (acq.end == ClockStopped ==> run.outcome == ClockExhausted)
      && (acq.end == Acquired ==>
            && run.events == [Acquire(acq.waits), Send(k)]
            && run.outcome == match Classify(w.respond(k), w.decode)
                              case Return(r) => Value(r)
                              case Propagate => Exception(CancelledError)
                              case Retry(f) => Exception(f))
  {
    var acq := w.gate(b, w.clocks(k));
    if acq.end == Acquired {
      var v := Classify(w.respond(k), w.decode);
      if v.Retry? {
        assert k == retries;
      }
    }
  }

  /** The event grammar of attempts `k, k+1, ...`: each attempt is one
      `acquire` followed by one send, and consecutive attempts are separated
      by exactly one sleep; the run may stop after an `acquire` that did not
      complete normally. */
  predicate Rounds(ev: seq<Event>, k: nat)
    decreases |ev|
  {
    || (|ev| == 1 && ev[0].Acquire?)
    || (|ev| == 2 && ev[0].Acquire? && ev[1] == Send(k))
    || (|ev| > 3 && ev[0].Acquire? && ev[1] == Send(k) && ev[2].Sleep? && Rounds(ev[3..], k + 1))
  }

  /** The attempts sent, in order. */
  function Sent(ev: seq<Event>): seq<nat>
    decreases |ev|
  {
    if ev == [] then []
    else (if ev[0].Send? then [ev[0].attempt] else []) + Sent(ev[1..])
  }

  /** The backoff sleeps, in order. */
  function Sleeps(ev: seq<Event>): seq<real>
    decreases |ev|
  {
    if ev == [] then []
    else (if ev[0].Sleep? then [Pause(ev[0].backoff, ev[0].random)] else []) + Sleeps(ev[1..])
  }

  lemma {:induction false} SentConcat(a: seq<Event>, b: seq<Event>)
    ensures Sent(a + b) == Sent(a) + Sent(b)
    decreases |a|
  {
    if a == [] {
      assert a + b == b;
    } else {
      assert (a + b)[0] == a[0];
      assert (a + b)[1..] == a[1..] + b;
      SentConcat(a[1..], b);
    }
  }

  lemma {:induction false} SleepsConcat(a: seq<Event>, b: seq<Event>)
    ensures Sleeps(a + b) == Sleeps(a) + Sleeps(b)
    decreases |a|
  {
    if a == [] {
      assert a + b == b;
    } else {
      assert (a + b)[0] == a[0];
      assert (a + b)[1..] == a[1..] + b;
      SleepsConcat(a[1..], b);
    }
  }

  /** The sends and sleeps of the events of one attempt. */
  lemma RoundEvents(w: seq<real>, k: nat, bo: real, r: real)
    ensures Sent([Acquire(w)]) == [] && Sleeps([Acquire(w)]) == []
    ensures Sent([Acquire(w), Send(k)]) == [k] && Sleeps([Acquire(w), Send(k)]) == []
    ensures Sent([Acquire(w), Send(k), Sleep(bo, r)]) == [k]
    ensures Sleeps([Acquire(w), Send(k), Sleep(bo, r)]) == [Pause(bo, r)]
  {
    var z := Sleep(bo, r);
    assert [Acquire(w)][1..] == [];
    assert [Acquire(w), Send(k)][1..] == [Send(k)];
    assert [Send(k)][1..] == [];
    assert [Acquire(w), Send(k), z][1..] == [Send(k), z];
    assert [Send(k), z][1..] == [z];
    assert [z][1..] == [];
    assert Sent([z]) == [] && Sleeps([z]) == [Pause(bo, r)];
    assert Sent([Send(k), z]) == [k] && Sleeps([Send(k), z]) == [Pause(bo, r)];
  }

  /** Each attempt is one `acquire` followed by one send, and consecutive
      attempts are separated by exactly one sleep. */
  lemma {:induction false} AttemptRounds<J>(k: nat, retries: int, backoff: real, b: Bucket, w: World<J>)
    requires k <= retries
    ensures Rounds(Attempts(k, retries, backoff, b, w).events, k)
    decreases retries - k
  {
    var acq := w.gate(b, w.clocks(k));
    if acq.end == Acquired && Classify(w.respond(k), w.decode).Retry? && k < retries {
      RetryStep(k, retries, backoff, b, w);
      var rest := Attempts(k + 1, retries, 2.0 * backoff, acq.bucket, w);
      AttemptRounds(k + 1, retries, 2.0 * backoff, acq.bucket, w);
      var ev := Attempts(k, retries, backoff, b, w).events;
      assert ev[3..] == rest.events;
    } else {
      FinalStep(k, retries, backoff, b, w);
    }
  }

  /** The attempts sent are 0, 1, 2, ... in order, at most `retries + 1`
      of them. */
  lemma {:induction false} AttemptsNumbered<J>(k: nat, retries: int, backoff: real, b: Bucket, w: World<J>)
    requires k <= retries
    ensures var sent := Sent(Attempts(k, retries, backoff, b, w).events);
      && k + |sent| <= retries + 1
      && sent == SeqRange(k, k + |sent|)
    decreases retries - k
  {
    var acq := w.gate(b, w.clocks(k));
    var d := Sleep(backoff, w.jitter(k));
    RoundEvents(acq.waits, k, backoff, w.jitter(k));
    if acq.end == Acquired && Classify(w.respond(k), w.decode).Retry? && k < retries {
      RetryStep(k, retries, backoff, b, w);
      var rest := Attempts(k + 1, retries, 2.0 * backoff, acq.bucket, w);
      AttemptsNumbered(k + 1, retries, 2.0 * backoff, acq.bucket, w);
      SentConcat([Acquire(acq.waits), Send(k), d], rest.events);
    } else {
      FinalStep(k, retries, backoff, b, w);
    }
  }

  /** Sleep j is the j-th backoff plus `random()` times it, the random
      number being the one drawn on attempt `k + j`. */
  predicate JitteredBackoffs(s: seq<real>, backoff: real, k: nat, jitter: nat -> real) {
    forall j :: 0 <= j < |s| ==> s[j] == Pause(Backoff(backoff, j), jitter(k + j))
  }

  /** The sleeps of a run are the jittered backoffs 0.2, 0.4, 0.8, ... (for
      the start value of `_request`), in order. */
  lemma {:induction false} SleepsAreBackoffs<J>(k: nat, retries: int, backoff: real, b: Bucket,
                                               w: World<J>)
    ensures JitteredBackoffs(Sleeps(Attempts(k, retries, backoff, b, w).events),
                             backoff, k, w.jitter)
    decreases retries - k
  {
    var run := Attempts(k, retries, backoff, b, w);
    var s := Sleeps(run.events);
    if k <= retries {
      var acq := w.gate(b, w.clocks(k));
      var d := Sleep(backoff, w.jitter(k));
      RoundEvents(acq.waits, k, backoff, w.jitter(k));
      if acq.end == Acquired && Classify(w.respond(k), w.decode).Retry? && k < retries {
        RetryStep(k, retries, backoff, b, w);
        var rest := Attempts(k + 1, retries, 2.0 * backoff, acq.bucket, w);
        SleepsAreBackoffs(k + 1, retries, 2.0 * backoff, acq.bucket, w);
        var round := [Acquire(acq.waits), Send(k), d];
        SleepsConcat(round, rest.events);
        var tail := Sleeps(rest.events);
        assert s == [Pause(backoff, w.jitter(k))] + tail;
        forall j | 0 <= j < |s|
          ensures s[j] == Pause(Backoff(backoff, j), w.jitter(k + j))
        {
          if j > 0 {
            assert Backoff(backoff, j) == Backoff(2.0 * backoff, j - 1);
            assert s[j] == tail[j - 1];
            assert k + 1 + (j - 1) == k + j;
          }
        }
      } else {
        FinalStep(k, retries, backoff, b, w);
      }
    }
  }

  /** With `random.random()` in [0, 1), sleep j lies in
      [Backoff(backoff, j), 2 * Backoff(backoff, j)). */
  lemma SleepsBounded<J>(k: nat, retries: int, backoff: real, b: Bucket,
                         w: World<J>)
    requires backoff > 0.0
    requires forall i: nat :: 0.0 <= w.jitter(i) < 1.0
    ensures var s := Sleeps(Attempts(k, retries, backoff, b, w).events);
      forall j :: 0 <= j < |s| ==> Backoff(backoff, j) <= s[j] < 2.0 * Backoff(backoff, j)
  {
    var s := Sleeps(Attempts(k, retries, backoff, b, w).events);
    SleepsAreBackoffs(k, retries, backoff, b, w);
    forall j | 0 <= j < |s|
      ensures Backoff(backoff, j) <= s[j] < 2.0 * Backoff(backoff, j)
    {
      BackoffPositive(backoff, j);
      JitteredWithin(Backoff(backoff, j), w.jitter(k + j));
    }
  }

  lemma {:induction false} BackoffPositive(b: real, j: nat)
    requires b > 0.0
    ensures Backoff(b, j) > 0.0
    decreases j
  {
    if j > 0 {
      BackoffPositive(2.0 * b, j - 1);
    }
  }

  lemma JitteredWithin(b: real, r: real)
    requires b > 0.0 && 0.0 <= r < 1.0
    ensures b <= Pause(b, r) < 2.0 * b
  {
    assert 0.0 <= r * b < b;
  }

  /** `Backoff(b, j)` is `b * 2^j`. */
  lemma {:induction false} BackoffDoubles(b: real, j: nat)
    ensures Backoff(b, j + 1) == 2.0 * Backoff(b, j)
    decreases j
  {
    if j > 0 {
      BackoffDoubles(2.0 * b, j - 1);
    }
  }

  /** Why the run ended: a retry follows only a retryable failure; a
      returned value is the verdict of the last attempt; a cancellation ends
      the run at once; a retryable failure escapes only from the last
      permitted attempt (the last failure propagates); an error or a stall in
      the limiter ends the run right after its `acquire`. */
  lemma {:induction false} OutcomeExplained<J>(k: nat, retries: int, backoff: real, b: Bucket,
                                              w: World<J>)
    requires k <= retries
    ensures var run := Attempts(k, retries, backoff, b, w);
      var ev := run.events;
      && |ev| > 0
      && (forall i :: 0 <= i < |ev| - 1 && ev[i].Send? ==> Classify(w.respond(ev[i].attempt), w.decode).Retry?)
      && (run.outcome.Value? ==>
            ev[|ev| - 1].Send? && Classify(w.respond(ev[|ev| - 1].attempt), w.decode) == Return(run.outcome.reply))
      && (run.outcome == Exception(CancelledError) ==>
            ev[|ev| - 1].Send? && w.respond(ev[|ev| - 1].attempt) == Cancelled)
      && (run.outcome.Exception? && run.outcome.failure !in {CancelledError, LimiterError} ==>
            ev[|ev| - 1] == Send(retries) && Classify(w.respond(retries), w.decode) == Retry(run.outcome.failure))
      && (run.outcome == Exception(LimiterError) || run.outcome == ClockExhausted ==> ev[|ev| - 1].Acquire?)
    decreases retries - k
  {
    var run := Attempts(k, retries, backoff, b, w);
    var acq := w.gate(b, w.clocks(k));
    if acq.end == Acquired && Classify(w.respond(k), w.decode).Retry? && k < retries {
      RetryStep(k, retries, backoff, b, w);
      var rest := Attempts(k + 1, retries, 2.0 * backoff, acq.bucket, w);
      OutcomeExplained(k + 1, retries, 2.0 * backoff, acq.bucket, w);
      var ev := run.events;
      assert ev == [Acquire(acq.waits), Send(k), Sleep(backoff, w.jitter(k))] + rest.events;
      forall i | 0 <= i < |ev| - 1 && ev[i].Send?
        ensures Classify(w.respond(ev[i].attempt), w.decode).Retry?
      {
        if i >= 3 {
          assert ev[i] == rest.events[i - 3];
        } else {
          assert ev[i] == Send(k);
        }
      }
      assert ev[|ev| - 1] == rest.events[|rest.events| - 1];
    } else {
      FinalStep(k, retries, backoff, b, w);
      ClassifyRules(w.respond(k), w.decode);
    }
  }

  /** When every `acquire` completes and every send fails retryably, the
      run makes exactly `retries + 1` attempts, numbered in order, and
      raises the failure of the last one. */
  lemma {:induction false} AllFailLastPropagates<J>(k: nat, retries: int, backoff: real, b: Bucket,
                                                   w: World<J>)
    requires k <= retries
    requires forall i: nat :: k <= i <= retries ==> Classify(w.respond(i), w.decode).Retry?
    requires AcquiresComplete(k, retries, b, w)
    ensures var run := Attempts(k, retries, backoff, b, w);
      && run.outcome == Exception(Classify(w.respond(retries), w.decode).failure)
      && Sent(run.events) == SeqRange(k, retries + 1)
    decreases retries - k
  {
    var acq := w.gate(b, w.clocks(k));
    var d := Sleep(backoff, w.jitter(k));
    RoundEvents(acq.waits, k, backoff, w.jitter(k));
    if k < retries {
      RetryStep(k, retries, backoff, b, w);
      var rest := Attempts(k + 1, retries, 2.0 * backoff, acq.bucket, w);
      AllFailLastPropagates(k + 1, retries, 2.0 * backoff, acq.bucket, w);
      SentConcat([Acquire(acq.waits), Send(k), d], rest.events);
    } else {
      FinalStep(k, retries, backoff, b, w);
    }
  }

  /** `[lo, lo+1, ..., hi-1]`. */
  function SeqRange(lo: nat, hi: nat): seq<nat>
    decreases hi - lo
  {
    if lo >= hi then [] else [lo] + SeqRange(lo + 1, hi)
  }

  /** Every `acquire` of attempts `k..retries` is granted on the clock
      readings given, when each attempt before it failed. */
  predicate AcquiresComplete<J>(k: nat, retries: int, b: Bucket, w: World<J>)
    decreases retries - k
  {
    k > retries
    || (var acq := w.gate(b, w.clocks(k));
        acq.end == Acquired && AcquiresComplete(k + 1, retries, acq.bucket, w))
  }

  // ---------------------------------------------------------------------------
  // The client object

  class APIClient {
    const baseUrl: string
    const limiter: RateLimiter

    /** `AsyncAPIClient(base_url, rate=rate, per=per)` created at time `now`. */
    constructor (base: string, rate: real, per: real, now: real)
      ensures baseUrl == BaseUrl(base)
      ensures fresh(limiter) && limiter.State() == Fresh(rate, per, now)
    {
      baseUrl := BaseUrl(base);
      limiter := new RateLimiter(rate, per, now);
    }

    /** `_request(method, path, retries=retries)`: the URL, then the retry
        loop. */
    method Request<J>(path: string, retries: int, clocks: nat -> seq<real>, respond: nat -> Transport,
                      jitter: nat -> real, decode: string -> Option<J>)
      returns (url: string, outcome: Outcome<J>, events: seq<Event>)
      modifies limiter
      ensures url == RequestUrl(baseUrl, path)
      ensures Run(outcome, limiter.State(), events)
              == Attempts(0, retries, 0.2, old(limiter.State()), World(clocks, respond, jitter, decode, LimiterGate))
    {
      url := RequestUrl(baseUrl, path);
      outcome, events := Retry(retries, clocks, respond, jitter, decode);
    }

    /** The `for` loop of `_request`: each pass takes one token from the
        limiter, sends, classifies the response, and on a retryable failure
        before the last attempt sleeps `backoff + random() * backoff` and
        doubles `backoff`. */
    method Retry<J>(retries: int, clocks: nat -> seq<real>, respond: nat -> Transport,
                    jitter: nat -> real, decode: string -> Option<J>)
      returns (outcome: Outcome<J>, events: seq<Event>)
      modifies limiter
      ensures Run(outcome, limiter.State(), events)
              == Attempts(0, retries, 0.2, old(limiter.State()), World(clocks, respond, jitter, decode, LimiterGate))
    {
      var backoff := 0.2;
      var attempt: nat := 0;
      events := [];
      ghost var w := World(clocks, respond, jitter, decode, LimiterGate);
      ghost var total := Attempts(0, retries, 0.2, old(limiter.State()), w);
      ContinuesFromStart(total, 0, retries, 0.2, limiter.State(), w);
      while attempt <= retries
        invariant Continues(total, events, attempt, retries, backoff, limiter.State(), w)
        decreases retries - attempt
      {
        var last, o, round := Pass(w, total, events, clocks, respond, jitter, decode, attempt, retries, backoff);
        events := events + round;
        if last {
          outcome := o;
          return;
        }
        backoff := 2.0 * backoff;
        attempt := attempt + 1;
      }
      ContinuesPastLast(total, events, attempt, retries, backoff, limiter.State(), w);
      outcome := Exception(Unreachable);
    }

    /** One pass of the `for` loop of `_request` after the events `prefix`:
        `last` when the pass ends the call with `outcome`, otherwise the
        pass slept and the later attempts, with the backoff doubled, make
        the rest of the call. */
    method Pass<J>(ghost w: World<J>, ghost total: Run<J>, ghost prefix: seq<Event>,
                   clocks: nat -> seq<real>, respond: nat -> Transport,
                   jitter: nat -> real, decode: string -> Option<J>,
                   attempt: nat, retries: int, backoff: real)
      returns (last: bool, outcome: Outcome<J>, round: seq<Event>)
      requires attempt <= retries
      requires w == World(clocks, respond, jitter, decode, LimiterGate)
      requires Continues(total, prefix, attempt, retries, backoff, limiter.State(), w)
      modifies limiter
      ensures last ==> total == Run(outcome, limiter.State(), prefix + round)
      ensures !last ==> attempt < retries
                        && Continues(total, prefix + round, attempt + 1, retries, 2.0 * backoff, limiter.State(), w)
    {
      ghost var before := limiter.State();
      var end, waits := limiter.Acquire(1.0, clocks(attempt));
      ghost var acq := w.gate(before, w.clocks(attempt));
      assert acq == AcquireRun(limiter.State(), waits, end);
      if end != Acquired {
        FinalStep(attempt, retries, backoff, before, w);
        round := [Acquire(waits)];
        outcome := if end == Raised then Exception(LimiterError) else ClockExhausted;
        last := true;
        return;
      }
      var verdict := Classify(respond(attempt), decode);
      if verdict.Retry? && attempt < retries {
        RetryStep(attempt, retries, backoff, before, w);
        round := [Acquire(waits), Send(attempt), Sleep(backoff, jitter(attempt))];
        ghost var rest := Attempts(attempt + 1, retries, 2.0 * backoff, limiter.State(), w);
        assert prefix + (round + rest.events) == (prefix + round) + rest.events;
        outcome := ClockExhausted;
        last := false;
      } else {
        FinalStep(attempt, retries, backoff, before, w);
        round := [Acquire(waits), Send(attempt)];
        outcome := match verdict
                   case Return(r) => Value(r)
                   case Propagate => Exception(CancelledError)
                   case Retry(f) => Exception(f);
        last := true;
      }
    }
  }

  /** `run` with `events` happening before its own. */
  function Prepend<J>(events: seq<Event>, run: Run<J>): Run<J> {
    Run(run.outcome, run.limiter, events + run.events)
  }

  /** The loop invariant of `_request`: the events so far followed by those
      of attempts `attempt..retries` from limiter state `b` make the whole
      call `total`. */
  ghost predicate Continues<J>(total: Run<J>, events: seq<Event>, attempt: nat, retries: int,
                               backoff: real, b: Bucket, w: World<J>)
  {
    total == Prepend(events, Attempts(attempt, retries, backoff, b, w))
  }

  /** Before the first pass nothing has happened yet. */
  lemma ContinuesFromStart<J>(total: Run<J>, attempt: nat, retries: int, backoff: real, b: Bucket, w: World<J>)
    requires total == Attempts(attempt, retries, backoff, b, w)
    ensures Continues(total, [], attempt, retries, backoff, b, w)
  {
    assert [] + total.events == total.events;
  }

  /** Once every attempt is spent the events so far are the whole call. */
  lemma ContinuesPastLast<J>(total: Run<J>, events: seq<Event>, attempt: nat, retries: int,
                             backoff: real, b: Bucket, w: World<J>)
    requires attempt > retries && Continues(total, events, attempt, retries, backoff, b, w)
    ensures total == Run(Exception(Unreachable), b, events)
  {
    assert events + [] == events;
  }

  // ---------------------------------------------------------------------------
  // `parallel_get`

  /** `params_list or [None] * len(paths)`: an absent or empty list means no
      params for any path. */
  function ParamsFor<P>(paths: seq<string>, paramsList: Option<seq<Option<P>>>): seq<Option<P>> {
    if paramsList.Some? && |paramsList.value| > 0 then paramsList.value
    else seq(|paths|, _ => None)
  }

  /** Python's `zip`: pairs up to the shorter length. */
  function Zip<A, B>(a: seq<A>, b: seq<B>): (r: seq<(A, B)>)
    ensures |r| == if |a| <= |b| then |a| else |b|
    ensures forall i :: 0 <= i < |r| ==> r[i] == (a[i], b[i])
    decreases |a|
  {
    if a == [] || b == [] then [] else [(a[0], b[0])] + Zip(a[1..], b[1..])
  }

  /** `asyncio.gather` keeps the order of its tasks, so result i is the `get`
      of the i-th (path, params) pair; `get` stands for the whole
      `self.get(path, params=p)` call. */
  function ParallelGet<P, R>(paths: seq<string>, paramsList: Option<seq<Option<P>>>,
                             get: (string, Option<P>) -> R): seq<R>
  {
    var pairs := Zip(paths, ParamsFor(paths, paramsList));
    seq(|pairs|, i requires 0 <= i < |pairs| => get(pairs[i].0, pairs[i].1))
  }

  /** The results follow the input order; their number is that of the paths
      when no params are given, and the shorter of the two lists otherwise. */
  lemma ParallelGetOrder<P, R>(paths: seq<string>, paramsList: Option<seq<Option<P>>>,
                               get: (string, Option<P>) -> R)
    ensures var r := ParallelGet(paths, paramsList, get);
      && |r| == (if paramsList.Some? && |paramsList.value| > 0
                 then MinInt(|paths|, |paramsList.value|) else |paths|)
      && (paramsList.None? || paramsList == Some([]) ==>
            forall i :: 0 <= i < |r| ==> r[i] == get(paths[i], None))
      && (paramsList.Some? && |paramsList.value| > 0 ==>
            forall i :: 0 <= i < |r| ==> r[i] == get(paths[i], paramsList.value[i]))
  {
  }

  /** What `await asyncio.gather(*tasks)` ends with when `return_exceptions`
      is not set: the list of replies when every task returns, otherwise the
      exception of a failing task. Which failing task is raised depends on
      completion order, so `GatherRaised` names the positions it can come from. */
  datatype Gathered<J> = AllReplies(replies: seq<Reply<J>>) | GatherRaised(failing: set<nat>)

  function Shift(s: set<nat>): (r: set<nat>)
    ensures forall j: nat :: j in r <==> j >= 1 && j - 1 in s
  {
    set i | i in s :: i + 1
  }

  function Gather<J>(results: seq<Outcome<J>>): Gathered<J>
    decreases |results|
  {
    if results == [] then AllReplies([])
    else
      var rest := Gather(results[1..]);
      if results[0].Value? then
        (if rest.AllReplies? then AllReplies([results[0].reply] + rest.replies)
         else GatherRaised(Shift(rest.failing)))
      else GatherRaised({0} + (if rest.GatherRaised? then Shift(rest.failing) else {}))
  }

  /** `gather` returns exactly when every task returned, with the replies in
      task order. */
  lemma {:induction false} GatherReturns<J>(results: seq<Outcome<J>>)
    ensures Gather(results).AllReplies? <==> forall i :: 0 <= i < |results| ==> results[i].Value?
    ensures Gather(results).AllReplies? ==>
      |Gather(results).replies| == |results|
      && forall i :: 0 <= i < |results| ==> results[i] == Value(Gather(results).replies[i])
    decreases |results|
  {
    if results != [] {
      var tail := results[1..];
      GatherReturns(tail);
      var rest := Gather(tail);
      if results[0].Value? && rest.AllReplies? {
        var g := Gather(results);
        assert g.replies == [results[0].reply] + rest.replies;
        forall i | 0 <= i < |results|
          ensures results[i] == Value(g.replies[i])
        {
          if i != 0 {
            assert results[i] == tail[i - 1];
            assert g.replies[i] == rest.replies[i - 1];
          }
        }
      } else if !rest.AllReplies? {
        var k :| 0 <= k < |tail| && !tail[k].Value?;
        assert results[k + 1] == tail[k];
      }
    }
  }

  /** When `gather` raises, the exception comes from one of exactly the
      tasks that did not return, and there is at least one. */
  lemma {:induction false} GatherFailing<J>(results: seq<Outcome<J>>)
    ensures Gather(results).GatherRaised? ==>
      Gather(results).failing != {}
      && forall i: nat :: i in Gather(results).failing <==> i < |results| && !results[i].Value?
    decreases |results|
  {
    if results != [] {
      var tail := results[1..];
      GatherFailing(tail);
      GatherReturns(tail);
      var rest := Gather(tail);
      var g := Gather(results);
      if g.GatherRaised? {
        var shifted := if rest.GatherRaised? then Shift(rest.failing) else {};
        assert g.failing == (if results[0].Value? then {} else {0}) + shifted;
        forall i: nat | i != 0
          ensures i in g.failing <==> i < |results| && !results[i].Value?
        {
          if i < |results| {
            assert results[i] == tail[i - 1];
          }
        }
        if results[0].Value? {
          var k :| 0 <= k < |tail| && !tail[k].Value?;
          assert k + 1 in g.failing;
        } else {
          assert 0 in g.failing;
        }
      }
    }
  }

  /** `parallel_get` as `await`ed: the replies of every `get`, in input
      order, when all of them return; otherwise the exception of one of the
      `get` calls that failed, and no list. */
  lemma ParallelGetRaises<P, J>(paths: seq<string>, paramsList: Option<seq<Option<P>>>,
                                get: (string, Option<P>) -> Outcome<J>)
    ensures var results := ParallelGet(paths, paramsList, get);
      var g := Gather(results);
      && (g.AllReplies? <==> forall i :: 0 <= i < |results| ==> results[i].Value?)
      && (g.AllReplies? ==>
            |g.replies| == |results|
            && forall i :: 0 <= i < |results| ==> results[i] == Value(g.replies[i]))
      && (g.GatherRaised? ==>
            g.failing != {}
            && forall i: nat :: i in g.failing <==> i < |results| && !results[i].Value?)
  {
    GatherReturns(ParallelGet(paths, paramsList, get));
    GatherFailing(ParallelGet(paths, paramsList, get));
  }
}
