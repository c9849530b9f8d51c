/**
 * The request wrapper of twitter_client.py (`TwitterClient._make_request`).
 *
 * The HTTP transport is a script: the outcomes the transport will produce,
 * one per request it sends, in order.  A script that has run out behaves
 * like a transport that raises.  The clock is an integer number of seconds
 * that every sleep advances; the wrapper records its sleeps so that the
 * backoff schedule can be stated.
 */
module Requests {
  import opened Wrappers
  import Text

  /** `Config.MAX_RETRIES`. */
  const MaxRetries: nat := 3
  /** A 429 without an `x-rate-limit-reset` header waits as if the reset were this far ahead. */
  const DefaultResetDelay: int := 900
  /** The least a 429 ever waits. */
  const RateLimitFloor: int := 60

  /** The `x-rate-limit-reset` header of a 429 response. */
  datatype ResetHeader = NoReset | ResetAt(epoch: int) | Unparsable

  /** What the transport does with one request: it raises, or it answers. */
  datatype Attempt<B> =
    | TransportError
      /** `body` is `None` when the body is not JSON (`response.json()` raises). */
    | Http(status: int, reset: ResetHeader, body: Option<B>)

  /** How one attempt ends inside the wrapper's `try`. */
  datatype Step<B> = Raised | RateLimited(wait: int) | Answered(body: B)

  /**
   * The wrapper's whole run: what it returns, the clock afterwards, how many
   * outcomes of the script it used up, its sleeps and how many attempts it made.
   */
  datatype Trace<B> = Trace(result: Option<B>, now: int, used: nat, sleeps: seq<int>, attempts: nat)

  /** Only GET and POST (in any letter case) reach the transport; anything else raises `ValueError` first. */
  predicate Supported(verb: string) {
    Text.Upper(verb) == "GET" || Text.Upper(verb) == "POST"
  }

  /** `response.raise_for_status()` raises for exactly these statuses. */
  predicate ErrorStatus(status: int) {
    400 <= status < 600
  }

  function Max(a: int, b: int): int {
    if a >= b then a else b
  }

  function Pow2(k: nat): (p: nat)
    ensures p >= 1
  {
    if k == 0 then 1 else 2 * Pow2(k - 1)
  }

  function Total(s: seq<int>): int {
    if s == [] then 0 else s[0] + Total(s[1..])
  }

  lemma TotalCons(d: int, s: seq<int>)
    ensures Total([d] + s) == d + Total(s)
  {
    assert ([d] + s)[1..] == s;
  }

  /** One attempt, given the transport's outcome and the clock. */
  function Classify<B>(a: Attempt<B>, now: int): Step<B> {
    match a
    case TransportError => Raised
    case Http(status, reset, body) =>
      if status == 429 then
        match reset
        case NoReset => RateLimited(Max(now + DefaultResetDelay - now, RateLimitFloor))
        case ResetAt(epoch) => RateLimited(Max(epoch - now, RateLimitFloor))
        case Unparsable => Raised
      else if ErrorStatus(status) || body.None? then Raised
      else Answered(body.value)
  }

  /** The body an outcome delivers to the caller, if it is an answer at all. */
  function AnswerOf<B>(a: Attempt<B>): Option<B> {
    if a.Http? && a.status != 429 && !ErrorStatus(a.status) then a.body else None
  }

  /** An outcome that lands in the `except` branch. */
  predicate Fails<B>(a: Attempt<B>) {
    match a
    case TransportError => true
    case Http(status, reset, body) =>
      if status == 429 then reset.Unparsable? else ErrorStatus(status) || body.None?
  }

  /** A 429 whose reset header can be read. */
  predicate Throttles<B>(a: Attempt<B>) {
    a.Http? && a.status == 429 && !a.reset.Unparsable?
  }

  /** How long a readable 429 makes the wrapper sleep. */
  function ThrottleWait<B>(a: Attempt<B>, now: int): int
    requires Throttles(a)
  {
    if a.reset.ResetAt? then Max(a.reset.epoch - now, RateLimitFloor) else DefaultResetDelay
  }

  /** Every outcome fails, throttles or answers, and exactly one of these. */
  lemma OutcomesPartition<B>(a: Attempt<B>)
    ensures Fails(a) || Throttles(a) || AnswerOf(a).Some?
    ensures !(Fails(a) && Throttles(a)) && !(Fails(a) && AnswerOf(a).Some?) && !(Throttles(a) && AnswerOf(a).Some?)
  {
  }

  /** How many outcomes of the script one pass of the `try` uses: one exactly when it reaches the transport. */
  function Spent<B>(verb: string, script: seq<Attempt<B>>): nat {
    if Supported(verb) && script != [] then 1 else 0
  }

  /** What one pass of the wrapper's `try`/`except` decides: return, or sleep and call itself again with a new retry count. */
  datatype Next<B> = Finish(result: Option<B>) | Again(sleep: int, retryCount: nat)

  /**
   * One pass of `_make_request` with `retry_count == retryCount` at `now`.
   * A pass that goes on sleeps a positive time with a retry count in budget;
   * one that did not reach the transport goes on only with the count raised.
   */
  function Pass<B>(verb: string, script: seq<Attempt<B>>, now: int, retryCount: nat): (n: Next<B>)
    requires retryCount <= MaxRetries
    ensures n.Again? ==> n.sleep > 0 && n.retryCount <= MaxRetries
    ensures n.Again? && Spent(verb, script) == 0 ==> n.retryCount == retryCount + 1
  {
    var step := if Spent(verb, script) == 1 then Classify(script[0], now) else Raised;
    match step
    case Answered(body) => Finish(Some(body))
    case RateLimited(wait) => Again(wait, 0)
    case Raised => if retryCount < MaxRetries then Again(Pow2(retryCount), retryCount + 1) else Finish(None)
  }

  /**
   * The pass, case by case: without reaching the transport, or on a failure,
   * it backs off `2^retryCount` seconds while the budget lasts and gives up
   * with `None` after; a readable 429 sleeps and restarts with the count at 0;
   * an answer is returned.
   */
  lemma PassCases<B>(verb: string, script: seq<Attempt<B>>, now: int, retryCount: nat)
    requires retryCount <= MaxRetries
    ensures var n := Pass(verb, script, now, retryCount);
            var backoff := if retryCount < MaxRetries then Again(Pow2(retryCount), retryCount + 1) else Finish(None);
            && (Spent(verb, script) == 0 ==> n == backoff)
            && (Spent(verb, script) == 1 && Fails(script[0]) ==> n == backoff)
            && (Spent(verb, script) == 1 && Throttles(script[0]) ==> n == Again(ThrottleWait(script[0], now), 0))
            && (Spent(verb, script) == 1 && AnswerOf(script[0]).Some? ==> n == Finish(AnswerOf(script[0])))
  {
  }

  /** What a pass returns is the answer of the outcome it used, and a pass that goes on used no answer. */
  lemma PassResult<B>(verb: string, script: seq<Attempt<B>>, now: int, retryCount: nat)
    requires retryCount <= MaxRetries
    ensures var n := Pass(verb, script, now, retryCount);
            && (n.Again? && Spent(verb, script) == 1 ==> AnswerOf(script[0]).None?)
            && (n.Finish? ==> n.result == (if Spent(verb, script) == 1 then AnswerOf(script[0]) else None))
  {
    PassCases(verb, script, now, retryCount);
    if Spent(verb, script) == 1 {
      OutcomesPartition(script[0]);
    }
  }

  /**
   * `_make_request(verb, ...)` with `retry_count == retryCount`, starting at
   * `now`: one pass, then, if it goes on, the rest of the run on the outcomes
   * it did not use.
   */
  function Request<B>(verb: string, script: seq<Attempt<B>>, now: int, retryCount: nat): Trace<B>
    requires retryCount <= MaxRetries
    decreases |script|, MaxRetries - retryCount
  {
    var spent := Spent(verb, script);
    match Pass(verb, script, now, retryCount)
    case Finish(result) => Trace(result, now, spent, [], 1)
    case Again(sleep, k) =>
      var t := Request(verb, script[spent..], now + sleep, k);
      Trace(t.result, t.now, t.used + spent, [sleep] + t.sleeps, t.attempts + 1)
  }

  /**
   * The outcomes a run uses: no more than the script has, none for an
   * unsupported method, and the result is the answer of the last one used.
   */
  lemma {:induction false} RequestUses<B>(verb: string, script: seq<Attempt<B>>, now: int, retryCount: nat)
    requires retryCount <= MaxRetries
    ensures var t := Request(verb, script, now, retryCount);
            && t.used <= |script|
            && (!Supported(verb) ==> t.used == 0)
            && t.result == (if t.used > 0 then AnswerOf(script[t.used - 1]) else None)
    decreases |script|, MaxRetries - retryCount
  {
    var spent := Spent(verb, script);
    PassResult(verb, script, now, retryCount);
    match Pass(verb, script, now, retryCount)
    case Finish(_) =>
    case Again(sleep, k) =>
      RequestUses(verb, script[spent..], now + sleep, k);
      var t := Request(verb, script[spent..], now + sleep, k);
      if t.used > 0 {
        assert script[spent..][t.used - 1] == script[t.used + spent - 1];
      }
  }

  /** The clock advances by exactly the run's sleeps. */
  lemma {:induction false} RequestClockSum<B>(verb: string, script: seq<Attempt<B>>, now: int, retryCount: nat)
    requires retryCount <= MaxRetries
    ensures var t := Request(verb, script, now, retryCount);
            t.now == now + Total(t.sleeps)
    decreases |script|, MaxRetries - retryCount
  {
    var spent := Spent(verb, script);
    match Pass(verb, script, now, retryCount)
    case Finish(_) =>
    case Again(sleep, k) =>
      var t := Request(verb, script[spent..], now + sleep, k);
      RequestClockSum(verb, script[spent..], now + sleep, k);
      TotalCons(sleep, t.sleeps);
      assert Request(verb, script, now, retryCount).sleeps == [sleep] + t.sleeps;
  }

  /** Every sleep of a run is positive: the least wait of a 429 is `RateLimitFloor`, and `2^k >= 1`. */
  lemma {:induction false} RequestSleepsPositive<B>(verb: string, script: seq<Attempt<B>>, now: int, retryCount: nat)
    requires retryCount <= MaxRetries
    ensures forall i :: 0 <= i < |Request(verb, script, now, retryCount).sleeps| ==> Request(verb, script, now, retryCount).sleeps[i] > 0
    decreases |script|, MaxRetries - retryCount
  {
    var spent := Spent(verb, script);
    match Pass(verb, script, now, retryCount)
    case Finish(_) =>
    case Again(sleep, k) =>
      var t := Request(verb, script[spent..], now + sleep, k);
      RequestSleepsPositive(verb, script[spent..], now + sleep, k);
      var sleeps := Request(verb, script, now, retryCount).sleeps;
      assert sleeps == [sleep] + t.sleeps;
      assert sleep > 0;
      forall i | 0 <= i < |sleeps|
        ensures sleeps[i] > 0
      {
        if i == 0 {
          assert sleeps[i] == sleep;
        } else {
          assert sleeps[i] == t.sleeps[i - 1];
        }
      }
  }

  lemma {:induction false} TotalOfPositive(s: seq<int>)
    requires forall i :: 0 <= i < |s| ==> s[i] > 0
    ensures Total(s) >= 0
  {
    if s != [] {
      TotalOfPositive(s[1..]);
    }
  }

  /** So the clock never goes backwards. */
  lemma RequestClock<B>(verb: string, script: seq<Attempt<B>>, now: int, retryCount: nat)
    requires retryCount <= MaxRetries
    ensures var t := Request(verb, script, now, retryCount);
            t.now == now + Total(t.sleeps) && t.now >= now
  {
    RequestSleepsPositive(verb, script, now, retryCount);
    TotalOfPositive(Request(verb, script, now, retryCount).sleeps);
    RequestClockSum(verb, script, now, retryCount);
  }

  /**
   * A run attempts at least once and at most once per used outcome plus the
   * retry budget; a run that uses no outcome spends exactly the budget left.
   */
  lemma {:induction false} RequestAttempts<B>(verb: string, script: seq<Attempt<B>>, now: int, retryCount: nat)
    requires retryCount <= MaxRetries
    ensures var t := Request(verb, script, now, retryCount);
            && 1 <= t.attempts <= t.used + MaxRetries + 1
            && (t.used == 0 ==> t.attempts == MaxRetries + 1 - retryCount)
    decreases |script|, MaxRetries - retryCount
  {
    var spent := Spent(verb, script);
    match Pass(verb, script, now, retryCount)
    case Finish(_) =>
    case Again(sleep, k) =>
      RequestAttempts(verb, script[spent..], now + sleep, k);
      if spent == 0 {
        RequestUses(verb, script[spent..], now + sleep, k);
      }
  }

  /** The backoff sleeps still ahead when the retry count is `k`: `2^k, ..., 2^(MaxRetries-1)`. */
  function Backoffs(k: nat): seq<int>
    decreases MaxRetries - k
  {
    if k >= MaxRetries then [] else [Pow2(k)] + Backoffs(k + 1)
  }

  function Min(a: int, b: int): int {
    if a <= b then a else b
  }

  /**
   * When every outcome the wrapper gets before its budget runs out is a
   * failure (or it never reaches the transport), it attempts until the retry
   * budget is gone, sleeping the remaining backoffs, and returns `None`.
   */
  lemma {:induction false} FailuresExhaustRetries<B>(verb: string, script: seq<Attempt<B>>, now: int, k: nat)
    requires k <= MaxRetries
    requires Supported(verb) ==> forall i :: 0 <= i < |script| && i < MaxRetries + 1 - k ==> Fails(script[i])
    ensures var t := Request(verb, script, now, k);
            var used := if Supported(verb) then Min(|script|, MaxRetries + 1 - k) else 0;
            && t.result == None
            && t.attempts == MaxRetries + 1 - k
            && t.sleeps == Backoffs(k)
            && t.used == used
    decreases MaxRetries - k
  {
    var spent := Spent(verb, script);
    PassCases(verb, script, now, k);
    if k < MaxRetries {
      var rest := script[spent..];
      assert Supported(verb) ==> forall i :: 0 <= i < |rest| && i < MaxRetries - k ==> Fails(rest[i]) by {
        if Supported(verb) {
          forall i | 0 <= i < |rest| && i < MaxRetries - k
            ensures Fails(rest[i])
          {
            assert rest[i] == script[i + spent];
          }
        }
      }
      FailuresExhaustRetries(verb, rest, now + Pow2(k), k + 1);
    }
  }

  /**
   * With `MaxRetries == 3`, a request that only ever fails is attempted four
   * times, sleeping 1, 2 and 4 seconds in between, and yields `None`.
   */
  lemma FourAttemptsThenNone<B>(verb: string, script: seq<Attempt<B>>, now: int)
    requires Supported(verb)
    requires |script| >= 4 && forall i :: 0 <= i < 4 ==> Fails(script[i])
    ensures var t := Request(verb, script, now, 0);
            t == Trace(None, now + 7, 4, [1, 2, 4], 4)
  {
    FailuresExhaustRetries(verb, script, now, 0);
    RequestClock(verb, script, now, 0);
    assert Backoffs(0) == [1, 2, 4];
  }

  /**
   * A method other than GET or POST never reaches the transport: every
   * attempt raises, so the wrapper makes four attempts and yields `None`.
   */
  lemma UnsupportedNeverAnswers<B>(verb: string, script: seq<Attempt<B>>, now: int)
    requires !Supported(verb)
    ensures Request(verb, script, now, 0) == Trace(None, now + 7, 0, [1, 2, 4], 4)
  {
    FailuresExhaustRetries(verb, script, now, 0);
    RequestClock(verb, script, now, 0);
    assert Backoffs(0) == [1, 2, 4];
  }

  /**
   * A 429 is honoured and then forgotten: the wrapper sleeps at least
   * `RateLimitFloor` seconds (until the reset instant when that is later;
   * `DefaultResetDelay` seconds when the header is missing) and then behaves
   * exactly as a fresh call with the retry count back at 0, whatever the retry
   * count was.  So 429s never use up the retry budget.
   */
  lemma RateLimitRestartsFresh<B>(verb: string, script: seq<Attempt<B>>, now: int, k: nat)
    requires k <= MaxRetries
    requires Supported(verb) && script != [] && Throttles(script[0])
    ensures var wait := ThrottleWait(script[0], now);
            var again := Request(verb, script[1..], now + wait, 0);
            && wait >= RateLimitFloor
            && (script[0].reset.ResetAt? ==> wait == Max(script[0].reset.epoch - now, RateLimitFloor))
            && (script[0].reset.NoReset? ==> wait == DefaultResetDelay)
            && Request(verb, script, now, k) == Trace(again.result, again.now, again.used + 1, [wait] + again.sleeps, again.attempts + 1)
  {
    PassCases(verb, script, now, k);
  }

  /**
   * However many 429s come first, and whatever the retry count, a run of 429s
   * followed by at most `MaxRetries` failures and then an answer yields that answer.
   */
  lemma {:induction false} ThrottlesThenAnswer<B>(verb: string, throttles: nat, failures: nat, script: seq<Attempt<B>>, now: int, k: nat, body: B)
    requires Supported(verb) && k <= MaxRetries
    requires failures + (if throttles == 0 then k else 0) <= MaxRetries
    requires |script| > throttles + failures
    requires forall i :: 0 <= i < throttles ==> Throttles(script[i])
    requires forall i :: throttles <= i < throttles + failures ==> Fails(script[i])
    requires AnswerOf(script[throttles + failures]) == Some(body)
    ensures Request(verb, script, now, k).result == Some(body)
    decreases throttles + failures
  {
    PassCases(verb, script, now, k);
    if throttles > 0 {
      ThrottlesThenAnswer(verb, throttles - 1, failures, script[1..], now + ThrottleWait(script[0], now), 0, body);
    } else if failures > 0 {
      ThrottlesThenAnswer(verb, 0, failures - 1, script[1..], now + Pow2(k), k + 1, body);
    }
  }
}
