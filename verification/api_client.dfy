/** The signed, rate-limited, retrying client of the exchange's REST API.

    The adaptive limit is a pair (requests per second, consecutive throttle
    replies). `Adjusted` is the rule applied to each non-zero API status;
    `ApiClient` holds the limiter's state together with the per-method time of
    the last request and the call/error counters, and its methods are the
    gate that spaces requests and the three-attempt retry loop. The HMAC
    digest itself is not modelled: only the text it is computed over. */
module ApiClient {
  import opened Common

  /** The exchange's "too many requests" message code. */
  const Throttle: string := "ERR-5003"
  const Ceiling: int := 20
  const Floor: int := 5
  const StepDown: int := 5
  const StreakLength: int := 3
  const MaxAttempts: nat := 3
  const MaxBackoff: real := 60.0

  datatype RateState = RateState(limit: int, errors: int)

  /** Where the limiter stays between calls when it starts from (20, 0). */
  predicate InBounds(s: RateState)
  {
    Floor <= s.limit <= Ceiling && 0 <= s.errors < StreakLength
  }

  const Initial: RateState := RateState(Ceiling, 0)

  /** adjust_rate_limit: a throttle reply counts towards a streak and the third
      one in a row lowers the limit by 5 (never below 5) and restarts the count;
      any other code shortens the streak by one and, once it is empty, raises the
      limit by one (never above 20). */
  function Adjusted(s: RateState, code: string): (r: RateState)
    ensures InBounds(s) ==> InBounds(r)
    ensures InBounds(s) && code == Throttle ==> r.limit <= s.limit
    ensures code != Throttle ==> r.limit >= s.limit && r.errors <= s.errors
    ensures InBounds(s) && code == Throttle && s.errors == StreakLength - 1 ==>
              r == RateState(if s.limit - StepDown < Floor then Floor else s.limit - StepDown, 0)
  {
    if code == Throttle then
      if s.errors + 1 >= StreakLength then
        RateState(if s.limit - StepDown > Floor then s.limit - StepDown else Floor, 0)
      else
        RateState(s.limit, s.errors + 1)
    else
      var e := if s.errors > 0 then (if s.errors - 1 > 0 then s.errors - 1 else 0) else s.errors;
      RateState(if s.limit < Ceiling && e == 0 then (if s.limit + 1 < Ceiling then s.limit + 1 else Ceiling) else s.limit, e)
  }

  /** The limiter after a series of non-zero statuses, oldest first. */
  function AdjustAll(s: RateState, codes: seq<string>): RateState
    decreases |codes|
  {
    if codes == [] then s else AdjustAll(Adjusted(s, codes[0]), codes[1..])
  }

  lemma {:induction false} AdjustAllAppend(s: RateState, codes: seq<string>, c: string)
    ensures AdjustAll(s, codes + [c]) == Adjusted(AdjustAll(s, codes), c)
    decreases |codes|
  {
    if codes != [] {
      assert (codes + [c])[1..] == codes[1..] + [c];
      AdjustAllAppend(Adjusted(s, codes[0]), codes[1..], c);
    }
  }

  /** Whatever the exchange replies, the limit stays in [5, 20] and the streak in [0, 2]. */
  lemma {:induction false} AdjustAllKeepsBounds(s: RateState, codes: seq<string>)
    requires InBounds(s)
    ensures InBounds(AdjustAll(s, codes))
    decreases |codes|
  {
    if codes != [] {
      AdjustAllKeepsBounds(Adjusted(s, codes[0]), codes[1..]);
    }
  }

  /** Three throttle replies in a row lower the limit by exactly one step
      (floor 5), whatever the streak was, and leave the streak where it was. */
  lemma ThreeThrottlesLowerOnce(s: RateState)
    requires InBounds(s)
    ensures AdjustAll(s, [Throttle, Throttle, Throttle]) ==
            RateState(if s.limit - StepDown < Floor then Floor else s.limit - StepDown, s.errors)
  {
    var s1 := Adjusted(s, Throttle);
    var s2 := Adjusted(s1, Throttle);
    var s3 := Adjusted(s2, Throttle);
    assert AdjustAll(s, [Throttle, Throttle, Throttle]) == AdjustAll(s1, [Throttle, Throttle]);
    assert AdjustAll(s1, [Throttle, Throttle]) == AdjustAll(s2, [Throttle]);
    assert AdjustAll(s2, [Throttle]) == AdjustAll(s3, []);
  }

  /** A series of n non-throttle codes first empties the streak and then raises
      the limit one step per call, the call that empties the streak included. */
  lemma {:induction false} QuietCallsRecover(s: RateState, codes: seq<string>)
    requires InBounds(s)
    requires forall k :: 0 <= k < |codes| ==> codes[k] != Throttle
    requires |codes| >= s.errors
    ensures AdjustAll(s, codes).errors == 0
    ensures var raised := s.limit + |codes| - s.errors + (if s.errors > 0 then 1 else 0);
            AdjustAll(s, codes).limit == if raised > Ceiling then Ceiling else raised
    decreases |codes|
  {
    if codes != [] {
      var s1 := Adjusted(s, codes[0]);
      assert s.errors > 0 ==> s1 == RateState(if s.errors == 1 && s.limit < Ceiling then s.limit + 1 else s.limit, s.errors - 1);
      if s.errors == 0 || |codes| > 1 {
        QuietCallsRecover(s1, codes[1..]);
      }
    }
  }

  /** From the initial state, three throttle replies bring the limit to 15 and
      the very next non-throttle code raises it to 16: the streak is already
      empty after the third throttle, so recovery starts at once. */
  lemma ThrottleThenRecoverExample()
    ensures AdjustAll(Initial, [Throttle, Throttle, Throttle]) == RateState(15, 0)
    ensures AdjustAll(Initial, [Throttle, Throttle, Throttle, "ERR-5010"]) == RateState(16, 0)
  {
    ThreeThrottlesLowerOnce(Initial);
    AdjustAllAppend(Initial, [Throttle, Throttle, Throttle], "ERR-5010");
    assert [Throttle, Throttle, Throttle] + ["ERR-5010"] == [Throttle, Throttle, Throttle, "ERR-5010"];
  }

  /** rate_limit: the wait before a request is 1/limit minus the time since the
      last request of the same method; a positive wait is slept with jitter. */
  function GateSleep(limit: int, now: real, last: real, jitter: real): (sleep: real)
    requires limit > 0 && jitter >= 0.0
    ensures sleep >= 0.0
    ensures now + sleep - last >= 1.0 / limit as real
    ensures now - last >= 1.0 / limit as real ==> sleep == 0.0
  {
    var wait := 1.0 / limit as real - (now - last);
    if wait > 0.0 then wait + jitter else 0.0
  }

  /** 2 to the power n. */
  function Pow2(n: nat): (p: nat)
    ensures p >= 1
  {
    if n == 0 then 1 else 2 * Pow2(n - 1)
  }

  /** min(base_delay * 2**attempt + random.random(), 60) with base_delay 1. */
  function Backoff(attempt: nat, r: real): (b: real)
    requires 0.0 <= r < 1.0
    ensures 1.0 <= b <= MaxBackoff
    ensures b <= Pow2(attempt) as real + r
  {
    if Pow2(attempt) as real + r < MaxBackoff then Pow2(attempt) as real + r else MaxBackoff
  }

  /** What one attempt of retry_request met: a requests exception (network error,
      timeout, HTTP error status), a decoded reply whose "messages" list is empty
      (the IndexError escapes the function), or a reply with its status and the
      first message's code. */
  datatype Attempt = Transport | NoMessages | Reply(status: int, code: string)

  /** An attempt that retry_request follows with a backoff and another attempt. */
  predicate Retryable(a: Attempt)
  {
    a.Transport? || (a.Reply? && a.status != 0 && a.code == Throttle)
  }

  /** An attempt that counts as an API error and, for a reply, adjusts the limit. */
  predicate IsApiError(a: Attempt)
  {
    a.Transport? || (a.Reply? && a.status != 0)
  }

  datatype RetryError = MaxRetriesExceeded | MalformedReply

  datatype RetryResult = Returned(reply: Attempt) | Raised(error: RetryError)

  /** The number of attempts retry_request makes when the exchange answers the
      k-th attempt with outcomes[k]. */
  function AttemptsMade(outcomes: seq<Attempt>): (n: nat)
    requires |outcomes| >= MaxAttempts
    ensures 1 <= n <= MaxAttempts
    ensures forall j :: 0 <= j < n - 1 ==> Retryable(outcomes[j])
    ensures n < MaxAttempts ==> !Retryable(outcomes[n - 1])
    ensures n == MaxAttempts <==> Retryable(outcomes[0]) && Retryable(outcomes[1])
  {
    if !Retryable(outcomes[0]) then 1 else if !Retryable(outcomes[1]) then 2 else 3
  }

  /** What retry_request gives its caller: the first reply that is not retried
      (a non-zero status other than ERR-5003 included, as it is), an escaping
      IndexError for a reply without messages, or "Max retries exceeded" after
      three retried attempts. */
  function RetryOutcome(outcomes: seq<Attempt>): (r: RetryResult)
    requires |outcomes| >= MaxAttempts
    ensures r.Raised? && r.error == MaxRetriesExceeded <==>
              Retryable(outcomes[0]) && Retryable(outcomes[1]) && Retryable(outcomes[2])
    ensures r.Returned? ==> r.reply.Reply? && !Retryable(r.reply)
    ensures r.Returned? ==> exists k :: 0 <= k < MaxAttempts && outcomes[k] == r.reply
    ensures r.Returned? && r.reply.status != 0 ==> r.reply.code != Throttle
  {
    var n := AttemptsMade(outcomes);
    var last := outcomes[n - 1];
    if Retryable(last) then Raised(MaxRetriesExceeded)
    else if last.NoMessages? then Raised(MalformedReply)
    else Returned(last)
  }

  /** The attempt after a run of retried ones that is not retried is the last
      one made, and it decides the outcome. */
  lemma StopsAt(outcomes: seq<Attempt>, a: nat)
    requires |outcomes| >= MaxAttempts && a < MaxAttempts
    requires forall k :: 0 <= k < a ==> Retryable(outcomes[k])
    requires !Retryable(outcomes[a])
    ensures AttemptsMade(outcomes) == a + 1
    ensures RetryOutcome(outcomes) == if outcomes[a].NoMessages? then Raised(MalformedReply) else Returned(outcomes[a])
  {
  }

  /** A decoded reply with a non-zero status: its code goes to adjust_rate_limit. */
  predicate AdjustsLimit(a: Attempt)
  {
    a.Reply? && a.status != 0
  }

  /** The codes that adjust_rate_limit sees during a series of attempts. */
  function ErrorCodes(outcomes: seq<Attempt>): (codes: seq<string>)
    ensures |codes| <= |outcomes|
  {
    if outcomes == [] then []
    else
      var rest := ErrorCodes(outcomes[..|outcomes| - 1]);
      var a := outcomes[|outcomes| - 1];
      if AdjustsLimit(a) then rest + [a.code] else rest
  }

  /** adjust_rate_limit sees no code exactly when no reply of the series has a
      non-zero status, and every code it sees is the code of such a reply. */
  lemma {:induction false} ErrorCodesSpec(outcomes: seq<Attempt>)
    ensures ErrorCodes(outcomes) == [] <==> forall k :: 0 <= k < |outcomes| ==> !AdjustsLimit(outcomes[k])
    ensures forall c :: c in ErrorCodes(outcomes) ==>
              exists k :: 0 <= k < |outcomes| && AdjustsLimit(outcomes[k]) && outcomes[k].code == c
  {
    if outcomes != [] {
      var init := outcomes[..|outcomes| - 1];
      ErrorCodesSpec(init);
      assert forall k :: 0 <= k < |init| ==> init[k] == outcomes[k];
    }
  }

  /** The codes of a series are the codes of its first part followed by those
      of the rest: one code per limit-adjusting reply, in the order of the
      attempts. */
  lemma {:induction false} ErrorCodesAppend(xs: seq<Attempt>, ys: seq<Attempt>)
    ensures ErrorCodes(xs + ys) == ErrorCodes(xs) + ErrorCodes(ys)
    decreases |ys|
  {
    if ys == [] {
      assert xs + ys == xs;
    } else {
      var init := ys[..|ys| - 1];
      assert (xs + ys)[..|xs + ys| - 1] == xs + init;
      ErrorCodesAppend(xs, init);
    }
  }

  /** One attempt contributes its code exactly when it adjusts the limit. */
  lemma ErrorCodesOne(a: Attempt)
    ensures ErrorCodes([a]) == if AdjustsLimit(a) then [a.code] else []
  {
    assert [a][..0] == [];
  }

  /** performance_metrics['api_errors'] over a series of attempts. */
  function CountApiErrors(outcomes: seq<Attempt>): (n: nat)
    ensures n <= |outcomes|
  {
    if outcomes == [] then 0
    else CountApiErrors(outcomes[..|outcomes| - 1]) + if IsApiError(outcomes[|outcomes| - 1]) then 1 else 0
  }

  /** The count is zero exactly when no attempt is an API error, and the
      number of attempts exactly when every one is. */
  lemma {:induction false} CountApiErrorsSpec(outcomes: seq<Attempt>)
    ensures CountApiErrors(outcomes) == 0 <==> forall k :: 0 <= k < |outcomes| ==> !IsApiError(outcomes[k])
    ensures CountApiErrors(outcomes) == |outcomes| <==> forall k :: 0 <= k < |outcomes| ==> IsApiError(outcomes[k])
  {
    if outcomes != [] {
      var init := outcomes[..|outcomes| - 1];
      CountApiErrorsSpec(init);
      assert forall k :: 0 <= k < |init| ==> init[k] == outcomes[k];
    }
  }

  /** The count over a series is the sum of the counts over its parts. */
  lemma {:induction false} CountApiErrorsAppend(xs: seq<Attempt>, ys: seq<Attempt>)
    ensures CountApiErrors(xs + ys) == CountApiErrors(xs) + CountApiErrors(ys)
    decreases |ys|
  {
    if ys == [] {
      assert xs + ys == xs;
    } else {
      var init := ys[..|ys| - 1];
      assert (xs + ys)[..|xs + ys| - 1] == xs + init;
      CountApiErrorsAppend(xs, init);
    }
  }

  /** One attempt counts one exactly when it is an API error. */
  lemma CountApiErrorsOne(a: Attempt)
    ensures CountApiErrors([a]) == if IsApiError(a) then 1 else 0
  {
    assert [a][..0] == [];
  }

  /** What the environment supplies to the gate of one attempt: the clock when
      rate_limit reads it, the time lost between that reading and the end of the
      wait besides the sleep itself, the gate's jitter, and the random part of
      the backoff that may follow the attempt. */
  datatype GateEnv = GateEnv(now: real, overhead: real, gateJitter: real, backoffJitter: real)

  predicate GateEnvOk(env: GateEnv, isPost: bool)
  {
    && env.overhead >= 0.0
    && 0.0 <= env.gateJitter <= (if isPost then 0.1 else 0.05)
    && 0.0 <= env.backoffJitter < 1.0
  }

  class Client {
    var currentRateLimit: int
    var rateLimitErrors: int
    var lastPostTime: real
    var lastGetTime: real
    var apiCalls: nat
    var apiErrors: nat

    ghost predicate Valid()
      reads this
    {
      InBounds(State())
    }

    function State(): RateState
      reads this
    {
      RateState(currentRateLimit, rateLimitErrors)
    }

    constructor ()
      ensures Valid() && State() == Initial
      ensures lastPostTime == 0.0 && lastGetTime == 0.0
      ensures apiCalls == 0 && apiErrors == 0
    {
      currentRateLimit, rateLimitErrors := Ceiling, 0;
      lastPostTime, lastGetTime := 0.0, 0.0;
      apiCalls, apiErrors := 0, 0;
    }

    /** adjust_rate_limit, called with the code of every non-zero API status. */
    method AdjustRateLimit(code: string)
      requires Valid()
      modifies this`currentRateLimit, this`rateLimitErrors
      ensures Valid()
      ensures State() == Adjusted(old(State()), code)
    {
      if code == Throttle {
        rateLimitErrors := rateLimitErrors + 1;
        if rateLimitErrors >= StreakLength {
          currentRateLimit := if currentRateLimit - StepDown > Floor then currentRateLimit - StepDown else Floor;
          rateLimitErrors := 0;
        }
      } else {
        if rateLimitErrors > 0 {
          rateLimitErrors := if rateLimitErrors - 1 > 0 then rateLimitErrors - 1 else 0;
        }
        if currentRateLimit < Ceiling && rateLimitErrors == 0 {
          currentRateLimit := if currentRateLimit + 1 < Ceiling then currentRateLimit + 1 else Ceiling;
        }
      }
    }

    /** rate_limit: sleeps out what is left of 1/limit since the last request of
        the same method and stamps the clock after the wait as that method's last
        request. Requests of one method are thus at least 1/limit apart. */
    method RateLimit(isPost: bool, now: real, overhead: real, jitter: real) returns (sleep: real)
      requires Valid()
      requires overhead >= 0.0 && 0.0 <= jitter <= (if isPost then 0.1 else 0.05)
      modifies this`lastPostTime, this`lastGetTime
      ensures sleep == GateSleep(currentRateLimit, now, if isPost then old(lastPostTime) else old(lastGetTime), jitter)
      ensures isPost ==> lastPostTime == now + sleep + overhead && lastGetTime == old(lastGetTime)
      ensures !isPost ==> lastGetTime == now + sleep + overhead && lastPostTime == old(lastPostTime)
      ensures isPost ==> lastPostTime - old(lastPostTime) >= 1.0 / currentRateLimit as real
      ensures !isPost ==> lastGetTime - old(lastGetTime) >= 1.0 / currentRateLimit as real
    {
      var last := if isPost then lastPostTime else lastGetTime;
      var wait := 1.0 / currentRateLimit as real - (now - last);
      sleep := 0.0;
      if wait > 0.0 {
        sleep := wait + jitter;
      }
      if isPost {
        lastPostTime := now + sleep + overhead;
      } else {
        lastGetTime := now + sleep + overhead;
      }
    }

    /** One attempt of retry_request: the gate of its verb, then the
        bookkeeping of what the exchange did: an exception or a non-zero status
        is an API error, and a non-zero status goes through adjust_rate_limit. */
    method GatedAttempt(ghost s0: RateState, ghost e0: nat, ghost outcomes: seq<Attempt>, ghost i: nat,
                        isPost: bool, env: GateEnv, outcome: Attempt)
      requires Valid() && GateEnvOk(env, isPost)
      requires i < |outcomes| && outcome == outcomes[i]
      requires State() == AdjustAll(s0, ErrorCodes(outcomes[..i]))
      requires apiErrors == e0 + CountApiErrors(outcomes[..i])
      modifies this`currentRateLimit, this`rateLimitErrors, this`apiErrors, this`lastPostTime, this`lastGetTime
      ensures Valid()
      ensures State() == AdjustAll(s0, ErrorCodes(outcomes[..i + 1]))
      ensures apiErrors == e0 + CountApiErrors(outcomes[..i + 1])
    {
      var _ := RateLimit(isPost, env.now, env.overhead, env.gateJitter);
      ghost var before := outcomes[..i];
      PrefixStep(outcomes, i);
      if IsApiError(outcome) {
        apiErrors := apiErrors + 1;
      }
      if AdjustsLimit(outcome) {
        AdjustAllAppend(s0, ErrorCodes(before), outcome.code);
        AdjustRateLimit(outcome.code);
      }
    }

    /** retry_request: at most three attempts, each behind the gate; a throttle
        reply or a requests exception is followed by a backoff and another
        attempt, every non-zero status adjusts the limit, and anything else ends
        the loop. outcomes[k] is what the exchange does at attempt k and envs[k]
        what the clock and the random source do around it. */
    method RetryRequest(isPost: bool, outcomes: seq<Attempt>, envs: seq<GateEnv>)
        returns (r: RetryResult, backoffs: seq<real>)
      requires Valid()
      requires |outcomes| >= MaxAttempts && |envs| >= MaxAttempts
      requires forall k :: 0 <= k < |envs| ==> GateEnvOk(envs[k], isPost)
      modifies this
      ensures Valid()
      ensures |backoffs| <= MaxAttempts
      ensures r == RetryOutcome(outcomes)
      ensures var n := AttemptsMade(outcomes);
              && State() == AdjustAll(old(State()), ErrorCodes(outcomes[..n]))
              && apiCalls == old(apiCalls) + 1
              && apiErrors == old(apiErrors) + CountApiErrors(outcomes[..n])
      ensures |backoffs| == if r == Raised(MaxRetriesExceeded) then MaxAttempts else AttemptsMade(outcomes) - 1
      ensures forall k :: 0 <= k < |backoffs| ==>
                GateEnvOk(envs[k], isPost) && Retryable(outcomes[k]) && backoffs[k] == Backoff(k, envs[k].backoffJitter)
    {
      ghost var s0 := State();
      ghost var e0 := apiErrors;
      apiCalls := apiCalls + 1;
      backoffs := [];
      var attempt := 0;
      while attempt < MaxAttempts
        invariant 0 <= attempt <= AttemptsMade(outcomes)
        invariant Valid()
        invariant |backoffs| == attempt
        invariant forall k :: 0 <= k < attempt ==>
                    Retryable(outcomes[k]) && backoffs[k] == Backoff(k, envs[k].backoffJitter)
        invariant State() == AdjustAll(s0, ErrorCodes(outcomes[..attempt]))
        invariant apiErrors == e0 + CountApiErrors(outcomes[..attempt])
        invariant apiCalls == old(apiCalls) + 1
      {
        var env := envs[attempt];
        var outcome := outcomes[attempt];
        GatedAttempt(s0, e0, outcomes, attempt, isPost, env, outcome);
        if !Retryable(outcome) {
          StopsAt(outcomes, attempt);
        }
        if outcome.NoMessages? {
          r := Raised(MalformedReply);
          return;
        }
        if !Retryable(outcome) {
          r := Returned(outcome);
          return;
        }
        backoffs := backoffs + [Backoff(attempt, env.backoffJitter)];
        attempt := attempt + 1;
      }
      r := Raised(MaxRetriesExceeded);
    }
  }

  /** generate_timestamp: the whole seconds of the clock followed by "000",
      i.e. milliseconds. */
  function Timestamp(seconds: nat): (ts: string)
    ensures AllDigits(ts) && |ts| > 3
  {
    Decimal(seconds) + "000"
  }

  predicate AllDigits(s: string)
  {
    forall k :: 0 <= k < |s| ==> '0' <= s[k] <= '9'
  }

  function Decimal(n: nat): (s: string)
    ensures AllDigits(s) && |s| >= 1
  {
    if n < 10 then [('0' as int + n) as char]
    else Decimal(n / 10) + [('0' as int + n % 10) as char]
  }

  /** The number a string of decimal digits denotes. */
  function DecimalValue(s: string): nat
    requires AllDigits(s)
  {
    if s == [] then 0 else 10 * DecimalValue(s[..|s| - 1]) + (s[|s| - 1] as int - '0' as int)
  }

  lemma {:induction false} DecimalRoundTrip(n: nat)
    ensures DecimalValue(Decimal(n)) == n
  {
    if n >= 10 {
      DecimalRoundTrip(n / 10);
      var d := Decimal(n / 10) + [('0' as int + n % 10) as char];
      assert d[..|d| - 1] == Decimal(n / 10);
    }
  }

  lemma DecimalValueThousand(s: string)
    requires AllDigits(s)
    ensures AllDigits(s + "000") && DecimalValue(s + "000") == 1000 * DecimalValue(s)
  {
    var t0, t1, t2 := s + "0", s + "00", s + "000";
    assert t0[..|t0| - 1] == s && t1[..|t1| - 1] == t0 && t2[..|t2| - 1] == t1;
    assert DecimalValue(t0) == 10 * DecimalValue(s);
    assert DecimalValue(t1) == 10 * DecimalValue(t0);
    assert DecimalValue(t2) == 10 * DecimalValue(t1);
  }

  /** The header timestamp denotes the clock's whole seconds in milliseconds. */
  lemma TimestampIsMilliseconds(seconds: nat)
    ensures DecimalValue(Timestamp(seconds)) == 1000 * seconds
  {
    DecimalRoundTrip(seconds);
    DecimalValueThousand(Decimal(seconds));
  }

  /** The text generate_signature hands to HMAC-SHA256. */
  function SignedText(timestamp: string, verb: string, path: string, body: string): string
  {
    timestamp + verb + path + body
  }

  /** A digit string followed by a non-digit is recovered from the concatenation. */
  lemma DigitPrefixUnique(a: string, x: string, b: string, y: string)
    requires AllDigits(a) && AllDigits(b)
    requires x != [] && !('0' <= x[0] <= '9') && y != [] && !('0' <= y[0] <= '9')
    requires a + x == b + y
    ensures a == b && x == y
  {
    var w := a + x;
    assert forall k :: 0 <= k < |a| ==> w[k] == a[k];
    assert forall k :: 0 <= k < |b| ==> w[k] == b[k];
    assert w[|a|] == x[0] && w[|b|] == y[0];
    assert |a| == |b|;
    assert a == w[..|a|] && b == w[..|b|];
    assert x == w[|a|..] && y == w[|b|..];
  }

  /** Since the timestamp is all digits and the method is GET or POST, the signed
      text determines the timestamp and the method it was built from. */
  lemma SignedTextDeterminesHeader(ts1: string, m1: string, p1: string, b1: string,
                                   ts2: string, m2: string, p2: string, b2: string)
    requires AllDigits(ts1) && AllDigits(ts2)
    requires m1 in {"GET", "POST"} && m2 in {"GET", "POST"}
    requires SignedText(ts1, m1, p1, b1) == SignedText(ts2, m2, p2, b2)
    ensures ts1 == ts2 && m1 == m2 && p1 + b1 == p2 + b2
  {
    assert SignedText(ts1, m1, p1, b1) == ts1 + (m1 + p1 + b1);
    assert SignedText(ts2, m2, p2, b2) == ts2 + (m2 + p2 + b2);
    DigitPrefixUnique(ts1, m1 + p1 + b1, ts2, m2 + p2 + b2);
    var t1, t2 := m1 + p1 + b1, m2 + p2 + b2;
    assert t1[0] == m1[0] && t2[0] == m2[0];
    assert t1 == m1 + (p1 + b1) && t2 == m2 + (p2 + b2);
    assert (m1 + (p1 + b1))[|m1|..] == p1 + b1;
  }
}
