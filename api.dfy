/**
 * The `api(path, {retries, timeoutMs})` request loop of src/app.js.
 * `fetch`, the abort timer and `sleep` are abstracted: the loop is handed what each
 * attempt settles to and records the delays it would sleep.
 */
module Api {
  import opened Wrappers

  /** What `r.json()` settles to on an ok response. */
  datatype Parse<J> = Parsed(json: J) | Malformed(message: string)

  /** What one attempt settles to: a response with its status, what `r.json()` would settle
      to, what `r.text()` would give ("" when it fails) and the status text; or a rejected
      `fetch` (the abort timer included). */
  datatype Outcome<J> =
    | Response(status: int, body: Parse<J>, text: string, statusText: string)
    | NetworkError(message: string)

  /** What `api` rejects with. */
  datatype Error =
    | HttpError(status: int, detail: string)  // `new Error(`${r.status} ${t || r.statusText}`)`
    | NetworkFailure(message: string)         // the rejection of `fetch`
    | JsonError(message: string)              // the rejection of `r.json()`
    | GenericApiError                         // `new Error("API error")`

  datatype ApiResult<J> = Success(json: J) | Failure(error: Error)

  /** Default number of attempts. */
  const ApiRetries: int := 20

  /** `r.ok`: a 2xx status. */
  predicate IsOk(status: int) {
    200 <= status <= 299
  }

  /** Statuses of a backend that is warming up or building the resource. */
  predicate IsTransient(status: int) {
    status == 503 || status == 202 || status == 502 || status == 504
  }

  /** The attempt ends the loop with `return r.json()`. */
  predicate Succeeds<J>(o: Outcome<J>) {
    o.Response? && IsOk(o.status)
  }

  /** The attempt takes the transient branch: sleep, then `continue`. */
  predicate Polls<J>(o: Outcome<J>) {
    o.Response? && !IsOk(o.status) && IsTransient(o.status)
  }

  /** Sleep after a transient status at attempt `i`. */
  function TransientDelay(i: int): (d: int)
    ensures d <= 2500
    ensures i >= 1 ==> d >= 900
  {
    Min(2500, 800 + i * 100)
  }

  /** Sleep after a caught error at attempt `i`. */
  function ErrorDelay(i: int): (d: int)
    ensures d <= 2500
    ensures i >= 1 ==> d >= 620
  {
    Min(2500, 500 + i * 120)
  }

  /** The attempt throws inside the `try` and its `catch` records the error. */
  predicate Throws<J>(o: Outcome<J>) {
    o.NetworkError? || (o.Response? && !IsOk(o.status) && !IsTransient(o.status))
  }

  /** What the `catch` stores in `lastErr`. */
  function Thrown<J>(o: Outcome<J>): Error
    requires Throws(o)
  {
    if o.NetworkError? then NetworkFailure(o.message)
    else HttpError(o.status, if o.text != "" then o.text else o.statusText)
  }

  /** The sleep that follows a non-ok outcome at attempt `i`. */
  function DelayAfter<J>(i: int, o: Outcome<J>): int
    requires !Succeeds(o)
  {
    if Polls(o) then TransientDelay(i) else ErrorDelay(i)
  }

  /** `return r.json()`: the parse is returned unawaited, so its failure escapes the loop. */
  function Settle<J>(p: Parse<J>): ApiResult<J> {
    match p
    case Parsed(j) => Success(j)
    case Malformed(m) => Failure(JsonError(m))
  }

  /** How a call ends: its result, the number of fetches and the sleeps in order. */
  datatype Trace<J> = Trace(result: ApiResult<J>, calls: nat, delays: seq<int>)

  /** The attempts `i..retries` of the loop, `lastErr` being what the earlier attempts left. */
  function Run<J>(outcomes: seq<Outcome<J>>, retries: int, i: int, lastErr: Option<Error>): Trace<J>
    requires 1 <= i
    requires retries <= |outcomes|
    decreases if retries >= i then retries - i + 1 else 0
  {
    if i > retries then Trace(Failure(lastErr.GetOr(GenericApiError)), 0, [])
    else
      var o := outcomes[i - 1];
      if Succeeds(o) then Trace(Settle(o.body), 1, [])
      else
        var rest := Run(outcomes, retries, i + 1, if Throws(o) then Some(Thrown(o)) else lastErr);
        Trace(rest.result, rest.calls + 1, [DelayAfter(i, o)] + rest.delays)
  }

  /** One failed attempt: its sleep comes first, then the rest of the loop. */
  lemma RunUnfold<J>(outcomes: seq<Outcome<J>>, retries: int, i: int, lastErr: Option<Error>)
    requires 1 <= i <= retries <= |outcomes| && !Succeeds(outcomes[i - 1])
    ensures var o := outcomes[i - 1];
      var rest := Run(outcomes, retries, i + 1, if Throws(o) then Some(Thrown(o)) else lastErr);
      Run(outcomes, retries, i, lastErr) == Trace(rest.result, rest.calls + 1, [DelayAfter(i, o)] + rest.delays)
  {
  }

  /** `api(path, {retries})`, attempt `i` settling to `outcomes[i - 1]`. */
  method Call<J>(retries: int, outcomes: seq<Outcome<J>>) returns (result: ApiResult<J>, calls: nat, delays: seq<int>)
    requires retries <= |outcomes|
    ensures Trace(result, calls, delays) == Run(outcomes, retries, 1, None)
  {
    var lastErr: Option<Error> := None;
    calls, delays := 0, [];
    var i := 1;
    while i <= retries
      invariant 1 <= i && (retries >= 1 ==> i <= retries + 1)
      invariant calls == i - 1
      invariant var rest := Run(outcomes, retries, i, lastErr);
        Run(outcomes, retries, 1, None) == Trace(rest.result, calls + rest.calls, delays + rest.delays)
      decreases retries - i
    {
      var r := outcomes[i - 1];
      calls := calls + 1;
      if r.Response? && IsOk(r.status) {
        result := Settle(r.body);
        return;
      }
      RunUnfold(outcomes, retries, i, lastErr);
      if r.Response? && IsTransient(r.status) {
        ghost var rest := Run(outcomes, retries, i + 1, lastErr);
        assert delays + ([TransientDelay(i)] + rest.delays) == (delays + [TransientDelay(i)]) + rest.delays;
        delays := delays + [TransientDelay(i)];
        i := i + 1;
        continue;
      }
      ghost var rest := Run(outcomes, retries, i + 1, Some(Thrown(r)));
      assert delays + ([ErrorDelay(i)] + rest.delays) == (delays + [ErrorDelay(i)]) + rest.delays;
      lastErr := Some(Thrown(r));
      delays := delays + [ErrorDelay(i)];
      i := i + 1;
    }
    assert delays + [] == delays;
    result := Failure(lastErr.GetOr(GenericApiError));
  }

  // ---------------------------------------------------------------------------
  // Properties of the loop
  // ---------------------------------------------------------------------------

  /** The error of the last attempt in `lo..hi-1` that threw, else `fallback`. */
  function LastThrown<J>(outcomes: seq<Outcome<J>>, lo: int, hi: int, fallback: Option<Error>): Option<Error>
    requires 0 <= lo && hi <= |outcomes|
    decreases hi - lo
  {
    if hi <= lo then fallback
    else if Throws(outcomes[hi - 1]) then Some(Thrown(outcomes[hi - 1]))
    else LastThrown(outcomes, lo, hi - 1, fallback)
  }

  lemma {:induction false} LastThrownShift<J>(outcomes: seq<Outcome<J>>, lo: int, hi: int, fallback: Option<Error>)
    requires 0 <= lo < hi <= |outcomes|
    ensures LastThrown(outcomes, lo, hi, fallback) ==
      LastThrown(outcomes, lo + 1, hi, if Throws(outcomes[lo]) then Some(Thrown(outcomes[lo])) else fallback)
    decreases hi - lo
  {
    if hi - 1 > lo && !Throws(outcomes[hi - 1]) {
      LastThrownShift(outcomes, lo, hi - 1, fallback);
    }
  }

  lemma {:induction false} NoThrowKeepsFallback<J>(outcomes: seq<Outcome<J>>, lo: int, hi: int, fallback: Option<Error>)
    requires 0 <= lo && hi <= |outcomes|
    requires forall j :: lo <= j < hi ==> !Throws(outcomes[j])
    ensures LastThrown(outcomes, lo, hi, fallback) == fallback
    decreases hi - lo
  {
    if hi > lo {
      NoThrowKeepsFallback(outcomes, lo, hi - 1, fallback);
    }
  }

  /** At most `retries` fetches, none when `retries <= 0`; a sleep follows every fetch but a
      successful one. */
  lemma {:induction false} CallsBounded<J>(outcomes: seq<Outcome<J>>, retries: int, i: int, lastErr: Option<Error>)
    requires 1 <= i && retries <= |outcomes|
    ensures var t := Run(outcomes, retries, i, lastErr);
      && (retries < i ==> t.calls == 0)
      && (retries >= i ==> 1 <= t.calls <= retries - i + 1)
      && |t.delays| == (if t.calls > 0 && Succeeds(outcomes[i - 1 + t.calls - 1]) then t.calls - 1 else t.calls)
    decreases if retries >= i then retries - i + 1 else 0
  {
    if i <= retries && !Succeeds(outcomes[i - 1]) {
      CallsBounded(outcomes, retries, i + 1, if Throws(outcomes[i - 1]) then Some(Thrown(outcomes[i - 1])) else lastErr);
    }
  }

  /** The loop stops at the first 2xx response and returns what its body parses to. */
  lemma {:induction false} StopsAtFirstSuccess<J>(outcomes: seq<Outcome<J>>, retries: int, i: int, lastErr: Option<Error>, k: int)
    requires 1 <= i && retries <= |outcomes|
    requires i - 1 <= k < retries && Succeeds(outcomes[k])
    requires forall j :: i - 1 <= j < k ==> !Succeeds(outcomes[j])
    ensures Run(outcomes, retries, i, lastErr).calls == k - i + 2
    ensures Run(outcomes, retries, i, lastErr).result == Settle(outcomes[k].body)
    decreases k - i
  {
    if k > i - 1 {
      StopsAtFirstSuccess(outcomes, retries, i + 1, if Throws(outcomes[i - 1]) then Some(Thrown(outcomes[i - 1])) else lastErr, k);
    }
  }

  /** Without a 2xx response every attempt is made, and the call fails with the last caught
      error, or with the generic "API error" when no attempt threw. */
  lemma {:induction false} ExhaustedFailsWithLastError<J>(outcomes: seq<Outcome<J>>, retries: int, i: int, lastErr: Option<Error>)
    requires 1 <= i && retries <= |outcomes|
    requires forall j :: i - 1 <= j < retries ==> !Succeeds(outcomes[j])
    ensures var t := Run(outcomes, retries, i, lastErr);
      && t.calls == (if retries >= i then retries - i + 1 else 0)
      && t.result == Failure((if retries >= i then LastThrown(outcomes, i - 1, retries, lastErr) else lastErr).GetOr(GenericApiError))
    decreases if retries >= i then retries - i + 1 else 0
  {
    if i <= retries {
      var next := if Throws(outcomes[i - 1]) then Some(Thrown(outcomes[i - 1])) else lastErr;
      ExhaustedFailsWithLastError(outcomes, retries, i + 1, next);
      LastThrownShift(outcomes, i - 1, retries, lastErr);
      if i + 1 > retries {
        assert LastThrown(outcomes, i, retries, next) == next;
      }
    }
  }

  /** Only 502/503/504 answers (202 is `r.ok`) from start to end: every attempt is made and
      the error is the generic one. */
  lemma AllPollsIsGenericError<J>(outcomes: seq<Outcome<J>>, retries: int)
    requires 1 <= retries <= |outcomes|
    requires forall j :: 0 <= j < retries ==> Polls(outcomes[j])
    ensures Run(outcomes, retries, 1, None).calls == retries
    ensures Run(outcomes, retries, 1, None).result == Failure(GenericApiError)
  {
    ExhaustedFailsWithLastError(outcomes, retries, 1, None);
    NoThrowKeepsFallback(outcomes, 0, retries, None);
  }

  /** The j-th sleep in `d` follows attempt `i + j`, uses that attempt's formula and lies in 620..2500. */
  predicate DelaysMatch<J>(outcomes: seq<Outcome<J>>, i: int, d: seq<int>) {
    forall j :: 0 <= j < |d| ==>
      0 <= i - 1 + j < |outcomes| && !Succeeds(outcomes[i - 1 + j]) &&
      d[j] == DelayAfter(i + j, outcomes[i - 1 + j]) && 620 <= d[j] <= 2500
  }

  /** Every sleep of the loop follows a failed attempt with that attempt's formula. */
  lemma {:induction false} DelaysFollowFormulas<J>(outcomes: seq<Outcome<J>>, retries: int, i: int, lastErr: Option<Error>)
    requires 1 <= i && retries <= |outcomes|
    ensures DelaysMatch(outcomes, i, Run(outcomes, retries, i, lastErr).delays)
    decreases if retries >= i then retries - i + 1 else 0
  {
    if i <= retries && !Succeeds(outcomes[i - 1]) {
      var next := if Throws(outcomes[i - 1]) then Some(Thrown(outcomes[i - 1])) else lastErr;
      DelaysFollowFormulas(outcomes, retries, i + 1, next);
      RunUnfold(outcomes, retries, i, lastErr);
      var d := Run(outcomes, retries, i, lastErr).delays;
      var rest := Run(outcomes, retries, i + 1, next).delays;
      assert d == [DelayAfter(i, outcomes[i - 1])] + rest;
      assert DelaysMatch(outcomes, i + 1, rest);
      forall j | 0 <= j < |d|
        ensures 0 <= i - 1 + j < |outcomes| && !Succeeds(outcomes[i - 1 + j]) &&
          d[j] == DelayAfter(i + j, outcomes[i - 1 + j]) && 620 <= d[j] <= 2500
      {
        if j == 0 {
          assert d[0] == DelayAfter(i, outcomes[i - 1]);
        } else {
          assert d[j] == rest[j - 1];
          assert (i + 1) - 1 + (j - 1) == i - 1 + j && (i + 1) + (j - 1) == i + j;
        }
      }
    }
  }

  /** Total of a sequence of sleeps, in milliseconds. */
  function TotalDelay(d: seq<int>): int {
    if d == [] then 0 else d[0] + TotalDelay(d[1..])
  }

  lemma {:induction false} TotalDelayBounded(d: seq<int>, lo: int, hi: int)
    requires forall j :: 0 <= j < |d| ==> lo <= d[j] <= hi
    ensures lo * |d| <= TotalDelay(d) <= hi * |d|
  {
    if d != [] {
      TotalDelayBounded(d[1..], lo, hi);
      assert lo * |d| == lo + lo * |d[1..]|;
      assert hi * |d| == hi + hi * |d[1..]|;
    }
  }

  /** With the default number of attempts a call fetches between 1 and 20 times, and sleeps at
      most 20 times, 0.62 to 2.5 seconds each and at most 50 seconds in all. */
  lemma DefaultRetriesBound<J>(outcomes: seq<Outcome<J>>)
    requires ApiRetries <= |outcomes|
    ensures var t := Run(outcomes, ApiRetries, 1, None);
      && 1 <= t.calls <= ApiRetries
      && |t.delays| <= ApiRetries
      && 620 * |t.delays| <= TotalDelay(t.delays) <= 2500 * ApiRetries
  {
    var t := Run(outcomes, ApiRetries, 1, None);
    CallsBounded(outcomes, ApiRetries, 1, None);
    DelaysFollowFormulas(outcomes, ApiRetries, 1, None);
    TotalDelayBounded(t.delays, 620, 2500);
  }

  /** Each formula alone is non-decreasing in the attempt number. */
  lemma DelayFormulasMonotone(i: int, j: int)
    requires i <= j
    ensures TransientDelay(i) <= TransientDelay(j)
    ensures ErrorDelay(i) <= ErrorDelay(j)
  {
  }

  /** The sleeps as a sequence are not monotone: a 503 followed by a network error sleeps
      900 ms, then 740 ms. */
  lemma DelaysCanDecrease()
    ensures var o: seq<Outcome<int>> := [Response(503, Malformed(""), "", ""), NetworkError("offline")];
      Run(o, 2, 1, None).delays == [900, 740]
  {
  }

  /** Two 503s then a 200: the third fetch returns its body and nothing follows. */
  lemma WarmUpThenOk<J>(j: J)
    ensures var o := [Response(503, Malformed(""), "", ""), Response(503, Malformed(""), "", ""),
                      Response(200, Parsed(j), "", ""), NetworkError("unused")];
      Run(o, 4, 1, None) == Trace(Success(j), 3, [900, 1000])
  {
  }

  /** A non-ok body is never parsed; an unparsable 2xx body fails at once, without a retry. */
  lemma MalformedSuccessIsNotRetried<J>(outcomes: seq<Outcome<J>>, retries: int, m: string)
    requires 1 <= retries <= |outcomes| && Succeeds(outcomes[0]) && outcomes[0].body == Malformed(m)
    ensures Run(outcomes, retries, 1, None) == Trace(Failure(JsonError(m)), 1, [])
  {
  }

  // ---------------------------------------------------------------------------
  // As written: 202 counts as success, and other failures are retried
  // ---------------------------------------------------------------------------

  /** The transient branch can only ever see 502, 503 and 504: 202 is a 2xx status. */
  lemma AcceptedNeverPolls<J>(o: Outcome<J>)
    ensures Polls(o) ==> o.status == 502 || o.status == 503 || o.status == 504
    ensures o.Response? && o.status == 202 ==> Succeeds(o)
  {
  }

  /** A 202 "still building" answer ends the loop at once with whatever its body parses to. */
  lemma AcceptedIsReturned()
    ensures var o: seq<Outcome<int>> := [Response(202, Parsed(0), "", ""), Response(200, Parsed(7), "", "")];
      Run(o, 2, 1, None) == Trace(Success(0), 1, [])
  {
  }

  /** A 404 is thrown inside the `try`, caught, slept on and retried: three 404s cost three
      fetches and the call fails with the 404 only after the last. */
  lemma NotFoundIsRetried()
    ensures var nf: Outcome<int> := Response(404, Malformed(""), "nf", "");
      Run([nf, nf, nf], 3, 1, None) == Trace(Failure(HttpError(404, "nf")), 3, [620, 740, 860])
  {
  }

  // ---------------------------------------------------------------------------
  // As evidently intended: 202 polls, other HTTP errors fail at once
  // ---------------------------------------------------------------------------

  /** The loop with the transient test ahead of `r.ok` and the HTTP error outside the
      `try`: 202/502/503/504 poll, any other non-2xx status fails at once, network errors
      are retried. */
  function RunIntended<J>(outcomes: seq<Outcome<J>>, retries: int, i: int, lastErr: Option<Error>): Trace<J>
    requires 1 <= i
    requires retries <= |outcomes|
    decreases if retries >= i then retries - i + 1 else 0
  {
    if i > retries then Trace(Failure(lastErr.GetOr(GenericApiError)), 0, [])
    else
      var o := outcomes[i - 1];
      if o.Response? && IsTransient(o.status) then
        var rest := RunIntended(outcomes, retries, i + 1, lastErr);
        Trace(rest.result, rest.calls + 1, [TransientDelay(i)] + rest.delays)
      else if Succeeds(o) then Trace(Settle(o.body), 1, [])
      else if o.Response? then Trace(Failure(Thrown(o)), 1, [])
      else
        var rest := RunIntended(outcomes, retries, i + 1, Some(Thrown(o)));
        Trace(rest.result, rest.calls + 1, [ErrorDelay(i)] + rest.delays)
  }

  /** A 202 is polled like the other transient statuses. */
  lemma IntendedPollsAccepted()
    ensures var o: seq<Outcome<int>> := [Response(202, Parsed(0), "", ""), Response(200, Parsed(7), "", "")];
      RunIntended(o, 2, 1, None) == Trace(Success(7), 2, [900])
  {
    var o: seq<Outcome<int>> := [Response(202, Parsed(0), "", ""), Response(200, Parsed(7), "", "")];
    assert RunIntended(o, 2, 3, None) == Trace(Failure(GenericApiError), 0, []);
    assert RunIntended(o, 2, 2, None) == Trace(Success(7), 1, []);
  }

  /** The first non-transient, non-2xx status ends the call with its HTTP error. */
  lemma {:induction false} IntendedFailsFast<J>(outcomes: seq<Outcome<J>>, retries: int, i: int, lastErr: Option<Error>, k: int)
    requires 1 <= i && retries <= |outcomes|
    requires i - 1 <= k < retries && Throws(outcomes[k]) && outcomes[k].Response?
    requires forall j :: i - 1 <= j < k ==> outcomes[j].NetworkError? || IsTransient(outcomes[j].status)
    ensures RunIntended(outcomes, retries, i, lastErr).calls == k - i + 2
    ensures RunIntended(outcomes, retries, i, lastErr).result == Failure(HttpError(outcomes[k].status,
              if outcomes[k].text != "" then outcomes[k].text else outcomes[k].statusText))
    decreases k - i
  {
    if k > i - 1 {
      var o := outcomes[i - 1];
      IntendedFailsFast(outcomes, retries, i + 1, if o.NetworkError? then Some(Thrown(o)) else lastErr, k);
    }
  }

  /** The two loops agree whenever no attempt answers 202 or a non-transient error status. */
  lemma {:induction false} IntendedAgreesOtherwise<J>(outcomes: seq<Outcome<J>>, retries: int, i: int, lastErr: Option<Error>)
    requires 1 <= i && retries <= |outcomes|
    requires forall j :: i - 1 <= j < retries ==>
      outcomes[j].NetworkError? || (outcomes[j].status != 202 && (IsOk(outcomes[j].status) || IsTransient(outcomes[j].status)))
    ensures RunIntended(outcomes, retries, i, lastErr) == Run(outcomes, retries, i, lastErr)
    decreases if retries >= i then retries - i + 1 else 0
  {
    if i <= retries && !Succeeds(outcomes[i - 1]) {
      IntendedAgreesOtherwise(outcomes, retries, i + 1, if Throws(outcomes[i - 1]) then Some(Thrown(outcomes[i - 1])) else lastErr);
    }
  }
}
