/** The polling loop of `loginWithDeviceAuthorization` in apps/cli/src/auth.ts (section 3.5 of RFC 8628). */
module DeviceLogin {
  import opened Numbers
  import opened Sequences

  /** Times are in milliseconds, the polling interval in seconds. */
  datatype Policy = Policy(requestDeadline: nat, retryBaseDelay: nat, retryMaxDelay: nat)

  datatype Reply =
    | Lost
    | RateLimited(retryAfter: Option<nat>)
    | ServerError(retryAfter: Option<nat>)
    | Granted(token: string)
    | AuthorizationPending
    | SlowDown
    | ExpiredToken
    | AccessDenied
    | Unusable

  /** What the server would answer to a request, and how long it takes. */
  datatype Answer = Answer(after: nat, reply: Reply)

  datatype Outcome = LoggedIn | TimedOut | Expired | Denied | Failed

  /** One token request at `at` under the interval then in force; the answer before it, or the start, was at `since`. */
  datatype Request = Request(at: int, since: int, interval: nat, reply: Reply)

  function RetryDelay(attempt: nat, policy: Policy): nat
    requires attempt > 0
  {
    Min(policy.retryMaxDelay, policy.retryBaseDelay * Pow2(attempt - 1))
  }

  function CeilingDivide(a: nat, b: nat): nat
    requires b > 0
  {
    if a % b == 0 then a / b else a / b + 1
  }

  lemma CeilingCovers(a: nat, b: nat)
    requires b > 0
    ensures CeilingDivide(a, b) * b >= a
  {
    assert a == a / b * b + a % b;
    assert (a / b + 1) * b == a / b * b + b;
  }

  function DefaultPolls(expiresIn: nat, interval: nat): nat
    requires interval > 0
  {
    Max(1, CeilingDivide(expiresIn, interval))
  }

  /** A transient answer that asks for a pause of its own: the server's guidance, or a fallback. */
  function Pause(reply: Reply, interval: nat, poll: nat, policy: Policy): Option<nat>
    requires poll > 0
  {
    match reply
    case Lost => Some(RetryDelay(poll, policy))
    case RateLimited(None) => Some((interval + 5) * 1000)
    case RateLimited(Some(ms)) => Some(ms)
    case ServerError(None) => Some(RetryDelay(poll, policy))
    case ServerError(Some(ms)) => Some(ms)
    case _ => None
  }

  predicate KeepsPolling(reply: Reply) {
    reply.Lost? || reply.RateLimited? || reply.ServerError? || reply.AuthorizationPending? || reply.SlowDown?
  }

  function Final(reply: Reply): Outcome
    requires !KeepsPolling(reply)
  {
    match reply
    case Granted(token) => if token == "" then Failed else LoggedIn
    case ExpiredToken => Expired
    case AccessDenied => Denied
    case Unusable => Failed
  }

  /** The answer that the outcome stands for; running out of time stands for none, or one that only put off. */
  ghost predicate StandsFor(outcome: Outcome, requests: seq<Request>) {
    && (outcome == LoggedIn <==>
          requests != [] && exists token :: token != "" && Last(requests).reply == Granted(token))
    && (outcome == Expired <==> requests != [] && Last(requests).reply == ExpiredToken)
    && (outcome == Denied <==> requests != [] && Last(requests).reply == AccessDenied)
    && (outcome == Failed <==> requests != [] && Last(requests).reply in {Unusable, Granted("")})
    && (outcome == TimedOut <==>
          requests == [] || Last(requests).reply in {Lost, AuthorizationPending, SlowDown}
          || Last(requests).reply.RateLimited? || Last(requests).reply.ServerError?)
  }

  function SlowDowns(requests: seq<Request>): nat {
    if requests == [] then 0
    else SlowDowns(requests[..|requests| - 1]) + if Last(requests).reply.SlowDown? then 1 else 0
  }

  /** The interval after an answer: RFC 8628 adds five seconds for each slow_down. */
  function NextInterval(r: Request): nat {
    if r.reply.SlowDown? then r.interval + 5 else r.interval
  }

  /** A request waited out its interval, and before it whatever pause the answer to the one before asked for. */
  ghost predicate Follows(policy: Policy, previous: Request, poll: nat, next: Request) {
    && poll > 0 && KeepsPolling(previous.reply)
    && next.interval == NextInterval(previous)
    && next.since >= previous.at
    && next.at >= next.since + 1000 * next.interval
    && var pause := Pause(previous.reply, previous.interval, poll, policy);
       pause.Some? ==> next.at >= next.since + pause.value + 1000 * next.interval
  }

  ghost predicate Patient(policy: Policy, start: int, interval: nat, expiresAt: int, requests: seq<Request>) {
    && (requests != [] ==>
          requests[0].since == start && requests[0].interval == interval && requests[0].at >= start + 1000 * interval)
    && (forall k :: 1 <= k < |requests| ==> Follows(policy, requests[k - 1], k, requests[k]))
    && (forall k :: 0 <= k < |requests| ==> requests[k].at < expiresAt)
  }

  /** The pause that the last answer asked for is over. */
  ghost predicate Rested(policy: Policy, last: Request, poll: nat, since: int, now: int) {
    poll > 0 && var pause := Pause(last.reply, last.interval, poll, policy); pause.Some? ==> now >= since + pause.value
  }

  /** Each request got the server's answer to it, or none in time. */
  ghost predicate HeardAll(requests: seq<Request>, answers: nat -> Answer, policy: Policy, expiresAt: int) {
    forall k :: 0 <= k < |requests| ==> requests[k].reply == Heard(answers(k), policy, requests[k].at, expiresAt)
  }

  lemma PatientSnoc(policy: Policy, start: int, interval: nat, expiresAt: int, requests: seq<Request>, r: Request)
    requires Patient(policy, start, interval, expiresAt, requests) && r.at < expiresAt
    requires if requests == [] then r.since == start && r.interval == interval && r.at >= start + 1000 * interval
             else Follows(policy, Last(requests), |requests|, r)
    ensures Patient(policy, start, interval, expiresAt, requests + [r])
  {
  }

  /** The interval in force for request k is the original one and five seconds for each slow_down before it. */
  lemma {:induction false} IntervalGrows(
    policy: Policy, start: int, interval: nat, expiresAt: int, requests: seq<Request>, k: nat)
    requires Patient(policy, start, interval, expiresAt, requests) && k < |requests|
    ensures requests[k].interval == interval + 5 * SlowDowns(requests[..k])
  {
    if k > 0 {
      IntervalGrows(policy, start, interval, expiresAt, requests, k - 1);
      assert Follows(policy, requests[k - 1], k, requests[k]);
      assert requests[..k][..k - 1] == requests[..k - 1];
    }
  }

  /** Requests are at least the original interval apart, whatever the server answers. */
  lemma {:induction false} RequestsApart(
    policy: Policy, start: int, interval: nat, expiresAt: int, requests: seq<Request>, j: nat, k: nat)
    requires Patient(policy, start, interval, expiresAt, requests) && j <= k < |requests|
    ensures requests[k].at >= requests[j].at + (k - j) * (1000 * interval)
  {
    if j < k {
      RequestsApart(policy, start, interval, expiresAt, requests, j, k - 1);
      IntervalGrows(policy, start, interval, expiresAt, requests, k);
      assert Follows(policy, requests[k - 1], k, requests[k]);
      assert (k - j) * (1000 * interval) == (k - 1 - j) * (1000 * interval) + 1000 * interval;
    }
  }

  /** After an outage the pause doubles with each poll up to its limit. */
  lemma {:induction false} OutagePause(poll: nat, policy: Policy)
    requires poll > 0
    ensures RetryDelay(1, policy) == Min(policy.retryMaxDelay, policy.retryBaseDelay)
    ensures RetryDelay(poll + 1, policy) == Min(policy.retryMaxDelay, policy.retryBaseDelay * (2 * Pow2(poll - 1)))
    ensures RetryDelay(poll, policy) == Min(policy.retryMaxDelay, policy.retryBaseDelay * Pow2(poll - 1))
  {
  }

  /** How long the client rests after an answer, before it sleeps the interval again. */
  ghost predicate RestsAsTold(reply: Reply, interval: nat, poll: nat, policy: Policy, rest: int)
    requires poll > 0
  {
    match reply
    case RateLimited(told) => rest == if told.Some? then told.value else 1000 * interval + 5000
    case ServerError(Some(told)) => rest == told
    case ServerError(None) => rest == Min(policy.retryMaxDelay, policy.retryBaseDelay * Pow2(poll - 1))
    case Lost => rest == Min(policy.retryMaxDelay, policy.retryBaseDelay * Pow2(poll - 1))
    case _ => rest == 0
  }

  /**
   Between two requests the client waits out what the first was told: the server's own time if it gave one,
   five seconds more than the interval after a rate limit, a growing pause after an outage, and in any case
   the interval, which five seconds are added to after a slow_down.
   */
  lemma {:induction false} WaitsAsTold(
    policy: Policy, start: int, interval: nat, expiresAt: int, requests: seq<Request>, k: nat)
    requires Patient(policy, start, interval, expiresAt, requests) && 1 <= k < |requests|
    ensures var told, next, wait := requests[k - 1], requests[k], requests[k].at - requests[k].since;
      && next.interval == told.interval + (if told.reply == SlowDown then 5 else 0)
      && next.since >= told.at && wait >= 1000 * next.interval
      && ((told.reply.RateLimited? || told.reply.ServerError?) && told.reply.retryAfter.Some? ==>
            wait >= told.reply.retryAfter.value + 1000 * next.interval)
      && (told.reply == Reply.RateLimited(None) ==> wait >= 1000 * (told.interval + 5) + 1000 * next.interval)
      && (told.reply in {Lost, ServerError(None)} ==>
            wait >= Min(policy.retryMaxDelay, policy.retryBaseDelay * Pow2(k - 1)) + 1000 * next.interval)
      && told.reply !in {ExpiredToken, AccessDenied, Unusable} && !told.reply.Granted?
  {
    assert Follows(policy, requests[k - 1], k, requests[k]);
  }

  /** The least time that so many polls take. */
  ghost function Slept(polls: nat, interval: nat): nat {
    if polls == 0 then 0 else Slept(polls - 1, interval) + 1000 * interval
  }

  lemma {:induction false} SleptProduct(polls: nat, interval: nat)
    ensures Slept(polls, interval) == 1000 * (polls * interval)
  {
    if polls > 0 {
      SleptProduct(polls - 1, interval);
      assert polls * interval == (polls - 1) * interval + interval;
    }
  }

  /** The default number of polls outlasts the code. */
  lemma EnoughPolls(expiresIn: nat, interval: nat, polls: nat)
    requires interval >= 1 && polls >= DefaultPolls(expiresIn, interval)
    ensures Slept(polls, interval) >= 1000 * expiresIn
  {
    SleptProduct(polls, interval);
    CeilingCovers(expiresIn, interval);
    assert polls * interval >= CeilingDivide(expiresIn, interval) * interval;
  }

  /** And no fewer polls would, but that one is made in any case. */
  lemma FewestPolls(expiresIn: nat, interval: nat, polls: nat)
    requires interval >= 1 && 1 <= polls < DefaultPolls(expiresIn, interval)
    ensures Slept(polls, interval) < 1000 * expiresIn
  {
    SleptProduct(polls, interval);
    var whole, rest := expiresIn / interval, expiresIn % interval;
    assert expiresIn == whole * interval + rest;
    ProductGrows(if rest == 0 then polls + 1 else polls, whole, interval);
    assert (polls + 1) * interval == polls * interval + interval;
  }

  lemma ProductGrows(a: nat, b: nat, factor: nat)
    requires a <= b
    ensures a * factor <= b * factor
  {
  }

  /** The answer as it reaches the caller of a request sent before the expiry. */
  function Heard(answer: Answer, policy: Policy, at: int, expiresAt: int): Reply {
    if answer.after > Min(policy.requestDeadline, expiresAt - at) then Lost else answer.reply
  }

  /** `fetchWithDeadline`: an answer that is not there by the deadline is lost. */
  method Fetch(now: int, expiresAt: int, policy: Policy, answer: Answer) returns (reply: Reply, answered: int)
    requires now < expiresAt
    ensures reply == Heard(answer, policy, now, expiresAt) && now <= answered <= expiresAt
    ensures reply != Lost ==> reply == answer.reply && answered == now + answer.after
    ensures answer.after <= Min(policy.requestDeadline, expiresAt - now) ==> reply == answer.reply
    ensures answer.after > Min(policy.requestDeadline, expiresAt - now) ==> reply == Lost
    ensures answered == now + Min(answer.after, Min(policy.requestDeadline, expiresAt - now))
  {
    var deadline := Min(policy.requestDeadline, Max(1, expiresAt - now));
    reply := if answer.after > deadline then Lost else answer.reply;
    answered := now + Min(answer.after, deadline);
  }

  /** A pause never reaches beyond the expiry of the code. */
  method Rest(now: int, expiresAt: int, pause: nat) returns (later: int)
    requires now <= expiresAt
    ensures now <= later <= expiresAt && (later < expiresAt ==> later == now + pause)
  {
    later := now + Min(pause, Max(0, expiresAt - now));
  }

  /** One turn of the loop: sleeps the interval, asks unless the code has expired, and rests as told. */
  method Poll(now: int, since: int, interval: nat, poll: nat, expiresAt: int, policy: Policy, answer: Answer)
    returns (asked: Option<Request>, answered: int, later: int)
    requires now < expiresAt && poll > 0
    ensures asked.None? ==> now + 1000 * interval >= expiresAt && later == now + 1000 * interval
    ensures asked.Some? ==>
      && asked.value
         == Request(now + 1000 * interval, since, interval, Heard(answer, policy, now + 1000 * interval, expiresAt))
      && asked.value.at < expiresAt && asked.value.at <= answered <= later <= expiresAt
      && (var pause := Pause(asked.value.reply, interval, poll, policy);
          pause.Some? && later < expiresAt ==> later == answered + pause.value)
      && (later < expiresAt ==> RestsAsTold(asked.value.reply, interval, poll, policy, later - answered))
  {
    var at := now + interval * 1000;
    if at >= expiresAt {
      return None, at, at;
    }
    var reply;
    reply, answered := Fetch(at, expiresAt, policy, answer);
    later := answered;
    var pause := Pause(reply, interval, poll, policy);
    if pause.Some? && answered < expiresAt {
      later := Rest(answered, expiresAt, pause.value);
    }
    asked := Some(Request(at, since, interval, reply));
  }

  /** Between two polls: every answer so far said to go on, and the pause that the last one asked for is over. */
  ghost predicate BetweenPolls(
    policy: Policy, start: int, interval: nat, expiresAt: int, requests: seq<Request>,
    now: int, since: int, intervalSeconds: nat)
  {
    && since <= now <= expiresAt && intervalSeconds >= interval
    && now >= start + Slept(|requests|, interval)
    && if requests == [] then since == start && intervalSeconds == interval
       else
         && since >= Last(requests).at && intervalSeconds == NextInterval(Last(requests))
         && KeepsPolling(Last(requests).reply)
         && (now < expiresAt ==> Rested(policy, Last(requests), |requests|, since, now))
  }

  /** The next request follows the ones before it. */
  lemma NextFollows(
    policy: Policy, start: int, interval: nat, expiresAt: int, requests: seq<Request>,
    now: int, since: int, intervalSeconds: nat, r: Request, answers: nat -> Answer)
    requires BetweenPolls(policy, start, interval, expiresAt, requests, now, since, intervalSeconds) && now < expiresAt
    requires Patient(policy, start, interval, expiresAt, requests) && HeardAll(requests, answers, policy, expiresAt)
    requires r.at == now + 1000 * intervalSeconds < expiresAt && r.since == since && r.interval == intervalSeconds
    requires r.reply == Heard(answers(|requests|), policy, r.at, expiresAt)
    ensures Patient(policy, start, interval, expiresAt, requests + [r])
      && HeardAll(requests + [r], answers, policy, expiresAt)
  {
    PatientSnoc(policy, start, interval, expiresAt, requests, r);
  }

  /** A poll that is told to go on ends between two polls again. */
  lemma PollGoesOn(
    policy: Policy, start: int, interval: nat, expiresAt: int, requests: seq<Request>,
    now: int, since: int, intervalSeconds: nat, r: Request, answered: int, later: int)
    requires BetweenPolls(policy, start, interval, expiresAt, requests, now, since, intervalSeconds)
    requires r.at == now + 1000 * intervalSeconds && r.interval == intervalSeconds && KeepsPolling(r.reply)
    requires r.at <= answered <= later <= expiresAt
    requires var pause := Pause(r.reply, r.interval, |requests| + 1, policy);
      pause.Some? && later < expiresAt ==> later == answered + pause.value
    ensures BetweenPolls(policy, start, interval, expiresAt, requests + [r], later, answered, NextInterval(r))
  {
  }

  /**
   The loop: polls until the server decides, the polls run out or the code expires. A fetch is cut off at
   its deadline; sleeps are exact. `saved` are the session tokens stored.
   */
  method PollUntilDecided(
    start: int, interval: nat, expiresAt: int, limit: nat, policy: Policy, answers: nat -> Answer)
    returns (outcome: Outcome, end: int, requests: seq<Request>, saved: seq<string>)
    requires start < expiresAt
    ensures |requests| <= limit
    ensures Patient(policy, start, interval, expiresAt, requests) && HeardAll(requests, answers, policy, expiresAt)
    ensures end <= expiresAt
      || end < expiresAt + 1000 * (if requests == [] then interval else NextInterval(Last(requests)))
    ensures StandsFor(outcome, requests)
    ensures if outcome == LoggedIn then |saved| == 1 && Last(requests).reply == Granted(saved[0]) else saved == []
    ensures outcome == TimedOut ==> end >= expiresAt || end >= start + Slept(limit, interval)
  {
    var intervalSeconds, poll, now, since := interval, 0, start, start;
    requests, saved := [], [];
    while poll < limit && now < expiresAt
      invariant poll == |requests| <= limit
      invariant BetweenPolls(policy, start, interval, expiresAt, requests, now, since, intervalSeconds)
      invariant Patient(policy, start, interval, expiresAt, requests) && HeardAll(requests, answers, policy, expiresAt)
    {
      var asked, answered, later := Poll(now, since, intervalSeconds, poll + 1, expiresAt, policy, answers(poll));
      poll := poll + 1;
      if asked.None? {
        return TimedOut, later, requests, saved;
      }
      var request := asked.value;
      NextFollows(policy, start, interval, expiresAt, requests, now, since, intervalSeconds, request, answers);
      if !KeepsPolling(request.reply) {
        outcome := Final(request.reply);
        if outcome == LoggedIn {
          saved := saved + [request.reply.token];
        }
        return outcome, later, requests + [request], saved;
      }
      PollGoesOn(policy, start, interval, expiresAt, requests, now, since, intervalSeconds, request, answered, later);
      requests := requests + [request];
      now, since, intervalSeconds := later, answered, NextInterval(request);
    }
    return TimedOut, now, requests, saved;
  }

  /** `loginWithDeviceAuthorization` from the moment the code is issued. */
  method Login(
    start: int, interval: nat, expiresIn: nat, maxPolls: Option<nat>, policy: Policy, answers: nat -> Answer)
    returns (outcome: Outcome, end: int, requests: seq<Request>, saved: seq<string>)
    requires interval >= 1 && expiresIn >= 1
    ensures |requests| <= (if maxPolls.Some? then maxPolls.value else DefaultPolls(expiresIn, interval))
    ensures Patient(policy, start, interval, start + 1000 * expiresIn, requests)
    ensures HeardAll(requests, answers, policy, start + 1000 * expiresIn)
    ensures end < start + 1000 * expiresIn + 1000 * (if requests == [] then interval else NextInterval(Last(requests)))
    ensures StandsFor(outcome, requests)
    ensures if outcome == LoggedIn then |saved| == 1 && Last(requests).reply == Granted(saved[0]) else saved == []
    ensures outcome == TimedOut && maxPolls.None? ==> end >= start + 1000 * expiresIn
  {
    var limit := if maxPolls.Some? then maxPolls.value else DefaultPolls(expiresIn, interval);
    outcome, end, requests, saved :=
      PollUntilDecided(start, interval, start + 1000 * expiresIn, limit, policy, answers);
    if requests != [] {
      IntervalGrows(policy, start, interval, start + 1000 * expiresIn, requests, |requests| - 1);
    }
    if maxPolls.None? {
      EnoughPolls(expiresIn, interval, limit);
    }
  }
}
