/**
 The bounded lookups of apps/api/src/github-repository.ts and apps/api/src/github-user.ts: the same
 loop, with different readings of a refusal.
 */
module GitHubIdentity {
  import opened Numbers
  import opened Sequences

  const DEADLINE_MS := 30_000
  const MAX_ATTEMPTS := 3
  const RETRY_BASE_DELAY_MS := 500
  const RETRY_MAX_DELAY_MS := 5_000
  const MAX_RETRY_AFTER_SECONDS := 3_600

  /**
   A header is missing, empty or a text, which JavaScript may read as a finite number and as a date in
   milliseconds.
   */
  datatype Header = Missing | Empty | Text(number: Option<real>, date: Option<int>)

  /** The head of a response, whether its body turns out usable, and how long the body takes to read. */
  datatype Response = Response(
    status: nat, usable: bool, retryAfter: Header, xRetryAfter: Header, remainingIsZero: bool, rateReset: Header,
    body: nat)

  /** What a request meets: no answer, or the head of a response after so many milliseconds. */
  datatype Answer = Answer(after: nat, response: Option<Response>)

  datatype Endpoint = Repository | User

  datatype Outcome = Resolved | AccessDenied | NotFound | RateLimited(retryAfter: Option<int>) | Unavailable

  function Ceiling(x: real): int {
    -((-x).Floor)
  }

  function Round(x: real): int {
    (x + 0.5).Floor
  }

  // ---------- Retry windows ----------

  function ParseRetryAfter(h: Header, now: int): (seconds: Option<int>)
    ensures seconds.Some? ==> 0 <= seconds.value <= MAX_RETRY_AFTER_SECONDS
  {
    if !h.Text? then None
    else if h.number.Some? && h.number.value >= 0.0 then Some(Min(MAX_RETRY_AFTER_SECONDS, Ceiling(h.number.value)))
    else if h.date.Some? then
      Some(Max(0, Min(MAX_RETRY_AFTER_SECONDS, Ceiling((h.date.value - now) as real / 1000.0))))
    else None
  }

  function ParseRateReset(h: Header, now: int): (seconds: Option<int>)
    ensures seconds.Some? ==> 0 <= seconds.value <= MAX_RETRY_AFTER_SECONDS
  {
    if !h.Text? || h.number.None? then None
    else Some(Max(0, Min(MAX_RETRY_AFTER_SECONDS, Round(h.number.value - now as real / 1000.0))))
  }

  /** A promised number of seconds, up to an hour, is waited out in full and by less than a second more. */
  lemma RetryAfterSeconds(h: Header, now: int)
    requires h.Text? && h.number.Some? && 0.0 <= h.number.value <= MAX_RETRY_AFTER_SECONDS as real
    ensures var seconds := ParseRetryAfter(h, now);
      seconds.Some? && h.number.value <= seconds.value as real < h.number.value + 1.0
  {
  }

  /** A retry window given as a date within the hour ends at that date or less than a second later. */
  lemma RetryAfterDate(h: Header, now: int)
    requires h.Text? && h.number.None? && h.date.Some? && now <= h.date.value <= now + 1000 * MAX_RETRY_AFTER_SECONDS
    ensures var seconds := ParseRetryAfter(h, now);
      seconds.Some? && h.date.value <= now + 1000 * seconds.value < h.date.value + 1000
  {
    var exact := (h.date.value - now) as real / 1000.0;
    var up := Ceiling(exact);
    assert exact <= up as real < exact + 1.0;
    assert (h.date.value - now) as real <= 1000.0 * up as real < (h.date.value - now) as real + 1000.0;
  }

  function Guidance(r: Response): Header {
    if r.retryAfter.Missing? then r.xRetryAfter else r.retryAfter
  }

  function RetryWindow(r: Response, now: int): (seconds: Option<int>)
    ensures seconds.Some? ==> 0 <= seconds.value <= MAX_RETRY_AFTER_SECONDS
  {
    var told := ParseRetryAfter(Guidance(r), now);
    if told.Some? then told else ParseRateReset(r.rateReset, now)
  }

  // ---------- Reading one answer ----------

  predicate Ok(r: Response) {
    200 <= r.status <= 299
  }

  /** A 403 with GitHub's rate-limit signals, which only the user lookup looks for. */
  predicate SecondaryLimited(e: Endpoint, r: Response) {
    e == User && r.status == 403 && (!Guidance(r).Missing? || r.remainingIsZero)
  }

  predicate Transient(e: Endpoint, r: Response) {
    !Ok(r) && (SecondaryLimited(e, r) || r.status == 429 || r.status >= 500)
  }

  /** The verdict on an answer that is not, or can no longer be, retried. */
  function Verdict(e: Endpoint, heard: Option<Response>, now: int): (outcome: Outcome)
    ensures outcome.RateLimited? && outcome.retryAfter.Some? ==>
      0 <= outcome.retryAfter.value <= MAX_RETRY_AFTER_SECONDS
    ensures outcome == Resolved ==> heard.Some? && Ok(heard.value)
  {
    match heard
    case None => Unavailable
    case Some(r) =>
      if Ok(r) then if r.usable then Resolved else Unavailable
      else if SecondaryLimited(e, r) || r.status == 429 then RateLimited(RetryWindow(r, now))
      else if r.status == 401 then AccessDenied
      else if r.status == 403 || r.status == 404 then if e == Repository then AccessDenied else NotFound
      else Unavailable
  }

  /** Only the body of a success is read, and its request's deadline no longer guards that. */
  function BodyTime(heard: Option<Response>): nat {
    if heard.Some? && Ok(heard.value) then heard.value.body else 0
  }

  /** A 403 that only tells the user lookup to come back later. */
  predicate ComeBackLater(e: Endpoint, r: Response) {
    e == User && r.status == 403 && (r.retryAfter != Missing || r.xRetryAfter != Missing || r.remainingIsZero)
  }

  /**
   What each outcome tells about the last answer. An absence is told apart from a denial only by the user
   lookup, and a success with a body that cannot be used counts as an outage.
   */
  ghost predicate Tells(e: Endpoint, outcome: Outcome, heard: Option<Response>, now: int) {
    && (outcome == Resolved <==> heard.Some? && 200 <= heard.value.status < 300 && heard.value.usable)
    && (outcome == AccessDenied <==>
          heard.Some? && (heard.value.status == 401 || (e == Repository && heard.value.status in {403, 404})))
    && (outcome == NotFound <==>
          && heard.Some? && e == User
          && (heard.value.status == 404 || (heard.value.status == 403 && !ComeBackLater(e, heard.value))))
    && (outcome.RateLimited? <==> heard.Some? && (heard.value.status == 429 || ComeBackLater(e, heard.value)))
    && (outcome.RateLimited? ==> WindowOf(heard.value, now, outcome.retryAfter))
  }

  /** The server's own retry time if it can be read, else the end of its rate limit if that can, else nothing. */
  ghost predicate WindowOf(r: Response, now: int, window: Option<int>) {
    var told := if r.retryAfter != Missing then r.retryAfter else r.xRetryAfter;
    && (told.Text? && told.number.Some? && told.number.value >= 0.0 ==>
          window == Some(Min(3600, Ceiling(told.number.value))))
    && (told.Text? && (told.number.None? || told.number.value < 0.0) && told.date.Some? ==>
          window == Some(Max(0, Min(3600, Ceiling((told.date.value - now) as real / 1000.0)))))
    && (!told.Text? || ((told.number.None? || told.number.value < 0.0) && told.date.None?) ==>
          if r.rateReset.Text? && r.rateReset.number.Some?
          then window == Some(Max(0, Min(3600, Round(r.rateReset.number.value - now as real / 1000.0))))
          else window == None)
  }

  lemma VerdictTells(e: Endpoint, heard: Option<Response>, now: int)
    ensures Tells(e, Verdict(e, heard, now), heard, now)
  {
  }

  function Retryable(e: Endpoint, heard: Option<Response>): bool {
    heard.None? || Transient(e, heard.value)
  }

  function Backoff(attempt: nat): int
    requires attempt > 0
  {
    Min(RETRY_MAX_DELAY_MS, RETRY_BASE_DELAY_MS * Pow2(attempt - 1))
  }

  /** The pause before the next attempt: only the server's answers, not outages, are cut at the deadline. */
  function Pause(heard: Option<Response>, attempt: nat, now: int, deadlineAt: int): int
    requires attempt > 0
  {
    match heard
    case None => Backoff(attempt)
    case Some(r) =>
      var told := ParseRetryAfter(Guidance(r), now);
      Min(if told.Some? then told.value * 1000 else Backoff(attempt), Max(0, deadlineAt - now))
  }

  // ---------- The loop ----------

  function FetchDeadline(now: int, deadlineAt: int): int {
    Max(1, Min(DEADLINE_MS, deadlineAt - now))
  }

  /** An answer that is not there by the deadline of its request is none. */
  function Heard(a: Answer, deadline: int): Option<Response> {
    if a.after > deadline then None else a.response
  }

  datatype Attempt = Attempt(sentAt: int, heard: Option<Response>, heardAt: int)

  function Ask(deadlineAt: int, now: int, a: Answer): Attempt {
    var deadline := FetchDeadline(now, deadlineAt);
    Attempt(now, Heard(a, deadline), now + Min(a.after, deadline))
  }

  /** After this attempt, the number-th, another one is made. */
  predicate Continues(e: Endpoint, deadlineAt: int, a: Attempt, number: nat) {
    Retryable(e, a.heard) && number < MAX_ATTEMPTS && a.heardAt < deadlineAt
  }

  /** The attempts made so far, each after the pause that follows the one before it. */
  ghost predicate Trace(e: Endpoint, start: int, answers: nat -> Answer, trace: seq<Attempt>) {
    var deadlineAt := start + DEADLINE_MS;
    && trace != [] && trace[0].sentAt == start
    && (forall k :: 0 <= k < |trace| ==> trace[k] == Ask(deadlineAt, trace[k].sentAt, answers(k)))
    && (forall k :: 1 <= k < |trace| ==>
          && Continues(e, deadlineAt, trace[k - 1], k)
          && trace[k].sentAt == NextAt(deadlineAt, trace[k - 1], k))
  }

  /** When the next attempt is sent. */
  function NextAt(deadlineAt: int, a: Attempt, number: nat): int
    requires number > 0
  {
    a.heardAt + Pause(a.heard, number, a.heardAt, deadlineAt)
  }

  /** When the lookup that made these attempts returns. */
  function EndOf(trace: seq<Attempt>): int
    requires trace != []
  {
    Last(trace).heardAt + BodyTime(Last(trace).heard)
  }

  lemma TraceSnoc(e: Endpoint, start: int, answers: nat -> Answer, trace: seq<Attempt>, a: Attempt)
    requires a == Ask(start + DEADLINE_MS, a.sentAt, answers(|trace|))
    requires if trace == [] then a.sentAt == start else
      && Trace(e, start, answers, trace) && Continues(e, start + DEADLINE_MS, Last(trace), |trace|)
      && a.sentAt == NextAt(start + DEADLINE_MS, Last(trace), |trace|)
    ensures Trace(e, start, answers, trace + [a])
  {
  }

  /**
   The lookup, against any answers: its outcome is the verdict on the last one, when no further attempt is
   due, and it is known once the body of a success is read.
   */
  method Resolve(e: Endpoint, start: int, answers: nat -> Answer)
    returns (outcome: Outcome, end: int, trace: seq<Attempt>)
    ensures Trace(e, start, answers, trace) && !Continues(e, start + DEADLINE_MS, Last(trace), |trace|)
    ensures outcome == Verdict(e, Last(trace).heard, Last(trace).heardAt)
    ensures Tells(e, outcome, Last(trace).heard, Last(trace).heardAt)
    ensures end == EndOf(trace)
  {
    var deadlineAt, now := start + DEADLINE_MS, start;
    trace := [];
    var attempt := 1;
    while true
      invariant |trace| == attempt - 1 < MAX_ATTEMPTS
      invariant if trace == [] then now == start else
        && Trace(e, start, answers, trace) && Continues(e, deadlineAt, Last(trace), |trace|)
        && now == NextAt(deadlineAt, Last(trace), |trace|)
      decreases MAX_ATTEMPTS - attempt
    {
      var asked := Ask(deadlineAt, now, answers(attempt - 1));
      TraceSnoc(e, start, answers, trace, asked);
      trace := trace + [asked];
      VerdictTells(e, asked.heard, asked.heardAt);
      if !Retryable(e, asked.heard) || attempt >= MAX_ATTEMPTS || asked.heardAt >= deadlineAt {
        return Verdict(e, asked.heard, asked.heardAt), asked.heardAt + BodyTime(asked.heard), trace;
      }
      now := NextAt(deadlineAt, asked, attempt);
      attempt := attempt + 1;
    }
  }

  // ---------- Bounds ----------

  /** A pause that starts before the deadline ends less than its own backoff after it. */
  lemma PauseBounded(heard: Option<Response>, attempt: nat, now: int, deadlineAt: int)
    requires 1 <= attempt < MAX_ATTEMPTS && now < deadlineAt
    ensures now <= now + Pause(heard, attempt, now, deadlineAt) < deadlineAt + 500 * attempt
  {
    assert Backoff(1) == 500 && Backoff(2) == 1000;
  }

  /**
   Whatever is answered, at most three requests are made and the head of the last answer is in within 31
   seconds. The lookup returns by then too, unless it still reads the body of a success, and then that body
   accounts for the excess.
   */
  lemma ResolveBounded(e: Endpoint, start: int, answers: nat -> Answer, trace: seq<Attempt>)
    requires Trace(e, start, answers, trace)
    ensures |trace| <= MAX_ATTEMPTS && Last(trace).heardAt <= start + 31_000
    ensures EndOf(trace) > start + 31_000 ==>
      && Last(trace).heard.Some? && Ok(Last(trace).heard.value)
      && Last(trace).heard.value.body >= EndOf(trace) - (start + 31_000)
  {
    var deadlineAt := start + DEADLINE_MS;
    var n := |trace| - 1;
    assert n > 0 ==> Continues(e, deadlineAt, trace[n - 1], n);
    if n > 0 {
      PauseBounded(trace[n - 1].heard, n, trace[n - 1].heardAt, deadlineAt);
    }
    assert trace[n] == Ask(deadlineAt, trace[n].sentAt, answers(n));
  }

  /** The bound is reached: after two slow outages the uncut pauses run a full second past the deadline. */
  lemma ResolveBoundTight(e: Endpoint, start: int) returns (answers: nat -> Answer, trace: seq<Attempt>)
    ensures Trace(e, start, answers, trace) && !Continues(e, start + DEADLINE_MS, Last(trace), |trace|)
    ensures Last(trace).heardAt == EndOf(trace) == start + 31_000
  {
    answers := k => Answer(if k == 0 then 0 else if k == 1 then 29_499 else 1, None);
    trace := [
      Attempt(start, None, start),
      Attempt(start + 500, None, start + 29_999),
      Attempt(start + 30_999, None, start + 31_000)];
    assert Backoff(1) == 500 && Backoff(2) == 1000;
  }

  /** No bound covers a stalled body: for any time there is a success, at once, whose lookup takes longer. */
  lemma {:induction false} BodyUnbounded(e: Endpoint, start: int, late: nat)
    returns (answers: nat -> Answer, trace: seq<Attempt>)
    ensures Trace(e, start, answers, trace) && !Continues(e, start + DEADLINE_MS, Last(trace), |trace|)
    ensures Last(trace).heardAt == start && EndOf(trace) > start + late
  {
    var success := Response(200, true, Missing, Missing, false, Missing, late + 1);
    answers := _ => Answer(0, Some(success));
    trace := [Attempt(start, Some(success), start)];
  }

  /** An answer counts only if it is there within what is left of the thirty seconds, or within a millisecond. */
  lemma {:induction false} HeardInTime(e: Endpoint, start: int, answers: nat -> Answer, trace: seq<Attempt>, k: nat)
    requires Trace(e, start, answers, trace) && k < |trace|
    ensures var left := Max(1, Min(30_000, start + 30_000 - trace[k].sentAt));
      && (answers(k).after <= left ==>
            trace[k].heard == answers(k).response && trace[k].heardAt == trace[k].sentAt + answers(k).after)
      && (answers(k).after > left ==> trace[k].heard == None && trace[k].heardAt == trace[k].sentAt + left)
  {
  }

  /**
   Between two requests the server's own retry time passes exactly, or half a second and then a whole one,
   but no pause after an answer goes beyond the thirty seconds; one after no answer may.
   */
  lemma {:induction false} PausedAsTold(e: Endpoint, start: int, answers: nat -> Answer, trace: seq<Attempt>, k: nat)
    requires Trace(e, start, answers, trace) && 1 <= k < |trace|
    ensures var before, usual := trace[k - 1], if k == 1 then 500 else 1000;
      var pause := trace[k].sentAt - before.heardAt;
      if before.heard == None then pause == usual
      else
        var told := ParseRetryAfter(Guidance(before.heard.value), before.heardAt);
        pause == Min(if told.Some? then 1000 * told.value else usual, start + 30_000 - before.heardAt)
  {
    ResolveBounded(e, start, answers, trace);
    assert Continues(e, start + DEADLINE_MS, trace[k - 1], k);
    assert Backoff(1) == 500 && Backoff(2) == 1000;
  }

  // ---------- When a lookup gives up ----------

  /** The attempts or the time are used up. */
  predicate Spent(start: int, trace: seq<Attempt>)
    requires trace != []
  {
    |trace| == 3 || Last(trace).heardAt >= start + 30_000
  }

  /** No answer, an error of the server, or one that says to come back later. */
  predicate Passing(e: Endpoint, heard: Option<Response>) {
    heard == None || heard.value.status == 429 || heard.value.status >= 500 || ComeBackLater(e, heard.value)
  }

  /**
   A lookup goes on exactly after a passing failure while attempts and time are left: every answer but the
   last was one, and if the last is one too then nothing was left.
   */
  lemma {:induction false} GivesUpOnlyWhenSpent(
    e: Endpoint, start: int, answers: nat -> Answer, trace: seq<Attempt>)
    requires Trace(e, start, answers, trace) && !Continues(e, start + DEADLINE_MS, Last(trace), |trace|)
    ensures forall k :: 0 <= k < |trace| - 1 ==> Passing(e, trace[k].heard) && trace[k].heardAt < start + 30_000
    ensures Passing(e, Last(trace).heard) ==> Spent(start, trace)
    ensures var outcome := Verdict(e, Last(trace).heard, Last(trace).heardAt);
      && (outcome.Resolved? || outcome.AccessDenied? || outcome.NotFound? ==> !Passing(e, Last(trace).heard))
      && (outcome.RateLimited? ==> Spent(start, trace))
      && (outcome.Unavailable? ==> Spent(start, trace) || !Passing(e, Last(trace).heard))
  {
    ResolveBounded(e, start, answers, trace);
    forall k | 0 <= k < |trace| - 1 ensures Passing(e, trace[k].heard) && trace[k].heardAt < start + 30_000 {
      assert Continues(e, start + DEADLINE_MS, trace[k + 1 - 1], k + 1);
    }
  }

  // ---------- Absence and denial ----------

  /** The same answer, or two that say that the resource is missing or may not be seen. */
  ghost predicate AlikeHeard(e: Endpoint, a: Option<Response>, b: Option<Response>) {
    || a == b
    || (&& a.Some? && a.value.status in {403, 404} && !ComeBackLater(e, a.value)
        && b.Some? && b.value.status in {403, 404} && !ComeBackLater(e, b.value))
  }

  /** The same answers at the same times, but for how absence is told. */
  ghost predicate Alike(e: Endpoint, a: nat -> Answer, b: nat -> Answer) {
    forall k :: a(k).after == b(k).after && AlikeHeard(e, a(k).response, b(k).response)
  }

  lemma {:induction false} Lockstep(
    e: Endpoint, start: int, a: nat -> Answer, b: nat -> Answer, s: seq<Attempt>, t: seq<Attempt>, k: nat)
    requires Trace(e, start, a, s) && Trace(e, start, b, t) && Alike(e, a, b)
    requires k < |s| && k < |t|
    ensures s[k].sentAt == t[k].sentAt && s[k].heardAt == t[k].heardAt && AlikeHeard(e, s[k].heard, t[k].heard)
  {
    if k > 0 {
      Lockstep(e, start, a, b, s, t, k - 1);
      assert Continues(e, start + DEADLINE_MS, s[k - 1], k);
    }
    assert a(k).after == b(k).after;
    assert s[k] == Ask(start + DEADLINE_MS, s[k].sentAt, a(k)) && t[k] == Ask(start + DEADLINE_MS, t[k].sentAt, b(k));
  }

  /**
   Neither lookup is an oracle for existence: whether GitHub says 403 or 404 changes neither the outcome
   nor the number or the times of the requests.
   */
  lemma {:induction false} NotAnOracle(
    e: Endpoint, start: int, a: nat -> Answer, b: nat -> Answer, s: seq<Attempt>, t: seq<Attempt>)
    requires Trace(e, start, a, s) && !Continues(e, start + DEADLINE_MS, Last(s), |s|)
    requires Trace(e, start, b, t) && !Continues(e, start + DEADLINE_MS, Last(t), |t|)
    requires Alike(e, a, b)
    ensures |s| == |t| && Last(s).heardAt == Last(t).heardAt && EndOf(s) == EndOf(t)
    ensures Verdict(e, Last(s).heard, Last(s).heardAt) == Verdict(e, Last(t).heard, Last(t).heardAt)
  {
    var n := if |s| <= |t| then |s| - 1 else |t| - 1;
    Lockstep(e, start, a, b, s, t, n);
    assert n + 1 < |s| ==> Continues(e, start + DEADLINE_MS, s[n], n + 1);
    assert n + 1 < |t| ==> Continues(e, start + DEADLINE_MS, t[n], n + 1);
  }
}
