/**
 A request is retried after a transient answer, a bounded number of times and with
 exponential backoff.  What the network answers, the jitter drawn and whether the caller
 cancels a wait are given per attempt.
 */
module Retry {
  import opened Options

  const DEFAULT_MAX_ATTEMPTS := 3
  const CONFLICT_MAX_ATTEMPTS := 11
  const BASE_BACKOFF := 100.0
  const MAX_BACKOFF := 30000.0

  /** A Retry-After value, as the number it reads as and as the time from now to the date
      it reads as, in milliseconds. */
  datatype Header = Header(number: Option<real>, date: Option<real>)

  datatype Answer =
    | Response(status: int, retryAfter: Option<Header>)
    | NetworkError
    | UserAborted
    | TimedOut
    | AbortError
    | OtherError

  type Random = r: real | 0.0 <= r < 1.0

  datatype Turn = Turn(answer: Answer, random: Random, sleepAborted: bool)

  datatype Policy = Policy(retryable: bool, maxAttempts: Option<int>, retryConflict: bool)

  /** How a request ended: with the answer of its last attempt, in a cancelled wait, or,
      when the caller allows no attempt, without any. */
  datatype Ending = LastAnswer | SleepAborted | NeverSent

  // ---------------------------------------------------------------------------
  // Delays
  // ---------------------------------------------------------------------------

  function Min(a: real, b: real): real { if a <= b then a else b }

  function Pow2(n: nat): nat { if n == 0 then 1 else 2 * Pow2(n - 1) }

  function ParseRetryAfter(value: Option<Header>): (r: Option<real>)
    ensures r.Some? ==> 0.0 <= r.value <= MAX_BACKOFF
  {
    match value
    case None => None
    case Some(header) =>
      if header.number.Some? && header.number.value >= 0.0 then Some(Min(header.number.value * 1000.0, MAX_BACKOFF))
      else if header.date.Some? then
        if header.date.value <= 0.0 then Some(0.0) else Some(Min(header.date.value, MAX_BACKOFF))
      else None
  }

  /** A Retry-After of so many seconds, or of a date that many milliseconds ahead. */
  datatype Asked = Seconds(n: real) | Until(ms: real)

  function HeaderOf(asked: Asked): Header {
    match asked
    case Seconds(n) => Header(Some(n), None)
    case Until(ms) => Header(None, Some(ms))
  }

  /** What a 429 asks for is what is waited, to the millisecond and up to thirty seconds; a
      date in the past asks for no wait, and a negative number for none of its own. */
  lemma WaitsAsAsked(turn: Turn, attempt: nat, asked: Asked)
    requires attempt >= 1 && turn.answer == Response(429, Some(HeaderOf(asked)))
    ensures var wait := Delay(turn, attempt);
            match asked
            case Seconds(n) =>
              && (0.0 <= n <= 30.0 ==> wait / 1000.0 == n)
              && (n > 30.0 ==> wait == 30000.0)
              && (n < 0.0 ==> wait == BackoffDelay(attempt, turn.random))
            case Until(ms) =>
              && (ms <= 0.0 ==> wait == 0.0)
              && (0.0 < ms <= 30000.0 ==> wait == ms)
              && (ms > 30000.0 ==> wait == 30000.0)
  {
  }

  /** Any other answer is followed by the backoff, whatever its header says. */
  lemma OthersBackOff(turn: Turn, attempt: nat)
    requires attempt >= 1 && (turn.answer.Response? ==> turn.answer.status != 429 || turn.answer.retryAfter.None?)
    ensures Delay(turn, attempt) == BackoffDelay(attempt, turn.random)
  {
  }

  /** 100 ms, 200 ms, 400 ms and so on. */
  function Base(attempt: nat): (base: real)
    requires attempt >= 1
    ensures base >= 0.0
  {
    BASE_BACKOFF * Pow2(attempt - 1) as real
  }

  function Jitter(base: real, random: Random): (delay: real)
    requires base >= 0.0
    ensures 0.8 * base <= delay <= 1.2 * base
  {
    Jittered(base, random);
    base * (0.8 + random * 0.4)
  }

  function BackoffDelay(attempt: nat, random: Random): real
    requires attempt >= 1
  {
    Min(Jitter(Base(attempt), random), MAX_BACKOFF)
  }

  predicate TooMany(a: Answer) { a.Response? && a.status == 429 }

  /** The wait behind an attempt. */
  function Delay(turn: Turn, attempt: nat): real
    requires attempt >= 1
  {
    var asked := if TooMany(turn.answer) then ParseRetryAfter(turn.answer.retryAfter) else None;
    if asked.Some? then asked.value else BackoffDelay(attempt, turn.random)
  }

  // ---------------------------------------------------------------------------
  // What is retried, and how often
  // ---------------------------------------------------------------------------

  predicate Conflict(policy: Policy, a: Answer) { a.Response? && a.status == 409 && policy.retryConflict }

  predicate Transient(policy: Policy, a: Answer) {
    a.NetworkError? || (a.Response? && a.status in {429, 502, 503, 504}) || Conflict(policy, a)
  }

  predicate SawConflict(policy: Policy, turns: nat -> Turn, n: nat) {
    exists i: nat :: 1 <= i <= n && Conflict(policy, turns(i).answer)
  }

  /** The budget in force once n attempts are answered. */
  function Budget(policy: Policy, turns: nat -> Turn, n: nat): int {
    if !policy.retryable then 1
    else match policy.maxAttempts
      case Some(m) => m
      case None => if SawConflict(policy, turns, n) then CONFLICT_MAX_ATTEMPTS else DEFAULT_MAX_ATTEMPTS
  }

  /** The i-th attempt is followed by another one. */
  predicate Retried(policy: Policy, turns: nat -> Turn, i: nat) {
    policy.retryable && Transient(policy, turns(i).answer) && i < Budget(policy, turns, i) && !turns(i).sleepAborted
  }

  predicate Reaches(policy: Policy, turns: nat -> Turn, attempts: nat) {
    && (attempts >= 1 ==> Budget(policy, turns, 0) >= 1)
    && forall i: nat :: 1 <= i < attempts ==> Retried(policy, turns, i)
  }

  predicate EndsAt(policy: Policy, turns: nat -> Turn, attempts: nat, ending: Ending) {
    match ending
    case NeverSent => attempts == 0 && Budget(policy, turns, 0) <= 0
    case LastAnswer =>
      && attempts >= 1
      && !(policy.retryable && Transient(policy, turns(attempts).answer) && attempts < Budget(policy, turns, attempts))
    case SleepAborted =>
      && attempts >= 1 && policy.retryable && Transient(policy, turns(attempts).answer)
      && attempts < Budget(policy, turns, attempts) && turns(attempts).sleepAborted
  }

  predicate Waits(turns: nat -> Turn, slept: seq<real>) {
    forall i: nat :: i < |slept| ==> slept[i] == Delay(turns(i + 1), i + 1)
  }

  lemma BudgetGrows(policy: Policy, turns: nat -> Turn, n: nat)
    ensures Budget(policy, turns, n + 1) ==
            if policy.retryable && policy.maxAttempts.None? && Conflict(policy, turns(n + 1).answer)
            then CONFLICT_MAX_ATTEMPTS else Budget(policy, turns, n)
  {
    if SawConflict(policy, turns, n + 1) && !Conflict(policy, turns(n + 1).answer) {
      assert SawConflict(policy, turns, n);
    }
  }

  method RetryableFetch(policy: Policy, turns: nat -> Turn)
    returns (attempts: nat, slept: seq<real>, ending: Ending)
    ensures Reaches(policy, turns, attempts) && EndsAt(policy, turns, attempts, ending)
    ensures |slept| == (if attempts == 0 then 0 else attempts - 1) && Waits(turns, slept)
  {
    var maxAttempts :=
      if !policy.retryable then 1
      else if policy.maxAttempts.Some? then policy.maxAttempts.value
      else DEFAULT_MAX_ATTEMPTS;
    attempts, slept, ending := 0, [], NeverSent;
    ghost var cap :=
      if policy.retryable && policy.maxAttempts.Some? then policy.maxAttempts.value else CONFLICT_MAX_ATTEMPTS;
    var attempt := 1;
    while attempt <= maxAttempts
      invariant attempt >= 1 && attempts == attempt - 1 == |slept|
      invariant maxAttempts == Budget(policy, turns, attempts)
      invariant attempt >= 2 ==> attempts < maxAttempts
      invariant Reaches(policy, turns, attempts) && Waits(turns, slept) && ending == NeverSent
      invariant attempts >= 1 ==> Retried(policy, turns, attempts)
      invariant maxAttempts <= cap
      decreases cap - attempt
    {
      attempts := attempt;
      BudgetGrows(policy, turns, attempt - 1);
      var answer := turns(attempt).answer;
      var delay: Option<real> := None;
      if answer.Response? {
        var retryableStatus := answer.status in {429, 502, 503, 504} || (answer.status == 409 && policy.retryConflict);
        if !(policy.retryable && retryableStatus) { return attempts, slept, LastAnswer; }
        if answer.status == 409 && policy.maxAttempts.None? { maxAttempts := CONFLICT_MAX_ATTEMPTS; }
        if attempt >= maxAttempts { return attempts, slept, LastAnswer; }
        if answer.status == 429 { delay := ParseRetryAfter(answer.retryAfter); }
      } else if !(policy.retryable && answer.NetworkError? && attempt < maxAttempts) {
        return attempts, slept, LastAnswer;
      }
      if turns(attempt).sleepAborted { return attempts, slept, SleepAborted; }
      slept := slept + [if delay.Some? then delay.value else BackoffDelay(attempt, turns(attempt).random)];
      attempt := attempt + 1;
    }
  }

  // ---------------------------------------------------------------------------
  // The budget
  // ---------------------------------------------------------------------------

  lemma WasRetried(policy: Policy, turns: nat -> Turn, attempts: nat, i: nat)
    requires Reaches(policy, turns, attempts) && 1 <= i < attempts
    ensures Retried(policy, turns, i)
  {
  }

  /** A request that is not retryable is sent once. */
  lemma SentOnce(policy: Policy, turns: nat -> Turn, attempts: nat, ending: Ending)
    requires !policy.retryable && Reaches(policy, turns, attempts) && EndsAt(policy, turns, attempts, ending)
    ensures attempts == 1 && ending == LastAnswer
  {
    if attempts >= 2 {
      WasRetried(policy, turns, attempts, 1);
    }
  }

  /** Without a limit of the caller's own, three attempts, or eleven once a conflict was met. */
  lemma RetryBudget(policy: Policy, turns: nat -> Turn, attempts: nat)
    requires policy.maxAttempts.None? && Reaches(policy, turns, attempts)
    ensures attempts <= CONFLICT_MAX_ATTEMPTS
    ensures attempts > DEFAULT_MAX_ATTEMPTS ==> SawConflict(policy, turns, attempts - 1)
  {
    if attempts >= 2 {
      WasRetried(policy, turns, attempts, attempts - 1);
    }
  }

  lemma CallersBudget(policy: Policy, turns: nat -> Turn, attempts: nat)
    requires policy.retryable && policy.maxAttempts.Some? && Reaches(policy, turns, attempts)
    ensures attempts <= if policy.maxAttempts.value >= 0 then policy.maxAttempts.value else 0
  {
    if attempts >= 2 {
      WasRetried(policy, turns, attempts, attempts - 1);
    }
  }

  /** The contract of the request leaves it no choice. */
  lemma EndIsDetermined(policy: Policy, turns: nat -> Turn, a: nat, x: Ending, b: nat, y: Ending)
    requires Reaches(policy, turns, a) && EndsAt(policy, turns, a, x)
    requires Reaches(policy, turns, b) && EndsAt(policy, turns, b, y)
    requires a <= b
    ensures a == b && x == y
  {
    if 1 <= a < b {
      WasRetried(policy, turns, b, a);
    }
  }

  /** A network error, or one of the statuses that pass: 409 only where the caller asks. */
  ghost predicate Passing(policy: Policy, a: Answer) {
    match a
    case NetworkError => true
    case Response(s, _) => s == 429 || 502 <= s <= 504 || (s == 409 && policy.retryConflict)
    case _ => false
  }

  /** A retryable request goes on exactly behind a passing answer with attempts left and a
      wait that was not cancelled, and ends with any other one. */
  lemma GoesOnIff(policy: Policy, turns: nat -> Turn, attempts: nat, ending: Ending, i: nat)
    requires Reaches(policy, turns, attempts) && EndsAt(policy, turns, attempts, ending) && 1 <= i <= attempts
    ensures i < attempts <==>
            && policy.retryable && Passing(policy, turns(i).answer) && !turns(i).sleepAborted
            && match policy.maxAttempts
               case Some(m) => i < m
               case None => i < 3 || (i < 11 && exists k: nat :: 1 <= k <= i && Conflict(policy, turns(k).answer))
  {
    if i < attempts { WasRetried(policy, turns, attempts, i); }
    assert SawConflict(policy, turns, i) <==> exists k: nat :: 1 <= k <= i && Conflict(policy, turns(k).answer);
  }

  // ---------------------------------------------------------------------------
  // The waits
  // ---------------------------------------------------------------------------

  lemma Product(x: real, y: real)
    requires x >= 0.0 && y >= 0.0
    ensures x * y >= 0.0
  {
  }

  /** The factor lies between 0.8 and 1.2. */
  lemma Jittered(base: real, random: Random)
    requires base >= 0.0
    ensures 0.8 * base <= base * (0.8 + random * 0.4) <= 1.2 * base
  {
    Product(base, random);
    Product(base, 1.0 - random);
    assert base * (0.8 + random * 0.4) == 0.8 * base + 0.4 * (base * random);
    assert base * (1.0 - random) == base - base * random;
  }

  lemma BackoffBounds(attempt: nat, random: Random)
    requires attempt >= 1
    ensures Min(0.8 * Base(attempt), MAX_BACKOFF) <= BackoffDelay(attempt, random)
    ensures BackoffDelay(attempt, random) <= Min(1.2 * Base(attempt), MAX_BACKOFF)
    ensures BackoffDelay(attempt, random) >= 0.0
  {
    MinGrows(0.8 * Base(attempt), Jitter(Base(attempt), random), 1.2 * Base(attempt));
  }

  lemma MinGrows(a: real, b: real, c: real)
    requires 0.0 <= a <= b <= c
    ensures 0.0 <= Min(a, MAX_BACKOFF) <= Min(b, MAX_BACKOFF) <= Min(c, MAX_BACKOFF)
  {
  }

  /** No wait is longer than thirty seconds, whatever the server asks for. */
  lemma NoLongWait(turns: nat -> Turn, slept: seq<real>)
    requires Waits(turns, slept)
    ensures forall i: nat :: i < |slept| ==> 0.0 <= slept[i] <= MAX_BACKOFF
  {
    forall i: nat | i < |slept| ensures 0.0 <= slept[i] <= MAX_BACKOFF {
      BackoffBounds(i + 1, turns(i + 1).random);
    }
  }

  function Total(slept: seq<real>): real {
    if slept == [] then 0.0 else Total(slept[..|slept| - 1]) + slept[|slept| - 1]
  }

  function Least(n: nat): real {
    if n == 0 then 0.0 else Least(n - 1) + Min(0.8 * Base(n), MAX_BACKOFF)
  }

  function Most(n: nat): real {
    if n == 0 then 0.0 else Most(n - 1) + Min(1.2 * Base(n), MAX_BACKOFF)
  }

  lemma {:induction false} TotalBounds(turns: nat -> Turn, slept: seq<real>)
    requires Waits(turns, slept)
    requires forall i: nat :: 1 <= i <= |slept| ==> !TooMany(turns(i).answer)
    ensures Least(|slept|) <= Total(slept) <= Most(|slept|)
    decreases |slept|
  {
    if slept != [] {
      var n := |slept|;
      TotalBounds(turns, slept[..n - 1]);
      BackoffBounds(n, turns(n).random);
    }
  }

  lemma TenWaits()
    ensures Least(10) == 70880.0 && Most(10) == 90600.0 && Most(9) == 60600.0
  {
    assert Pow2(0) == 1 && Pow2(1) == 2 && Pow2(2) == 4 && Pow2(3) == 8 && Pow2(4) == 16;
    assert Pow2(5) == 32 && Pow2(6) == 64 && Pow2(7) == 128 && Pow2(8) == 256 && Pow2(9) == 512;
    assert Least(3) == 560.0 && Most(3) == 840.0;
    assert Least(6) == 5040.0 && Most(6) == 7560.0;
    assert Least(9) == 40880.0 && Most(9) == 60600.0;
  }

  /** Eleven attempts without a 429 wait between 70.88 s and 90.6 s in all, whatever the
      jitter, so the last request is sent after the sixty seconds a pause may take. */
  lemma ElevenAttemptsOutlastAPause(policy: Policy, turns: nat -> Turn, attempts: nat, slept: seq<real>)
    requires attempts == CONFLICT_MAX_ATTEMPTS && |slept| == attempts - 1
    requires Waits(turns, slept) && forall i: nat :: 1 <= i < attempts ==> !TooMany(turns(i).answer)
    ensures 70880.0 <= Total(slept) <= 90600.0
  {
    TotalBounds(turns, slept);
    TenWaits();
  }

  // ---------------------------------------------------------------------------
  // What a 429 takes away
  // ---------------------------------------------------------------------------

  const DEFAULT := Policy(true, None, true)

  function LeastWait(attempt: nat): real
    requires attempt >= 1
  {
    Min(0.8 * Base(attempt), MAX_BACKOFF)
  }

  /** What the waits behind these attempts last at the least, had they not been answered 429. */
  function Forgone(tooMany: set<nat>, n: nat): real {
    if n == 0 then 0.0 else Forgone(tooMany, n - 1) + if n in tooMany then LeastWait(n) else 0.0
  }

  /** Of the first ten attempts exactly these are answered 429. */
  ghost predicate TooManyAt(turns: nat -> Turn, tooMany: set<nat>) {
    forall i: nat :: 1 <= i <= 10 ==> (TooMany(turns(i).answer) <==> i in tooMany)
  }

  lemma DelayAtLeast(turn: Turn, attempt: nat)
    requires attempt >= 1
    ensures Delay(turn, attempt) >= if TooMany(turn.answer) then 0.0 else LeastWait(attempt)
  {
    BackoffBounds(attempt, turn.random);
  }

  lemma {:induction false} AtLeast(turns: nat -> Turn, tooMany: set<nat>, slept: seq<real>)
    requires |slept| <= 10 && Waits(turns, slept) && TooManyAt(turns, tooMany)
    ensures Total(slept) >= Least(|slept|) - Forgone(tooMany, |slept|)
    decreases |slept|
  {
    if slept != [] {
      var n := |slept|;
      AtLeast(turns, tooMany, slept[..n - 1]);
      DelayAtLeast(turns(n), n);
    }
  }

  /** The least patient run: these attempts are answered 429 and told not to wait, the
      others meet a conflict and draw no jitter. */
  function Hasty(tooMany: set<nat>): nat -> Turn {
    (i: nat) =>
      Turn(if i in tooMany then Response(429, Some(Header(Some(0.0), None))) else Response(409, None), 0.0, false)
  }

  function HastyWaits(tooMany: set<nat>, n: nat): (slept: seq<real>)
    ensures |slept| == n
  {
    seq(n, i requires 0 <= i < n => Delay(Hasty(tooMany)(i + 1), i + 1))
  }

  lemma NoJitter(base: real)
    requires base >= 0.0
    ensures Jitter(base, 0.0) == 0.8 * base
  {
    assert base * (0.8 + 0.0 * 0.4) == 0.8 * base;
  }

  lemma HastyDelay(tooMany: set<nat>, i: nat)
    requires i >= 1
    ensures Delay(Hasty(tooMany)(i), i) == if i in tooMany then 0.0 else LeastWait(i)
  {
    var turn := Hasty(tooMany)(i);
    if i in tooMany {
      assert ParseRetryAfter(turn.answer.retryAfter) == Some(0.0);
    } else {
      NoJitter(Base(i));
    }
  }

  lemma {:induction false} HastyTotal(tooMany: set<nat>, n: nat)
    ensures Total(HastyWaits(tooMany, n)) == Least(n) - Forgone(tooMany, n)
  {
    if n > 0 {
      HastyTotal(tooMany, n - 1);
      HastyDelay(tooMany, n);
      assert HastyWaits(tooMany, n)[..n - 1] == HastyWaits(tooMany, n - 1);
    }
  }

  /** Such a run is made, unless the first three attempts are all answered 429. */
  lemma HastyReaches(tooMany: set<nat>)
    requires !({1, 2, 3} <= tooMany)
    ensures Reaches(DEFAULT, Hasty(tooMany), 11)
  {
    var turns := Hasty(tooMany);
    var c: nat :| 1 <= c <= 3 && c !in tooMany;
    forall i: nat | 1 <= i < 11 ensures Retried(DEFAULT, turns, i) {
      if i >= 3 {
        assert Conflict(DEFAULT, turns(c).answer);
        assert SawConflict(DEFAULT, turns, i);
      }
    }
  }

  /** Three 429s and no conflict before them end the request. */
  lemma ThreeTooMany(turns: nat -> Turn, attempts: nat)
    requires attempts > 3
    requires forall i: nat :: 1 <= i <= 3 ==> TooMany(turns(i).answer)
    ensures !Reaches(DEFAULT, turns, attempts)
  {
    if Reaches(DEFAULT, turns, attempts) {
      WasRetried(DEFAULT, turns, attempts, 3);
    }
  }

  /** Every run of eleven attempts in which exactly these are answered 429 waits sixty
      seconds in all. */
  ghost predicate SixtySeconds(tooMany: set<nat>) {
    forall turns: nat -> Turn, slept: seq<real> ::
      Reaches(DEFAULT, turns, 11) && TooManyAt(turns, tooMany) && |slept| == 10 && Waits(turns, slept) ==>
        Total(slept) >= 60000.0
  }

  /** That is guaranteed if and only if the waits the 429s replace last at most 10.88 s at
      the least, or if such runs do not exist because the first three answers are 429. */
  lemma SixtySecondsIff(tooMany: set<nat>)
    ensures SixtySeconds(tooMany) <==> {1, 2, 3} <= tooMany || Forgone(tooMany, 10) <= 10880.0
  {
    TenWaits();
    if {1, 2, 3} <= tooMany {
      forall turns: nat -> Turn | TooManyAt(turns, tooMany) ensures !Reaches(DEFAULT, turns, 11) {
        ThreeTooMany(turns, 11);
      }
    } else {
      HastyReaches(tooMany);
      HastyTotal(tooMany, 10);
      assert TooManyAt(Hasty(tooMany), tooMany);
      assert Waits(Hasty(tooMany), HastyWaits(tooMany, 10));
      forall turns: nat -> Turn, slept: seq<real> |
        Reaches(DEFAULT, turns, 11) && TooManyAt(turns, tooMany) && |slept| == 10 && Waits(turns, slept)
        ensures Total(slept) >= 70880.0 - Forgone(tooMany, 10)
      {
        AtLeast(turns, tooMany, slept);
      }
    }
  }

  const ALL_BUT_FIRST: set<nat> := {2, 3, 4, 5, 6, 7, 8, 9, 10}

  /** A conflict and then nothing but 429s that ask for no wait: eleven attempts are made
      that wait 80 ms in all. */
  lemma TooManyMayShortenIt()
    ensures var tooMany := ALL_BUT_FIRST;
            && Reaches(DEFAULT, Hasty(tooMany), 11)
            && Total(HastyWaits(tooMany, 10)) == 80.0 && !SixtySeconds(tooMany)
  {
    var tooMany := ALL_BUT_FIRST;
    HastyReaches(tooMany);
    HastyTotal(tooMany, 10);
    TenWaits();
    AllButFirst(10);
    SixtySecondsIff(tooMany);
  }

  lemma {:induction false} AllButFirst(n: nat)
    requires 1 <= n <= 10
    ensures Forgone(ALL_BUT_FIRST, n) == Least(n) - 80.0
  {
    if n > 1 {
      AllButFirst(n - 1);
    } else {
      assert Forgone(ALL_BUT_FIRST, 0) == 0.0 && Least(0) == 0.0 && Pow2(0) == 1;
    }
  }
}
