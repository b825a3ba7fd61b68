/**
 Waiting out a rate limit (`cmd/hubctl/Client.go`): a refused call waits as long as it was told and
 is made again, four times at most; the limiter refuses before anything runs.
 */
module Client {
  import opened Wrappers
  import opened Strings
  import opened Decimals

  const RATE_LIMIT_RETRIES := 3

  const TOO_MANY_REQUESTS := 429

  const SECOND := 1_000_000_000

  const MAX_INT := 0x7fff_ffff_ffff_ffff

  /** A 64-bit signed integer, wrapping around. */
  function Wrapped(n: int): (w: int)
    ensures -MAX_INT - 1 <= w <= MAX_INT
    ensures -MAX_INT - 1 <= n <= MAX_INT ==> w == n
    ensures exists k :: n == w + k * 0x1_0000_0000_0000_0000
  {
    var r := n % 0x1_0000_0000_0000_0000;
    var w := if r > MAX_INT then r - 0x1_0000_0000_0000_0000 else r;
    var q := n / 0x1_0000_0000_0000_0000;
    assert n == w + (if r > MAX_INT then q + 1 else q) * 0x1_0000_0000_0000_0000;
    w
  }

  // ---------------------------------------------------------------- how long

  /** `strconv.Atoi`: a sign or none, then decimal digits, within 64 bits. */
  function Atoi(s: string): Option<int> {
    var negative := s != "" && s[0] == '-';
    var digits := if s != "" && (s[0] == '-' || s[0] == '+') then s[1..] else s;
    if digits == "" || exists c | c in digits :: !IsDigit(c) then None
    else
      var n: int := if negative then 0 - NumberOf(digits) else NumberOf(digits);
      if -MAX_INT - 1 <= n <= MAX_INT then Some(n) else None
  }

  /** `retryAfter`, of the header's values: what cannot be read is a second, and not no wait at all. */
  function RetryAfter(header: seq<string>): int {
    var raw := if header == [] then "" else header[0];
    var seconds := Atoi(TrimSpace(raw));
    if seconds.None? || seconds.value <= 0 then SECOND else Wrapped(seconds.value * SECOND)
  }

  /**
   Told to wait `n` seconds, the client waits exactly as long up to 9223372036 of them, and beyond
   that always less than it was told: the nanoseconds wrap, or the number reads as none.
   */
  lemma WaitsAsToldIffItFits(before: string, n: nat, after: string)
    requires Blank(before) && Blank(after) && n > 0
    ensures var wait := RetryAfter([before + Digits(n) + after]);
            && (wait >= n * SECOND <==> n <= 9_223_372_036)
            && (n <= 9_223_372_036 ==> wait == n * SECOND)
  {
    NumberOfDigits(n);
    var d := Digits(n);
    assert d[0] in d && d[|d| - 1] in d;
    Trimmed(before, d, after);
    assert Atoi(d) == if n <= MAX_INT then Some(n) else None;
  }

  /** A character no number has, behind its sign. */
  predicate NotANumber(text: string) {
    text == "" || (!IsDigit(text[0]) && text[0] != '+' && text[0] != '-') || exists c | c in text[1..] :: !IsDigit(c)
  }

  /** No header, no number, nought and a negative number are each a wait of one second. */
  lemma WithoutANumberASecond(before: string, text: string, after: string, n: nat)
    requires Blank(before) && Blank(after)
    requires text != "" ==> NotANumber(text) && !IsSpace(text[0]) && !IsSpace(text[|text| - 1])
    ensures RetryAfter([]) == SECOND
    ensures RetryAfter([before + text + after]) == SECOND
    ensures RetryAfter([before + "0" + after]) == SECOND && RetryAfter([before + ("-" + Digits(n)) + after]) == SECOND
  {
    BlankTrimsToNothing("");
    if text == "" {
      assert forall c | c in before + text + after :: c in before || c in after;
      BlankTrimsToNothing(before + text + after);
    } else {
      Trimmed(before, text, after);
      assert forall c | c in text[1..] :: c in text;
      assert text[0] in text;
    }
    Trimmed(before, "0", after);
    var d := Digits(n);
    assert d[|d| - 1] in d && ("-" + d)[1..] == d && ("-" + d)[|d|] == d[|d| - 1];
    Trimmed(before, "-" + d, after);
  }

  /** The first number that does not fit: the wait is negative, so there is none. */
  lemma ALongWaitIsNoWait()
    ensures Wrapped(9_223_372_037 * SECOND) < 0
  {
    assert 9_223_372_037 * SECOND == Wrapped(9_223_372_037 * SECOND) + 0x1_0000_0000_0000_0000;
  }

  // ---------------------------------------------------------------- the loop

  /** `ran` is whether the request was carried out, answered or not. */
  datatype Outcome = NoAnswer(ran: bool) | Answer(status: int, retryAfter: seq<string>, ran: bool)

  predicate Limited(o: Outcome) { o.Answer? && o.status == TOO_MANY_REQUESTS }

  /** The installation refuses what it limits before anything runs. */
  ghost predicate RefusesBeforeRunning(outcomes: nat -> Outcome) {
    forall k :: Limited(outcomes(k)) ==> !outcomes(k).ran
  }

  function Runs(outcomes: nat -> Outcome, n: nat): nat {
    if n == 0 then 0 else Runs(outcomes, n - 1) + if outcomes(n - 1).ran then 1 else 0
  }

  /** Attempt `k` was refused by the limit, and waited for. */
  predicate WaitedOut(outcomes: nat -> Outcome, k: nat, wait: int) {
    Limited(outcomes(k)) && wait == RetryAfter(outcomes(k).retryAfter)
  }

  /** The attempts before the last were refused, so the request ran at most once, on the last. */
  lemma {:induction false} RunsAtMostOnce(outcomes: nat -> Outcome, n: nat)
    requires RefusesBeforeRunning(outcomes) && n > 0
    requires forall k: nat | k < n - 1 :: Limited(outcomes(k))
    ensures Runs(outcomes, n) == if outcomes(n - 1).ran then 1 else 0
  {
    if n > 1 { RunsAtMostOnce(outcomes, n - 1); }
  }

  class Transport {
    const outcomes: nat -> Outcome   // what attempt k meets
    const awake: nat -> bool         // whether the wait after attempt k ends before the deadline
    var attempts: nat
    var executed: nat
    var waits: seq<int>

    constructor (outcomes: nat -> Outcome, awake: nat -> bool)
      ensures this.outcomes == outcomes && this.awake == awake && attempts == 0 && executed == 0 && waits == []
    {
      this.outcomes, this.awake, attempts, executed, waits := outcomes, awake, 0, 0, [];
    }

    method Do() returns (o: Outcome)
      modifies this`attempts, this`executed
      ensures o == outcomes(old(attempts)) && attempts == old(attempts) + 1
      ensures executed == old(executed) + if o.ran then 1 else 0
    {
      o := outcomes(attempts);
      attempts := attempts + 1;
      executed := executed + if o.ran then 1 else 0;
    }

    method Sleep(d: int) returns (ended: bool)
      requires attempts > 0
      modifies this`waits
      ensures waits == old(waits) + [d] && ended == awake(attempts - 1)
    {
      waits := waits + [d];
      ended := awake(attempts - 1);
    }

    /**
     Four attempts at most, each but the last refused by the limit and waited for as long as it said;
     the last is what is answered, and is the only one that can have run.
     */
    method Send() returns (answer: Outcome)
      requires attempts == 0 && executed == 0 && waits == []
      modifies this
      ensures 1 <= attempts <= RATE_LIMIT_RETRIES + 1
      ensures answer == outcomes(attempts - 1)
      ensures Limited(answer) ==> attempts == RATE_LIMIT_RETRIES + 1 || !awake(attempts - 1)
      ensures forall k: nat | k < attempts - 1 :: awake(k)
      ensures attempts - 1 <= |waits| <= attempts
      ensures |waits| == attempts <==> Limited(answer) && attempts <= RATE_LIMIT_RETRIES
      ensures forall k: nat | k < |waits| :: WaitedOut(outcomes, k, waits[k])
      ensures executed == Runs(outcomes, attempts)
      ensures RefusesBeforeRunning(outcomes) ==> executed == if answer.ran then 1 else 0
    {
      while true
        invariant attempts <= RATE_LIMIT_RETRIES
        invariant |waits| == attempts && executed == Runs(outcomes, attempts)
        invariant forall k: nat | k < attempts :: awake(k) && WaitedOut(outcomes, k, waits[k])
        decreases RATE_LIMIT_RETRIES - attempts
      {
        answer := Do();
        if !Limited(answer) || attempts > RATE_LIMIT_RETRIES {
          break;
        }
        var ended := Sleep(RetryAfter(answer.retryAfter));
        if !ended {
          break;
        }
      }
      if RefusesBeforeRunning(outcomes) {
        forall k: nat | k < attempts - 1 ensures Limited(outcomes(k)) { assert WaitedOut(outcomes, k, waits[k]); }
        RunsAtMostOnce(outcomes, attempts);
      }
    }
  }
}
