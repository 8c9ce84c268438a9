/**
 Guessing a space's password (internal/space/throttle.go): a record on disk counts the
 failures and says when the next try may be made. Every entry point that checks a
 password goes through it, one at a time. Times are in nanoseconds.
 */
module Throttle {
  import opened Wrappers

  const FREE_ATTEMPTS: nat := 3
  const SECOND: nat := 1_000_000_000
  const BASE_DELAY: nat := 2 * SECOND
  const MAX_DELAY: nat := 15 * 60 * SECOND
  const MAX_DOUBLINGS: nat := 20
  const MAX_INT64: int := 0x7FFF_FFFF_FFFF_FFFF

  /** n shifted left by k bits, without a width. */
  function Doubled(n: nat, k: nat): nat {
    if k == 0 then n else 2 * Doubled(n, k - 1)
  }

  /** What 64 bits hold of a number, with its sign. */
  function Signed(n: nat): int {
    var wide := n % 0x1_0000_0000_0000_0000;
    if wide > MAX_INT64 then wide - 0x1_0000_0000_0000_0000 else wide
  }

  function Doublings(failures: nat): nat {
    if failures <= FREE_ATTEMPTS + 1 then 0
    else if failures - FREE_ATTEMPTS - 1 > MAX_DOUBLINGS then MAX_DOUBLINGS
    else failures - FREE_ATTEMPTS - 1
  }

  function BackoffFor(failures: nat): int {
    var delay := Signed(Doubled(BASE_DELAY, Doublings(failures)));
    if delay > MAX_DELAY || delay <= 0 then MAX_DELAY else delay
  }

  // ------------------------------------------------------------- the schedule

  lemma {:induction false} DoublingGrows(n: nat, a: nat, b: nat)
    requires a <= b
    ensures Doubled(n, a) <= Doubled(n, b)
    decreases b
  {
    if a == b {
    } else {
      DoublingGrows(n, a, b - 1);
    }
  }

  lemma FourMore(n: nat, k: nat)
    ensures Doubled(n, k + 4) == 16 * Doubled(n, k)
  {
    assert Doubled(n, k + 2) == 4 * Doubled(n, k);
    assert Doubled(n, k + 4) == 4 * Doubled(n, k + 2);
  }

  lemma LongestShift()
    ensures Doubled(BASE_DELAY, 20) == 2_097_152_000_000_000
  {
    FourMore(BASE_DELAY, 0);
    FourMore(BASE_DELAY, 4);
    FourMore(BASE_DELAY, 8);
    FourMore(BASE_DELAY, 12);
    FourMore(BASE_DELAY, 16);
  }

  function AtMost(delay: nat): nat {
    if delay > MAX_DELAY then MAX_DELAY else delay
  }

  /** No shift overflows: two seconds, doubling with each failure past the fourth, up to
      fifteen minutes. */
  lemma Schedule(failures: nat)
    ensures BackoffFor(failures) == AtMost(Doubled(BASE_DELAY, Doublings(failures)))
    ensures BASE_DELAY <= BackoffFor(failures) <= MAX_DELAY
  {
    DoublingGrows(BASE_DELAY, 0, Doublings(failures));
    DoublingGrows(BASE_DELAY, Doublings(failures), 20);
    LongestShift();
  }

  lemma ScheduleNeverDecreases(a: nat, b: nat)
    requires a <= b
    ensures BackoffFor(a) <= BackoffFor(b)
  {
    Schedule(a);
    Schedule(b);
    DoublingGrows(BASE_DELAY, Doublings(a), Doublings(b));
  }

  /** No wait for three failures is ever asked for; then two seconds, twice as long each time, to the ceiling. */
  lemma WaitsDouble(failures: nat)
    ensures failures <= FREE_ATTEMPTS + 1 ==> BackoffFor(failures) == BASE_DELAY
    ensures failures > FREE_ATTEMPTS ==> BackoffFor(failures + 1) == AtMost(2 * BackoffFor(failures))
  {
    Schedule(failures);
    Schedule(failures + 1);
    if failures > FREE_ATTEMPTS + MAX_DOUBLINGS {
      LongestShift();
    }
  }

  // ------------------------------------------------------------------ one space

  datatype Record = Record(failures: nat, nextTry: int)

  const NONE: Record := Record(0, 0)

  /** A date out of reach is brought back. */
  function Clamped(r: Record, now: nat): Record {
    if r.nextTry > now + 2 * MAX_DELAY then r.(nextTry := now + MAX_DELAY) else r
  }

  predicate Allowed(r: Record, now: nat) {
    var read := Clamped(r, now);
    read.failures <= FREE_ATTEMPTS || now >= read.nextTry
  }

  /** The schedule and some jitter, at most a quarter of it. */
  predicate Jitter(failures: nat, spread: nat) {
    spread <= BackoffFor(failures) / 4
  }

  function Failed(r: Record, now: nat, spread: nat): Record {
    var n := Clamped(r, now).failures + 1;
    Record(n, now + BackoffFor(n) + spread)
  }

  /** The first three failures cost nothing; a date is believed up to half an hour ahead, and no further. */
  lemma FreeAndBounded(r: Record, now: nat)
    ensures r.failures <= 3 ==> Allowed(r, now)
    ensures r.failures > 3 ==>
              (Allowed(r, now) <==> r.nextTry <= now)
              && (r.nextTry > now + 2 * MAX_DELAY ==> Clamped(r, now) == Record(r.failures, now + MAX_DELAY))
    ensures r.nextTry <= now + 2 * MAX_DELAY ==> Clamped(r, now) == r
  {
  }

  class Cooldown {
    var stored: Option<Record>

    function Current(): Record
      reads this
    {
      if stored.Some? then stored.value else NONE
    }

    constructor ()
      ensures Current() == NONE
    {
      stored := None;
    }

    method Check(now: nat) returns (allowed: bool)
      ensures allowed <==> Allowed(Current(), now)
    {
      var r := Read(now);
      allowed := r.failures <= FREE_ATTEMPTS || !(now < r.nextTry);
    }

    method Read(now: nat) returns (r: Record)
      ensures r == Clamped(Current(), now)
    {
      if stored.None? { return NONE; }
      r := stored.value;
      if r.nextTry > now + MAX_DELAY * 2 { r := r.(nextTry := now + MAX_DELAY); }
    }

    method RecordFailure(now: nat, spread: nat)
      modifies this
      ensures Current() == Failed(old(Current()), now, spread)
    {
      var r := Read(now);
      r := r.(failures := r.failures + 1);
      r := r.(nextTry := now + BackoffFor(r.failures) + spread);
      stored := Some(r);
    }

    method Clear()
      modifies this
      ensures Current() == NONE
    {
      stored := None;
    }
  }

  // --------------------------------------------------------------- whole runs

  datatype Verdict = Wrong | Right | Unreadable

  /** A password offered when `at`, and the verdict on it, if it was tried, by `done`. */
  datatype Try = Try(at: nat, done: nat, verdict: Verdict, spread: nat)

  /** The record, the clock, and when the wrong passwords since the last right one were tried. */
  datatype State = State(record: Record, clock: nat, wrong: seq<nat>)

  function Init(): State { State(NONE, 0, []) }

  /** The clock never goes back, and the jitter is what it may be. */
  predicate Possible(s: State, t: Try) {
    s.clock <= t.at <= t.done && Jitter(Clamped(s.record, t.done).failures + 1, t.spread)
  }

  function Step(s: State, t: Try): State {
    if !Possible(s, t) then s
    else if !Allowed(s.record, t.at) then s.(clock := t.at)
    else match t.verdict
      case Right => State(NONE, t.done, [])
      case Unreadable => s.(clock := t.done)
      case Wrong => State(Failed(s.record, t.done, t.spread), t.done, s.wrong + [t.at])
  }

  function Run(tries: seq<Try>): State {
    if tries == [] then Init() else Step(Run(tries[..|tries| - 1]), tries[|tries| - 1])
  }

  /**
   Only a password that was tried is counted: a wrong one adds to the record, the right one
   clears it, and neither a refused try nor an unreadable vault changes it.
   */
  lemma OnlyWrongOnesCount(tries: seq<Try>, t: Try)
    requires Possible(Run(tries), t)
    ensures var before, after := Run(tries), Run(tries + [t]);
            var tried := before.record.failures <= 3 || Clamped(before.record, t.at).nextTry <= t.at;
            && (tried && t.verdict == Right ==> after.record == Record(0, 0) && after.wrong == [])
            && (tried && t.verdict == Wrong ==>
                  && after.record.failures == before.record.failures + 1 && after.wrong == before.wrong + [t.at]
                  && DatedBy(after.record, t.done))
            && (!tried || t.verdict == Unreadable ==> after.record == before.record && after.wrong == before.wrong)
            && before.clock <= after.clock && (tried ==> after.clock == t.done)
  {
    assert (tries + [t])[..|tries|] == tries;
    if t.verdict == Wrong { FailureIsDated(Run(tries).record, t.done, t.spread); }
  }

  /** The next try waits for the backoff and up to a quarter of it more. */
  predicate DatedBy(r: Record, failed: nat) {
    var delay := BackoffFor(r.failures);
    failed + delay <= r.nextTry <= failed + delay + delay / 4
  }

  lemma FailureIsDated(r: Record, now: nat, spread: nat)
    requires Jitter(Clamped(r, now).failures + 1, spread)
    ensures DatedBy(Failed(r, now, spread), now) && Failed(r, now, spread).failures == r.failures + 1
  {
  }

  /** The record counts the wrong ones, and each past the fourth waited for the one before. */
  predicate Inv(s: State) {
    && s.record.failures == |s.wrong|
    && s.record.nextTry <= s.clock + MAX_DELAY + MAX_DELAY / 4
    && (s.wrong != [] ==> s.wrong[|s.wrong| - 1] + BackoffFor(|s.wrong|) <= s.record.nextTry)
    && Waited(s.wrong)
  }

  predicate Waited(wrong: seq<nat>) {
    forall k :: FREE_ATTEMPTS < k < |wrong| ==> wrong[k - 1] + BackoffFor(k) <= wrong[k]
  }

  /** With a clock that never goes back, the date read is the date written. */
  lemma ClampNeverFires(s: State, now: nat)
    requires Inv(s) && s.clock <= now
    ensures Clamped(s.record, now) == s.record
  {
  }

  lemma OneMoreWaited(wrong: seq<nat>, at: nat)
    requires Waited(wrong)
    requires |wrong| > FREE_ATTEMPTS ==> wrong[|wrong| - 1] + BackoffFor(|wrong|) <= at
    ensures Waited(wrong + [at])
  {
    var after := wrong + [at];
    forall k | FREE_ATTEMPTS < k < |after| ensures after[k - 1] + BackoffFor(k) <= after[k] {
      if k < |wrong| { assert wrong[k - 1] + BackoffFor(k) <= wrong[k]; }
    }
  }

  lemma WrongKeeps(s: State, t: Try)
    requires Inv(s) && Possible(s, t) && Allowed(s.record, t.at)
    ensures Inv(State(Failed(s.record, t.done, t.spread), t.done, s.wrong + [t.at]))
  {
    ClampNeverFires(s, t.at);
    ClampNeverFires(s, t.done);
    Schedule(|s.wrong| + 1);
    OneMoreWaited(s.wrong, t.at);
  }

  lemma StepKeeps(s: State, t: Try)
    requires Inv(s)
    ensures Inv(Step(s, t))
  {
    if Possible(s, t) && Allowed(s.record, t.at) && t.verdict == Wrong { WrongKeeps(s, t); }
  }

  lemma {:induction false} RunKeeps(tries: seq<Try>)
    ensures Inv(Run(tries))
    decreases |tries|
  {
    if tries == [] {
    } else {
      RunKeeps(tries[..|tries| - 1]);
      StepKeeps(Run(tries[..|tries| - 1]), tries[|tries| - 1]);
    }
  }

  /** The waits after failures 4 up to n - 1. */
  function Waits(n: nat): int {
    if n <= FREE_ATTEMPTS + 1 then 0 else Waits(n - 1) + BackoffFor(n - 1)
  }

  lemma {:induction false} WaitsAdd(wrong: seq<nat>, n: nat)
    requires Waited(wrong) && FREE_ATTEMPTS + 1 <= n <= |wrong|
    ensures wrong[FREE_ATTEMPTS] + Waits(n) <= wrong[n - 1]
    decreases n
  {
    if n == FREE_ATTEMPTS + 1 {
    } else {
      WaitsAdd(wrong, n - 1);
    }
  }

  /**
   The n-th wrong password in a row is tried no earlier than all the waits since the
   fourth, whichever entry points it came through and however often it was refused.
   */
  lemma GuessingIsSlow(tries: seq<Try>, n: nat)
    requires FREE_ATTEMPTS + 1 < n <= |Run(tries).wrong|
    ensures Run(tries).wrong[FREE_ATTEMPTS] + Waits(n) <= Run(tries).wrong[n - 1]
    ensures Waits(n) >= (n - FREE_ATTEMPTS - 1) * BASE_DELAY
  {
    RunKeeps(tries);
    WaitsAdd(Run(tries).wrong, n);
    WaitsAreLong(n);
  }

  lemma Times(k: nat, delay: nat)
    ensures (k + 1) * delay == k * delay + delay
  {
  }

  lemma {:induction false} WaitsAreLong(n: nat)
    requires n >= FREE_ATTEMPTS + 1
    ensures Waits(n) >= (n - FREE_ATTEMPTS - 1) * BASE_DELAY
    decreases n
  {
    if n == FREE_ATTEMPTS + 1 {
    } else {
      WaitsAreLong(n - 1);
      Schedule(n - 1);
      Times(n - FREE_ATTEMPTS - 2, BASE_DELAY);
    }
  }

  /** A person who waits as told is never locked out for good: the date is near. */
  lemma NeverParked(tries: seq<Try>)
    ensures Allowed(Run(tries).record, Run(tries).clock + MAX_DELAY + MAX_DELAY / 4)
  {
    RunKeeps(tries);
    ClampNeverFires(Run(tries), Run(tries).clock + MAX_DELAY + MAX_DELAY / 4);
  }
}
