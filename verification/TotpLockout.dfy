/**
  The second-factor challenge of one account: consecutive failures and the lockout.  Challenges are serialised:
  each reads what the previous one wrote.  Times are milliseconds, in no assumed order.
*/
module TotpLockout {
  import opened Options

  const MAX_FAILURES := 10
  const LOCKOUT := 900_000

  /** `users.totp_failed_attempts` and `users.totp_locked_until`. */
  datatype Account = Account(failed: Option<int>, lockedUntil: Option<int>)

  /** A challenge checks the lock at `at`, and writes `delay` later. */
  datatype Challenge = Challenge(at: nat, delay: nat, codeValid: bool)
  datatype Outcome = Blocked | Wrong | Success

  function Failures(a: Account): int {
    if a.failed.Some? then a.failed.value else 0
  }

  predicate Locked(a: Account, now: nat) {
    a.lockedUntil.Some? && a.lockedUntil.value > now
  }

  function OutcomeOf(a: Account, c: Challenge): Outcome {
    if Locked(a, c.at) then Blocked else if c.codeValid then Success else Wrong
  }

  /** What a failed challenge that read `read` writes. */
  function FailureWrites(read: Account, at: nat): Account {
    var failures := Failures(read) + 1;
    if failures >= MAX_FAILURES then Account(Some(0), Some(at + LOCKOUT)) else Account(Some(failures), None)
  }

  function After(a: Account, c: Challenge): Account {
    match OutcomeOf(a, c)
    case Blocked => a
    case Wrong => FailureWrites(a, c.at + c.delay)
    case Success => if Failures(a) != 0 then Account(Some(0), None) else a
  }

  class UserRow {
    var failed: Option<int>
    var lockedUntil: Option<int>

    constructor ()
      ensures failed == None && lockedUntil == None
    {
      failed, lockedUntil := None, None;
    }

    method Respond(c: Challenge) returns (outcome: Outcome)
      modifies this
      ensures outcome == OutcomeOf(Account(old(failed), old(lockedUntil)), c)
      ensures Account(failed, lockedUntil) == After(Account(old(failed), old(lockedUntil)), c)
      ensures outcome.Blocked? <==> old(lockedUntil).Some? && old(lockedUntil).value > c.at
      ensures outcome.Blocked? ==> failed == old(failed) && lockedUntil == old(lockedUntil)
      ensures outcome.Wrong? ==>
                var before := if old(failed).Some? then old(failed).value else 0;
                if before + 1 < MAX_FAILURES then failed == Some(before + 1) && lockedUntil == None
                else failed == Some(0) && lockedUntil == Some(c.at + c.delay + LOCKOUT)
      ensures outcome.Success? ==>
                if old(failed).Some? && old(failed).value != 0 then failed == Some(0) && lockedUntil == None
                else failed == old(failed) && lockedUntil == old(lockedUntil)
      ensures !outcome.Blocked? ==> (outcome.Success? <==> c.codeValid)
    {
      if lockedUntil.Some? && lockedUntil.value > c.at { return Blocked; }
      if !c.codeValid {
        var attempts := (if failed.Some? then failed.value else 0) + 1;
        var lockingOut := attempts >= MAX_FAILURES;
        failed := Some(if lockingOut then 0 else attempts);
        lockedUntil := if lockingOut then Some(c.at + c.delay + LOCKOUT) else None;
        return Wrong;
      }
      if failed.Some? && failed.value != 0 {
        failed, lockedUntil := Some(0), None;
      }
      return Success;
    }
  }

  // ------------------------------------------------------------------ runs

  const NEW_ACCOUNT := Account(None, None)

  function Run(cs: seq<Challenge>): Account {
    if cs == [] then NEW_ACCOUNT else After(Run(cs[..|cs| - 1]), cs[|cs| - 1])
  }

  function OutcomeAt(cs: seq<Challenge>, i: nat): Outcome
    requires i < |cs|
  {
    OutcomeOf(Run(cs[..i]), cs[i])
  }

  ghost predicate Inv(a: Account) {
    0 <= Failures(a) < MAX_FAILURES && (Failures(a) > 0 ==> a.lockedUntil.None?)
  }

  /** The stored counter stays between 0 and 9, and is 0 while a lock is stored. */
  lemma {:induction false} CounterRange(cs: seq<Challenge>)
    ensures Inv(Run(cs))
  {
    if cs != [] {
      CounterRange(cs[..|cs| - 1]);
    }
  }

  lemma RunNext(cs: seq<Challenge>, j: nat)
    requires j < |cs|
    ensures Run(cs[..j + 1]) == After(Run(cs[..j]), cs[j])
  {
    assert cs[..j + 1][..j] == cs[..j];
  }

  function Wrongs(cs: seq<Challenge>, low: nat, high: nat): nat
    requires low <= high <= |cs|
    decreases high
  {
    if low == high then 0
    else Wrongs(cs, low, high - 1) + if OutcomeAt(cs, high - 1) == Wrong then 1 else 0
  }

  ghost predicate NoSuccess(cs: seq<Challenge>, low: nat, high: nat)
    requires low <= high <= |cs|
  {
    forall i | low <= i < high :: OutcomeAt(cs, i) != Success
  }

  /**
    Counting from challenge `low` with no success: either every wrong code is in the counter, or the account was
    locked on the way, until 15 minutes past `start`.
  */
  lemma {:induction false} WrongsAreCounted(cs: seq<Challenge>, low: nat, high: nat, start: nat)
    requires low <= high <= |cs| && NoSuccess(cs, low, high)
    requires forall i | low <= i < high :: start <= cs[i].at < start + LOCKOUT
    ensures var a, b := Run(cs[..low]), Run(cs[..high]);
            || Wrongs(cs, low, high) == Failures(b) - Failures(a)
            || (Wrongs(cs, low, high) == MAX_FAILURES - Failures(a) && b.lockedUntil.Some? && b.lockedUntil.value >= start + LOCKOUT)
    decreases high
  {
    if high > low {
      WrongsAreCounted(cs, low, high - 1, start);
      RunNext(cs, high - 1);
      CounterRange(cs[..high - 1]);
      assert OutcomeAt(cs, high - 1) != Success;
    }
  }

  /** In any half-open 15-minute interval without a success, at most ten wrong codes are verified. */
  lemma WrongCodesBounded(cs: seq<Challenge>, low: nat, high: nat, start: nat)
    requires low <= high <= |cs| && NoSuccess(cs, low, high)
    requires forall i | low <= i < high :: start <= cs[i].at < start + LOCKOUT
    ensures Wrongs(cs, low, high) <= MAX_FAILURES
  {
    WrongsAreCounted(cs, low, high, start);
    CounterRange(cs[..low]);
    CounterRange(cs[..high]);
  }

  lemma ResetBy(cs: seq<Challenge>, low: nat)
    requires low <= |cs| && (low > 0 ==> OutcomeAt(cs, low - 1) == Success)
    ensures Failures(Run(cs[..low])) == 0
  {
    if low > 0 {
      RunNext(cs, low - 1);
    }
  }

  lemma {:induction false} FailuresClimb(cs: seq<Challenge>, low: nat, n: nat)
    requires n < MAX_FAILURES && low + n <= |cs| && Failures(Run(cs[..low])) == 0
    requires forall k | low <= k < low + n :: OutcomeAt(cs, k) == Wrong
    ensures Failures(Run(cs[..low + n])) == n
    decreases n
  {
    if n > 0 {
      FailuresClimb(cs, low, n - 1);
      RunNext(cs, low + n - 1);
      assert OutcomeAt(cs, low + n - 1) == Wrong;
    }
  }

  lemma {:induction false} LockHolds(cs: seq<Challenge>, low: nat, high: nat)
    requires low <= high <= |cs| && Run(cs[..low]).lockedUntil.Some?
    requires forall k | low <= k < high :: cs[k].at < Run(cs[..low]).lockedUntil.value
    ensures Run(cs[..high]) == Run(cs[..low])
    decreases high
  {
    if high > low {
      LockHolds(cs, low, high - 1);
      RunNext(cs, high - 1);
    }
  }

  /** Ten wrong codes in a row lock the account: whatever comes in the next 15 minutes is refused unread. */
  lemma TenFailuresLock(cs: seq<Challenge>, low: nat, i: nat)
    requires low + MAX_FAILURES <= i < |cs|
    requires low > 0 ==> OutcomeAt(cs, low - 1) == Success
    requires forall k | low <= k < low + MAX_FAILURES :: OutcomeAt(cs, k) == Wrong
    requires forall k | low + MAX_FAILURES <= k <= i :: cs[k].at < cs[low + MAX_FAILURES - 1].at + LOCKOUT
    ensures OutcomeAt(cs, i) == Blocked
  {
    ResetBy(cs, low);
    FailuresClimb(cs, low, MAX_FAILURES - 1);
    var tenth := low + MAX_FAILURES - 1;
    RunNext(cs, tenth);
    assert OutcomeAt(cs, tenth) == Wrong && tenth + 1 == low + MAX_FAILURES;
    assert Run(cs[..tenth + 1]) == Account(Some(0), Some(cs[tenth].at + cs[tenth].delay + LOCKOUT));
    LockHolds(cs, low + MAX_FAILURES, i);
  }
}
