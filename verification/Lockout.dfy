/** Login lockout: how many failed password comparisons a clock allows. */
module Lockout {
  import opened Store

  const MAX_FAILED_ATTEMPTS := 5
  const LOCK_DURATION := 30 * 60 * 1000  // milliseconds

  /** The two columns of the user row that login looks at. */
  datatype Account = Account(failedAttempts: nat, lockedUntil: Option<int>)

  /** One login call: the instant the lock is checked, the instant a failure is written, and what the password
      comparison would say. */
  datatype Login = Login(checkedAt: int, failedAt: int, correct: bool)

  datatype Outcome = Blocked | Rejected | Accepted

  const NEW_ACCOUNT := Account(0, None)

  predicate IsLocked(a: Account, now: int) {
    a.lockedUntil.Some? && now < a.lockedUntil.value
  }

  function OutcomeOf(a: Account, l: Login): Outcome {
    if IsLocked(a, l.checkedAt) then Blocked else if l.correct then Accepted else Rejected
  }

  function AfterFailure(a: Account, now: int): Account {
    var newAttempts := a.failedAttempts + 1;
    Account(newAttempts, if newAttempts >= MAX_FAILED_ATTEMPTS then Some(now + LOCK_DURATION) else None)
  }

  function After(a: Account, l: Login): Account {
    match OutcomeOf(a, l)
    case Blocked => a
    case Rejected => AfterFailure(a, l.failedAt)
    case Accepted => if a.failedAttempts > 0 then Account(0, None) else a
  }

  function AfterAll(a: Account, ls: seq<Login>): Account
    decreases |ls|
  {
    if ls == [] then a else AfterAll(After(a, ls[0]), ls[1..])
  }

  /** The failed password comparisons of a run. */
  function Failures(a: Account, ls: seq<Login>): nat
    decreases |ls|
  {
    if ls == [] then 0 else
      (if OutcomeOf(a, ls[0]) == Rejected then 1 else 0) + Failures(After(a, ls[0]), ls[1..])
  }

  function Successes(a: Account, ls: seq<Login>): nat
    decreases |ls|
  {
    if ls == [] then 0 else
      (if OutcomeOf(a, ls[0]) == Accepted then 1 else 0) + Successes(After(a, ls[0]), ls[1..])
  }

  /** A lock is set exactly while the counter stands at the limit or above. */
  predicate LockSound(a: Account) {
    a.lockedUntil.Some? <==> a.failedAttempts >= MAX_FAILED_ATTEMPTS
  }

  /** The clock never runs backwards, within a call and from one to the next. */
  ghost predicate Clocked(from: int, ls: seq<Login>)
    decreases |ls|
  {
    ls != [] ==> from <= ls[0].checkedAt <= ls[0].failedAt && Clocked(ls[0].failedAt, ls[1..])
  }

  lemma {:induction false} LockSoundAlways(a: Account, ls: seq<Login>)
    requires LockSound(a)
    ensures LockSound(AfterAll(a, ls))
    decreases |ls|
  {
    if ls != [] {
      LockSoundAlways(After(a, ls[0]), ls[1..]);
    }
  }

  function LastCheck(from: int, ls: seq<Login>): int {
    if ls == [] then from else ls[|ls| - 1].checkedAt
  }

  lemma {:induction false} LastCheckAfter(from: int, ls: seq<Login>)
    requires Clocked(from, ls)
    ensures from <= LastCheck(from, ls)
    decreases |ls|
  {
    if |ls| > 1 {
      LastCheckAfter(ls[0].failedAt, ls[1..]);
      assert ls[1..][|ls| - 2] == ls[|ls| - 1];
    }
  }

  function AttemptsLeft(a: Account): nat {
    if a.failedAttempts < MAX_FAILED_ATTEMPTS then MAX_FAILED_ATTEMPTS - a.failedAttempts else 0
  }

  /** Every failure beyond the free ones waits out a lock, measured from the failure before it at instant `since`. */
  lemma {:induction false} ExtraFailuresWait(a: Account, since: int, from: int, ls: seq<Login>)
    requires LockSound(a) && since <= from && Clocked(from, ls)
    requires a.lockedUntil.Some? ==> a.lockedUntil.value >= since + LOCK_DURATION
    ensures LOCK_DURATION * (Failures(a, ls) - MAX_FAILED_ATTEMPTS * Successes(a, ls) - AttemptsLeft(a))
         <= LastCheck(from, ls) - since
    decreases |ls|
  {
    if ls != [] {
      var l, rest := ls[0], ls[1..];
      var since' := if OutcomeOf(a, l) == Rejected then l.checkedAt else since;
      ExtraFailuresWait(After(a, l), since', l.failedAt, rest);
      if rest != [] {
        assert rest[|rest| - 1] == ls[|ls| - 1];
      }
    }
  }

  /** Main result. Five free failures, five more for each success, and one for each half hour between the first
      and the last check of the run. */
  lemma FailuresAreRateLimited(ls: seq<Login>)
    requires ls != [] && Clocked(ls[0].checkedAt, ls)
    ensures var span := ls[|ls| - 1].checkedAt - ls[0].checkedAt;
            && span >= 0
            && Failures(NEW_ACCOUNT, ls) <= 5 + 5 * Successes(NEW_ACCOUNT, ls) + span / 1_800_000
  {
    LastCheckAfter(ls[0].checkedAt, ls);
    ExtraFailuresWait(NEW_ACCOUNT, ls[0].checkedAt, ls[0].checkedAt, ls);
  }

  // ------------------------------------------------------------------ what a password does, over whole runs

  /** The wrong passwords that count after a run, written down as they came: one is added by a wrong password, all are
      forgotten with a right one, and while the fifth or a later one is less than half an hour old nothing counts. */
  function Counted(ls: seq<Login>): (wrong: seq<Login>)
    ensures forall l :: l in wrong ==> !l.correct
  {
    if ls == [] then [] else
      var before, l := Counted(ls[..|ls| - 1]), ls[|ls| - 1];
      if |before| >= 5 && l.checkedAt < before[|before| - 1].failedAt + 1_800_000 then before
      else if l.correct then []
      else before + [l]
  }

  lemma {:induction false} AfterSnoc(a: Account, ls: seq<Login>, l: Login)
    ensures AfterAll(a, ls + [l]) == After(AfterAll(a, ls), l)
    decreases |ls|
  {
    if ls == [] {
      assert [] + [l] == [l] && [l][1..] == [];
    } else {
      assert (ls + [l])[1..] == ls[1..] + [l];
      AfterSnoc(After(a, ls[0]), ls[1..], l);
    }
  }

  /** The two columns say exactly what counts: how many wrong passwords, and half an hour after the last from the fifth
      on. */
  lemma {:induction false} ColumnsSayWhatCounts(ls: seq<Login>)
    ensures var a, wrong := AfterAll(NEW_ACCOUNT, ls), Counted(ls);
            && a.failedAttempts == |wrong|
            && a.lockedUntil == if |wrong| >= 5 then Some(wrong[|wrong| - 1].failedAt + 1_800_000) else None
    decreases |ls|
  {
    if ls != [] {
      var before, l := ls[..|ls| - 1], ls[|ls| - 1];
      assert ls == before + [l];
      ColumnsSayWhatCounts(before);
      AfterSnoc(NEW_ACCOUNT, before, l);
    }
  }

  /** Main result. After every run of a new account: a login is Blocked exactly while five or more wrong passwords count
      and half an hour has not passed since the last of them; otherwise a right password is Accepted and a wrong one
      Rejected. */
  lemma LoginOutcome(ls: seq<Login>, l: Login)
    ensures var outcome, wrong := OutcomeOf(AfterAll(NEW_ACCOUNT, ls), l), Counted(ls);
            var blocked := |wrong| >= 5 && l.checkedAt < wrong[|wrong| - 1].failedAt + 1_800_000;
            && (outcome == Blocked <==> blocked)
            && (outcome == Accepted <==> !blocked && l.correct)
            && (outcome == Rejected <==> !blocked && !l.correct)
    ensures var a, after := AfterAll(NEW_ACCOUNT, ls), AfterAll(NEW_ACCOUNT, ls + [l]);
            && (OutcomeOf(a, l) == Blocked ==> after == a)
            && (OutcomeOf(a, l) == Accepted ==> after == Account(0, None))
            && (OutcomeOf(a, l) == Rejected ==> after.failedAttempts == a.failedAttempts + 1)
  {
    ColumnsSayWhatCounts(ls);
    AfterSnoc(NEW_ACCOUNT, ls, l);
  }

  lemma {:induction false} FewWrong(ls: seq<Login>)
    requires |ls| <= 5 && forall l :: l in ls ==> !l.correct
    ensures Counted(ls) == ls
  {
    if ls != [] {
      assert ls[|ls| - 1] in ls && ls == ls[..|ls| - 1] + [ls[|ls| - 1]];
      FewWrong(ls[..|ls| - 1]);
    }
  }

  lemma {:induction false} AfterConcat(a: Account, ls: seq<Login>, more: seq<Login>)
    ensures AfterAll(a, ls + more) == AfterAll(AfterAll(a, ls), more)
    decreases |ls|
  {
    if ls == [] {
      assert ls + more == more;
    } else {
      assert (ls + more)[1..] == ls[1..] + more;
      AfterConcat(After(a, ls[0]), ls[1..], more);
    }
  }

  /** A login that gets in wipes the slate: what follows goes as from a new account. */
  lemma SuccessStartsAfresh(ls: seq<Login>, l: Login, more: seq<Login>)
    requires OutcomeOf(AfterAll(NEW_ACCOUNT, ls), l) == Accepted
    ensures AfterAll(NEW_ACCOUNT, ls + [l] + more) == AfterAll(NEW_ACCOUNT, more)
  {
    LoginOutcome(ls, l);
    AfterConcat(NEW_ACCOUNT, ls + [l], more);
  }

  /** Fewer than five wrong passwords in a row do no harm: the right one is Accepted and the account is as new. */
  lemma RightAfterFewWrong(ls: seq<Login>, l: Login)
    requires |ls| < 5 && (forall x :: x in ls ==> !x.correct) && l.correct
    ensures OutcomeOf(AfterAll(NEW_ACCOUNT, ls), l) == Accepted
    ensures AfterAll(NEW_ACCOUNT, ls + [l]) == Account(0, None)
  {
    FewWrong(ls);
    LoginOutcome(ls, l);
  }

  lemma {:induction false} NothingCountsWhileLocked(wrong: seq<Login>, ls: seq<Login>)
    requires |wrong| == 5 && forall l :: l in wrong ==> !l.correct
    requires forall l :: l in ls ==> l.checkedAt < wrong[4].failedAt + 1_800_000
    ensures Counted(wrong + ls) == wrong
    decreases |ls|
  {
    if ls == [] {
      assert wrong + [] == wrong;
      FewWrong(wrong);
    } else {
      assert ls[|ls| - 1] in ls && forall l :: l in ls[..|ls| - 1] ==> l in ls;
      assert (wrong + ls)[..|wrong + ls| - 1] == wrong + ls[..|ls| - 1];
      NothingCountsWhileLocked(wrong, ls[..|ls| - 1]);
    }
  }

  /** Five wrong passwords in a row lock the account for half an hour from the fifth, to the millisecond: every login
      checked before is Blocked and leaves the account alone, however many there are; from that instant on the right
      password is Accepted and a wrong one Rejected. */
  lemma FiveWrongLockHalfAnHour(wrong: seq<Login>, ls: seq<Login>, l: Login)
    requires |wrong| == 5 && forall x :: x in wrong ==> !x.correct
    requires forall x :: x in ls ==> x.checkedAt < wrong[4].failedAt + 1_800_000
    ensures var a := AfterAll(NEW_ACCOUNT, wrong + ls);
            && a == AfterAll(NEW_ACCOUNT, wrong)
            && OutcomeOf(a, l) == if l.checkedAt < wrong[4].failedAt + 1_800_000 then Blocked
                                  else if l.correct then Accepted else Rejected
  {
    NothingCountsWhileLocked(wrong, ls);
    NothingCountsWhileLocked(wrong, []);
    assert wrong + [] == wrong;
    ColumnsSayWhatCounts(wrong);
    ColumnsSayWhatCounts(wrong + ls);
    LoginOutcome(wrong + ls, l);
  }

  /** From any account, and after any run: nobody gets in with a wrong password. */
  lemma AcceptedOnlyWithRightPassword(a: Account, ls: seq<Login>, l: Login)
    ensures OutcomeOf(AfterAll(a, ls), l) == Accepted ==> l.correct
    ensures OutcomeOf(AfterAll(a, ls), l) == Rejected ==> !l.correct
  {
  }

  // ------------------------------------------------------------------ the row, as login updates it

  class TenantUser {
    var failedLoginAttempts: nat
    var lockedUntil: Option<int>

    function Value(): Account
      reads this
    {
      Account(failedLoginAttempts, lockedUntil)
    }

    constructor ()
      ensures Value() == NEW_ACCOUNT
    {
      failedLoginAttempts, lockedUntil := 0, None;
    }

    method IncrementFailedAttempts(now: int)
      modifies this
      ensures Value() == AfterFailure(old(Value()), now)
      ensures failedLoginAttempts == old(failedLoginAttempts) + 1
      ensures lockedUntil == if failedLoginAttempts >= 5 then Some(now + 1_800_000) else None
    {
      var newAttempts := failedLoginAttempts + 1;
      if newAttempts >= MAX_FAILED_ATTEMPTS {
        lockedUntil := Some(now + LOCK_DURATION);
      } else {
        lockedUntil := None;
      }
      failedLoginAttempts := newAttempts;
    }

    method TryLogin(l: Login) returns (outcome: Outcome)
      modifies this
      ensures outcome == OutcomeOf(old(Value()), l) && Value() == After(old(Value()), l)
      ensures var blocked := old(lockedUntil).Some? && l.checkedAt < old(lockedUntil).value;
              && (outcome == Blocked <==> blocked)
              && (outcome == Accepted <==> !blocked && l.correct)
              && (outcome == Rejected <==> !blocked && !l.correct)
      ensures outcome == Blocked ==> Value() == old(Value())
      ensures outcome == Accepted ==> failedLoginAttempts == 0 && (old(failedLoginAttempts) > 0 ==> lockedUntil == None)
      ensures outcome == Rejected ==>
                && failedLoginAttempts == old(failedLoginAttempts) + 1
                && lockedUntil == if failedLoginAttempts >= 5 then Some(l.failedAt + 1_800_000) else None
      ensures old(LockSound(Value())) ==> LockSound(Value())
    {
      if lockedUntil.Some? && l.checkedAt < lockedUntil.value {
        return Blocked;
      }
      if !l.correct {
        IncrementFailedAttempts(l.failedAt);
        return Rejected;
      }
      if failedLoginAttempts > 0 {
        failedLoginAttempts, lockedUntil := 0, None;
      }
      return Accepted;
    }
  }
}
