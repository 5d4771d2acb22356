/**
 Account lockout on repeated wrong passwords.

 `Account` holds the two stored columns and runs the password branch of a login;
 `Attempt` is its specification and `Run` replays a history of non-overlapping logins.
 */
module Lockout {
  import opened Arithmetic
  import opened Options

  datatype Counters = Counters(failedAttempts: int, lockedUntil: Option<int>)

  /** What a login that reaches the lock check would find: a password that fails, one that
      passes but belongs to an unverified address, or one that logs the user in. */
  datatype Password = Wrong | RightUnverified | Right

  datatype Outcome = Locked | InvalidPassword | EmailNotVerified | LoggedIn

  datatype Login = Login(now: int, password: Password)

  predicate IsLocked(c: Counters, now: int) {
    c.lockedUntil.Some? && now < c.lockedUntil.value
  }

  /** One login under lockout threshold `threshold` and lock duration `duration`. */
  function Attempt(c: Counters, threshold: int, duration: int, login: Login): (Counters, Outcome) {
    if IsLocked(c, login.now) then (c, Locked)
    else match login.password
      case Wrong =>
        if c.failedAttempts + 1 >= threshold then (Counters(0, Some(login.now + duration)), InvalidPassword)
        else (Counters(c.failedAttempts + 1, None), InvalidPassword)
      case RightUnverified => (c, EmailNotVerified)
      case Right => (Counters(0, None), LoggedIn)
  }

  class Account {
    var failedLoginAttempts: int
    var lockedUntil: Option<int>

    ghost function Abs(): Counters
      reads this
    {
      Counters(failedLoginAttempts, lockedUntil)
    }

    method RecordInvalidPassword(now: int, threshold: int, duration: int)
      modifies this
      ensures failedLoginAttempts ==
        (if old(failedLoginAttempts) + 1 >= threshold then 0 else old(failedLoginAttempts) + 1)
      ensures lockedUntil == (if old(failedLoginAttempts) + 1 >= threshold then Some(now + duration) else None)
    {
      var newAttempts := failedLoginAttempts + 1;
      var lock: Option<int> := None;
      var storedAttempts := newAttempts;
      if newAttempts >= threshold {
        lock := Some(now + duration);
        storedAttempts := 0;
      }
      failedLoginAttempts, lockedUntil := storedAttempts, lock;
    }

    method ResetLoginCounters()
      modifies this
      ensures Abs() == Counters(0, None)
    {
      if failedLoginAttempts == 0 && lockedUntil.None? {
        return;
      }
      failedLoginAttempts, lockedUntil := 0, None;
    }

    method Login(login: Login, threshold: int, duration: int) returns (outcome: Outcome)
      modifies this
      ensures (Abs(), outcome) == Attempt(old(Abs()), threshold, duration, login)
    {
      if lockedUntil.Some? && lockedUntil.value > login.now {
        return Locked;
      }
      if login.password == Wrong {
        RecordInvalidPassword(login.now, threshold, duration);
        return InvalidPassword;
      }
      if login.password == RightUnverified {
        return EmailNotVerified;
      }
      ResetLoginCounters();
      outcome := LoggedIn;
    }
  }

  // ---------------------------------------------------------------- histories

  function Run(c: Counters, threshold: int, duration: int, logins: seq<Login>): Counters {
    if logins == [] then c
    else Attempt(Run(c, threshold, duration, logins[..|logins| - 1]), threshold, duration, logins[|logins| - 1]).0
  }

  function OutcomeAt(c: Counters, threshold: int, duration: int, logins: seq<Login>, i: nat): Outcome
    requires i < |logins|
  {
    Attempt(Run(c, threshold, duration, logins[..i]), threshold, duration, logins[i]).1
  }

  /** The instants at which a password was checked and failed. */
  function Failures(c: Counters, threshold: int, duration: int, logins: seq<Login>): seq<int> {
    if logins == [] then []
    else
      var before := logins[..|logins| - 1];
      Failures(c, threshold, duration, before)
      + (if OutcomeAt(c, threshold, duration, logins, |logins| - 1) == InvalidPassword
         then [logins[|logins| - 1].now] else [])
  }

  ghost predicate Monotone(logins: seq<Login>) {
    forall i, j :: 0 <= i <= j < |logins| ==> logins[i].now <= logins[j].now
  }

  ghost predicate NoneSucceeds(c: Counters, threshold: int, duration: int, logins: seq<Login>) {
    forall i :: 0 <= i < |logins| ==> OutcomeAt(c, threshold, duration, logins, i) != LoggedIn
  }

  /** A threshold below one locks on every failure, as a threshold of one does. */
  function Effective(threshold: int): (n: int)
    ensures n >= 1
  {
    if threshold < 1 then 1 else threshold
  }

  /** Counting in rounds of n: failure f + 1 either completes a round or not, and a new round begins
      one lock duration later. */
  lemma NextFailure(f: nat, n: int, duration: int)
    requires n >= 1
    ensures (f + 1) % n == (if f % n + 1 >= n then 0 else f % n + 1)
    ensures f > 0 ==> duration * (f / n) == duration * ((f - 1) / n) + (if f % n == 0 then duration else 0)
  {
    DivSuccessor(f, n);
    DivSuccessor(f - 1, n);
    assert duration * ((f - 1) / n + 1) == duration * ((f - 1) / n) + duration;
  }

  /** What the last login of a history without a success does. */
  lemma LastLogin(c: Counters, threshold: int, duration: int, logins: seq<Login>)
    requires logins != [] && Monotone(logins) && NoneSucceeds(c, threshold, duration, logins)
    ensures var before, last := logins[..|logins| - 1], logins[|logins| - 1];
            var state, fails := Run(c, threshold, duration, before), Failures(c, threshold, duration, before);
            && Monotone(before) && NoneSucceeds(c, threshold, duration, before)
            && (before != [] ==> before[|before| - 1].now <= last.now)
            && (if last.password == Wrong && !IsLocked(state, last.now) then
                  && Run(c, threshold, duration, logins) == Attempt(state, threshold, duration, last).0
                  && Failures(c, threshold, duration, logins) == fails + [last.now]
                else
                  Run(c, threshold, duration, logins) == state && Failures(c, threshold, duration, logins) == fails)
  {
    var before := logins[..|logins| - 1];
    assert OutcomeAt(c, threshold, duration, logins, |logins| - 1) != LoggedIn;
    forall i | 0 <= i < |before|
      ensures OutcomeAt(c, threshold, duration, before, i) != LoggedIn
    {
      assert before[..i] == logins[..i];
      assert OutcomeAt(c, threshold, duration, logins, i) != LoggedIn;
    }
  }

  /** The counters after the failures `fails`: the stored count is their number modulo the threshold,
      and a full round of failures has set the lock from its last one. */
  ghost predicate Shape(c: Counters, n: int, duration: int, fails: seq<int>)
    requires n >= 1
  {
    var f := |fails|;
    && c.failedAttempts == f % n
    && (f > 0 ==>
         && (f % n == 0 ==> c.lockedUntil == Some(fails[f - 1] + duration))
         && fails[f - 1] - fails[0] >= duration * ((f - 1) / n))
  }

  lemma FailureKeepsShape(c: Counters, threshold: int, duration: int, fails: seq<int>, now: int)
    requires Shape(c, Effective(threshold), duration, fails) && !IsLocked(c, now)
    requires fails != [] ==> fails[|fails| - 1] <= now
    ensures Shape(Attempt(c, threshold, duration, Login.Login(now, Wrong)).0, Effective(threshold), duration,
            fails + [now])
  {
    var n, f := Effective(threshold), |fails|;
    NextFailure(f, n, duration);
    if f > 0 {
      assert (fails + [now])[0] == fails[0];
      assert now - fails[0] >= duration * (f / n);
    }
  }

  lemma ShapeInitially(c: Counters, n: int, duration: int)
    requires n >= 1 && c.failedAttempts == 0
    ensures Shape(c, n, duration, [])
  {
  }

  lemma {:induction false} ShapeAfterHistory(c: Counters, threshold: int, duration: int, logins: seq<Login>)
    requires c.failedAttempts == 0 && Monotone(logins) && NoneSucceeds(c, threshold, duration, logins)
    ensures var fails := Failures(c, threshold, duration, logins);
            && Shape(Run(c, threshold, duration, logins), Effective(threshold), duration, fails)
            && (fails != [] ==> logins != [] && fails[|fails| - 1] <= logins[|logins| - 1].now)
    decreases |logins|
  {
    if logins == [] {
      ShapeInitially(c, Effective(threshold), duration);
    } else {
      LastLogin(c, threshold, duration, logins);
      hide Shape, Effective, Monotone, NoneSucceeds, Run, Failures, IsLocked, Attempt;
      var before, last := logins[..|logins| - 1], logins[|logins| - 1];
      ShapeAfterHistory(c, threshold, duration, before);
      var state, fails := Run(c, threshold, duration, before), Failures(c, threshold, duration, before);
      if last.password == Wrong && !IsLocked(state, last.now) {
        FailureKeepsShape(state, threshold, duration, fails, last.now);
      }
    }
  }

  /** Guessing is slow: F checked-and-failed passwords take at least duration * floor((F - 1) / n) of
      time, and the stored count stays below the threshold. */
  lemma LockoutSlowsGuessing(c: Counters, threshold: int, duration: int, logins: seq<Login>)
    requires c.failedAttempts == 0 && Monotone(logins) && NoneSucceeds(c, threshold, duration, logins)
    ensures var fails := Failures(c, threshold, duration, logins);
            && (fails != [] ==>
                 fails[|fails| - 1] - fails[0] >= duration * ((|fails| - 1) / Effective(threshold)))
            && 0 <= Run(c, threshold, duration, logins).failedAttempts < Effective(threshold)
  {
    ShapeAfterHistory(c, threshold, duration, logins);
  }

  /** While the lock lasts no password is looked at, right or wrong, and nothing is stored. */
  lemma {:induction false} LockHoldsUntilExpiry(c: Counters, threshold: int, duration: int, logins: seq<Login>)
    requires c.lockedUntil.Some?
    requires forall i :: 0 <= i < |logins| ==> logins[i].now < c.lockedUntil.value
    ensures Run(c, threshold, duration, logins) == c
    ensures forall i :: 0 <= i < |logins| ==> OutcomeAt(c, threshold, duration, logins, i) == Locked
    decreases |logins|
  {
    if logins != [] {
      var before := logins[..|logins| - 1];
      LockHoldsUntilExpiry(c, threshold, duration, before);
      forall i | 0 <= i < |logins|
        ensures OutcomeAt(c, threshold, duration, logins, i) == Locked
      {
        if i < |before| {
          assert before[..i] == logins[..i];
          assert OutcomeAt(c, threshold, duration, before, i) == Locked;
        }
      }
    }
  }

  /** What each login answers and stores, for every state of the counters: while locked, nothing is looked at; a wrong
      password counts, or locks at the threshold for the lock duration and starts counting anew; the right password of
      an unverified address changes nothing; and a login clears the count and the lock. */
  lemma LoginAnswers(c: Counters, threshold: int, duration: int, login: Login)
    ensures var (after, outcome) := Attempt(c, threshold, duration, login);
            var locked := exists until :: c.lockedUntil == Some(until) && login.now < until;
            && (outcome == LoggedIn <==> !locked && login.password == Right)
            && (outcome == EmailNotVerified <==> !locked && login.password == RightUnverified)
            && (outcome == InvalidPassword <==> !locked && login.password == Wrong)
            && (outcome == Locked <==> locked)
            && (outcome == LoggedIn ==> after == Counters(0, None))
            && (outcome == Locked || outcome == EmailNotVerified ==> after == c)
            && (outcome == InvalidPassword && c.failedAttempts + 1 < threshold ==>
                 after == Counters(c.failedAttempts + 1, None))
            && (outcome == InvalidPassword && c.failedAttempts + 1 >= threshold ==>
                 after == Counters(0, Some(login.now + duration)))
  {
  }
}
