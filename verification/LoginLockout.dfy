/** Brute-force protection of the login command: five failures lock an account for fifteen minutes. */
module LoginLockout {
  const MAX_LOGIN_ATTEMPTS: nat := 5

  /** Nine hundred seconds, in nanoseconds of the monotonic clock. */
  const LOCKOUT: int := 900 * 1_000_000_000

  datatype Attempt = Attempt(failed: nat, until: int)

  /** What happens after the lockout test: the password fails, a later step refuses, or the login completes. */
  datatype Outcome = WrongPassword | Refused | Completed

  datatype Answer = AccountLocked | AuthFailed | NotAdmitted | Welcome

  /** One `handle_login`: the clock is read at the lockout test, and again after the password check. */
  datatype Login = Login(user: string, tested: int, verified: int, outcome: Outcome)

  type Attempts = map<string, Attempt>

  function AttemptOf(m: Attempts, user: string): Attempt {
    if user in m then m[user] else Attempt(0, 0)
  }

  predicate Locked(a: Attempt, now: int) {
    a.failed >= MAX_LOGIN_ATTEMPTS && now < a.until
  }

  /** The count is not reset when a lockout expires, so the next failure locks again at once. */
  function Fail(a: Attempt, now: int): Attempt {
    Attempt(a.failed + 1, if a.failed + 1 >= MAX_LOGIN_ATTEMPTS then now + LOCKOUT else a.until)
  }

  function Handle(m: Attempts, e: Login): (Attempts, Answer) {
    var a := AttemptOf(m, e.user);
    var m1 := m[e.user := a];
    if Locked(a, e.tested) then (m1, AccountLocked)
    else
      match e.outcome
      case WrongPassword => (m1[e.user := Fail(a, e.verified)], AuthFailed)
      case Refused => (m1, NotAdmitted)
      case Completed => (m1 - {e.user}, Welcome)
  }

  class Handler {
    var attempts: Attempts

    constructor ()
      ensures attempts == map[]
    {
      attempts := map[];
    }

    method HandleLogin(e: Login) returns (answer: Answer)
      modifies this
      ensures (attempts, answer) == Handle(old(attempts), e)
    {
      var attempt := if e.user in attempts then attempts[e.user] else Attempt(0, 0);
      attempts := attempts[e.user := attempt];
      if attempt.failed >= MAX_LOGIN_ATTEMPTS && e.tested < attempt.until {
        return AccountLocked;
      }
      if e.outcome == WrongPassword {
        attempt := attempt.(failed := attempt.failed + 1);
        if attempt.failed >= MAX_LOGIN_ATTEMPTS {
          attempt := attempt.(until := e.verified + LOCKOUT);
        }
        attempts := attempts[e.user := attempt];
        return AuthFailed;
      }
      if e.outcome == Refused {
        return NotAdmitted;
      }
      attempts := attempts - {e.user};
      return Welcome;
    }
  }

  // ---- runs ------------------------------------------------------------------------------

  function Run(logins: seq<Login>): (Attempts, seq<Answer>) {
    if logins == [] then (map[], [])
    else
      var (m, answers) := Run(logins[..|logins| - 1]);
      var (m', answer) := Handle(m, logins[|logins| - 1]);
      (m', answers + [answer])
  }

  /** One login after the other, on a clock that does not run backwards. */
  ghost predicate Sequential(logins: seq<Login>) {
    && (forall i | 0 <= i < |logins| :: 0 <= logins[i].tested <= logins[i].verified)
    && (forall i, j | 0 <= i < j < |logins| :: logins[i].verified <= logins[j].tested)
  }

  // ---- what the answers should be, from the logins alone ---------------------------------

  /** Five failures on record, the last of them less than 900 s old. */
  predicate LockedBy(failures: seq<int>, now: int) {
    |failures| >= 5 && now < failures[|failures| - 1] + 900_000_000_000
  }

  /** When the password of `user` failed, since that user last logged in. */
  function FailuresSince(logins: seq<Login>, user: string): seq<int> {
    if logins == [] then []
    else
      var n := |logins| - 1;
      var before := FailuresSince(logins[..n], user);
      if logins[n].user != user || LockedBy(before, logins[n].tested) then before
      else match logins[n].outcome
        case WrongPassword => before + [logins[n].verified]
        case Refused => before
        case Completed => []
  }

  function AnswerAfter(failures: seq<int>, e: Login): Answer {
    if LockedBy(failures, e.tested) then AccountLocked
    else match e.outcome
      case WrongPassword => AuthFailed
      case Refused => NotAdmitted
      case Completed => Welcome
  }

  /** The stored attempt records exactly the failures since the last completed login. */
  lemma {:induction false} AttemptRecordsFailures(logins: seq<Login>, user: string)
    ensures var a := AttemptOf(Run(logins).0, user); var f := FailuresSince(logins, user);
      a.failed == |f| && (|f| >= MAX_LOGIN_ATTEMPTS ==> a.until == f[|f| - 1] + LOCKOUT)
    decreases |logins|
  {
    if logins != [] {
      AttemptRecordsFailures(logins[..|logins| - 1], user);
      AttemptRecordsFailures(logins[..|logins| - 1], logins[|logins| - 1].user);
    }
  }

  /**
   Every login of every run is answered as locked exactly when five failures are on record since the
   user's last completed login and the last is less than 900 s old, and otherwise as its outcome says.
   */
  lemma {:induction false} AnswersExactly(logins: seq<Login>, i: nat)
    requires i < |logins|
    ensures |Run(logins).1| == |logins|
    ensures Run(logins).1[i] == AnswerAfter(FailuresSince(logins[..i], logins[i].user), logins[i])
    decreases |logins|
  {
    var n := |logins| - 1;
    AnswersLength(logins[..n]);
    AttemptRecordsFailures(logins[..n], logins[n].user);
    if i < n {
      AnswersExactly(logins[..n], i);
      assert logins[..n][..i] == logins[..i];
    }
  }

  lemma {:induction false} AnswersLength(logins: seq<Login>)
    ensures |Run(logins).1| == |logins|
  {
    if logins != [] {
      AnswersLength(logins[..|logins| - 1]);
    }
  }

  /** How many failing password checks of `user` the answers from `i` on report. */
  function FailedFrom(logins: seq<Login>, answers: seq<Answer>, i: nat, user: string): nat
    requires i <= |logins| == |answers|
    decreases |logins|
  {
    if i == |logins| then 0
    else
      var n := |logins| - 1;
      FailedFrom(logins[..n], answers[..n], i, user)
      + (if logins[n].user == user && answers[n] == AuthFailed then 1 else 0)
  }

  lemma {:induction false} RecordedWereAnswered(logins: seq<Login>, i: nat, user: string)
    requires i < |logins| && logins[i].user == user && |Run(logins).1| == |logins| && Run(logins).1[i] == Welcome
    ensures |FailuresSince(logins, user)| == 0 || i + 1 < |logins|
    ensures |FailuresSince(logins, user)| <= FailedFrom(logins, Run(logins).1, i + 1, user)
    decreases |logins|
  {
    hide Handle;
    var n := |logins| - 1;
    AnswersLength(logins[..n]);
    AnswersExactly(logins, n);
    if i < n {
      assert Run(logins).1[..n] == Run(logins[..n]).1;
      RecordedWereAnswered(logins[..n], i, user);
    }
  }

  /** After a completed login, the account locks again only after five further failures. */
  lemma {:induction false} FiveMoreAfterWelcome(logins: seq<Login>, i: nat, e: Login)
    requires i < |logins| && logins[i].user == e.user && |Run(logins).1| == |logins| && Run(logins).1[i] == Welcome
    requires Handle(Run(logins).0, e).1 == AccountLocked
    ensures FailedFrom(logins, Run(logins).1, i + 1, e.user) >= 5
  {
    AttemptRecordsFailures(logins, e.user);
    RecordedWereAnswered(logins, i, e.user);
  }

  /** Failures are in order, and from the fifth on they are a lockout apart. */
  ghost predicate Spaced(f: seq<int>) {
    forall i | 0 < i < |f| :: f[i] >= f[i - 1] + if i >= MAX_LOGIN_ATTEMPTS then LOCKOUT else 0
  }

  lemma {:induction false} OneMore(f: seq<int>, e: Login)
    requires Spaced(f) && e.tested <= e.verified && (f != [] ==> f[|f| - 1] <= e.tested)
    requires |f| >= MAX_LOGIN_ATTEMPTS ==> e.tested >= f[|f| - 1] + LOCKOUT
    ensures Spaced(f + [e.verified])
  {
  }

  lemma {:induction false} FailuresSpaced(logins: seq<Login>, user: string)
    requires Sequential(logins)
    ensures var f := FailuresSince(logins, user);
      Spaced(f) && (f != [] ==> logins != [] && f[|f| - 1] <= logins[|logins| - 1].verified)
    decreases |logins|
  {
    hide Spaced;
    NothingSpaced();
    if logins != [] {
      var n := |logins| - 1;
      FailuresSpaced(logins[..n], user);
      var f := FailuresSince(logins[..n], user);
      assert f != [] ==> f[|f| - 1] <= logins[n - 1].verified <= logins[n].tested;
      if !LockedBy(f, logins[n].tested) {
        OneMore(f, logins[n]);
      }
    }
  }

  lemma {:induction false} NothingSpaced()
    ensures Spaced([])
  {
  }

  lemma {:induction false} SpacedSpan(f: seq<int>, i: nat, j: nat)
    requires Spaced(f) && i <= j < |f|
    ensures f[j] >= f[i]
    ensures i + 1 >= MAX_LOGIN_ATTEMPTS ==> f[j] >= f[i] + (j - i) * LOCKOUT
    decreases j
  {
    if i < j {
      SpacedSpan(f, i, j - 1);
    }
  }

  /**
   Within `t` nanoseconds of any failure, a user who does not log in is granted at most
   `5 + t / 900 s` failing password checks in all, from that one on.
   */
  lemma {:induction false} FailureBound(logins: seq<Login>, user: string, first: nat, last: nat, t: nat)
    requires Sequential(logins)
    requires var f := FailuresSince(logins, user); first <= last < |f| && f[last] <= f[first] + t
    ensures last - first + 1 <= MAX_LOGIN_ATTEMPTS + t / LOCKOUT
  {
    hide FailuresSince;
    FailuresSpaced(logins, user);
    var f := FailuresSince(logins, user);
    if last - first >= MAX_LOGIN_ATTEMPTS {
      var mid := if first + 1 >= MAX_LOGIN_ATTEMPTS then first else MAX_LOGIN_ATTEMPTS - 1;
      SpacedSpan(f, first, mid);
      SpacedSpan(f, mid, last);
      assert (last - mid) * LOCKOUT <= t;
    }
  }

  // ---- the bound is attained -------------------------------------------------------------

  /** Five failures at once, then one whenever a lockout has just expired. */
  function Moment(i: nat): int {
    if i < MAX_LOGIN_ATTEMPTS then 0 else (i + 1 - MAX_LOGIN_ATTEMPTS) * LOCKOUT
  }

  function Persistent(user: string, n: nat): seq<Login> {
    seq(n, i requires 0 <= i => Login(user, Moment(i), Moment(i), WrongPassword))
  }

  lemma {:induction false} MomentsGrow(i: nat, j: nat)
    requires i <= j
    ensures 0 <= Moment(i) <= Moment(j)
  {
  }

  /** So for every `k` there is a run with `5 + k` failures within `k` lockouts of the first. */
  lemma {:induction false} BoundAttained(user: string, n: nat)
    ensures Sequential(Persistent(user, n))
    ensures FailuresSince(Persistent(user, n), user) == seq(n, i requires 0 <= i => Moment(i))
    decreases n
  {
    var logins := Persistent(user, n);
    forall i, j | 0 <= i <= j < n ensures 0 <= Moment(i) <= Moment(j) {
      MomentsGrow(i, j);
    }
    if n != 0 {
      BoundAttained(user, n - 1);
      assert logins[..n - 1] == Persistent(user, n - 1);
    }
  }
}
