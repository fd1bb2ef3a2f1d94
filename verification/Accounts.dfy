/** Accounts, login lockout and sessions (auth/service.py, auth/repository.py). */
module Accounts {
  import opened Basics

  // Durations in seconds: twelve hours and fifteen minutes.
  const SESSION_TTL: Time := 43200
  const LOCKOUT_DURATION: Time := 900
  const MAX_FAILED_LOGIN_ATTEMPTS := 5

  datatype Role = Viewer | Researcher | Reviewer | Admin

  /** A user row. User id and username are both unique and fixed, so one name stands for both. */
  datatype Account = Account(role: Role, active: bool, failedAttempts: nat, lockedUntil: Option<Time>)

  /** A session row, stored under the hash of its token. */
  datatype Session = Session(user: string, expiresAt: Time)

  datatype Store = Store(users: map<string, Account>, sessions: map<string, Session>)

  const EMPTY := Store(map[], map[])

  datatype LoginOutcome = Locked(until: Time) | UnknownUser | WrongPassword | Inactive | Granted

  /** One call of the service. A login reads the clock before the slow hash comparison, for the clean-up
      of old sessions, and to date what it records; `passwordOk` is what the comparison answers. */
  datatype Action =
    | Create(user: string, role: Role)
    | Login(user: string, passwordOk: bool, checkedAt: Time, cleanedAt: Time, recordedAt: Time, token: string)
    | Logout(token: string)
    | Resolve(token: string, at: Time)
    | SetActive(user: string, active: bool)
    | SetRole(user: string, role: Role)

  predicate IsLocked(a: Account, now: Time) {
    a.lockedUntil.Some? && a.lockedUntil.value > now
  }

  function Attempt(s: Store, user: string, passwordOk: bool, now: Time): LoginOutcome {
    if user in s.users && IsLocked(s.users[user], now) then Locked(s.users[user].lockedUntil.value)
    else if user !in s.users then UnknownUser
    else if !passwordOk then WrongPassword
    else if !s.users[user].active then Inactive
    else Granted
  }

  function AfterFailure(a: Account, now: Time): Account {
    a.(failedAttempts := a.failedAttempts + 1,
       lockedUntil := if a.failedAttempts + 1 >= MAX_FAILED_LOGIN_ATTEMPTS then Some(now + LOCKOUT_DURATION)
                      else a.lockedUntil)
  }

  function Unexpired(sessions: map<string, Session>, cutoff: Time): map<string, Session> {
    map t | t in sessions && !(sessions[t].expiresAt < cutoff) :: sessions[t]
  }

  function AfterLogin(s: Store, user: string, passwordOk: bool, checkedAt: Time, cleanedAt: Time, recordedAt: Time,
                      token: string): Store {
    match Attempt(s, user, passwordOk, checkedAt)
    case WrongPassword => s.(users := s.users[user := AfterFailure(s.users[user], recordedAt)])
    case Granted =>
      Store(s.users[user := s.users[user].(failedAttempts := 0, lockedUntil := None)],
            Unexpired(s.sessions, cleanedAt)[token := Session(user, recordedAt + SESSION_TTL)])
    case _ => s
  }

  /** The user a token resolves to, if any. */
  function UserFor(s: Store, token: string, now: Time): Option<string> {
    if token in s.sessions
       && s.sessions[token].user in s.users
       && !(s.sessions[token].expiresAt <= now)
       && s.users[s.sessions[token].user].active
    then Some(s.sessions[token].user) else None
  }

  function AfterResolve(s: Store, token: string, now: Time): Store {
    if token in s.sessions && s.sessions[token].user in s.users && s.sessions[token].expiresAt <= now
    then s.(sessions := s.sessions - {token}) else s
  }

  function Apply(s: Store, a: Action): Store {
    match a
    case Create(user, role) =>
      if user in s.users then s else s.(users := s.users[user := Account(role, true, 0, None)])
    case Login(user, ok, checkedAt, cleanedAt, recordedAt, token) =>
      AfterLogin(s, user, ok, checkedAt, cleanedAt, recordedAt, token)
    case Logout(token) => s.(sessions := s.sessions - {token})
    case Resolve(token, at) => AfterResolve(s, token, at)
    case SetActive(user, active) =>
      if user in s.users then s.(users := s.users[user := s.users[user].(active := active)]) else s
    case SetRole(user, role) =>
      if user in s.users then s.(users := s.users[user := s.users[user].(role := role)]) else s
  }

  /** The service over its repository: users and sessions are tables updated in place. */
  class AuthService {
    var users: map<string, Account>
    var sessions: map<string, Session>

    function Contents(): Store
      reads this
    {
      Store(users, sessions)
    }

    constructor ()
      ensures Contents() == EMPTY
    {
      users, sessions := map[], map[];
    }

    method CreateUser(user: string, role: Role) returns (created: bool)
      modifies this
      ensures created == (user !in old(users))
      ensures Contents() == Apply(old(Contents()), Create(user, role))
    {
      created := user !in users;
      if created {
        users := users[user := Account(role, true, 0, None)];
      }
    }

    method RecordLoginFailure(user: string, lockUntil: Option<Time>)
      requires user in users
      modifies this`users
      ensures users == old(users)[user := old(users)[user].(
        failedAttempts := old(users)[user].failedAttempts + 1,
        lockedUntil := if lockUntil.Some? then lockUntil else old(users)[user].lockedUntil)]
    {
      var row := users[user];
      row := row.(failedAttempts := row.failedAttempts + 1);
      if lockUntil.Some? {
        row := row.(lockedUntil := lockUntil);
      }
      users := users[user := row];
    }

    method DeleteExpiredSessions(cutoff: Time)
      modifies this`sessions
      ensures sessions == Unexpired(old(sessions), cutoff)
    {
      var kept: map<string, Session> := map[];
      var todo := sessions.Keys;
      while todo != {}
        invariant todo <= sessions.Keys && sessions == old(sessions)
        invariant kept == map t | t in sessions && t !in todo && !(sessions[t].expiresAt < cutoff) :: sessions[t]
        decreases |todo|
      {
        var t :| t in todo;
        if !(sessions[t].expiresAt < cutoff) {
          kept := kept[t := sessions[t]];
        }
        todo := todo - {t};
      }
      sessions := kept;
    }

    method Login(user: string, passwordOk: bool, checkedAt: Time, cleanedAt: Time, recordedAt: Time, token: string)
      returns (outcome: LoginOutcome)
      modifies this
      ensures outcome == Attempt(old(Contents()), user, passwordOk, checkedAt)
      ensures Contents() == Apply(old(Contents()), Action.Login(user, passwordOk, checkedAt, cleanedAt, recordedAt, token))
    {
      if user in users && users[user].lockedUntil.Some? && users[user].lockedUntil.value > checkedAt {
        return Locked(users[user].lockedUntil.value);
      }
      if user !in users || !passwordOk {
        if user in users {
          var newCount := users[user].failedAttempts + 1;
          var lockUntil := if newCount >= MAX_FAILED_LOGIN_ATTEMPTS then Some(recordedAt + LOCKOUT_DURATION) else None;
          RecordLoginFailure(user, lockUntil);
          return WrongPassword;
        }
        return UnknownUser;
      }
      if !users[user].active {
        return Inactive;
      }
      users := users[user := users[user].(failedAttempts := 0, lockedUntil := None)];
      DeleteExpiredSessions(cleanedAt);
      sessions := sessions[token := Session(user, recordedAt + SESSION_TTL)];
      return Granted;
    }

    method Logout(token: string)
      modifies this`sessions
      ensures Contents() == Apply(old(Contents()), Action.Logout(token))
    {
      sessions := sessions - {token};
    }

    method GetUserForSession(token: string, now: Time) returns (user: Option<string>)
      modifies this`sessions
      ensures user == UserFor(old(Contents()), token, now)
      ensures Contents() == Apply(old(Contents()), Resolve(token, now))
    {
      if token !in sessions || sessions[token].user !in users {
        return None;
      }
      var session := sessions[token];
      if session.expiresAt <= now {
        sessions := sessions - {token};
        return None;
      }
      if !users[session.user].active {
        return None;
      }
      return Some(session.user);
    }

    method SetUserRole(user: string, role: Role) returns (found: bool)
      modifies this`users
      ensures found == (user in old(users))
      ensures Contents() == Apply(old(Contents()), SetRole(user, role))
    {
      found := user in users;
      if found {
        users := users[user := users[user].(role := role)];
      }
    }

    method SetUserActive(user: string, active: bool) returns (found: bool)
      modifies this`users
      ensures found == (user in old(users))
      ensures Contents() == Apply(old(Contents()), SetActive(user, active))
    {
      found := user in users;
      if found {
        users := users[user := users[user].(active := active)];
      }
    }
  }

  // ---------------------------------------------------------------- runs

  function Run(s: Store, acts: seq<Action>): Store {
    if acts == [] then s else Apply(Run(s, acts[..|acts| - 1]), acts[|acts| - 1])
  }

  function Starts(a: Action, otherwise: Time): Time {
    match a case Login(_, _, checkedAt, _, _, _) => checkedAt case Resolve(_, at) => at case _ => otherwise
  }

  function Ends(a: Action, otherwise: Time): Time {
    match a case Login(_, _, _, _, recordedAt, _) => recordedAt case Resolve(_, at) => at case _ => otherwise
  }

  /** The latest clock reading of a run that began at `start`. */
  function Now(start: Time, acts: seq<Action>): Time {
    if acts == [] then start else Ends(acts[|acts| - 1], Now(start, acts[..|acts| - 1]))
  }

  /** The clock never runs backwards, within a call or between calls. */
  ghost predicate Clocked(start: Time, acts: seq<Action>) {
    acts == [] ||
    var before := Now(start, acts[..|acts| - 1]);
    && Clocked(start, acts[..|acts| - 1])
    && before <= Starts(acts[|acts| - 1], before) <= Ends(acts[|acts| - 1], before)
    && InOrder(acts[|acts| - 1])
  }

  predicate InOrder(a: Action) {
    a.Login? ==> a.checkedAt <= a.cleanedAt <= a.recordedAt
  }

  /** A login for the user whose password gets compared: the account exists and no lock is in force. */
  predicate Compares(s: Store, a: Action, user: string) {
    && a.Login? && a.user == user && user in s.users
    && (s.users[user].lockedUntil.Some? ==> s.users[user].lockedUntil.value <= a.checkedAt)
  }

  predicate Succeeds(s: Store, a: Action, user: string) {
    Compares(s, a, user) && a.passwordOk && s.users[user].active
  }

  predicate Misses(s: Store, a: Action, user: string) {
    Compares(s, a, user) && !a.passwordOk
  }

  ghost predicate NoSuccess(s: Store, acts: seq<Action>, user: string) {
    acts == [] ||
    var init := acts[..|acts| - 1];
    NoSuccess(s, init, user) && !Succeeds(Run(s, init), acts[|acts| - 1], user)
  }

  /** When the wrong passwords that were actually compared were tried. */
  function WrongChecks(s: Store, acts: seq<Action>, user: string): seq<Time> {
    if acts == [] then []
    else
      var init := acts[..|acts| - 1];
      WrongChecks(s, init, user) +
      (if Misses(Run(s, init), acts[|acts| - 1], user) then [acts[|acts| - 1].checkedAt] else [])
  }

  /** What the stored counters know about the wrong passwords checked so far. */
  ghost predicate LockoutInv(s: Store, user: string, wrong: seq<Time>) {
    wrong != [] ==>
      && user in s.users
      && |wrong| <= s.users[user].failedAttempts
      && (|wrong| >= 5 ==>
            && s.users[user].lockedUntil.Some?
            && wrong[|wrong| - 1] + 900 <= s.users[user].lockedUntil.value)
  }

  /** From the fifth wrong password on, the next one is compared only after the lockout. */
  ghost predicate Spaced(wrong: seq<Time>) {
    && (forall i :: 0 <= i < |wrong| - 1 ==> wrong[i] <= wrong[i + 1])
    && (forall i :: 4 <= i < |wrong| - 1 ==> wrong[i] + 900 <= wrong[i + 1])
  }

  /** All of it happened between these two instants. */
  ghost predicate Between(wrong: seq<Time>, start: Time, now: Time) {
    start <= now && (wrong != [] ==> start <= wrong[0] && wrong[|wrong| - 1] <= now)
  }

  lemma BetweenStep(wrong: seq<Time>, start: Time, now: Time, at: Time, later: Time)
    requires Between(wrong, start, now) && now <= at <= later
    ensures Between(wrong + [at], start, later)
  {
  }

  lemma LockoutStep(s: Store, a: Action, user: string, wrong: seq<Time>)
    requires LockoutInv(s, user, wrong)
    requires a.Login? ==> a.checkedAt <= a.recordedAt
    requires !Succeeds(s, a, user)
    ensures Misses(s, a, user) ==> LockoutInv(Apply(s, a), user, wrong + [a.checkedAt])
    ensures !Misses(s, a, user) ==> LockoutInv(Apply(s, a), user, wrong)
  {
  }

  /** Over every run without a successful login, wrong passwords from the fifth on are compared
      at least fifteen minutes apart, and the counters keep up with them. */
  lemma {:induction false} LockoutSpacing(s: Store, acts: seq<Action>, start: Time, user: string)
    requires Clocked(start, acts) && NoSuccess(s, acts, user)
    ensures var wrong := WrongChecks(s, acts, user);
      && LockoutInv(Run(s, acts), user, wrong)
      && Spaced(wrong)
      && Between(wrong, start, Now(start, acts))
  {
    if acts == [] {
    } else {
      var init, a := acts[..|acts| - 1], acts[|acts| - 1];
      LockoutSpacing(s, init, start, user);
      LockoutStep(Run(s, init), a, user, WrongChecks(s, init, user));
      if Misses(Run(s, init), a, user) {
        BetweenStep(WrongChecks(s, init, user), start, Now(start, init), a.checkedAt, Ends(a, Now(start, init)));
        SpacedStep(Run(s, init), a, user, WrongChecks(s, init, user), Now(start, init));
      }
    }
  }

  /** A wrong password that is compared comes after the lock of those before it. */
  lemma SpacedStep(s: Store, a: Action, user: string, wrong: seq<Time>, now: Time)
    requires LockoutInv(s, user, wrong) && Spaced(wrong) && Misses(s, a, user)
    requires now <= a.checkedAt && (wrong != [] ==> wrong[|wrong| - 1] <= now)
    ensures Spaced(wrong + [a.checkedAt])
  {
  }

  /** While a lock earned by five or more wrong passwords holds, no password is even compared. */
  lemma NoCheckWhileLocked(s: Store, acts: seq<Action>, start: Time, user: string, passwordOk: bool, now: Time)
    requires Clocked(start, acts) && NoSuccess(s, acts, user)
    requires |WrongChecks(s, acts, user)| >= 5
    requires now < WrongChecks(s, acts, user)[|WrongChecks(s, acts, user)| - 1] + 900
    ensures Attempt(Run(s, acts), user, passwordOk, now).Locked?
  {
    LockoutSpacing(s, acts, start, user);
  }

  function CountIn(times: seq<Time>, from: Time, to: Time): nat {
    if times == [] then 0
    else CountIn(times[..|times| - 1], from, to) + (if from <= times[|times| - 1] <= to then 1 else 0)
  }

  lemma {:induction false} SpacedSpan(wrong: seq<Time>, lo: nat, hi: nat)
    requires Spaced(wrong) && lo <= hi < |wrong|
    ensures (hi - lo - 4) * 900 <= wrong[hi] - wrong[lo] && wrong[lo] <= wrong[hi]
    ensures lo >= 4 ==> (hi - lo) * 900 <= wrong[hi] - wrong[lo]
  {
    if lo < hi {
      SpacedSpan(wrong, lo, hi - 1);
    }
  }

  /** The last wrong password in a window, counted with those before it. */
  lemma {:induction false} CountSpan(wrong: seq<Time>, from: Time, to: Time, n: nat)
    requires Spaced(wrong) && n <= |wrong|
    ensures var c := CountIn(wrong[..n], from, to);
      c > 0 ==> exists lo, hi :: 0 <= lo <= hi < n && from <= wrong[lo] && wrong[hi] <= to && c <= hi - lo + 1
    decreases n
  {
    if n == 0 {
    } else {
      CountSpan(wrong, from, to, n - 1);
      assert wrong[..n][..n - 1] == wrong[..n - 1];
      var before := CountIn(wrong[..n - 1], from, to);
      if from <= wrong[n - 1] <= to {
        if before > 0 {
          var lo, hi :| 0 <= lo <= hi < n - 1 && from <= wrong[lo] && wrong[hi] <= to && before <= hi - lo + 1;
          assert 0 <= lo <= n - 1 < n && before + 1 <= n - 1 - lo + 1;
        } else {
          assert 0 <= n - 1 <= n - 1 < n;
        }
      }
    }
  }

  /** Spacing bounds the number of wrong passwords in a window. */
  lemma SpacedRate(wrong: seq<Time>, from: Time, to: Time)
    requires Spaced(wrong) && from <= to
    ensures CountIn(wrong, from, to) <= 5 + (to - from) / 900
  {
    var c := CountIn(wrong, from, to);
    assert wrong[..|wrong|] == wrong;
    CountSpan(wrong, from, to, |wrong|);
    if c > 0 {
      var lo, hi :| 0 <= lo <= hi < |wrong| && from <= wrong[lo] && wrong[hi] <= to && c <= hi - lo + 1;
      SpacedSpan(wrong, lo, hi);
      Quotient(c - 5, to - from);
    } else {
      Quotient(0, to - from);
    }
  }

  /** In any span at most five wrong passwords, plus one per fifteen minutes of it, are compared. */
  lemma LockoutRate(s: Store, acts: seq<Action>, start: Time, user: string, from: Time, to: Time)
    requires Clocked(start, acts) && NoSuccess(s, acts, user) && from <= to
    ensures CountIn(WrongChecks(s, acts, user), from, to) <= 5 + (to - from) / 900
  {
    LockoutSpacing(s, acts, start, user);
    SpacedRate(WrongChecks(s, acts, user), from, to);
  }

  lemma Quotient(n: int, span: Time)
    requires n * 900 <= span
    ensures n <= span / 900
  {
  }

  // ------------------------------------------------------- accounts by the log of calls

  ghost predicate KnownByLog(acts: seq<Action>, user: string) {
    exists i :: 0 <= i < |acts| && acts[i].Create? && acts[i].user == user
  }

  /** The user exists and was not deactivated since last activated, read off the log of calls. */
  ghost predicate ActiveByLog(acts: seq<Action>, user: string) {
    acts != [] &&
    var init, a := acts[..|acts| - 1], acts[|acts| - 1];
    if a.SetActive? && a.user == user then KnownByLog(init, user) && a.active
    else if a.Create? && a.user == user && !KnownByLog(init, user) then true
    else ActiveByLog(init, user)
  }

  /** The role given last, read off the log of calls. */
  ghost predicate RoleByLog(acts: seq<Action>, user: string, role: Role) {
    acts != [] &&
    var init, a := acts[..|acts| - 1], acts[|acts| - 1];
    if a.SetRole? && a.user == user && KnownByLog(init, user) then role == a.role
    else if a.Create? && a.user == user && !KnownByLog(init, user) then role == a.role
    else RoleByLog(init, user, role)
  }

  lemma {:induction false} UsersAgree(acts: seq<Action>, user: string)
    ensures var users := Run(EMPTY, acts).users;
      && (user in users <==> KnownByLog(acts, user))
      && (user in users && users[user].active <==> ActiveByLog(acts, user))
      && (forall role :: user in users && users[user].role == role <==> RoleByLog(acts, user, role))
  {
    if acts == [] {
    } else {
      var init, a := acts[..|acts| - 1], acts[|acts| - 1];
      UsersAgree(init, user);
      assert forall i :: 0 <= i < |init| ==> init[i] == acts[i];
      assert KnownByLog(acts, user) <==> KnownByLog(init, user) || (a.Create? && a.user == user);
    }
  }

  /** Five wrong passwords lock an account for fifteen minutes from the last of them. */
  predicate Locks(wrong: seq<Time>, t: Time) {
    |wrong| >= 5 && t < wrong[|wrong| - 1] + 900
  }

  /** When the wrong passwords compared since the last login that was granted were recorded. */
  ghost function WrongSince(acts: seq<Action>, user: string): seq<Time> {
    if acts == [] then []
    else
      var init, a := acts[..|acts| - 1], acts[|acts| - 1];
      var wrong := WrongSince(init, user);
      if !(a.Login? && a.user == user && KnownByLog(init, user)) || Locks(wrong, a.checkedAt) then wrong
      else if !a.passwordOk then wrong + [a.recordedAt]
      else if ActiveByLog(init, user) then []
      else wrong
  }

  ghost predicate CountersMatch(s: Store, user: string, wrong: seq<Time>) {
    if user in s.users
    then && s.users[user].failedAttempts == |wrong|
         && s.users[user].lockedUntil == if |wrong| >= 5 then Some(wrong[|wrong| - 1] + 900) else None
    else wrong == []
  }

  /** One call more: a wrong password that is compared is counted, a granted login starts afresh. */
  lemma CountersStep(s: Store, a: Action, user: string, wrong: seq<Time>)
    requires CountersMatch(s, user, wrong)
    ensures CountersMatch(Apply(s, a), user,
      if !(a.Login? && a.user == user && user in s.users) || Locks(wrong, a.checkedAt) then wrong
      else if !a.passwordOk then wrong + [a.recordedAt]
      else if s.users[user].active then []
      else wrong)
  {
  }

  /** The stored counter and lock are what the log of calls says. */
  lemma {:induction false} CountersAgree(acts: seq<Action>, user: string)
    ensures CountersMatch(Run(EMPTY, acts), user, WrongSince(acts, user))
  {
    if acts == [] {
    } else {
      var init := acts[..|acts| - 1];
      CountersAgree(init, user);
      UsersAgree(init, user);
      CountersStep(Run(EMPTY, init), acts[|acts| - 1], user, WrongSince(init, user));
    }
  }

  /** In every run: what a login answers, told by the calls before it and by the password. */
  lemma LoginIff(acts: seq<Action>, user: string, passwordOk: bool, now: Time)
    ensures var outcome, wrong := Attempt(Run(EMPTY, acts), user, passwordOk, now), WrongSince(acts, user);
      && (outcome == Granted <==> passwordOk && ActiveByLog(acts, user) && !Locks(wrong, now))
      && (outcome == WrongPassword <==> !passwordOk && KnownByLog(acts, user) && !Locks(wrong, now))
      && (outcome == Inactive <==> passwordOk && KnownByLog(acts, user) && !ActiveByLog(acts, user) && !Locks(wrong, now))
      && (outcome == UnknownUser <==> !KnownByLog(acts, user))
      && (forall until :: outcome == Locked(until) <==> Locks(wrong, now) && until == wrong[|wrong| - 1] + 900)
  {
    UsersAgree(acts, user);
    CountersAgree(acts, user);
  }

  // ------------------------------------------------------------ sessions

  /** Call `i` of the run is a login with the right password, of a user active and not locked by then. */
  ghost predicate GrantedAt(acts: seq<Action>, i: int) {
    && 0 <= i < |acts| && acts[i].Login? && acts[i].passwordOk
    && ActiveByLog(acts[..i], acts[i].user)
    && !Locks(WrongSince(acts[..i], acts[i].user), acts[i].checkedAt)
  }

  /** Call `i` of the run is a granted login that issued `token`, for twelve hours, with the session `row`. */
  ghost predicate IssuedAt(acts: seq<Action>, i: int, token: string, row: Session) {
    GrantedAt(acts, i) && acts[i].token == token && row == Session(acts[i].user, acts[i].recordedAt + 43200)
  }

  /** Call `j` removes the session: a logout, somebody coming with it too late, or the clean-up of a login. */
  ghost predicate EndedAt(acts: seq<Action>, j: int, token: string, row: Session) {
    && 0 <= j < |acts|
    && (acts[j] == Logout(token)
        || (acts[j].Resolve? && acts[j].token == token && row.expiresAt <= acts[j].at)
        || (GrantedAt(acts, j) && row.expiresAt < acts[j].cleanedAt))
  }

  ghost predicate KeptSince(acts: seq<Action>, i: int, token: string, row: Session) {
    IssuedAt(acts, i, token, row) && forall j :: i < j < |acts| ==> !EndedAt(acts, j, token, row)
  }

  /** No two logins are given the same token (tokens are random, their hash is injective). */
  ghost predicate FreshTokens(acts: seq<Action>) {
    forall i, j :: 0 <= i < j < |acts| && acts[i].Login? && acts[j].Login? ==> acts[i].token != acts[j].token
  }

  lemma GrantedPrefix(acts: seq<Action>, n: nat, i: int)
    requires i < n <= |acts|
    ensures GrantedAt(acts[..n], i) <==> GrantedAt(acts, i)
  {
    if 0 <= i { assert acts[..n][..i] == acts[..i]; }
  }

  lemma KeptStep(acts: seq<Action>, i: int, token: string, row: Session)
    requires acts != []
    ensures var n := |acts| - 1;
      KeptSince(acts, i, token, row) <==>
        if i == n then IssuedAt(acts, n, token, row) else KeptSince(acts[..n], i, token, row) && !EndedAt(acts, n, token, row)
  {
    var n := |acts| - 1;
    if i < n {
      GrantedPrefix(acts, n, i);
      forall j | i < j < n ensures EndedAt(acts[..n], j, token, row) <==> EndedAt(acts, j, token, row) {
        GrantedPrefix(acts, n, j);
      }
    }
  }

  lemma GrantedIff(acts: seq<Action>)
    requires acts != [] && acts[|acts| - 1].Login?
    ensures var a := acts[|acts| - 1];
      GrantedAt(acts, |acts| - 1) <==> Attempt(Run(EMPTY, acts[..|acts| - 1]), a.user, a.passwordOk, a.checkedAt) == Granted
  {
    var a := acts[|acts| - 1];
    LoginIff(acts[..|acts| - 1], a.user, a.passwordOk, a.checkedAt);
  }

  lemma {:induction false} KnownStays(acts: seq<Action>, i: nat, user: string)
    requires i <= |acts| && ActiveByLog(acts[..i], user)
    ensures KnownByLog(acts, user)
  {
    UsersAgree(acts[..i], user);
    var j :| 0 <= j < i && acts[..i][j].Create? && acts[..i][j].user == user;
    assert acts[j].Create?;
  }

  /** What one call does to a row of the table. */
  lemma TableStep(s: Store, a: Action, token: string, row: Session)
    requires token in s.sessions ==> s.sessions[token].user in s.users
    ensures var t := Apply(s, a).sessions; var granted := a.Login? && Attempt(s, a.user, a.passwordOk, a.checkedAt) == Granted;
      token in t && t[token] == row <==>
        if granted && a.token == token then row == Session(a.user, a.recordedAt + 43200)
        else token in s.sessions && s.sessions[token] == row
             && a != Logout(token) && !(a.Resolve? && a.token == token && row.expiresAt <= a.at)
             && !(granted && row.expiresAt < a.cleanedAt)
  {
  }

  lemma RowsStep(acts: seq<Action>, token: string, row: Session)
    requires acts != []
    requires var s := Run(EMPTY, acts[..|acts| - 1]); token in s.sessions ==> s.sessions[token].user in s.users
    ensures var n := |acts| - 1; var s, t := Run(EMPTY, acts[..n]).sessions, Run(EMPTY, acts).sessions;
      token in t && t[token] == row <==>
        if GrantedAt(acts, n) && acts[n].token == token then IssuedAt(acts, n, token, row)
        else token in s && s[token] == row && !EndedAt(acts, n, token, row)
  {
    var n := |acts| - 1;
    if acts[n].Login? { GrantedIff(acts); }
    TableStep(Run(EMPTY, acts[..n]), acts[n], token, row);
  }

  /** In every run the session table holds exactly the sessions that a granted login issued and no later
      call ended. */
  lemma {:induction false} SessionTable(acts: seq<Action>, token: string, row: Session)
    requires FreshTokens(acts)
    ensures var t := Run(EMPTY, acts).sessions;
      token in t && t[token] == row <==> exists i :: KeptSince(acts, i, token, row)
    decreases |acts|
  {
    if acts == [] {
    } else {
      var n := |acts| - 1;
      var init, s := acts[..n], Run(EMPTY, acts[..n]);
      SessionTable(init, token, row);
      if token in s.sessions {
        SessionTable(init, token, s.sessions[token]);
        SessionUserKnown(init, token);
      }
      RowsStep(acts, token, row);
      KeptStep(acts, n, token, row);
      if i :| KeptSince(init, i, token, row) { KeptStep(acts, i, token, row); }
      if i :| KeptSince(acts, i, token, row) { KeptStep(acts, i, token, row); }
    }
  }

  lemma SessionUserKnown(acts: seq<Action>, token: string)
    requires token in Run(EMPTY, acts).sessions
    requires exists i :: KeptSince(acts, i, token, Run(EMPTY, acts).sessions[token])
    ensures Run(EMPTY, acts).sessions[token].user in Run(EMPTY, acts).users
  {
    var user := Run(EMPTY, acts).sessions[token].user;
    var i :| KeptSince(acts, i, token, Run(EMPTY, acts).sessions[token]);
    KnownStays(acts, i, user);
    UsersAgree(acts, user);
  }

  // ------------------------------------------------------------ validity

  /** No call of the run read a clock later than its end. */
  lemma {:induction false} ReadBefore(acts: seq<Action>, start: Time, j: nat)
    requires Clocked(start, acts) && j < |acts|
    ensures acts[j].Login? ==> acts[j].cleanedAt <= Now(start, acts)
    ensures acts[j].Resolve? ==> acts[j].at <= Now(start, acts)
  {
    if j < |acts| - 1 {
      ReadBefore(acts[..|acts| - 1], start, j);
    }
  }

  /** The session was issued and not logged out. */
  ghost predicate Standing(acts: seq<Action>, i: int, token: string, row: Session) {
    IssuedAt(acts, i, token, row) && forall j :: i < j < |acts| ==> acts[j] != Logout(token)
  }

  lemma StandingIsKept(acts: seq<Action>, start: Time, i: int, token: string, row: Session, now: Time)
    requires Clocked(start, acts) && Now(start, acts) <= now < row.expiresAt
    ensures Standing(acts, i, token, row) <==> KeptSince(acts, i, token, row)
  {
    if IssuedAt(acts, i, token, row) {
      forall j | i < j < |acts| ensures EndedAt(acts, j, token, row) <==> acts[j] == Logout(token) { ReadBefore(acts, start, j); }
    }
  }

  /** A token resolves to a user exactly when a login of that user with the right password, made while
      the account was active and not locked, issued it less than twelve hours ago, it was not logged out
      since, and the user is active now. */
  lemma SessionValidityIsExact(acts: seq<Action>, start: Time, token: string, user: string, now: Time)
    requires Clocked(start, acts) && FreshTokens(acts) && Now(start, acts) <= now
    ensures UserFor(Run(EMPTY, acts), token, now) == Some(user) <==>
      && ActiveByLog(acts, user)
      && exists i, row :: Standing(acts, i, token, row) && row.user == user && now < row.expiresAt
  {
    var s := Run(EMPTY, acts);
    UsersAgree(acts, user);
    if UserFor(s, token, now) == Some(user) {
      var row := s.sessions[token];
      SessionTable(acts, token, row);
      var i :| KeptSince(acts, i, token, row);
      StandingIsKept(acts, start, i, token, row, now);
    }
    if i, row :| Standing(acts, i, token, row) && row.user == user && now < row.expiresAt {
      StandingIsKept(acts, start, i, token, row, now);
      SessionTable(acts, token, row);
    }
  }
}
