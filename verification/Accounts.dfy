/** Accounts, sessions and administration as one state machine over values: what
    src/application/auth_service.cpp and src/application/admin_service.cpp do to the user
    repository and the session store. Classes that refine it are in Services.dfy. */
module Accounts {
  import opened Bytes

  const MAX_FAILS := 5
  const LOCKOUT_MS := 15 * 60 * 1000
  const SESSION_MS := 3600 * 1000

  datatype User = User(id: Text, username: Text, email: Text, role: string, status: string, failed: nat, lockoutUntil: int) {
    predicate IsAdmin() { role == "admin" }
    predicate IsActive() { status == "active" }
    predicate CanLogin(now: int) { IsActive() && now >= lockoutUntil }
  }

  datatype Session = Session(token: Text, userId: Text, createdAt: int, expiresAt: int, revoked: bool) {
    predicate IsValid(now: int) { !revoked && createdAt <= now < expiresAt }
  }

  /** `users` and `hashes` are keyed by user id, `sessions` by the hash of the token. */
  datatype State = State(users: map<Text, User>, hashes: map<Text, Text>, sessions: map<Text, Session>)

  const EMPTY := State(map[], map[], map[])

  /** The two library functions the services call: the token hash and the password check. */
  datatype Crypto = Crypto(hash: Text -> Text, verify: (Text, Text) -> bool)

  // ---------------------------------------------------------------------------------------
  // Lookups, as linear searches
  // ---------------------------------------------------------------------------------------

  ghost predicate NameTaken(users: map<Text, User>, name: Text)
  {
    exists id :: id in users && users[id].username == name
  }

  ghost predicate EmailTaken(users: map<Text, User>, email: Text)
  {
    exists id :: id in users && users[id].email == email
  }

  ghost function ByUsername(users: map<Text, User>, name: Text): (r: Option<User>)
    ensures r.Some? <==> NameTaken(users, name)
    ensures r.Some? ==> r.value.username == name && exists id :: id in users && users[id] == r.value
  {
    if NameTaken(users, name) then
      var id :| id in users && users[id].username == name;
      Some(users[id])
    else None
  }

  function ActiveAdmins(users: map<Text, User>): set<Text>
  {
    set id | id in users && users[id].IsAdmin() && users[id].IsActive()
  }

  predicate TokenValid(c: Crypto, s: State, token: Text, now: int)
  {
    c.hash(token) in s.sessions && s.sessions[c.hash(token)].IsValid(now)
  }

  predicate IsActiveAdmin(s: State, id: Text)
  {
    id in s.users && s.users[id].IsAdmin() && s.users[id].IsActive()
  }

  /** `isAdminSession`: a valid session of a user who is still active and an admin. */
  predicate AdminToken(c: Crypto, s: State, token: Text, now: int)
  {
    TokenValid(c, s, token, now) && IsActiveAdmin(s, s.sessions[c.hash(token)].userId)
  }

  // ---------------------------------------------------------------------------------------
  // Operations
  // ---------------------------------------------------------------------------------------

  /** `registerUser`; `encoded` is the hashed password and `newId` the generated id. */
  ghost function Register(s: State, name: Text, email: Text, password: Text, role: string, encoded: Text, newId: Text): (State, Option<Text>)
  {
    if name == [] || email == [] || |password| < 8 then (s, None)
    else if NameTaken(s.users, name) || EmailTaken(s.users, email) then (s, None)
    else if newId == [] || newId in s.users then (s, None)
    else (s.(users := s.users[newId := User(newId, name, email, role, "active", 0, 0)], hashes := s.hashes[newId := encoded]), Some(newId))
  }

  datatype Verdict = Unknown | Barred | WrongPassword(id: Text) | Success(id: Text)

  /** What `login` decides, before it changes anything. */
  ghost function Judge(c: Crypto, s: State, name: Text, password: Text, now: int): Verdict
  {
    match ByUsername(s.users, name)
    case None => Unknown
    case Some(u) =>
      if !u.CanLogin(now) then Barred
      else if u.id !in s.hashes then Unknown
      else if !c.verify(s.hashes[u.id], password) then WrongPassword(u.id)
      else Success(u.id)
  }

  function Failed(u: User, now: int): User
  {
    u.(failed := u.failed + 1, lockoutUntil := if u.failed + 1 >= MAX_FAILS then now + LOCKOUT_MS else u.lockoutUntil)
  }

  /** `login`; `token` is the freshly drawn session token. */
  ghost function Login(c: Crypto, s: State, name: Text, password: Text, now: int, token: Text): (State, Option<Text>)
  {
    match Judge(c, s, name, password, now)
    case WrongPassword(id) =>
      (if id in s.users then s.(users := s.users[id := Failed(s.users[id], now)]) else s, None)
    case Success(id) =>
      var users := if id in s.users then s.users[id := s.users[id].(failed := 0, lockoutUntil := 0)] else s.users;
      (s.(users := users, sessions := s.sessions[c.hash(token) := Session(token, id, now, now + SESSION_MS, false)]), Some(token))
    case _ => (s, None)
  }

  function Revoke(sessions: map<Text, Session>, h: Text): map<Text, Session>
  {
    if h in sessions then sessions[h := sessions[h].(revoked := true)] else sessions
  }

  function RevokeAll(sessions: map<Text, Session>, userId: Text): map<Text, Session>
  {
    map h | h in sessions :: if sessions[h].userId == userId then sessions[h].(revoked := true) else sessions[h]
  }

  /** `activate` and `deactivate` of the admin service, once the caller is cleared. */
  function SetActive(s: State, target: Text): (State, bool)
  {
    if target !in s.users then (s, false)
    else (s.(users := s.users[target := s.users[target].(status := "active")]), true)
  }

  function SetInactive(s: State, target: Text): (State, bool)
  {
    if target !in s.users then (s, false)
    else if IsActiveAdmin(s, target) && |ActiveAdmins(s.users)| <= 1 then (s, false)
    else (s.(users := s.users[target := s.users[target].(status := "inactive")], sessions := RevokeAll(s.sessions, target)), true)
  }

  datatype Op =
    | RegisterOp(name: Text, email: Text, password: Text, role: string, encoded: Text, newId: Text)
    | LoginOp(name: Text, password: Text, now: int, token: Text)
    | LogoutOp(token: Text)
    | ActivateOp(token: Text, target: Text, now: int)
    | DeactivateOp(token: Text, target: Text, now: int)
    | LegacyActivateOp(admin: Text, target: Text)
    | LegacyDeactivateOp(admin: Text, target: Text)

  ghost function Step(c: Crypto, s: State, op: Op): State
  {
    match op
    case RegisterOp(n, e, p, r, enc, id) => Register(s, n, e, p, r, enc, id).0
    case LoginOp(n, p, now, t) => Login(c, s, n, p, now, t).0
    case LogoutOp(t) => s.(sessions := Revoke(s.sessions, c.hash(t)))
    case ActivateOp(t, target, now) => if AdminToken(c, s, t, now) then SetActive(s, target).0 else s
    case DeactivateOp(t, target, now) => if AdminToken(c, s, t, now) then SetInactive(s, target).0 else s
    case LegacyActivateOp(a, target) => if IsActiveAdmin(s, a) then SetActive(s, target).0 else s
    case LegacyDeactivateOp(a, target) => if IsActiveAdmin(s, a) then SetInactive(s, target).0 else s
  }

  ghost function Run(c: Crypto, s: State, ops: seq<Op>): State
  {
    if ops == [] then s else Step(c, Run(c, s, ops[..|ops| - 1]), ops[|ops| - 1])
  }

  // ---------------------------------------------------------------------------------------
  // What every operation keeps
  // ---------------------------------------------------------------------------------------

  ghost predicate WellFormed(s: State)
  {
    && s.hashes.Keys == s.users.Keys
    && (forall id :: id in s.users ==> s.users[id].id == id)
    && (forall id, id' :: id in s.users && id' in s.users && s.users[id].username == s.users[id'].username ==> id == id')
    && (forall id, id' :: id in s.users && id' in s.users && s.users[id].email == s.users[id'].email ==> id == id')
  }

  /** Every session that has not been revoked belongs to an existing, active user. */
  ghost predicate LiveSessionsActive(s: State)
  {
    forall h :: h in s.sessions && !s.sessions[h].revoked ==>
      s.sessions[h].userId in s.users && s.users[s.sessions[h].userId].IsActive()
  }

  ghost predicate Inv(s: State)
  {
    WellFormed(s) && LiveSessionsActive(s)
  }

  /** In a well-formed state the search by name finds the one user of that name. */
  lemma ByUsernameUnique(s: State, id: Text)
    requires WellFormed(s) && id in s.users
    ensures ByUsername(s.users, s.users[id].username) == Some(s.users[id])
  {
  }

  lemma JudgedUserExists(c: Crypto, s: State, name: Text, password: Text, now: int)
    requires WellFormed(s)
    ensures var v := Judge(c, s, name, password, now);
            (v.WrongPassword? || v.Success?) ==>
              && v.id in s.users && s.users[v.id].username == name && s.users[v.id].CanLogin(now)
              && v.Success? == c.verify(s.hashes[v.id], password)
  {
  }

  /** Changing status or lockout of one user leaves names, emails and ids alone. */
  lemma UpdateWellFormed(s: State, id: Text, u: User)
    requires WellFormed(s) && id in s.users
    requires u.id == id && u.username == s.users[id].username && u.email == s.users[id].email
    ensures WellFormed(s.(users := s.users[id := u]))
  {
  }

  lemma RegisterInv(s: State, name: Text, email: Text, password: Text, role: string, encoded: Text, newId: Text)
    requires Inv(s)
    ensures Inv(Register(s, name, email, password, role, encoded, newId).0)
  {
  }

  lemma LoginInv(c: Crypto, s: State, name: Text, password: Text, now: int, token: Text)
    requires Inv(s)
    ensures Inv(Login(c, s, name, password, now, token).0)
  {
    JudgedUserExists(c, s, name, password, now);
    var v := Judge(c, s, name, password, now);
    hide Judge, WellFormed;
    if v.WrongPassword? {
      UpdateWellFormed(s, v.id, Failed(s.users[v.id], now));
    } else if v.Success? {
      UpdateWellFormed(s, v.id, s.users[v.id].(failed := 0, lockoutUntil := 0));
      SessionsDoNotMatter(s.(users := s.users[v.id := s.users[v.id].(failed := 0, lockoutUntil := 0)]), Login(c, s, name, password, now, token).0);
    }
  }

  lemma SessionsDoNotMatter(s: State, t: State)
    requires WellFormed(s) && s.users == t.users && s.hashes == t.hashes
    ensures WellFormed(t)
  {
  }

  lemma SetActiveInv(s: State, target: Text)
    requires Inv(s)
    ensures Inv(SetActive(s, target).0)
  {
    hide WellFormed;
    if target in s.users {
      UserIds(s, target);
      UpdateWellFormed(s, target, s.users[target].(status := "active"));
    }
  }

  lemma SetInactiveInv(s: State, target: Text)
    requires Inv(s)
    ensures Inv(SetInactive(s, target).0)
  {
    hide WellFormed, ActiveAdmins, IsActiveAdmin;
    if SetInactive(s, target).1 {
      var off := s.users[target].(status := "inactive");
      UserIds(s, target);
      UpdateWellFormed(s, target, off);
      SessionsDoNotMatter(s.(users := s.users[target := off]), SetInactive(s, target).0);
    }
  }

  lemma UserIds(s: State, id: Text)
    requires WellFormed(s) && id in s.users
    ensures s.users[id].id == id
  {
  }

  lemma StepInv(c: Crypto, s: State, op: Op)
    requires Inv(s)
    ensures Inv(Step(c, s, op))
  {
    hide Register, Login, SetActive, SetInactive, AdminToken, IsActiveAdmin, WellFormed;
    match op
    case RegisterOp(n, e, p, r, enc, id) => RegisterInv(s, n, e, p, r, enc, id);
    case LoginOp(n, p, now, t) => LoginInv(c, s, n, p, now, t);
    case LogoutOp(t) => SessionsDoNotMatter(s, Step(c, s, op));
    case ActivateOp(_, target, _) => SetActiveInv(s, target);
    case DeactivateOp(_, target, _) => SetInactiveInv(s, target);
    case LegacyActivateOp(_, target) => SetActiveInv(s, target);
    case LegacyDeactivateOp(_, target) => SetInactiveInv(s, target);
  }

  /** In every reachable state, no session of an inactive user is live. */
  lemma {:induction false} RunInv(c: Crypto, s: State, ops: seq<Op>)
    requires Inv(s)
    ensures Inv(Run(c, s, ops))
  {
    if ops != [] {
      RunInv(c, s, ops[..|ops| - 1]);
      StepInv(c, Run(c, s, ops[..|ops| - 1]), ops[|ops| - 1]);
    }
  }

  // ---------------------------------------------------------------------------------------
  // Sessions: a dead token stays dead
  // ---------------------------------------------------------------------------------------

  /** No live session is filed under the token, so it is valid at no time. */
  predicate Dead(c: Crypto, s: State, token: Text)
  {
    var h := c.hash(token);
    h in s.sessions ==> s.sessions[h].revoked
  }

  lemma DeadIsInvalid(c: Crypto, s: State, token: Text, now: int)
    requires Dead(c, s, token)
    ensures !TokenValid(c, s, token, now)
  {
  }

  /** No login of the run draws a token with the same hash. */
  ghost predicate NotReissued(c: Crypto, ops: seq<Op>, token: Text)
  {
    forall op :: op in ops && op.LoginOp? ==> c.hash(op.token) != c.hash(token)
  }

  lemma StepKeepsDead(c: Crypto, s: State, op: Op, token: Text)
    requires Dead(c, s, token) && (op.LoginOp? ==> c.hash(op.token) != c.hash(token))
    ensures Dead(c, Step(c, s, op), token)
  {
    hide Register, Judge, AdminToken, IsActiveAdmin, ActiveAdmins;
    if op.RegisterOp? {
      RegisterSessions(s, op.name, op.email, op.password, op.role, op.encoded, op.newId);
    }
  }

  lemma RegisterSessions(s: State, name: Text, email: Text, password: Text, role: string, encoded: Text, newId: Text)
    ensures Register(s, name, email, password, role, encoded, newId).0.sessions == s.sessions
  {
  }

  lemma {:induction false} DeadStaysDead(c: Crypto, s: State, ops: seq<Op>, token: Text)
    requires Dead(c, s, token) && NotReissued(c, ops, token)
    ensures Dead(c, Run(c, s, ops), token)
  {
    hide Dead;
    if ops != [] {
      var n := |ops| - 1;
      DeadStaysDead(c, s, ops[..n], token);
      assert ops[n] in ops;
      StepKeepsDead(c, Run(c, s, ops[..n]), ops[n], token);
    }
  }

  /** After a successful deactivation, no token the user ever held is valid again at any time,
      whatever follows, reactivation and later logins included. */
  lemma OldTokensNeverRevive(c: Crypto, s: State, target: Text, token: Text, ops: seq<Op>, now: int)
    requires SetInactive(s, target).1
    requires c.hash(token) in s.sessions && s.sessions[c.hash(token)].userId == target
    requires NotReissued(c, ops, token)
    ensures !TokenValid(c, Run(c, SetInactive(s, target).0, ops), token, now)
  {
    hide ActiveAdmins, Run, Step;
    var s' := SetInactive(s, target).0;
    DeadStaysDead(c, s', ops, token);
    DeadIsInvalid(c, Run(c, s', ops), token, now);
  }

  /** The same holds after a logout. */
  lemma LogoutIsFinal(c: Crypto, s: State, token: Text, ops: seq<Op>, now: int)
    requires NotReissued(c, ops, token)
    ensures !TokenValid(c, Run(c, Step(c, s, LogoutOp(token)), ops), token, now)
  {
    hide Run;
    var s' := Step(c, s, LogoutOp(token));
    assert Dead(c, s', token);
    hide Step;
    DeadStaysDead(c, s', ops, token);
    DeadIsInvalid(c, Run(c, s', ops), token, now);
  }

  /** A new account can log in with its password, and its token is valid for exactly one hour. */
  lemma RegisterThenLogin(c: Crypto, s: State, name: Text, email: Text, password: Text, role: string, encoded: Text, newId: Text, now: int, token: Text, t: int)
    requires Inv(s) && Register(s, name, email, password, role, encoded, newId).1.Some?
    requires c.verify(encoded, password) && now >= 0
    ensures var (s', r) := Login(c, Register(s, name, email, password, role, encoded, newId).0, name, password, now, token);
            && r == Some(token) && c.hash(token) in s'.sessions && s'.sessions[c.hash(token)].userId == newId
            && (TokenValid(c, s', token, t) <==> now <= t < now + SESSION_MS)
  {
    var s1 := Register(s, name, email, password, role, encoded, newId).0;
    RegisterInv(s, name, email, password, role, encoded, newId);
    ByUsernameUnique(s1, newId);
    hide ByUsername, Inv;
  }

  /** A valid token therefore always names an existing, active user. */
  lemma ValidTokenIsActive(c: Crypto, s: State, token: Text, now: int)
    requires Inv(s) && TokenValid(c, s, token, now)
    ensures var id := s.sessions[c.hash(token)].userId; id in s.users && s.users[id].IsActive()
  {
  }

  // ---------------------------------------------------------------------------------------
  // The last active admin
  // ---------------------------------------------------------------------------------------

  lemma OtherAdmin(admins: set<Text>, id: Text) returns (other: Text)
    requires id in admins && |admins| >= 2
    ensures other in admins && other != id
  {
    assert |admins - {id}| == |admins| - 1;
    other :| other in admins - {id};
  }

  lemma SetInactiveKeepsAdmin(s: State, target: Text)
    requires ActiveAdmins(s.users) != {}
    ensures ActiveAdmins(SetInactive(s, target).0.users) != {}
  {
    var s' := SetInactive(s, target).0;
    if SetInactive(s, target).1 {
      if IsActiveAdmin(s, target) {
        var other := OtherAdmin(ActiveAdmins(s.users), target);
        assert other in ActiveAdmins(s'.users);
      } else {
        var a :| a in ActiveAdmins(s.users);
        assert a in ActiveAdmins(s'.users);
      }
    }
  }

  lemma LoginKeepsAdmins(c: Crypto, s: State, name: Text, password: Text, now: int, token: Text)
    requires WellFormed(s)
    ensures ActiveAdmins(Login(c, s, name, password, now, token).0.users) == ActiveAdmins(s.users)
  {
    hide Judge;
  }

  lemma StepKeepsAdmin(c: Crypto, s: State, op: Op)
    requires Inv(s) && ActiveAdmins(s.users) != {}
    ensures ActiveAdmins(Step(c, s, op).users) != {}
  {
    hide Login, SetInactive, AdminToken, IsActiveAdmin, WellFormed, LiveSessionsActive;
    var a :| a in ActiveAdmins(s.users);
    match op
    case RegisterOp(n, e, p, r, enc, id) => assert a in ActiveAdmins(Step(c, s, op).users);
    case LoginOp(n, p, now, t) => LoginKeepsAdmins(c, s, n, p, now, t);
    case LogoutOp(t) =>
    case ActivateOp(_, target, _) => assert a in ActiveAdmins(Step(c, s, op).users);
    case DeactivateOp(_, target, _) => SetInactiveKeepsAdmin(s, target);
    case LegacyActivateOp(_, target) => assert a in ActiveAdmins(Step(c, s, op).users);
    case LegacyDeactivateOp(_, target) => SetInactiveKeepsAdmin(s, target);
  }

  /** Once there is an active admin, every later run leaves at least one. */
  lemma {:induction false} LastAdminSafe(c: Crypto, s: State, ops: seq<Op>)
    requires Inv(s) && ActiveAdmins(s.users) != {}
    ensures ActiveAdmins(Run(c, s, ops).users) != {}
  {
    hide Inv, Step, ActiveAdmins;
    if ops != [] {
      var n := |ops| - 1;
      LastAdminSafe(c, s, ops[..n]);
      RunInv(c, s, ops[..n]);
      StepKeepsAdmin(c, Run(c, s, ops[..n]), ops[n]);
    }
  }

  // ---------------------------------------------------------------------------------------
  // Lockout
  // ---------------------------------------------------------------------------------------

  ghost function VerdictOf(c: Crypto, s: State, op: Op): Verdict
  {
    if op.LoginOp? then Judge(c, s, op.name, op.password, op.now) else Unknown
  }

  /** The effect of an operation judged `v` on one user's failure count and lockout time. */
  ghost predicate LockoutEffect(u: User, u': User, v: Verdict, op: Op)
  {
    match v
    case WrongPassword(x) => if x == u.id then op.LoginOp? && u' == Failed(u, op.now) && u.CanLogin(op.now) else u' == u
    case Success(x) => if x == u.id then op.LoginOp? && u'.failed == u'.lockoutUntil == 0 && u.CanLogin(op.now) else u' == u
    case _ => u'.failed == u.failed && u'.lockoutUntil == u.lockoutUntil
  }

  lemma LoginLockout(c: Crypto, s: State, op: Op, id: Text)
    requires WellFormed(s) && op.LoginOp? && id in s.users
    ensures id in Step(c, s, op).users && LockoutEffect(s.users[id], Step(c, s, op).users[id], VerdictOf(c, s, op), op)
  {
    JudgedUserExists(c, s, op.name, op.password, op.now);
    UserIds(s, id);
    hide Judge, WellFormed;
  }

  lemma OtherLockout(c: Crypto, s: State, op: Op, id: Text)
    requires WellFormed(s) && !op.LoginOp? && id in s.users
    ensures id in Step(c, s, op).users && LockoutEffect(s.users[id], Step(c, s, op).users[id], VerdictOf(c, s, op), op)
  {
    hide WellFormed, AdminToken, IsActiveAdmin, ActiveAdmins, RevokeAll, NameTaken, EmailTaken;
  }

  lemma VerdictUserExists(c: Crypto, s: State, op: Op, id: Text)
    requires WellFormed(s)
    ensures VerdictOf(c, s, op) == WrongPassword(id) || VerdictOf(c, s, op) == Success(id) ==> id in s.users
  {
    if op.LoginOp? {
      JudgedUserExists(c, s, op.name, op.password, op.now);
    }
  }

  lemma NewUserLockout(c: Crypto, s: State, op: Op, id: Text)
    requires WellFormed(s) && id !in s.users
    ensures id in Step(c, s, op).users ==> Step(c, s, op).users[id].failed == 0
  {
    if op.LoginOp? {
      JudgedUserExists(c, s, op.name, op.password, op.now);
    }
    hide WellFormed, AdminToken, IsActiveAdmin, ActiveAdmins, RevokeAll, NameTaken, EmailTaken, Judge;
  }

  lemma StepLockout(c: Crypto, s: State, op: Op, id: Text)
    requires WellFormed(s) && id in s.users
    ensures id in Step(c, s, op).users && LockoutEffect(s.users[id], Step(c, s, op).users[id], VerdictOf(c, s, op), op)
    ensures s.users[id].id == id
  {
    hide Step, VerdictOf, LockoutEffect;
    UserIds(s, id);
    if op.LoginOp? {
      LoginLockout(c, s, op, id);
    } else {
      OtherLockout(c, s, op, id);
    }
  }

  /** Recorded failures since the last success, counted from the history of a run. */
  ghost function FailuresSince(c: Crypto, s: State, ops: seq<Op>, id: Text): nat
  {
    if ops == [] then (if id in s.users then s.users[id].failed else 0)
    else
      var n := |ops| - 1;
      var v := VerdictOf(c, Run(c, s, ops[..n]), ops[n]);
      if v == WrongPassword(id) then FailuresSince(c, s, ops[..n], id) + 1
      else if v == Success(id) then 0
      else FailuresSince(c, s, ops[..n], id)
  }

  lemma {:induction false} FailedCountsFailures(c: Crypto, s: State, ops: seq<Op>, id: Text)
    requires Inv(s)
    ensures var s' := Run(c, s, ops);
            FailuresSince(c, s, ops, id) == if id in s'.users then s'.users[id].failed else 0
  {
    hide Inv, Step, VerdictOf, WellFormed;
    if ops != [] {
      var n := |ops| - 1;
      FailedCountsFailures(c, s, ops[..n], id);
      RunInv(c, s, ops[..n]);
      var before := Run(c, s, ops[..n]);
      InvWellFormed(before);
      VerdictUserExists(c, before, ops[n], id);
      if id in before.users {
        StepLockout(c, before, ops[n], id);
      } else {
        NewUserLockout(c, before, ops[n], id);
      }
    }
  }

  lemma InvWellFormed(s: State)
    requires Inv(s)
    ensures WellFormed(s)
  {
  }

  /** With any clock, an operation other than the user's own successful login never lowers the
      lockout time. */
  lemma LockoutNeverFalls(c: Crypto, s: State, op: Op, id: Text)
    requires WellFormed(s) && id in s.users && VerdictOf(c, s, op) != Success(id)
    ensures id in Step(c, s, op).users && Step(c, s, op).users[id].lockoutUntil >= s.users[id].lockoutUntil
  {
    hide Step, VerdictOf, WellFormed;
    StepLockout(c, s, op, id);
  }

  /** Operation `k` of the run is a login of `id` that succeeds. */
  ghost predicate SucceedsAt(c: Crypto, s: State, ops: seq<Op>, k: nat, id: Text)
  {
    k < |ops| && ops[k].LoginOp? && VerdictOf(c, Run(c, s, ops[..k]), ops[k]) == Success(id)
  }

  lemma SuccessIsLogin(c: Crypto, s: State, op: Op, id: Text)
    ensures VerdictOf(c, s, op) == Success(id) ==> op.LoginOp?
  {
  }

  /** With any clock, from any point of a run to any later one without a success of the user in
      between, the lockout time does not fall, whatever admins do. */
  lemma {:induction false} LockoutNeverFallsOverRun(c: Crypto, s: State, ops: seq<Op>, i: nat, k: nat, id: Text)
    requires Inv(s) && i <= k <= |ops| && id in Run(c, s, ops[..i]).users
    requires forall m :: i <= m < k ==> !SucceedsAt(c, s, ops, m, id)
    ensures var s' := Run(c, s, ops[..k]);
            id in s'.users && s'.users[id].lockoutUntil >= Run(c, s, ops[..i]).users[id].lockoutUntil
    decreases k
  {
    hide Inv, Step, VerdictOf, WellFormed;
    if i < k {
      var n := k - 1;
      LockoutNeverFallsOverRun(c, s, ops, i, n, id);
      var before := Run(c, s, ops[..n]);
      assert ops[..k][..n] == ops[..n];
      RunInv(c, s, ops[..n]);
      InvWellFormed(before);
      SuccessIsLogin(c, before, ops[n], id);
      assert !SucceedsAt(c, s, ops, n, id);
      LockoutNeverFalls(c, before, ops[n], id);
    }
  }

  /** Operation `i` of the run is a wrong password for `id` that brings its count to five or more. */
  ghost predicate LocksOut(c: Crypto, s: State, ops: seq<Op>, i: nat, id: Text)
  {
    && i < |ops| && ops[i].LoginOp?
    && VerdictOf(c, Run(c, s, ops[..i]), ops[i]) == WrongPassword(id)
    && FailuresSince(c, s, ops[..i], id) + 1 >= MAX_FAILS
  }

  /** The failure itself sets the lockout. */
  lemma LockoutSet(c: Crypto, s: State, ops: seq<Op>, i: nat, id: Text)
    requires Inv(s) && LocksOut(c, s, ops, i, id)
    ensures var s' := Run(c, s, ops[..i + 1]);
            id in s'.users && s'.users[id].lockoutUntil == ops[i].now + LOCKOUT_MS
  {
    hide Inv, Step, VerdictOf, WellFormed;
    var before := Run(c, s, ops[..i]);
    assert ops[..i + 1][..i] == ops[..i];
    RunInv(c, s, ops[..i]);
    InvWellFormed(before);
    FailedCountsFailures(c, s, ops[..i], id);
    VerdictUserExists(c, before, ops[i], id);
    StepLockout(c, before, ops[i], id);
  }

  /** With any clock, until the user's next success the lockout set at `i` stands. */
  lemma LockoutStands(c: Crypto, s: State, ops: seq<Op>, i: nat, k: nat, id: Text)
    requires Inv(s) && LocksOut(c, s, ops, i, id) && i < k <= |ops|
    requires forall m :: i < m < k ==> !SucceedsAt(c, s, ops, m, id)
    ensures var s' := Run(c, s, ops[..k]);
            id in s'.users && s'.users[id].lockoutUntil >= ops[i].now + LOCKOUT_MS
  {
    hide Inv, Run, LocksOut, SucceedsAt;
    LockoutSet(c, s, ops, i, id);
    LockoutNeverFallsOverRun(c, s, ops, i + 1, k, id);
  }

  /** With any clock, the first success after a fifth or later failure comes no sooner than
      fifteen minutes after it. */
  lemma FirstSuccessInTime(c: Crypto, s: State, ops: seq<Op>, i: nat, j: nat, id: Text)
    requires Inv(s) && LocksOut(c, s, ops, i, id) && i < j && SucceedsAt(c, s, ops, j, id)
    requires forall m :: i < m < j ==> !SucceedsAt(c, s, ops, m, id)
    ensures ops[j].now >= ops[i].now + LOCKOUT_MS
  {
    hide Inv, Step, VerdictOf, WellFormed;
    var before := Run(c, s, ops[..j]);
    LockoutStands(c, s, ops, i, j, id);
    RunInv(c, s, ops[..j]);
    InvWellFormed(before);
    StepLockout(c, before, ops[j], id);
  }

  /** So a success within the fifteen minutes always follows an earlier one that came after them:
      the clock has been set back across the end of the lockout between two of the user's own
      logins. */
  lemma {:induction false} EarlySuccessFollowsOne(c: Crypto, s: State, ops: seq<Op>, i: nat, j: nat, id: Text) returns (m: nat)
    requires Inv(s) && LocksOut(c, s, ops, i, id) && i < j && SucceedsAt(c, s, ops, j, id)
    requires ops[j].now < ops[i].now + LOCKOUT_MS
    ensures i < m < j && SucceedsAt(c, s, ops, m, id) && ops[m].now >= ops[i].now + LOCKOUT_MS
    decreases j
  {
    assert ops[i].LoginOp?;
    hide Inv, LocksOut;
    if forall m :: i < m < j ==> !SucceedsAt(c, s, ops, m, id) {
      FirstSuccessInTime(c, s, ops, i, j, id);
    }
    m :| i < m < j && SucceedsAt(c, s, ops, m, id);
    assert ops[m].LoginOp?;
    hide SucceedsAt;
    if ops[m].now < ops[i].now + LOCKOUT_MS {
      m := EarlySuccessFollowsOne(c, s, ops, i, m, id);
    }
  }

  /** Every success after the failure at `i` is at least fifteen minutes later by the clock. */
  ghost predicate LockoutHolds(c: Crypto, s: State, ops: seq<Op>, i: nat, id: Text)
    requires i < |ops| && ops[i].LoginOp?
  {
    forall j :: i < j && SucceedsAt(c, s, ops, j, id) ==> ops[j].now >= ops[i].now + LOCKOUT_MS
  }

  /** Between one success of the user and the next, the clock is not set back from past the end of
      the lockout to before it. */
  ghost predicate NotSetBack(c: Crypto, s: State, ops: seq<Op>, i: nat, id: Text)
    requires i < |ops| && ops[i].LoginOp?
  {
    forall m, j :: i < m < j && SucceedsAt(c, s, ops, m, id) && SucceedsAt(c, s, ops, j, id)
                   && (forall k :: m < k < j ==> !SucceedsAt(c, s, ops, k, id)) && ops[m].now >= ops[i].now + LOCKOUT_MS
                   ==> ops[j].now >= ops[i].now + LOCKOUT_MS
  }

  /** The last success before `j`, if there is one after `i`. */
  lemma {:induction false} LastSuccess(c: Crypto, s: State, ops: seq<Op>, i: nat, j: nat, id: Text) returns (m: nat)
    requires i < j && exists k :: i < k < j && SucceedsAt(c, s, ops, k, id)
    ensures i < m < j && SucceedsAt(c, s, ops, m, id) && forall k :: m < k < j ==> !SucceedsAt(c, s, ops, k, id)
    decreases j
  {
    hide SucceedsAt;
    m := j - 1;
    if !SucceedsAt(c, s, ops, m, id) {
      m := LastSuccess(c, s, ops, i, m, id);
    }
  }

  lemma {:induction false} InTimeUpTo(c: Crypto, s: State, ops: seq<Op>, i: nat, j: nat, id: Text)
    requires Inv(s) && LocksOut(c, s, ops, i, id) && NotSetBack(c, s, ops, i, id) && i < j && SucceedsAt(c, s, ops, j, id)
    ensures ops[j].now >= ops[i].now + LOCKOUT_MS
    decreases j
  {
    if exists k :: i < k < j && SucceedsAt(c, s, ops, k, id) {
      var m := LastSuccess(c, s, ops, i, j, id);
      InTimeUpTo(c, s, ops, i, m, id);
    } else {
      FirstSuccessInTime(c, s, ops, i, j, id);
    }
  }

  /** The exact condition, over all runs and all clocks: after a fifth or later failure every
      success keeps the fifteen minutes if and only if the clock is not set back across the end
      of the lockout from one success of that user to the next. Other users' clocks and the
      user's failures play no part. */
  lemma LockoutHoldsIff(c: Crypto, s: State, ops: seq<Op>, i: nat, id: Text)
    requires Inv(s) && LocksOut(c, s, ops, i, id)
    ensures LockoutHolds(c, s, ops, i, id) <==> NotSetBack(c, s, ops, i, id)
  {
    if NotSetBack(c, s, ops, i, id) {
      forall j | i < j && SucceedsAt(c, s, ops, j, id) ensures ops[j].now >= ops[i].now + LOCKOUT_MS {
        InTimeUpTo(c, s, ops, i, j, id);
      }
    }
  }

  /** The clock never goes back from one login to a later one. */
  ghost predicate ClockMonotone(ops: seq<Op>)
  {
    forall i, j :: 0 <= i < j < |ops| && ops[i].LoginOp? && ops[j].LoginOp? ==> ops[i].now <= ops[j].now
  }

  /** In particular: with a clock that never goes back, no login of the user succeeds within
      fifteen minutes of a fifth or later failure. */
  lemma NoLoginDuringLockout(c: Crypto, s: State, ops: seq<Op>, i: nat, id: Text)
    requires Inv(s) && ClockMonotone(ops) && LocksOut(c, s, ops, i, id)
    ensures LockoutHolds(c, s, ops, i, id)
  {
    hide Inv, VerdictOf, Run, LocksOut;
    LockoutHoldsIff(c, s, ops, i, id);
  }

  /** Without any assumption on the clock the promise fails for every active account with four
      failures behind it: a fifth failure, a login once the lockout has passed, and then a clock
      set back anywhere into the fifteen minutes let the user in again. */
  lemma ClockSetBackDefeatsLockout(c: Crypto, s: State, id: Text, wrong: Text, right: Text, at: int, back: int) returns (ops: seq<Op>)
    requires Inv(s) && id in s.users && s.users[id].CanLogin(at) && s.users[id].failed >= 4
    requires c.verify(s.hashes[id], right) && !c.verify(s.hashes[id], wrong)
    requires 0 <= back < at + LOCKOUT_MS
    ensures |ops| == 3 && LocksOut(c, s, ops, 0, id)
    ensures VerdictOf(c, Run(c, s, ops[..2]), ops[2]) == Success(id)
    ensures ops[2].LoginOp? && ops[2].now == back < ops[0].now + LOCKOUT_MS
  {
    var name := s.users[id].username;
    var fail, ok, again := LoginOp(name, wrong, at, []), LoginOp(name, right, at + LOCKOUT_MS, []), LoginOp(name, right, back, []);
    ops := [fail, ok, again];
    RunTwo(c, s, fail, ok);
    assert ops[..2] == [fail, ok];
    hide Step, VerdictOf, Inv, Run, LocksOut;
    LoginByOwner(c, s, id, fail);
    FirstLocksOut(c, s, ops, id);
    TwiceIn(c, Step(c, s, fail), id, ok, again);
  }

  /** After one success the user is let in again at any non-negative time. */
  lemma TwiceIn(c: Crypto, s: State, id: Text, ok: Op, again: Op)
    requires Inv(s) && ok.LoginOp? && again.LoginOp? && id in s.users && id in s.hashes && s.users[id].CanLogin(ok.now)
    requires ok.name == again.name == s.users[id].username && again.now >= 0
    requires c.verify(s.hashes[id], ok.password) && c.verify(s.hashes[id], again.password)
    ensures VerdictOf(c, Step(c, s, ok), again) == Success(id)
  {
    hide Step, VerdictOf, Inv;
    LoginByOwner(c, s, id, ok);
    LoginByOwner(c, Step(c, s, ok), id, again);
  }

  lemma FirstLocksOut(c: Crypto, s: State, ops: seq<Op>, id: Text)
    requires ops != [] && ops[0].LoginOp? && VerdictOf(c, s, ops[0]) == WrongPassword(id)
    requires id in s.users && s.users[id].failed >= 4
    ensures LocksOut(c, s, ops, 0, id)
  {
    hide Step, VerdictOf;
    assert ops[..0] == [];
  }

  lemma RunTwo(c: Crypto, s: State, a: Op, b: Op)
    ensures Run(c, s, []) == s && Run(c, s, [a, b]) == Step(c, Step(c, s, a), b)
  {
    hide Step;
    assert [a, b][..1] == [a] && [a][..0] == [];
    assert Run(c, s, [a]) == Step(c, s, a);
  }

  /** A login under the user's own name, when the lockout has passed. */
  lemma LoginByOwner(c: Crypto, s: State, id: Text, op: Op)
    requires Inv(s) && id in s.users && op.LoginOp? && op.name == s.users[id].username && s.users[id].CanLogin(op.now)
    ensures VerdictOf(c, s, op) == if c.verify(s.hashes[id], op.password) then Success(id) else WrongPassword(id)
    ensures var s' := Step(c, s, op);
            && Inv(s') && s'.hashes == s.hashes
            && s'.users == s.users[id := if c.verify(s.hashes[id], op.password) then s.users[id].(failed := 0, lockoutUntil := 0) else Failed(s.users[id], op.now)]
  {
    UserIds(s, id);
    ByUsernameUnique(s, id);
    StepInv(c, s, op);
    hide Inv, LiveSessionsActive, ByUsername;
  }
}
