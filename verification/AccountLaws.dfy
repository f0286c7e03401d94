/** What accounts promise in plain terms, over single operations and over whole runs of
    Accounts.dfy: who is let in, who is locked out and until when, who may change whose status,
    and what registration gives (src/application/auth_service.cpp,
    src/application/admin_service.cpp, src/infrastructure/memory_user_repo.cpp). */
module AccountLaws {
  import opened Bytes
  import opened Accounts

  // ---------------------------------------------------------------------------------------
  // Plain terms
  // ---------------------------------------------------------------------------------------

  /** The token is filed as a session of `id` that is unrevoked and within its time. */
  predicate LiveFor(c: Crypto, s: State, token: Text, now: int, id: Text)
  {
    var h := c.hash(token);
    && h in s.sessions && s.sessions[h].userId == id && !s.sessions[h].revoked
    && s.sessions[h].createdAt <= now && now < s.sessions[h].expiresAt
  }

  predicate Admin(s: State, id: Text)
  {
    id in s.users && s.users[id].role == "admin" && s.users[id].status == "active"
  }

  /** The operation is one of the four admin operations on `target`, asked for by an active admin:
      through a live session, or by name in the legacy overloads. */
  ghost predicate ByAdmin(c: Crypto, s: State, op: Op, target: Text)
  {
    match op
    case ActivateOp(t, x, now) => x == target && exists id :: LiveFor(c, s, t, now, id) && Admin(s, id)
    case DeactivateOp(t, x, now) => x == target && exists id :: LiveFor(c, s, t, now, id) && Admin(s, id)
    case LegacyActivateOp(a, x) => x == target && Admin(s, a)
    case LegacyDeactivateOp(a, x) => x == target && Admin(s, a)
    case _ => false
  }

  predicate Activates(op: Op) { op.ActivateOp? || op.LegacyActivateOp? }
  predicate Deactivates(op: Op) { op.DeactivateOp? || op.LegacyDeactivateOp? }

  /** A token is valid exactly when it is live for somebody. */
  lemma ValidIsLive(c: Crypto, s: State, token: Text, now: int)
    ensures TokenValid(c, s, token, now) <==> exists id :: LiveFor(c, s, token, now, id)
  {
    if TokenValid(c, s, token, now) {
      assert LiveFor(c, s, token, now, s.sessions[c.hash(token)].userId);
    }
  }

  /** `isAdminSession` in plain terms. */
  lemma AdminTokenMeans(c: Crypto, s: State, token: Text, now: int)
    ensures AdminToken(c, s, token, now) <==> exists id :: LiveFor(c, s, token, now, id) && Admin(s, id)
  {
    if AdminToken(c, s, token, now) {
      var id := s.sessions[c.hash(token)].userId;
      assert LiveFor(c, s, token, now, id) && Admin(s, id);
    }
  }

  // ---------------------------------------------------------------------------------------
  // Only admins change status, and revoke other people's sessions
  // ---------------------------------------------------------------------------------------

  /** Who is cleared for an admin operation. */
  lemma Cleared(c: Crypto, s: State, op: Op)
    ensures op.ActivateOp? || op.DeactivateOp? ==> (AdminToken(c, s, op.token, op.now) <==> ByAdmin(c, s, op, op.target))
    ensures op.LegacyActivateOp? || op.LegacyDeactivateOp? ==> (IsActiveAdmin(s, op.admin) <==> ByAdmin(c, s, op, op.target))
  {
    if op.ActivateOp? || op.DeactivateOp? {
      AdminTokenMeans(c, s, op.token, op.now);
    }
    hide AdminToken, LiveFor;
  }

  /** If an operation changes a user's status, an admin asked for it, and the status is the one
      asked for. */
  lemma StatusNeedsAdmin(c: Crypto, s: State, op: Op, id: Text)
    requires id in s.users && id in Step(c, s, op).users && Step(c, s, op).users[id].status != s.users[id].status
    ensures ByAdmin(c, s, op, id)
    ensures Step(c, s, op).users[id].status == if Activates(op) then "active" else "inactive"
  {
    Cleared(c, s, op);
    hide AdminToken, IsActiveAdmin, ByAdmin, ActiveAdmins, Judge, NameTaken, EmailTaken, RevokeAll;
  }

  /** If an operation revokes a live session, it is the logout of that very session, or an admin's
      deactivation of its user. No operation makes a session disappear. */
  lemma RevocationNeedsAdmin(c: Crypto, s: State, op: Op, h: Text)
    requires h in s.sessions
    ensures h in Step(c, s, op).sessions
    ensures !s.sessions[h].revoked && Step(c, s, op).sessions[h].revoked ==>
              || (op.LogoutOp? && c.hash(op.token) == h)
              || (Deactivates(op) && ByAdmin(c, s, op, s.sessions[h].userId))
  {
    Cleared(c, s, op);
    if op.RegisterOp? {
      RegisterSessions(s, op.name, op.email, op.password, op.role, op.encoded, op.newId);
    }
    hide AdminToken, IsActiveAdmin, ByAdmin, ActiveAdmins, Judge, Register;
  }

  lemma UsersStay(c: Crypto, s: State, op: Op, id: Text)
    requires id in s.users
    ensures id in Step(c, s, op).users
  {
    hide AdminToken, IsActiveAdmin, ActiveAdmins, Judge, NameTaken, EmailTaken, RevokeAll;
  }

  /** Over whole runs: a user whose status is not what it was has had it changed by an admin. */
  lemma {:induction false} StatusNeedsAdminOverRun(c: Crypto, s: State, ops: seq<Op>, id: Text) returns (k: nat)
    requires id in s.users && id in Run(c, s, ops).users && Run(c, s, ops).users[id].status != s.users[id].status
    ensures k < |ops| && ByAdmin(c, Run(c, s, ops[..k]), ops[k], id)
    decreases |ops|
  {
    hide Step, ByAdmin;
    var n := |ops| - 1;
    var before := Run(c, s, ops[..n]);
    UsersStayOverRun(c, s, ops[..n], id);
    if before.users[id].status != s.users[id].status {
      k := StatusNeedsAdminOverRun(c, s, ops[..n], id);
      assert ops[..n][..k] == ops[..k];
    } else {
      k := n;
      StatusNeedsAdmin(c, before, ops[n], id);
    }
  }

  lemma {:induction false} UsersStayOverRun(c: Crypto, s: State, ops: seq<Op>, id: Text)
    requires id in s.users
    ensures id in Run(c, s, ops).users
  {
    hide Step;
    if ops != [] {
      UsersStayOverRun(c, s, ops[..|ops| - 1], id);
      UsersStay(c, Run(c, s, ops[..|ops| - 1]), ops[|ops| - 1], id);
    }
  }

  /** And a session revoked in the course of a run was logged out by its token, or its user was
      deactivated by an admin. */
  lemma {:induction false} RevocationNeedsAdminOverRun(c: Crypto, s: State, ops: seq<Op>, h: Text) returns (k: nat)
    requires h in s.sessions && !s.sessions[h].revoked
    requires h in Run(c, s, ops).sessions && Run(c, s, ops).sessions[h].revoked
    ensures k < |ops| && h in Run(c, s, ops[..k]).sessions
    ensures var before := Run(c, s, ops[..k]);
            || (ops[k].LogoutOp? && c.hash(ops[k].token) == h)
            || (Deactivates(ops[k]) && ByAdmin(c, before, ops[k], before.sessions[h].userId))
    decreases |ops|
  {
    hide Step, ByAdmin;
    var n := |ops| - 1;
    var before := Run(c, s, ops[..n]);
    SessionsStayOverRun(c, s, ops[..n], h);
    if before.sessions[h].revoked {
      k := RevocationNeedsAdminOverRun(c, s, ops[..n], h);
      assert ops[..n][..k] == ops[..k];
    } else {
      k := n;
      RevocationNeedsAdmin(c, before, ops[n], h);
    }
  }

  lemma {:induction false} SessionsStayOverRun(c: Crypto, s: State, ops: seq<Op>, h: Text)
    requires h in s.sessions
    ensures h in Run(c, s, ops).sessions
  {
    hide Step;
    if ops != [] {
      SessionsStayOverRun(c, s, ops[..|ops| - 1], h);
      RevocationNeedsAdmin(c, Run(c, s, ops[..|ops| - 1]), ops[|ops| - 1], h);
    }
  }

  // ---------------------------------------------------------------------------------------
  // What an admin gets
  // ---------------------------------------------------------------------------------------

  /** The only user with the role "admin" and the status "active". */
  ghost predicate LastAdmin(s: State, id: Text)
  {
    Admin(s, id) && forall a :: Admin(s, a) ==> a == id
  }

  lemma LastAdminCounts(s: State, id: Text)
    ensures LastAdmin(s, id) <==> IsActiveAdmin(s, id) && |ActiveAdmins(s.users)| <= 1
  {
    var admins := ActiveAdmins(s.users);
    assert forall a :: Admin(s, a) <==> a in admins;
    if LastAdmin(s, id) {
      assert admins == {id};
    } else if Admin(s, id) {
      var other :| Admin(s, other) && other != id;
      assert {id, other} <= admins;
      Subset({id, other}, admins);
    }
  }

  lemma Subset(a: set<Text>, b: set<Text>)
    requires a <= b
    ensures |a| <= |b|
  {
    assert b == a + (b - a);
  }

  /** An admin who activates an existing user changes that user's status to "active" and nothing
      else at all. */
  lemma ActivationEffect(c: Crypto, s: State, op: Op)
    requires Activates(op) && ByAdmin(c, s, op, op.target) && op.target in s.users
    ensures var s' := Step(c, s, op);
            && s'.users.Keys == s.users.Keys && s'.hashes == s.hashes && s'.sessions == s.sessions
            && s'.users[op.target] == s.users[op.target].(status := "active")
            && forall id :: id in s.users && id != op.target ==> s'.users[id] == s.users[id]
  {
    Cleared(c, s, op);
    hide AdminToken, IsActiveAdmin, ByAdmin;
  }

  /** An admin who deactivates an existing user, other than the last admin, changes that user's
      status to "inactive" and revokes all of that user's sessions, and nothing else. */
  lemma DeactivationEffect(c: Crypto, s: State, op: Op)
    requires Deactivates(op) && ByAdmin(c, s, op, op.target) && op.target in s.users && !LastAdmin(s, op.target)
    ensures var s' := Step(c, s, op);
            && s'.users.Keys == s.users.Keys && s'.hashes == s.hashes && s'.sessions.Keys == s.sessions.Keys
            && s'.users[op.target] == s.users[op.target].(status := "inactive")
            && (forall id :: id in s.users && id != op.target ==> s'.users[id] == s.users[id])
            && (forall h :: h in s.sessions && s.sessions[h].userId == op.target ==> s'.sessions[h] == s.sessions[h].(revoked := true))
            && (forall h :: h in s.sessions && s.sessions[h].userId != op.target ==> s'.sessions[h] == s.sessions[h])
  {
    Cleared(c, s, op);
    LastAdminCounts(s, op.target);
    hide AdminToken, IsActiveAdmin, ByAdmin, ActiveAdmins, LastAdmin;
  }

  /** In every other case an admin operation changes nothing: nobody cleared, no such user, or the
      last admin. */
  lemma RefusedAdminOperation(c: Crypto, s: State, op: Op)
    requires Activates(op) || Deactivates(op)
    requires !ByAdmin(c, s, op, op.target) || op.target !in s.users || (Deactivates(op) && LastAdmin(s, op.target))
    ensures Step(c, s, op) == s
  {
    Cleared(c, s, op);
    LastAdminCounts(s, op.target);
    hide AdminToken, IsActiveAdmin, ByAdmin, ActiveAdmins, LastAdmin;
  }

  // ---------------------------------------------------------------------------------------
  // Registration
  // ---------------------------------------------------------------------------------------

  /** When a registration succeeds, and all that it then adds. */
  lemma RegistrationIff(s: State, name: Text, email: Text, password: Text, role: string, encoded: Text, newId: Text)
    ensures var (s', r) := Register(s, name, email, password, role, encoded, newId);
            && (r.Some? <==>
                  && name != [] && email != [] && |password| >= 8 && newId != [] && newId !in s.users
                  && forall id :: id in s.users ==> s.users[id].username != name && s.users[id].email != email)
            && (r.None? ==> s' == s)
            && (r.Some? ==>
                  && r.value == newId && s'.sessions == s.sessions
                  && s'.users.Keys == s.users.Keys + {newId} && s'.hashes.Keys == s.hashes.Keys + {newId}
                  && (forall id :: id in s.users ==> s'.users[id] == s.users[id])
                  && (forall id :: id in s.hashes && id != newId ==> s'.hashes[id] == s.hashes[id])
                  && s'.hashes[newId] == encoded
                  && var u := s'.users[newId];
                  && u.id == newId && u.username == name && u.email == email && u.role == role
                  && u.status == "active" && u.failed == 0 && u.lockoutUntil == 0)
  {
  }

  /** Names, emails and roles never change, and every user who appears in the course of a run was
      registered with them. */
  lemma {:induction false} RoleOrigin(c: Crypto, s: State, ops: seq<Op>, id: Text) returns (k: nat)
    requires WellFormed(s) && id in Run(c, s, ops).users
    ensures var u := Run(c, s, ops).users[id];
            if id in s.users then u.role == s.users[id].role && u.username == s.users[id].username && u.email == s.users[id].email
            else k < |ops| && ops[k].RegisterOp? && ops[k].newId == id && ops[k].role == u.role && ops[k].name == u.username && ops[k].email == u.email
    decreases |ops|
  {
    hide Step;
    k := 0;
    if ops != [] {
      var n := |ops| - 1;
      var before := Run(c, s, ops[..n]);
      StepKeepsRole(c, before, ops[n], id);
      if id in before.users {
        k := RoleOrigin(c, s, ops[..n], id);
      } else {
        if id in s.users {
          UsersStayOverRun(c, s, ops[..n], id);
        }
        k := n;
      }
    }
  }

  lemma StepKeepsRole(c: Crypto, s: State, op: Op, id: Text)
    requires id in Step(c, s, op).users
    ensures var u := Step(c, s, op).users[id];
            if id in s.users then u.role == s.users[id].role && u.username == s.users[id].username && u.email == s.users[id].email
            else op.RegisterOp? && op.newId == id && op.role == u.role && op.name == u.username && op.email == u.email
  {
    hide AdminToken, IsActiveAdmin, ActiveAdmins, Judge, NameTaken, EmailTaken, RevokeAll;
  }

  // ---------------------------------------------------------------------------------------
  // Logging in
  // ---------------------------------------------------------------------------------------

  /** `id` is the user of that name, active, not locked out, and the password is right. */
  predicate MayLogIn(c: Crypto, s: State, id: Text, name: Text, password: Text, now: int)
  {
    && id in s.users && s.users[id].username == name && s.users[id].status == "active" && now >= s.users[id].lockoutUntil
    && id in s.hashes && c.verify(s.hashes[id], password)
  }

  /** A login succeeds for exactly that user, and then opens one session of one hour. */
  lemma LoginIff(c: Crypto, s: State, name: Text, password: Text, now: int, token: Text)
    requires WellFormed(s)
    ensures var (s', r) := Login(c, s, name, password, now, token);
            && (r.Some? <==> exists id :: MayLogIn(c, s, id, name, password, now))
            && (r.None? ==> s'.sessions == s.sessions)
            && (forall id :: r.Some? && MayLogIn(c, s, id, name, password, now) ==>
                  && r.value == token
                  && s'.sessions == s.sessions[c.hash(token) := Session(token, id, now, now + 3600000, false)])
  {
    if id :| MayLogIn(c, s, id, name, password, now) {
      ByUsernameUnique(s, id);
    }
    JudgedUserExists(c, s, name, password, now);
    var v := Judge(c, s, name, password, now);
    if v.Success? {
      assert MayLogIn(c, s, v.id, name, password, now);
    }
  }

  // ---------------------------------------------------------------------------------------
  // No lockout without five failures
  // ---------------------------------------------------------------------------------------

  /** Operation `i` is a wrong password for `id`, and at least the fifth since its last success. */
  ghost predicate FifthFailure(c: Crypto, s: State, ops: seq<Op>, i: nat, id: Text)
  {
    && i < |ops| && ops[i].LoginOp?
    && VerdictOf(c, Run(c, s, ops[..i]), ops[i]) == WrongPassword(id)
    && FailuresSince(c, s, ops[..i], id) + 1 >= 5
  }

  /** The lockout time `until` was set at `i`, and no success has come since. */
  ghost predicate SetAt(c: Crypto, s: State, ops: seq<Op>, i: nat, k: nat, id: Text, until: int)
  {
    && i < k && FifthFailure(c, s, ops, i, id) && until == ops[i].now + 900000
    && forall m :: i < m < k ==> !SucceedsAt(c, s, ops, m, id)
  }

  /** What one operation does to the lockout time, in plain terms. */
  lemma LockoutStep(c: Crypto, s: State, op: Op, id: Text)
    requires WellFormed(s) && id in s.users
    ensures var u, u', v := s.users[id], Step(c, s, op).users[id], VerdictOf(c, s, op);
            && id in Step(c, s, op).users
            && (v == WrongPassword(id) ==> op.LoginOp? && u'.lockoutUntil == if u.failed + 1 >= 5 then op.now + 900000 else u.lockoutUntil)
            && (v == Success(id) ==> op.LoginOp? && u'.lockoutUntil == 0)
            && (v != WrongPassword(id) && v != Success(id) ==> u'.lockoutUntil == u.lockoutUntil)
  {
    hide Step, VerdictOf, WellFormed;
    StepLockout(c, s, op, id);
  }

  lemma NewUserFree(c: Crypto, s: State, op: Op, id: Text)
    requires id !in s.users && id in Step(c, s, op).users
    ensures Step(c, s, op).users[id].lockoutUntil == 0
  {
    hide AdminToken, IsActiveAdmin, ActiveAdmins, Judge, NameTaken, EmailTaken, RevokeAll;
  }

  /** Over every run, a user's lockout time is zero, or it is fifteen minutes after a failure that
      was the fifth or later since the user's last success, with no success after it. */
  lemma {:induction false} LockoutOrigin(c: Crypto, s: State, ops: seq<Op>, k: nat, id: Text)
    requires Inv(s) && k <= |ops| && (id in s.users ==> s.users[id].lockoutUntil == 0)
    requires id in Run(c, s, ops[..k]).users
    ensures var until := Run(c, s, ops[..k]).users[id].lockoutUntil;
            until == 0 || exists i :: SetAt(c, s, ops, i, k, id, until)
    decreases k
  {
    hide Inv, Step, VerdictOf, WellFormed;
    if k == 0 {
      assert ops[..0] == [];
    } else {
      var n := k - 1;
      var before := Run(c, s, ops[..n]);
      assert ops[..k][..n] == ops[..n];
      RunInv(c, s, ops[..n]);
      InvWellFormed(before);
      if id !in before.users {
        NewUserFree(c, before, ops[n], id);
      } else {
        LockoutOrigin(c, s, ops, n, id);
        LockoutStep(c, before, ops[n], id);
        SuccessIsLogin(c, before, ops[n], id);
        FailedCountsFailures(c, s, ops[..n], id);
        var until := Run(c, s, ops[..k]).users[id].lockoutUntil;
        if VerdictOf(c, before, ops[n]) == WrongPassword(id) && before.users[id].failed + 1 >= 5 {
          assert SetAt(c, s, ops, n, k, id, until);
        } else if VerdictOf(c, before, ops[n]) != Success(id) && until != 0 {
          var i :| SetAt(c, s, ops, i, n, id, until);
          assert SetAt(c, s, ops, i, k, id, until);
        }
      }
    }
  }

  /** With fewer than five failures since the last success there is no lockout at all. */
  lemma {:induction false} FewFailuresNoLockout(c: Crypto, s: State, ops: seq<Op>, id: Text)
    requires Inv(s) && (id in s.users ==> s.users[id].lockoutUntil == 0)
    requires FailuresSince(c, s, ops, id) < 5 && id in Run(c, s, ops).users
    ensures Run(c, s, ops).users[id].lockoutUntil == 0
  {
    hide Inv, Step, VerdictOf, WellFormed;
    if ops != [] {
      var n := |ops| - 1;
      var before := Run(c, s, ops[..n]);
      RunInv(c, s, ops[..n]);
      InvWellFormed(before);
      if id !in before.users {
        NewUserFree(c, before, ops[n], id);
      } else {
        LockoutStep(c, before, ops[n], id);
        FailedCountsFailures(c, s, ops[..n], id);
        if VerdictOf(c, before, ops[n]) != Success(id) {
          FewFailuresNoLockout(c, s, ops[..n], id);
        }
      }
    }
  }

  /** So over every run an active user with fewer than five failures since the last success is let
      in with the right password, at any time. */
  lemma FewFailuresLetIn(c: Crypto, s: State, ops: seq<Op>, id: Text, password: Text, now: int)
    requires Inv(s) && (id in s.users ==> s.users[id].lockoutUntil == 0)
    requires FailuresSince(c, s, ops, id) < 5 && id in Run(c, s, ops).users && now >= 0
    requires var s' := Run(c, s, ops); s'.users[id].status == "active" && id in s'.hashes && c.verify(s'.hashes[id], password)
    ensures var s' := Run(c, s, ops); Judge(c, s', s'.users[id].username, password, now) == Success(id)
  {
    var s' := Run(c, s, ops);
    FewFailuresNoLockout(c, s, ops, id);
    RunInv(c, s, ops);
    hide Run, FailuresSince;
    UserIds(s', id);
    ByUsernameUnique(s', id);
    hide ByUsername, Inv;
  }

  /** A token obtained by a login is valid from then on for one hour, to the millisecond, unless
      it is revoked or drawn again. */
  lemma SessionLasts(c: Crypto, s: State, name: Text, password: Text, now: int, token: Text, t: int)
    requires WellFormed(s) && Login(c, s, name, password, now, token).1.Some?
    ensures TokenValid(c, Login(c, s, name, password, now, token).0, token, t) <==> now <= t < now + 3600000
  {
    hide Judge;
  }
}
