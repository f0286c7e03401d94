/** AuthService and AdminService over the repositories, each method refining one operation of
    the account state machine (src/application/auth_service.cpp, src/application/admin_service.cpp). */
module Services {
  import opened Bytes
  import opened Accounts
  import opened Repositories

  ghost function StateOf(repo: UserRepository, sessions: SessionStore): State
    reads repo, sessions
  {
    State(repo.usersById, repo.hashById, sessions.byHash)
  }

  class AuthService {
    const repo: UserRepository
    const sessions: SessionStore
    const crypto: Crypto

    ghost predicate Valid()
      reads this, repo, sessions
    {
      repo.Valid() && sessions.hash == crypto.hash
    }

    ghost function View(): State
      reads this, repo, sessions
    {
      StateOf(repo, sessions)
    }

    constructor (repo: UserRepository, sessions: SessionStore, crypto: Crypto)
      requires repo.Valid() && sessions.hash == crypto.hash
      ensures Valid() && this.repo == repo && this.sessions == sessions && this.crypto == crypto
    {
      this.repo, this.sessions, this.crypto := repo, sessions, crypto;
    }

    method RegisterUser(name: Text, email: Text, password: Text, role: string, encoded: Text, newId: Text) returns (r: Option<Text>)
      requires Valid()
      modifies repo
      ensures Valid()
      ensures (View(), r) == old(Register(View(), name, email, password, role, encoded, newId))
    {
      if name == [] || email == [] || |password| < 8 {
        return None;
      }
      var byName := repo.FindByUsername(name);
      var byEmail := repo.FindByEmail(email);
      if byName.Some? || byEmail.Some? {
        return None;
      }
      if newId == [] {
        return None;
      }
      var ok := repo.Save(User(newId, name, email, role, "active", 0, 0), encoded);
      r := if ok then Some(newId) else None;
    }

    method LoginUser(name: Text, password: Text, now: int, token: Text) returns (r: Option<Text>)
      requires Valid()
      modifies repo, sessions
      ensures Valid()
      ensures (View(), r) == old(Login(crypto, View(), name, password, now, token))
    {
      hide ByUsername, UserRepository.Valid;
      var found := repo.FindByUsername(name);
      if found.None? {
        return None;
      }
      var user := found.value;
      if !user.CanLogin(now) {
        return None;
      }
      var enc := repo.GetEncodedHash(user.id);
      if enc.None? {
        return None;
      }
      if !crypto.verify(enc.value, password) {
        var _ := repo.RecordLoginFailure(user.id, now);
        return None;
      }
      var _ := repo.ResetLoginFailures(user.id);
      sessions.CreateForUser(user.id, now, token);
      r := Some(token);
    }

    method Logout(token: Text) returns (ok: bool)
      requires Valid()
      modifies sessions
      ensures Valid() && (ok <==> crypto.hash(token) in old(sessions.byHash))
      ensures View() == old(Step(crypto, View(), LogoutOp(token)))
    {
      ok := sessions.Invalidate(token);
    }
  }

  class AdminService {
    const repo: UserRepository
    const sessions: SessionStore
    const crypto: Crypto

    ghost predicate Valid()
      reads this, repo, sessions
    {
      repo.Valid() && sessions.hash == crypto.hash
    }

    ghost function View(): State
      reads this, repo, sessions
    {
      StateOf(repo, sessions)
    }

    constructor (repo: UserRepository, sessions: SessionStore, crypto: Crypto)
      requires repo.Valid() && sessions.hash == crypto.hash
      ensures Valid() && this.repo == repo && this.sessions == sessions && this.crypto == crypto
    {
      this.repo, this.sessions, this.crypto := repo, sessions, crypto;
    }

    method IsAdmin(id: Text) returns (ok: bool)
      ensures ok <==> IsActiveAdmin(View(), id)
    {
      var u := repo.FindById(id);
      ok := u.Some? && u.value.IsAdmin() && u.value.IsActive();
    }

    method IsAdminSession(token: Text, now: int) returns (ok: bool)
      requires Valid()
      ensures ok <==> AdminToken(crypto, View(), token, now)
    {
      var valid := sessions.IsValid(token, now);
      if !valid {
        return false;
      }
      var sess := sessions.FindByToken(token);
      var user := repo.FindById(sess.value.userId);
      if user.None? || !user.value.IsActive() {
        return false;
      }
      ok := IsAdmin(sess.value.userId);
    }

    /** The counting loop over `listAll` gives the number of active admins. */
    method CountActiveAdmins() returns (n: nat)
      ensures n == |ActiveAdmins(repo.usersById)|
    {
      ghost var ids;
      var all;
      all, ids := repo.ListAll();
      n := CountIn(all, ids, repo.usersById);
    }

    method SetStatus(target: Text, status: string) returns (ok: bool)
      requires Valid()
      modifies repo`usersById
      ensures Valid() && (ok <==> target in old(repo.usersById))
      ensures repo.usersById == if ok then old(repo.usersById)[target := old(repo.usersById)[target].(status := status)] else old(repo.usersById)
    {
      var u := repo.FindById(target);
      if u.None? {
        return false;
      }
      ok := repo.Update(u.value.(status := status));
    }

    method Activate(token: Text, target: Text, now: int) returns (ok: bool)
      requires Valid()
      modifies repo
      ensures Valid() && View() == old(Step(crypto, View(), ActivateOp(token, target, now)))
      ensures ok <==> old(AdminToken(crypto, View(), token, now)) && target in old(repo.usersById)
    {
      hide AdminToken;
      var cleared := IsAdminSession(token, now);
      if !cleared {
        return false;
      }
      ok := SetStatus(target, "active");
    }

    method DeactivateCleared(target: Text) returns (ok: bool)
      requires Valid()
      modifies repo, sessions`byHash
      ensures Valid() && (View(), ok) == old(SetInactive(View(), target))
    {
      hide ActiveAdmins;
      var u := repo.FindById(target);
      if u.None? {
        return false;
      }
      if u.value.IsAdmin() && u.value.IsActive() {
        var n := CountActiveAdmins();
        if n <= 1 {
          return false;
        }
      }
      ok := SetStatus(target, "inactive");
      var _ := sessions.InvalidateAllForUser(target);
    }

    method Deactivate(token: Text, target: Text, now: int) returns (ok: bool)
      requires Valid()
      modifies repo, sessions`byHash
      ensures Valid() && View() == old(Step(crypto, View(), DeactivateOp(token, target, now)))
      ensures ok <==> old(AdminToken(crypto, View(), token, now)) && old(SetInactive(View(), target).1)
    {
      hide SetInactive;
      var cleared := IsAdminSession(token, now);
      if !cleared {
        return false;
      }
      ok := DeactivateCleared(target);
    }

    /** The overloads that take the admin's id instead of a session. */
    method LegacyActivate(admin: Text, target: Text) returns (ok: bool)
      requires Valid()
      modifies repo
      ensures Valid() && View() == old(Step(crypto, View(), LegacyActivateOp(admin, target)))
      ensures ok <==> old(IsActiveAdmin(View(), admin)) && target in old(repo.usersById)
    {
      hide IsActiveAdmin;
      var cleared := IsAdmin(admin);
      if !cleared {
        return false;
      }
      ok := SetStatus(target, "active");
    }

    method LegacyDeactivate(admin: Text, target: Text) returns (ok: bool)
      requires Valid()
      modifies repo, sessions`byHash
      ensures Valid() && View() == old(Step(crypto, View(), LegacyDeactivateOp(admin, target)))
      ensures ok <==> old(IsActiveAdmin(View(), admin)) && old(SetInactive(View(), target).1)
    {
      hide SetInactive;
      var cleared := IsAdmin(admin);
      if !cleared {
        return false;
      }
      ok := DeactivateCleared(target);
    }
  }

  /** Counts the active admins of a listing that holds every user once. */
  method CountIn(all: seq<User>, ghost ids: seq<Text>, ghost users: map<Text, User>) returns (n: nat)
    requires |all| == |ids| && Enumerates(ids, users.Keys)
    requires forall i :: 0 <= i < |ids| ==> ids[i] in users && all[i] == users[ids[i]]
    ensures n == |ActiveAdmins(users)|
  {
    ghost var admins := ActiveAdmins(users);
    assert forall i :: 0 <= i < |ids| ==> (ids[i] in admins <==> all[i].IsAdmin() && all[i].IsActive());
    assert forall id :: id in admins ==> id in ids;
    hide ActiveAdmins;
    n := 0;
    for i := 0 to |all|
      invariant n == |admins * Elements(ids[..i])|
    {
      OneMore(ids, i, admins);
      if all[i].IsAdmin() && all[i].IsActive() {
        n := n + 1;
      }
    }
    assert ids[..|all|] == ids;
    assert admins * Elements(ids) == admins;
  }

  function Elements(ids: seq<Text>): set<Text>
  {
    set id | id in ids
  }

  lemma OneMore(ids: seq<Text>, i: nat, s: set<Text>)
    requires i < |ids| && ids[i] !in ids[..i]
    ensures |s * Elements(ids[..i + 1])| == |s * Elements(ids[..i])| + (if ids[i] in s then 1 else 0)
  {
    var x, a, b := ids[i], s * Elements(ids[..i]), s * Elements(ids[..i + 1]);
    assert ids[..i + 1] == ids[..i] + [x];
    assert b == if x in s then a + {x} else a;
  }
}
