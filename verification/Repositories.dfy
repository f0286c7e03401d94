/** The in-memory user repository and session store, with the index maps they keep
    (src/infrastructure/memory_user_repo.cpp, src/infrastructure/memory_session_store.cpp). */
module Repositories {
  import opened Bytes
  import opened Accounts

  class UserRepository {
    var usersById: map<Text, User>
    var usernameToId: map<Text, Text>
    var emailToId: map<Text, Text>
    var hashById: map<Text, Text>

    /** Index agreement: each index lists exactly the users of the main map. */
    ghost predicate Valid()
      reads this
    {
      && hashById.Keys == usersById.Keys
      && (forall id :: id in usersById ==>
            && usersById[id].id == id
            && usersById[id].username in usernameToId && usernameToId[usersById[id].username] == id
            && usersById[id].email in emailToId && emailToId[usersById[id].email] == id)
      && (forall n :: n in usernameToId ==> usernameToId[n] in usersById && usersById[usernameToId[n]].username == n)
      && (forall e :: e in emailToId ==> emailToId[e] in usersById && usersById[emailToId[e]].email == e)
    }

    constructor ()
      ensures Valid() && usersById == map[] && hashById == map[]
    {
      usersById, usernameToId, emailToId, hashById := map[], map[], map[], map[];
    }

    method FindByUsername(n: Text) returns (r: Option<User>)
      requires Valid()
      ensures r == ByUsername(usersById, n)
    {
      if n !in usernameToId {
        return None;
      }
      var id := usernameToId[n];
      if id !in usersById {
        return None;
      }
      r := Some(usersById[id]);
    }

    method FindByEmail(e: Text) returns (r: Option<User>)
      requires Valid()
      ensures r.Some? <==> EmailTaken(usersById, e)
      ensures r.Some? ==> r.value.email == e && r.value.id in usersById && usersById[r.value.id] == r.value
    {
      if e !in emailToId {
        return None;
      }
      var id := emailToId[e];
      if id !in usersById {
        return None;
      }
      r := Some(usersById[id]);
    }

    method FindById(id: Text) returns (r: Option<User>)
      ensures r == if id in usersById then Some(usersById[id]) else None
    {
      r := if id in usersById then Some(usersById[id]) else None;
    }

    /** A refused save changes nothing; an accepted one keeps all four maps in step. */
    method Save(u: User, encoded: Text) returns (ok: bool)
      requires Valid()
      modifies this
      ensures Valid()
      ensures ok <==> !old(NameTaken(usersById, u.username)) && !old(EmailTaken(usersById, u.email)) && u.id !in old(usersById)
      ensures ok ==> usersById == old(usersById)[u.id := u] && hashById == old(hashById)[u.id := encoded]
      ensures !ok ==> unchanged(this)
    {
      if u.username in usernameToId || u.email in emailToId || u.id in usersById {
        return false;
      }
      usersById := usersById[u.id := u];
      usernameToId := usernameToId[u.username := u.id];
      emailToId := emailToId[u.email := u.id];
      hashById := hashById[u.id := encoded];
      ok := true;
    }

    /** Replaces a user in place; the indexes need no change as long as its keys do not. */
    method Replace(u: User)
      requires Valid() && u.id in usersById
      requires u.username == usersById[u.id].username && u.email == usersById[u.id].email
      modifies this`usersById
      ensures Valid() && usersById == old(usersById)[u.id := u]
    {
      usersById := usersById[u.id := u];
    }

    method Update(u: User) returns (ok: bool)
      requires Valid()
      modifies this`usersById
      ensures Valid()
      ensures ok <==> u.id in old(usersById) && old(usersById)[u.id].username == u.username && old(usersById)[u.id].email == u.email
      ensures usersById == if ok then old(usersById)[u.id := u] else old(usersById)
    {
      if u.id !in usersById {
        return false;
      }
      if usersById[u.id].username != u.username || usersById[u.id].email != u.email {
        return false;
      }
      Replace(u);
      ok := true;
    }

    method UpdateHash(id: Text, h: Text) returns (ok: bool)
      requires Valid()
      modifies this`hashById
      ensures Valid() && (ok <==> id in usersById)
      ensures hashById == if ok then old(hashById)[id := h] else old(hashById)
    {
      if id !in usersById {
        return false;
      }
      hashById := hashById[id := h];
      ok := true;
    }

    method RecordLoginFailure(id: Text, now: int) returns (ok: bool)
      requires Valid()
      modifies this`usersById
      ensures Valid() && (ok <==> id in old(usersById))
      ensures usersById == if ok then old(usersById)[id := Failed(old(usersById)[id], now)] else old(usersById)
    {
      if id !in usersById {
        return false;
      }
      var fails := usersById[id].failed + 1;
      var lockout := if fails >= 5 then now + 15 * 60 * 1000 else usersById[id].lockoutUntil;
      Replace(usersById[id].(lockoutUntil := lockout, failed := fails));
      ok := true;
    }

    method ResetLoginFailures(id: Text) returns (ok: bool)
      requires Valid()
      modifies this`usersById
      ensures Valid() && (ok <==> id in old(usersById))
      ensures usersById == if ok then old(usersById)[id := old(usersById)[id].(failed := 0, lockoutUntil := 0)] else old(usersById)
    {
      if id !in usersById {
        return false;
      }
      Replace(usersById[id].(lockoutUntil := 0, failed := 0));
      ok := true;
    }

    method GetEncodedHash(id: Text) returns (r: Option<Text>)
      ensures r == if id in hashById then Some(hashById[id]) else None
    {
      r := if id in hashById then Some(hashById[id]) else None;
    }

    /** Every user exactly once, in the map's own order, which is unspecified. */
    method ListAll() returns (all: seq<User>, ghost ids: seq<Text>)
      ensures |all| == |ids| && Enumerates(ids, usersById.Keys)
      ensures forall i :: 0 <= i < |ids| ==> ids[i] in usersById && all[i] == usersById[ids[i]]
    {
      all, ids := [], [];
      var left := usersById.Keys;
      while left != {}
        invariant left <= usersById.Keys && |all| == |ids| && Enumerates(ids, usersById.Keys - left)
        invariant forall i :: 0 <= i < |ids| ==> ids[i] in usersById && all[i] == usersById[ids[i]]
        decreases left
      {
        var id :| id in left;
        assert usersById.Keys - (left - {id}) == usersById.Keys - left + {id};
        all, ids, left := all + [usersById[id]], ids + [id], left - {id};
      }
      assert usersById.Keys - left == usersById.Keys;
    }
  }

  /** `ids` lists the elements of `keys`, each once. */
  ghost predicate Enumerates(ids: seq<Text>, keys: set<Text>)
  {
    && (forall i, j :: 0 <= i < j < |ids| ==> ids[i] != ids[j])
    && (forall id :: id in ids <==> id in keys)
  }

  /** Sessions filed under the hash of their token. `userByHash` is written and never read. */
  class SessionStore {
    const hash: Text -> Text
    var byHash: map<Text, Session>
    var userByHash: map<Text, Text>

    constructor (hash: Text -> Text)
      ensures this.hash == hash && byHash == map[]
    {
      this.hash, byHash, userByHash := hash, map[], map[];
    }

    /** `token` is the freshly drawn `sess_` token. */
    method CreateForUser(userId: Text, now: int, token: Text)
      modifies this
      ensures byHash == old(byHash)[hash(token) := Session(token, userId, now, now + SESSION_MS, false)]
    {
      var h := hash(token);
      byHash := byHash[h := Session(token, userId, now, now + 3600 * 1000, false)];
      userByHash := userByHash[h := userId];
    }

    method FindByToken(token: Text) returns (r: Option<Session>)
      ensures r == if hash(token) in byHash then Some(byHash[hash(token)]) else None
    {
      r := if hash(token) in byHash then Some(byHash[hash(token)]) else None;
    }

    method IsValid(token: Text, now: int) returns (ok: bool)
      ensures ok <==> hash(token) in byHash && byHash[hash(token)].IsValid(now)
    {
      var r := FindByToken(token);
      ok := r.Some? && r.value.IsValid(now);
    }

    method Invalidate(token: Text) returns (ok: bool)
      modifies this`byHash
      ensures ok <==> hash(token) in old(byHash)
      ensures byHash == Revoke(old(byHash), hash(token))
    {
      var h := hash(token);
      if h !in byHash {
        return false;
      }
      byHash := byHash[h := byHash[h].(revoked := true)];
      ok := true;
    }

    /** The loop over all sessions; returns how many it revoked. */
    method InvalidateAllForUser(userId: Text) returns (n: nat)
      modifies this`byHash
      ensures byHash == RevokeAll(old(byHash), userId)
      ensures n == |set h | h in old(byHash) && old(byHash)[h].userId == userId && !old(byHash)[h].revoked|
    {
      n := 0;
      var left := byHash.Keys;
      ghost var revoked: set<Text> := {};
      while left != {}
        invariant left <= byHash.Keys == old(byHash).Keys
        invariant forall h :: h in byHash ==> byHash[h] == if h in left then old(byHash)[h] else RevokeAll(old(byHash), userId)[h]
        invariant revoked == set h | h in old(byHash) && h !in left && old(byHash)[h].userId == userId && !old(byHash)[h].revoked
        invariant n == |revoked|
        decreases left
      {
        var h :| h in left;
        left := left - {h};
        if byHash[h].userId == userId && !byHash[h].revoked {
          byHash := byHash[h := byHash[h].(revoked := true)];
          n := n + 1;
          revoked := revoked + {h};
        }
      }
      assert byHash == RevokeAll(old(byHash), userId);
      assert revoked == set h | h in old(byHash) && old(byHash)[h].userId == userId && !old(byHash)[h].revoked;
    }
  }
}
