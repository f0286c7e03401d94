/** The in-memory file repository and TransferService, refining the uploads and downloads of
    Transfers.dfy (src/infrastructure/memory_file_repo.cpp, src/application/transfer_service.cpp). */
module TransferServices {
  import opened Bytes
  import opened Storage
  import opened Protocol
  import opened Repositories
  import opened Transfers
  import A = Accounts
  import S = Services

  class FileRepository {
    var byId: map<Text, FileRecord>
    var uploadIdToId: map<Text, Text>
    var storageIdToId: map<Name, Text>

    /** Index agreement: both indexes list exactly the records of the main map. */
    ghost predicate Valid()
      reads this
    {
      && (forall f :: f in byId ==>
            && byId[f].id == f
            && byId[f].uploadId in uploadIdToId && uploadIdToId[byId[f].uploadId] == f
            && byId[f].storageId in storageIdToId && storageIdToId[byId[f].storageId] == f)
      && (forall u :: u in uploadIdToId ==> uploadIdToId[u] in byId && byId[uploadIdToId[u]].uploadId == u)
      && (forall n :: n in storageIdToId ==> storageIdToId[n] in byId && byId[storageIdToId[n]].storageId == n)
    }

    constructor ()
      ensures Valid() && byId == map[]
    {
      byId, uploadIdToId, storageIdToId := map[], map[], map[];
    }

    /** A refused save changes nothing. */
    method Save(r: FileRecord) returns (ok: bool)
      requires Valid()
      modifies this
      ensures Valid()
      ensures ok <==> old(CanSave(byId, r))
      ensures if ok then byId == old(byId)[r.id := r] else unchanged(this)
    {
      if r.id == [] || r.uploadId == [] || r.storageId == [] {
        return false;
      }
      if r.id in byId || r.uploadId in uploadIdToId || r.storageId in storageIdToId {
        return false;
      }
      byId := byId[r.id := r];
      uploadIdToId := uploadIdToId[r.uploadId := r.id];
      storageIdToId := storageIdToId[r.storageId := r.id];
      ok := true;
    }

    method FindById(id: Text) returns (r: Option<FileRecord>)
      ensures r == if id in byId then Some(byId[id]) else None
    {
      r := if id in byId then Some(byId[id]) else None;
    }

    /** The indexed lookup answers as a search through all records would. */
    method ExistsUploadId(uploadId: Text) returns (b: bool)
      requires Valid()
      ensures b <==> UploadIdTaken(byId, uploadId)
    {
      b := uploadId in uploadIdToId;
    }

    /** Exactly the owner's records, each once, in the map's own order. */
    method FindByOwner(owner: Text) returns (out: seq<FileRecord>, ghost ids: seq<Text>)
      ensures |out| == |ids| && Enumerates(ids, set f | f in byId && byId[f].owner == owner)
      ensures forall i :: 0 <= i < |ids| ==> ids[i] in byId && out[i] == byId[ids[i]]
    {
      out, ids := [], [];
      var left := byId.Keys;
      ghost var done: set<Text> := {};
      while left != {}
        invariant left <= byId.Keys && |out| == |ids| && Enumerates(ids, done)
        invariant done == set f | f in byId && f !in left && byId[f].owner == owner
        invariant forall i :: 0 <= i < |ids| ==> ids[i] in byId && out[i] == byId[ids[i]]
        decreases left
      {
        var f :| f in left;
        left := left - {f};
        if byId[f].owner == owner {
          out, ids, done := out + [byId[f]], ids + [f], done + {f};
        }
      }
      assert done == set f | f in byId && byId[f].owner == owner;
    }
  }

  class TransferService {
    const storage: BinaryStorage
    const files: FileRepository
    const users: UserRepository
    const sessions: SessionStore
    const ports: Ports
    var keys: set<Text>

    ghost predicate Valid()
      reads this, files, users, sessions
    {
      files.Valid() && users.Valid() && sessions.hash == ports.crypto.hash
    }

    ghost function View(): World
      reads this, storage, files, users, sessions
    {
      World(S.StateOf(users, sessions), keys, files.byId, Contents(storage.fs))
    }

    constructor (storage: BinaryStorage, files: FileRepository, users: UserRepository, sessions: SessionStore, ports: Ports)
      requires files.Valid() && users.Valid() && sessions.hash == ports.crypto.hash
      ensures Valid() && keys == {}
      ensures this.storage == storage && this.files == files && this.users == users && this.sessions == sessions && this.ports == ports
    {
      this.storage, this.files, this.users, this.sessions, this.ports := storage, files, users, sessions, ports;
      keys := {};
    }

    /** The checks of `upload` before storage is touched, in the source's order. */
    method CheckUpload(q: Request, now: int) returns (r: Option<UploadResult>, sender: Text, recipient: Text)
      requires Valid()
      ensures r == Refusal(ports, View(), q, now)
      ensures r.None? ==>
                && A.TokenValid(ports.crypto, View().accounts, q.token, now) && sender == SenderOf(ports, View(), q.token)
                && A.ByUsername(users.usersById, q.recipient).Some? && recipient == A.ByUsername(users.usersById, q.recipient).value.id
    {
      hide HeaderFor, Contents, A.ByUsername;
      sender, recipient := [], [];
      var valid := sessions.IsValid(q.token, now);
      if !valid {
        return Some(Thrown(AuthError)), sender, recipient;
      }
      var sess := sessions.FindByToken(q.token);
      sender := sess.value.userId;
      var rec := users.FindByUsername(q.recipient);
      if rec.None? {
        return Some(Thrown(NotFound)), sender, recipient;
      }
      recipient := rec.value.id;
      if recipient !in keys {
        return Some(Thrown(ValidationError)), sender, recipient;
      }
      if !ports.validate(q.origName, q.size, HeaderFor(q.origName, q.blob)) {
        return Some(Thrown(ValidationError)), sender, recipient;
      }
      if q.uploadId == [] {
        return Some(Thrown(ValidationError)), sender, recipient;
      }
      var taken := files.ExistsUploadId(q.uploadId);
      if taken {
        return Some(Duplicate), sender, recipient;
      }
      r := None;
    }

    /** Stage the blob, save the record, roll the blob back if the save is refused. */
    method StoreRecord(rec: FileRecord, body: Text, d: Draw) returns (r: UploadResult)
      requires Valid()
      modifies storage, files
      ensures Valid() && (View(), r) == old(Store(View(), rec, body, d))
    {
      hide Staged, Contents, CanSave, Unstaged;
      var outcome := storage.StagedWrite(rec.storageId, body, d.faults);
      if outcome.Invalid? {
        return Thrown(ValidationError);
      }
      if outcome.StorageError? {
        return Thrown(StorageFailed);
      }
      var saved := files.Save(rec);
      if !saved {
        storage.RemoveStaged(rec.storageId, d.removeTemp, d.removeFinal);
        return Thrown(ValidationError);
      }
      r := Uploaded(Transfer(d.transferId, rec.id, rec.owner, rec.recipient));
    }

    method UploadFile(q: Request, d: Draw) returns (r: UploadResult)
      requires Valid()
      modifies storage, files
      ensures Valid() && (View(), r) == old(Upload(ports, View(), q, d))
    {
      hide Refusal, Store, A.ByUsername;
      var refused, sender, recipient := CheckUpload(q, d.now);
      if refused.Some? {
        return refused.value;
      }
      r := StoreRecord(RecordOf(sender, recipient, q, d), q.blob, d);
    }

    method DownloadFile(token: Text, file: Text, now: int) returns (r: DownloadResult)
      requires Valid()
      ensures r == Download(ports, View(), token, file, now)
    {
      hide Contents;
      var valid := sessions.IsValid(token, now);
      if !valid {
        return LoginFailed;
      }
      var sess := sessions.FindByToken(token);
      var requestor := sess.value.userId;
      var found := files.FindById(file);
      if found.None? {
        return Refused;
      }
      var rec := found.value;
      if rec.owner != requestor && rec.recipient != requestor {
        return Refused;
      }
      var blob := storage.Read(rec.storageId);
      r := if blob.Some? then Bytes(blob.value) else Refused;
    }
  }
}
