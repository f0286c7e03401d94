/** When uploads and downloads succeed, what each refusal means, and where every record comes from,
    in plain terms and over whole runs (src/application/transfer_service.cpp). */
module TransferLaws {
  import opened Bytes
  import opened Storage
  import opened Protocol
  import opened Transfers
  import A = Accounts
  import L = AccountLaws

  // ---------------------------------------------------------------------------------------
  // Uploads
  // ---------------------------------------------------------------------------------------

  /** A user of that name exists. */
  ghost predicate Named(w: World, name: Text, id: Text)
  {
    id in w.accounts.users && w.accounts.users[id].username == name
  }

  /** The write to disk goes through: the name is allowed and nothing fails up to the rename. */
  predicate WriteWorks(d: Draw, blob: Text)
  {
    var f := d.faults.fault;
    && !BadId(d.blobId + Ascii(".bin"))
    && (f.NoFault? || (f.WriteFails? && blob == []))
  }

  /** No record has the ids drawn, and the file id is not empty. */
  predicate IdsFree(w: World, d: Draw)
  {
    d.fileId != [] && d.fileId !in w.files && forall f :: f in w.files ==> w.files[f].storageId != d.blobId + Ascii(".bin")
  }

  lemma FindsNamed(w: World, name: Text, id: Text)
    requires A.Inv(w.accounts) && Named(w, name, id)
    ensures A.ByUsername(w.accounts.users, name) == Some(w.accounts.users[id]) && w.accounts.users[id].id == id
  {
    A.ByUsernameUnique(w.accounts, id);
    A.UserIds(w.accounts, id);
  }

  lemma WriteWorksMeans(c: map<Name, Text>, d: Draw, blob: Text)
    ensures WriteWorks(d, blob) <==> Staged(c, StorageIdOf(d), blob, d.faults).1.Stored?
  {
    hide BadId, TempName;
  }

  /** An upload succeeds if and only if the session is live, the recipient exists and has a key, the
      validator accepts name, size and header, the upload id is neither empty nor used, the write
      works and the ids drawn are free. */
  lemma UploadedIff(p: Ports, w: World, q: Request, d: Draw)
    requires A.Inv(w.accounts)
    ensures Upload(p, w, q, d).1.Uploaded? <==>
              && (exists sender :: L.LiveFor(p.crypto, w.accounts, q.token, d.now, sender))
              && (exists id :: Named(w, q.recipient, id) && id in w.keys)
              && p.validate(q.origName, q.size, HeaderFor(q.origName, q.blob))
              && q.uploadId != [] && (forall f :: f in w.files ==> w.files[f].uploadId != q.uploadId)
              && WriteWorks(d, q.blob) && IdsFree(w, d)
  {
    L.ValidIsLive(p.crypto, w.accounts, q.token, d.now);
    ClearedIff(p, w, q, d.now);
    if Refusal(p, w, q, d.now).None? {
      RefusalNone(p, w, q, d.now);
      var r := RecordOf(SenderOf(p, w, q.token), A.ByUsername(w.accounts.users, q.recipient).value.id, q, d);
      WriteWorksMeans(w.blobs, d, q.blob);
      StoredIff(w, r, q.blob, d);
      SavableIff(w, r, d);
      hide Refusal, L.LiveFor, WriteWorks, IdsFree, CanSave, A.Inv, HeaderFor, Staged, Store;
    } else {
      RefusalNotUploaded(p, w, q, d.now);
      hide Refusal, L.LiveFor, WriteWorks, IdsFree, A.Inv, HeaderFor, Store;
    }
  }

  lemma StoredIff(w: World, r: FileRecord, body: Text, d: Draw)
    ensures Store(w, r, body, d).1.Uploaded? <==> Staged(w.blobs, r.storageId, body, d.faults).1.Stored? && CanSave(w.files, r)
  {
    hide Staged, CanSave, Unstaged;
  }

  lemma SavableIff(w: World, r: FileRecord, d: Draw)
    requires r.id == d.fileId && r.storageId == StorageIdOf(d) && r.uploadId != [] && !UploadIdTaken(w.files, r.uploadId)
    ensures CanSave(w.files, r) <==> IdsFree(w, d)
  {
    BinId(d);
    hide EndsWith;
  }

  /** Nothing refuses the upload before storage is touched. */
  lemma ClearedIff(p: Ports, w: World, q: Request, now: int)
    requires A.Inv(w.accounts)
    ensures Refusal(p, w, q, now).None? <==>
              && A.TokenValid(p.crypto, w.accounts, q.token, now)
              && (exists id :: Named(w, q.recipient, id) && id in w.keys)
              && p.validate(q.origName, q.size, HeaderFor(q.origName, q.blob))
              && q.uploadId != [] && forall f :: f in w.files ==> w.files[f].uploadId != q.uploadId
  {
    hide HeaderFor, A.TokenValid;
    if id :| Named(w, q.recipient, id) {
      FindsNamed(w, q.recipient, id);
      OneNamed(w, q.recipient, id);
      assert A.ByUsername(w.accounts.users, q.recipient).value.id == id;
    }
    hide A.Inv;
  }

  lemma OneNamed(w: World, name: Text, id: Text)
    requires A.Inv(w.accounts) && Named(w, name, id)
    ensures forall other :: Named(w, name, other) ==> other == id
  {
  }

  /** What each refusal means; none of them changes anything. The first check that fails decides. */
  lemma UploadRefusals(p: Ports, w: World, q: Request, d: Draw)
    requires A.Inv(w.accounts)
    ensures var (w', r) := Upload(p, w, q, d);
            var live := exists sender :: L.LiveFor(p.crypto, w.accounts, q.token, d.now, sender);
            var known := exists id :: Named(w, q.recipient, id);
            var keyed := exists id :: Named(w, q.recipient, id) && id in w.keys;
            var valid := p.validate(q.origName, q.size, HeaderFor(q.origName, q.blob));
            var used := exists f :: f in w.files && w.files[f].uploadId == q.uploadId;
            && (!live ==> r == Thrown(AuthError) && w' == w)
            && (live && !known ==> r == Thrown(NotFound) && w' == w)
            && (live && known && (!keyed || !valid || q.uploadId == []) ==> r == Thrown(ValidationError) && w' == w)
            && (live && keyed && valid && q.uploadId != [] && used ==> r == Duplicate && w' == w)
  {
    hide HeaderFor, A.TokenValid, L.LiveFor, Store, A.Inv, A.ByUsername, Named;
    L.ValidIsLive(p.crypto, w.accounts, q.token, d.now);
    Known(w, q.recipient);
  }

  /** The lookup by name, in plain terms. */
  lemma Known(w: World, name: Text)
    requires A.Inv(w.accounts)
    ensures var r := A.ByUsername(w.accounts.users, name);
            && (r.Some? <==> exists id :: Named(w, name, id))
            && (r.Some? ==> (r.value.id in w.keys <==> exists id :: Named(w, name, id) && id in w.keys))
  {
    if A.ByUsername(w.accounts.users, name).Some? {
      RecipientNamed(w, name);
    }
    if id :| Named(w, name, id) {
      FindsNamed(w, name, id);
      OneNamed(w, name, id);
    }
  }

  /** The record of a successful upload, field by field, and the bytes behind it. */
  lemma UploadedRecord(p: Ports, w: World, q: Request, d: Draw)
    requires A.Inv(w.accounts) && Upload(p, w, q, d).1.Uploaded?
    ensures var (w', res) := Upload(p, w, q, d);
            && w'.files.Keys == w.files.Keys + {d.fileId} && w'.accounts == w.accounts && w'.keys == w.keys
            && (forall f :: f in w.files ==> f != d.fileId && w'.files[f] == w.files[f])
            && var r := w'.files[d.fileId];
            && r.id == d.fileId && r.origName == q.origName && r.size == q.size && r.digest == q.digest
            && r.wrapped == q.wrapped && r.uploadId == q.uploadId && r.createdAt == d.now
            && r.storageId == d.blobId + Ascii(".bin") && r.storageId in w'.blobs && w'.blobs[r.storageId] == q.blob
            && L.LiveFor(p.crypto, w.accounts, q.token, d.now, r.owner) && Named(w, q.recipient, r.recipient)
            && res.transfer == Transfer(d.transferId, d.fileId, r.owner, r.recipient)
  {
    UploadEffect(p, w, q, d);
    UploadFiles(p, w, q, d);
    RecipientNamed(w, q.recipient);
    hide Upload, A.Inv, A.ByUsername;
  }

  lemma RecipientNamed(w: World, name: Text)
    requires A.Inv(w.accounts) && A.ByUsername(w.accounts.users, name).Some?
    ensures Named(w, name, A.ByUsername(w.accounts.users, name).value.id)
  {
  }

  lemma UploadFiles(p: Ports, w: World, q: Request, d: Draw)
    ensures var (w', res) := Upload(p, w, q, d);
            && w'.accounts == w.accounts && w'.keys == w.keys
            && (res.Uploaded? ==> d.fileId !in w.files && d.fileId in w'.files && w'.files == w.files[d.fileId := w'.files[d.fileId]])
            && (!res.Uploaded? ==> w'.files == w.files)
  {
    hide Store, Refusal;
    if Refusal(p, w, q, d.now).None? {
      RefusalNone(p, w, q, d.now);
      StoreShape(w, RecordOf(SenderOf(p, w, q.token), A.ByUsername(w.accounts.users, q.recipient).value.id, q, d), q.blob, d);
    } else {
      RefusalNotUploaded(p, w, q, d.now);
    }
  }

  // ---------------------------------------------------------------------------------------
  // Records over runs
  // ---------------------------------------------------------------------------------------

  lemma RecordStays(p: Ports, w: World, op: Op, f: Text)
    requires f in w.files
    ensures f in Step(p, w, op).files && Step(p, w, op).files[f] == w.files[f]
  {
    hide Upload;
    if op.Send? {
      UploadFiles(p, w, op.request, op.draw);
    }
  }

  /** Once filed, a record never changes, whatever ids are drawn later. */
  lemma {:induction false} RecordStaysOverRun(p: Ports, w: World, ops: seq<Op>, i: nat, f: Text)
    requires i <= |ops| && f in Run(p, w, ops[..i]).files
    ensures f in Run(p, w, ops).files && Run(p, w, ops).files[f] == Run(p, w, ops[..i]).files[f]
    decreases |ops|
  {
    hide Step;
    if i == |ops| {
      assert ops[..i] == ops;
    } else {
      var n := |ops| - 1;
      assert ops[..n][..i] == ops[..i];
      RecordStaysOverRun(p, w, ops[..n], i, f);
      RecordStays(p, Run(p, w, ops[..n]), ops[n], f);
    }
  }

  lemma {:induction false} AccountsInv(p: Ports, w: World, ops: seq<Op>)
    requires A.Inv(w.accounts)
    ensures A.Inv(Run(p, w, ops).accounts)
  {
    hide A.Inv, A.Step, Upload;
    if ops != [] {
      var n := |ops| - 1;
      AccountsInv(p, w, ops[..n]);
      var before, op := Run(p, w, ops[..n]), ops[n];
      match op
      case Account(a) => A.StepInv(p.crypto, before.accounts, a);
      case Send(q, d) => UploadFiles(p, before, q, d);
      case _ =>
    }
  }

  /** Every record of a reachable world was made by one upload of the run: its name and size were
      accepted by the validator, together with the header of the bytes sent; its sender had a live
      session; its recipient bore the name given and had a key; and its fields are the request's. */
  lemma RecordOrigin(p: Ports, w: World, ops: seq<Op>, f: Text) returns (i: nat)
    requires A.Inv(w.accounts) && w.files == map[] && f in Run(p, w, ops).files
    ensures i < |ops| && ops[i].Send?
    ensures var r, q, d, at := Run(p, w, ops).files[f], ops[i].request, ops[i].draw, Run(p, w, ops[..i]);
            && r.id == f == d.fileId && r.origName == q.origName && r.size == q.size && r.digest == q.digest
            && r.wrapped == q.wrapped && r.uploadId == q.uploadId != [] && r.createdAt == d.now
            && p.validate(r.origName, r.size, HeaderFor(q.origName, q.blob))
            && L.LiveFor(p.crypto, at.accounts, q.token, d.now, r.owner)
            && Named(at, q.recipient, r.recipient) && r.recipient in at.keys
  {
    i := Origin(p, w, ops, f);
    var q, d, at := ops[i].request, ops[i].draw, Run(p, w, ops[..i]);
    AccountsInv(p, w, ops[..i]);
    UploadEffect(p, at, q, d);
    UploadedIff(p, at, q, d);
    UploadedRecord(p, at, q, d);
    RunNext(p, w, ops, i);
    RecordStaysOverRun(p, w, ops, i + 1, f);
    hide Run, Upload, A.Inv, HeaderFor, L.LiveFor, WriteWorks, IdsFree;
    KeyedRecipient(at, q.recipient, Run(p, w, ops).files[f].recipient);
  }

  lemma KeyedRecipient(w: World, name: Text, id: Text)
    requires A.Inv(w.accounts) && Named(w, name, id) && exists other :: Named(w, name, other) && other in w.keys
    ensures id in w.keys
  {
    OneNamed(w, name, id);
  }

  // ---------------------------------------------------------------------------------------
  // Downloads
  // ---------------------------------------------------------------------------------------

  /** A download returns bytes if and only if the session is live for the owner or the recipient of
      an existing record whose blob is there, and then it returns that blob; without a live
      session it fails as a login. */
  lemma DownloadIff(p: Ports, w: World, token: Text, file: Text, now: int)
    ensures var r := Download(p, w, token, file, now);
            && (r.LoginFailed? <==> forall id :: !L.LiveFor(p.crypto, w.accounts, token, now, id))
            && (r.Bytes? <==>
                  && file in w.files && w.files[file].storageId != [] && w.files[file].storageId in w.blobs
                  && exists id :: L.LiveFor(p.crypto, w.accounts, token, now, id) && (id == w.files[file].owner || id == w.files[file].recipient))
            && (r.Bytes? ==> r.data == w.blobs[w.files[file].storageId])
  {
    L.ValidIsLive(p.crypto, w.accounts, token, now);
    if A.TokenValid(p.crypto, w.accounts, token, now) {
      assert L.LiveFor(p.crypto, w.accounts, token, now, SenderOf(p, w, token));
    }
  }
}
