/** Uploads and downloads over values (src/application/transfer_service.cpp), and what every run
    of the whole server state keeps. A class that refines it is in TransferService.dfy. */
module Transfers {
  import opened Bytes
  import opened Storage
  import opened Protocol
  import A = Accounts

  datatype FileRecord = FileRecord(id: Text, owner: Text, recipient: Text, origName: Text, storageId: Name, size: u64,
                                   digest: Text, wrapped: WrappedKey, uploadId: Text, createdAt: int)

  /** `keys` are the users whose public key is known; `blobs` the contents of the storage root. */
  datatype World = World(accounts: A.State, keys: set<Text>, files: map<Text, FileRecord>, blobs: map<Name, Text>)

  /** Code outside the model: token hash, password check and file validator. */
  datatype Ports = Ports(crypto: A.Crypto, validate: (Text, u64, Text) -> bool)

  datatype Request = Request(token: Text, recipient: Text, origName: Text, blob: Text, uploadId: Text, size: u64,
                             digest: Text, wrapped: WrappedKey)

  /** What one upload draws from its surroundings: the time, three generated ids and the
      behaviour of the file system. */
  datatype Draw = Draw(now: int, fileId: Text, blobId: Text, transferId: Text, faults: Faults, removeTemp: bool, removeFinal: bool)

  datatype Transfer = Transfer(id: Text, file: Text, sender: Text, recipient: Text)

  datatype Error = AuthError | NotFound | ValidationError | StorageFailed

  datatype UploadResult = Uploaded(transfer: Transfer) | Duplicate | Thrown(error: Error)

  datatype DownloadResult = Bytes(data: Text) | Refused | LoginFailed

  // ---------------------------------------------------------------------------------------
  // Operations
  // ---------------------------------------------------------------------------------------

  const PDF_HEADER: Text := Ascii("%PDF-1.4")

  /** The header handed to the validator: a synthetic one for ciphertext named `.pdf`. */
  function HeaderFor(origName: Text, body: Text): Text
  {
    var hdr := Prefix(body, 8);
    if EndsWith(origName, Ascii(".pdf")) && !(Ascii("%PDF") <= hdr) then PDF_HEADER else hdr
  }

  /** What the validator is shown: under a `.pdf` name whose blob does not begin with `%PDF`, the
      made-up header `%PDF-1.4`; otherwise the first eight bytes of the blob, or all of a shorter
      one. */
  lemma HeaderMeaning(origName: Text, body: Text)
    ensures var h := HeaderFor(origName, body);
            if EndsWith(origName, Ascii(".pdf")) && !(Ascii("%PDF") <= body) then h == [37, 80, 68, 70, 45, 49, 46, 52]
            else h <= body && (if |body| < 8 then h == body else |h| == 8)
    ensures EndsWith(origName, Ascii(".pdf")) ==> Ascii("%PDF") <= HeaderFor(origName, body)
  {
    assert PDF_HEADER == [37, 80, 68, 70, 45, 49, 46, 52];
    assert PDF_HEADER[..4] == Ascii("%PDF");
    var hdr := Prefix(body, 8);
    assert Ascii("%PDF") <= hdr <==> Ascii("%PDF") <= body by {
      if |body| >= 4 {
        assert hdr[..4] == body[..4];
      }
    }
  }

  predicate UploadIdTaken(files: map<Text, FileRecord>, uploadId: Text)
  {
    exists f :: f in files && files[f].uploadId == uploadId
  }

  predicate StorageIdTaken(files: map<Text, FileRecord>, storageId: Name)
  {
    exists f :: f in files && files[f].storageId == storageId
  }

  /** What `MemoryFileRepository::save` accepts. */
  predicate CanSave(files: map<Text, FileRecord>, r: FileRecord)
  {
    && r.id != [] && r.uploadId != [] && r.storageId != []
    && r.id !in files && !UploadIdTaken(files, r.uploadId) && !StorageIdTaken(files, r.storageId)
  }

  function StorageIdOf(d: Draw): Name
  {
    d.blobId + BIN
  }

  function RecordOf(sender: Text, recipient: Text, q: Request, d: Draw): FileRecord
  {
    FileRecord(d.fileId, sender, recipient, q.origName, StorageIdOf(d), q.size, q.digest, q.wrapped, q.uploadId, d.now)
  }

  /** The checks of `upload` that come before storage is touched. */
  ghost function Refusal(p: Ports, w: World, q: Request, now: int): Option<UploadResult>
  {
    if !A.TokenValid(p.crypto, w.accounts, q.token, now) then Some(Thrown(AuthError))
    else
      match A.ByUsername(w.accounts.users, q.recipient)
      case None => Some(Thrown(NotFound))
      case Some(r) =>
        if r.id !in w.keys then Some(Thrown(ValidationError))
        else if !p.validate(q.origName, q.size, HeaderFor(q.origName, q.blob)) then Some(Thrown(ValidationError))
        else if q.uploadId == [] then Some(Thrown(ValidationError))
        else if UploadIdTaken(w.files, q.uploadId) then Some(Duplicate)
        else None
  }

  function SenderOf(p: Ports, w: World, token: Text): Text
    requires p.crypto.hash(token) in w.accounts.sessions
  {
    w.accounts.sessions[p.crypto.hash(token)].userId
  }

  /** `stagedWrite`, then `save`, with the blob removed again if the save is refused. */
  function Store(w: World, r: FileRecord, body: Text, d: Draw): (World, UploadResult)
  {
    var (blobs, outcome) := Staged(w.blobs, r.storageId, body, d.faults);
    match outcome
    case Invalid => (w.(blobs := blobs), Thrown(ValidationError))
    case StorageError => (w.(blobs := blobs), Thrown(StorageFailed))
    case Stored =>
      if CanSave(w.files, r)
      then (w.(blobs := blobs, files := w.files[r.id := r]), Uploaded(Transfer(d.transferId, r.id, r.owner, r.recipient)))
      else (w.(blobs := Unstaged(blobs, r.storageId, d.removeTemp, d.removeFinal)), Thrown(ValidationError))
  }

  ghost function Upload(p: Ports, w: World, q: Request, d: Draw): (World, UploadResult)
  {
    match Refusal(p, w, q, d.now)
    case Some(res) => (w, res)
    case None =>
      Store(w, RecordOf(SenderOf(p, w, q.token), A.ByUsername(w.accounts.users, q.recipient).value.id, q, d), q.blob, d)
  }

  function Download(p: Ports, w: World, token: Text, file: Text, now: int): DownloadResult
  {
    if !A.TokenValid(p.crypto, w.accounts, token, now) then LoginFailed
    else if file !in w.files then Refused
    else
      var r, user := w.files[file], SenderOf(p, w, token);
      if r.owner != user && r.recipient != user then Refused
      else if r.storageId == [] || r.storageId !in w.blobs then Refused
      else Bytes(w.blobs[r.storageId])
  }

  datatype Op =
    | Account(op: A.Op)
    | PublishKey(user: Text)
    | Send(request: Request, draw: Draw)
    | Fetch(token: Text, file: Text, now: int)

  ghost function Step(p: Ports, w: World, op: Op): World
  {
    match op
    case Account(a) => w.(accounts := A.Step(p.crypto, w.accounts, a))
    case PublishKey(u) => w.(keys := w.keys + {u})
    case Send(q, d) => Upload(p, w, q, d).0
    case Fetch(_, _, _) => w
  }

  ghost function Run(p: Ports, w: World, ops: seq<Op>): World
  {
    if ops == [] then w else Step(p, Run(p, w, ops[..|ops| - 1]), ops[|ops| - 1])
  }

  // ---------------------------------------------------------------------------------------
  // What every run keeps
  // ---------------------------------------------------------------------------------------

  /** Records are filed under their id, no two share an upload id or a storage id, and each
      storage id is a `.bin` name that holds a blob. */
  ghost predicate FilesOk(files: map<Text, FileRecord>, blobs: map<Name, Text>)
  {
    && (forall f :: f in files ==> files[f].id == f && EndsWith(files[f].storageId, BIN) && files[f].storageId in blobs)
    && (forall f, g :: f in files && g in files && files[f].uploadId == files[g].uploadId ==> f == g)
    && (forall f, g :: f in files && g in files && files[f].storageId == files[g].storageId ==> f == g)
  }

  ghost predicate Inv(w: World)
  {
    A.Inv(w.accounts) && FilesOk(w.files, w.blobs)
  }

  /** The assumption on generated ids: an upload does not draw a storage id already recorded. */
  predicate Fresh(w: World, op: Op)
  {
    op.Send? ==> !StorageIdTaken(w.files, StorageIdOf(op.draw))
  }

  ghost predicate AllFresh(p: Ports, w: World, ops: seq<Op>)
  {
    forall i :: 0 <= i < |ops| ==> Fresh(Run(p, w, ops[..i]), ops[i])
  }

  /** Every record of `w` is still there, unchanged, with the same bytes behind it. */
  ghost predicate Keeps(w: World, w': World)
  {
    forall f :: f in w.files ==>
      && f in w'.files && w'.files[f] == w.files[f]
      && w.files[f].storageId in w.blobs && w.files[f].storageId in w'.blobs
      && w'.blobs[w.files[f].storageId] == w.blobs[w.files[f].storageId]
  }

  lemma BinId(d: Draw)
    ensures EndsWith(StorageIdOf(d), BIN) && StorageIdOf(d) != []
  {
    var s := StorageIdOf(d);
    assert s[|s| - 4..] == BIN;
  }

  /** Staging touches no `.bin` name but its own. */
  lemma StagedElsewhere(c: map<Name, Text>, id: Name, data: Text, f: Faults, n: Name)
    requires EndsWith(n, BIN) && n != id
    ensures var c' := Staged(c, id, data, f).0;
            (n in c' <==> n in c) && (n in c ==> c'[n] == c[n])
    ensures TempName(id) != n
  {
    TempNameShape(id);
    BinIsNotPart(n);
    hide TempName, BadId, EndsWith, TempFails, Prefix;
    var temp := TempName(id);
    LeftElsewhere(c, temp, data, f, n);
    LeftElsewhere(c - {id}, temp, data, f, n);
    hide TempLeft, Cleaned;
  }

  lemma LeftElsewhere(c: map<Name, Text>, temp: Name, data: Text, f: Faults, n: Name)
    requires n != temp
    ensures var c' := Cleaned(TempLeft(c, temp, data, f), temp, f);
            (n in c' <==> n in c) && (n in c ==> c'[n] == c[n])
  {
  }

  /** The blobs behind the records are all there, unchanged. */
  ghost predicate SameBlobs(files: map<Text, FileRecord>, blobs: map<Name, Text>, blobs': map<Name, Text>)
  {
    forall f :: f in files ==>
      var n := files[f].storageId; n in blobs && n in blobs' && blobs'[n] == blobs[n]
  }

  lemma StoreSameBlobs(w: World, r: FileRecord, body: Text, d: Draw)
    requires FilesOk(w.files, w.blobs) && !StorageIdTaken(w.files, r.storageId)
    ensures SameBlobs(w.files, w.blobs, Store(w, r, body, d).0.blobs)
  {
    forall f | f in w.files ensures var n := w.files[f].storageId; n in Store(w, r, body, d).0.blobs && Store(w, r, body, d).0.blobs[n] == w.blobs[n] {
      StagedElsewhere(w.blobs, r.storageId, body, d.faults, w.files[f].storageId);
      hide Staged, TempName, EndsWith, BadId, CanSave;
    }
  }

  lemma FilesOkMoved(files: map<Text, FileRecord>, blobs: map<Name, Text>, blobs': map<Name, Text>)
    requires FilesOk(files, blobs) && SameBlobs(files, blobs, blobs')
    ensures FilesOk(files, blobs')
  {
    hide EndsWith;
  }

  lemma FilesOkAdd(files: map<Text, FileRecord>, blobs: map<Name, Text>, r: FileRecord)
    requires FilesOk(files, blobs) && CanSave(files, r) && EndsWith(r.storageId, BIN) && r.storageId in blobs
    ensures FilesOk(files[r.id := r], blobs)
  {
    hide EndsWith;
  }

  /** The shape of every result of `Store`. */
  lemma StoreShape(w: World, r: FileRecord, body: Text, d: Draw)
    ensures var (w', res) := Store(w, r, body, d);
            && w'.accounts == w.accounts && w'.keys == w.keys
            && (!res.Uploaded? ==> w'.files == w.files)
            && (res.Uploaded? ==>
                  && CanSave(w.files, r) && w'.files == w.files[r.id := r]
                  && r.storageId in w'.blobs && w'.blobs[r.storageId] == body
                  && res.transfer == Transfer(d.transferId, r.id, r.owner, r.recipient))
  {
    StagedStores(w.blobs, r.storageId, body, d.faults);
    hide Staged, CanSave, Unstaged;
  }

  /** A save that is refused after the blob was staged leaves neither the temporary file nor the
      blob when the removals succeed, and nothing else is touched. */
  lemma RefusedSaveRollsBack(w: World, r: FileRecord, body: Text, d: Draw)
    requires Staged(w.blobs, r.storageId, body, d.faults).1.Stored? && !CanSave(w.files, r)
    requires d.removeTemp && d.removeFinal
    ensures var (w', res) := Store(w, r, body, d);
            && res == Thrown(ValidationError) && w'.files == w.files
            && w'.blobs == w.blobs - {r.storageId, TempName(r.storageId)}
  {
    hide TempName, CanSave, TempFails;
    assert r.storageId != [];
  }

  lemma KeepsWhen(w: World, w': World, r: FileRecord)
    requires SameBlobs(w.files, w.blobs, w'.blobs)
    requires w'.files == w.files || (r.id !in w.files && w'.files == w.files[r.id := r])
    ensures Keeps(w, w')
  {
  }

  lemma StoreKeeps(w: World, r: FileRecord, body: Text, d: Draw)
    requires FilesOk(w.files, w.blobs) && EndsWith(r.storageId, BIN) && !StorageIdTaken(w.files, r.storageId)
    ensures var w' := Store(w, r, body, d).0; FilesOk(w'.files, w'.blobs) && Keeps(w, w')
  {
    var (w', res) := Store(w, r, body, d);
    StoreShape(w, r, body, d);
    StoreSameBlobs(w, r, body, d);
    FilesOkMoved(w.files, w.blobs, w'.blobs);
    hide Store, EndsWith, FilesOk, UploadIdTaken, StorageIdTaken, Keeps, SameBlobs;
    KeepsWhen(w, w', r);
    if res.Uploaded? {
      FilesOkAdd(w.files, w'.blobs, r);
    }
  }

  lemma StagedStores(c: map<Name, Text>, id: Name, data: Text, f: Faults)
    ensures Staged(c, id, data, f).1.Stored? ==> id in Staged(c, id, data, f).0 && Staged(c, id, data, f).0[id] == data
  {
  }

  lemma StepInv(p: Ports, w: World, op: Op)
    requires Inv(w) && Fresh(w, op)
    ensures Inv(Step(p, w, op)) && Keeps(w, Step(p, w, op))
  {
    hide FilesOk, A.Inv, Store, Refusal;
    KeepsSelf(w, Step(p, w, op));
    match op
    case Account(a) => A.StepInv(p.crypto, w.accounts, a);
    case PublishKey(_) =>
    case Fetch(_, _, _) =>
    case Send(q, d) =>
      if Refusal(p, w, q, d.now).None? {
        BinId(d);
        RefusalNone(p, w, q, d.now);
        var r := RecordOf(SenderOf(p, w, q.token), A.ByUsername(w.accounts.users, q.recipient).value.id, q, d);
        StoreShape(w, r, q.blob, d);
        StoreKeeps(w, r, q.blob, d);
      }
  }

  lemma KeepsSelf(w: World, w': World)
    requires Inv(w)
    ensures w'.files == w.files && w'.blobs == w.blobs ==> Keeps(w, w')
  {
  }

  lemma RefusalNone(p: Ports, w: World, q: Request, now: int)
    requires Refusal(p, w, q, now).None?
    ensures A.TokenValid(p.crypto, w.accounts, q.token, now) && A.ByUsername(w.accounts.users, q.recipient).Some?
    ensures q.uploadId != [] && !UploadIdTaken(w.files, q.uploadId)
  {
  }

  lemma RunNext(p: Ports, w: World, ops: seq<Op>, i: nat)
    requires i < |ops|
    ensures Run(p, w, ops[..i + 1]) == Step(p, Run(p, w, ops[..i]), ops[i])
  {
    assert ops[..i + 1][..i] == ops[..i];
  }

  lemma AllFreshPrefix(p: Ports, w: World, ops: seq<Op>, n: nat)
    requires AllFresh(p, w, ops) && n <= |ops|
    ensures AllFresh(p, w, ops[..n])
  {
    hide Fresh, Run;
    assert forall i :: 0 <= i < n ==> ops[..n][..i] == ops[..i];
  }

  lemma {:induction false} RunInv(p: Ports, w: World, ops: seq<Op>)
    requires Inv(w) && AllFresh(p, w, ops)
    ensures Inv(Run(p, w, ops))
  {
    if ops != [] {
      var n := |ops| - 1;
      AllFreshPrefix(p, w, ops, n);
      RunInv(p, w, ops[..n]);
      hide Inv, Step;
      StepInv(p, Run(p, w, ops[..n]), ops[n]);
    }
  }

  lemma KeepsTransitive(a: World, b: World, c: World)
    requires Keeps(a, b) && Keeps(b, c)
    ensures Keeps(a, c)
  {
  }

  /** Conservation: from any point of a run to any later one, no record changes and no byte
      behind a record changes. */
  lemma {:induction false} RunKeeps(p: Ports, w: World, ops: seq<Op>, i: nat)
    requires Inv(w) && AllFresh(p, w, ops) && i <= |ops|
    ensures Keeps(Run(p, w, ops[..i]), Run(p, w, ops))
    decreases |ops| - i, |ops|
  {
    hide Inv, Step, Fresh;
    if i == |ops| {
      assert ops[..i] == ops;
      RunInv(p, w, ops);
      KeepsSelf(Run(p, w, ops), Run(p, w, ops));
    } else {
      var n := |ops| - 1;
      AllFreshPrefix(p, w, ops, n);
      RunInv(p, w, ops[..n]);
      RunKeeps(p, w, ops[..n], i);
      assert ops[..n][..i] == ops[..i];
      StepInv(p, Run(p, w, ops[..n]), ops[n]);
      KeepsTransitive(Run(p, w, ops[..i]), Run(p, w, ops[..n]), Run(p, w, ops));
    }
  }

  // ---------------------------------------------------------------------------------------
  // Where downloaded bytes come from
  // ---------------------------------------------------------------------------------------

  /** Operation `i` of the run is the upload that created file `f`. */
  ghost predicate Sent(p: Ports, w: World, ops: seq<Op>, i: nat, f: Text)
  {
    && i < |ops| && ops[i].Send?
    && var res := Upload(p, Run(p, w, ops[..i]), ops[i].request, ops[i].draw).1;
    res.Uploaded? && res.transfer.file == f
  }

  ghost function TransferAt(p: Ports, w: World, ops: seq<Op>, i: nat, f: Text): Transfer
    requires Sent(p, w, ops, i, f)
  {
    Upload(p, Run(p, w, ops[..i]), ops[i].request, ops[i].draw).1.transfer
  }

  /** The record of `f` names the two users of the transfer and the bytes of the request. */
  ghost predicate Held(w: World, f: Text, t: Transfer, body: Text)
  {
    && f in w.files && w.files[f].owner == t.sender && w.files[f].recipient == t.recipient
    && w.files[f].storageId != [] && w.files[f].storageId in w.blobs && w.blobs[w.files[f].storageId] == body
  }

  /** What a successful upload leaves: one new record, and the bytes behind it. */
  lemma UploadEffect(p: Ports, w: World, q: Request, d: Draw)
    ensures var (w', res) := Upload(p, w, q, d);
            && (forall f :: f in w'.files && f !in w.files ==> res.Uploaded? && res.transfer.file == f)
            && (res.Uploaded? ==>
                  && A.TokenValid(p.crypto, w.accounts, q.token, d.now)
                  && res.transfer.id == d.transferId && res.transfer.file == d.fileId && d.fileId !in w.files
                  && res.transfer.sender == SenderOf(p, w, q.token)
                  && A.ByUsername(w.accounts.users, q.recipient).Some?
                  && res.transfer.recipient == A.ByUsername(w.accounts.users, q.recipient).value.id
                  && d.fileId in w'.files && w'.files[d.fileId] == RecordOf(res.transfer.sender, res.transfer.recipient, q, d)
                  && !UploadIdTaken(w.files, q.uploadId)
                  && Held(w', d.fileId, res.transfer, q.blob))
  {
    hide Store, Refusal;
    if Refusal(p, w, q, d.now).None? {
      BinId(d);
      RefusalNone(p, w, q, d.now);
      StoreShape(w, RecordOf(SenderOf(p, w, q.token), A.ByUsername(w.accounts.users, q.recipient).value.id, q, d), q.blob, d);
    } else {
      RefusalNotUploaded(p, w, q, d.now);
    }
    hide BIN;
  }

  lemma RefusalNotUploaded(p: Ports, w: World, q: Request, now: int)
    ensures Refusal(p, w, q, now).Some? ==> !Refusal(p, w, q, now).value.Uploaded?
  {
  }

  lemma KeepsHolds(w: World, w': World, f: Text, t: Transfer, body: Text)
    requires Keeps(w, w') && Held(w, f, t, body)
    ensures Held(w', f, t, body)
  {
  }

  /** Once sent, a file is held with the bytes and the parties of that upload for ever. */
  lemma SentIsHeld(p: Ports, w: World, ops: seq<Op>, i: nat, f: Text)
    requires Inv(w) && AllFresh(p, w, ops) && Sent(p, w, ops, i, f)
    ensures Held(Run(p, w, ops), f, TransferAt(p, w, ops, i, f), ops[i].request.blob)
  {
    hide Inv, Held, Upload, Keeps, AllFresh, Run;
    var before := Run(p, w, ops[..i]);
    UploadEffect(p, before, ops[i].request, ops[i].draw);
    RunNext(p, w, ops, i);
    var after := Run(p, w, ops[..i + 1]);
    RunKeeps(p, w, ops, i + 1);
    KeepsHolds(after, Run(p, w, ops), f, TransferAt(p, w, ops, i, f), ops[i].request.blob);
  }

  /** Every file in a reachable world was created by one upload of the run. */
  lemma {:induction false} Origin(p: Ports, w: World, ops: seq<Op>, f: Text) returns (i: nat)
    requires w.files == map[] && f in Run(p, w, ops).files
    ensures Sent(p, w, ops, i, f)
    decreases |ops|
  {
    hide Upload;
    var n := |ops| - 1;
    var before := Run(p, w, ops[..n]);
    if f in before.files {
      i := Origin(p, w, ops[..n], f);
      assert ops[..n][..i] == ops[..i];
    } else {
      i := n;
      if ops[n].Send? {
        UploadEffect(p, before, ops[n].request, ops[n].draw);
      }
    }
  }

  /** Bytes are handed out only to the sender or the recipient fixed by the upload that created
      the file, only to a user who exists and is active, and they are that upload's bytes. */
  lemma DownloadSound(p: Ports, w: World, ops: seq<Op>, token: Text, f: Text, now: int) returns (i: nat)
    requires Inv(w) && w.files == map[] && AllFresh(p, w, ops)
    requires Download(p, Run(p, w, ops), token, f, now).Bytes?
    ensures Sent(p, w, ops, i, f)
    ensures Download(p, Run(p, w, ops), token, f, now).data == ops[i].request.blob
    ensures var user, t := SenderOf(p, Run(p, w, ops), token), TransferAt(p, w, ops, i, f);
            && (user == t.sender || user == t.recipient)
            && user in Run(p, w, ops).accounts.users && Run(p, w, ops).accounts.users[user].IsActive()
  {
    var now' := Run(p, w, ops);
    i := Origin(p, w, ops, f);
    SentIsHeld(p, w, ops, i, f);
    RunInv(p, w, ops);
    A.ValidTokenIsActive(p.crypto, now'.accounts, token, now);
    hide Run, Upload, A.Inv, FilesOk;
  }

  /** And they are handed out to both, with any valid session, at any later point. */
  lemma DownloadComplete(p: Ports, w: World, ops: seq<Op>, i: nat, f: Text, token: Text, now: int)
    requires Inv(w) && AllFresh(p, w, ops) && Sent(p, w, ops, i, f)
    requires A.TokenValid(p.crypto, Run(p, w, ops).accounts, token, now)
    requires var user, t := SenderOf(p, Run(p, w, ops), token), TransferAt(p, w, ops, i, f); user == t.sender || user == t.recipient
    ensures Download(p, Run(p, w, ops), token, f, now) == Bytes(ops[i].request.blob)
  {
    SentIsHeld(p, w, ops, i, f);
    hide Run, Upload, Inv;
  }

  /** An upload id is good for one record: a second upload under it changes nothing, and two
      uploads of a run that both succeed carry different ids. */
  lemma UploadIdOnce(p: Ports, w: World, q: Request, d: Draw)
    requires UploadIdTaken(w.files, q.uploadId)
    ensures Upload(p, w, q, d).0 == w && !Upload(p, w, q, d).1.Uploaded?
  {
  }

  lemma UploadIdsDiffer(p: Ports, w: World, ops: seq<Op>, i: nat, j: nat, f: Text, g: Text)
    requires Inv(w) && AllFresh(p, w, ops) && i < j && Sent(p, w, ops, i, f) && Sent(p, w, ops, j, g)
    ensures ops[i].request.uploadId != ops[j].request.uploadId && f != g
  {
    hide Inv, Upload, AllFresh, Run;
    var before, at := Run(p, w, ops[..i]), Run(p, w, ops[..j]);
    UploadEffect(p, before, ops[i].request, ops[i].draw);
    UploadEffect(p, at, ops[j].request, ops[j].draw);
    var k := i + 1;
    assert ops[..j][..k] == ops[..k];
    AllFreshPrefix(p, w, ops, j);
    RunKeeps(p, w, ops[..j], k);
    RunNext(p, w, ops, i);
  }

  // ---------------------------------------------------------------------------------------
  // Why ids must be fresh
  // ---------------------------------------------------------------------------------------

  /** The ways in which an upload that draws the storage id of an earlier file leaves that file's
      bytes alone: it never gets to the destination, or it puts the same bytes there and the
      rollback cannot remove them. */
  predicate ClashHarmless(earlier: Text, id: Name, blob: Text, d: Draw)
  {
    || BadId(id) || TempFails(blob, d.faults)
    || (if d.faults.fault.RenameFails? then !d.faults.removeOld else !d.removeFinal && blob == earlier)
  }

  /** Once nothing refuses an upload first, and whatever fails in it, the files already stored keep
      their bytes if and only if the storage id drawn is not one of theirs, or the clash is
      harmless. Otherwise the removal before the rename, the rename itself, or the rollback
      destroys the earlier file's blob. */
  lemma KeepsIffFresh(p: Ports, w: World, q: Request, d: Draw)
    requires Inv(w) && Refusal(p, w, q, d.now).None?
    ensures var id := StorageIdOf(d);
            Keeps(w, Upload(p, w, q, d).0) <==>
            !StorageIdTaken(w.files, id) || (id in w.blobs && ClashHarmless(w.blobs[id], id, q.blob, d))
  {
    var id := StorageIdOf(d);
    if !StorageIdTaken(w.files, id) {
      StepInv(p, w, Send(q, d));
    } else {
      BinId(d);
      RefusalNone(p, w, q, d.now);
      var r := RecordOf(SenderOf(p, w, q.token), A.ByUsername(w.accounts.users, q.recipient).value.id, q, d);
      assert Upload(p, w, q, d).0 == Store(w, r, q.blob, d).0;
      hide Refusal, Upload, A.Inv, A.ByUsername;
      ClashKeepsIff(w, r, q.blob, d);
    }
  }

  lemma ClashKeepsIff(w: World, r: FileRecord, body: Text, d: Draw)
    requires FilesOk(w.files, w.blobs) && EndsWith(r.storageId, BIN) && StorageIdTaken(w.files, r.storageId)
    ensures r.storageId in w.blobs
    ensures Keeps(w, Store(w, r, body, d).0) <==> ClashHarmless(w.blobs[r.storageId], r.storageId, body, d)
  {
    var id, w' := r.storageId, Store(w, r, body, d).0;
    var f :| f in w.files && w.files[f].storageId == id;
    ClashFiles(w, r, body, d);
    ClashBlob(w.blobs, w.files, r, body, d);
    forall n | EndsWith(n, BIN) && n != id ensures (n in w'.blobs <==> n in w.blobs) && (n in w.blobs ==> w'.blobs[n] == w.blobs[n]) {
      StagedElsewhere(w.blobs, id, body, d.faults, n);
      hide Staged, CanSave, TempName, EndsWith;
    }
    hide Store, ClashHarmless, EndsWith, CanSave, StorageIdTaken;
  }

  lemma ClashFiles(w: World, r: FileRecord, body: Text, d: Draw)
    requires StorageIdTaken(w.files, r.storageId)
    ensures Store(w, r, body, d).0.files == w.files
  {
    hide Staged, Unstaged, UploadIdTaken;
  }

  /** What a clash does to the blob it hits. */
  lemma ClashBlob(blobs: map<Name, Text>, files: map<Text, FileRecord>, r: FileRecord, body: Text, d: Draw)
    requires r.storageId in blobs && StorageIdTaken(files, r.storageId)
    ensures var id := r.storageId;
            var now := Store(World(A.EMPTY, {}, files, blobs), r, body, d).0.blobs;
            (id in now && now[id] == blobs[id]) <==> ClashHarmless(blobs[id], id, body, d)
  {
    TempNameShape(r.storageId);
    assert r.storageId == [] ==> BadId(r.storageId);
    hide TempName, UploadIdTaken, BadId, EndsWith;
  }

  lemma ClashDeletes(w: World, r: FileRecord, body: Text, d: Draw)
    requires StorageIdTaken(w.files, r.storageId) && !BadId(r.storageId) && d.faults.fault.NoFault? && d.removeFinal
    ensures r.storageId !in Store(w, r, body, d).0.blobs
  {
    hide TempName, UploadIdTaken;
  }
}
