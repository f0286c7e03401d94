/** What goes over the wire, in numbers and bytes, and what the server answers to each frame, in
    plain terms (include/ports/transport.hpp, src/presentation/protocol.cpp,
    src/presentation/server_app.cpp). */
module WireLaws {
  import opened Bytes
  import opened Framing
  import opened Protocol
  import opened Transfers
  import opened Server
  import opened ServerRuns
  import opened Client
  import A = Accounts
  import L = AccountLaws
  import T = TransferLaws

  // ---------------------------------------------------------------------------------------
  // Layouts
  // ---------------------------------------------------------------------------------------

  /** A string or byte vector on the wire: four bytes of length, then its bytes. */
  function Str(s: Text): Text
  {
    Be32(|s| % 0x1_0000_0000) + s
  }

  lemma TwoFields(p: Pair)
    ensures Print(PAIR_SCHEMA, PairFields(p)) == Str(p.first) + Str(p.second)
  {
    hide Be32;
    assert Print(PAIR_SCHEMA, PairFields(p), 1) == Str(p.second) + [];
  }

  lemma RegisterLayout(p: Register)
    ensures Print(REGISTER_SCHEMA, RegisterFields(p)) == Str(p.username) + Str(p.email) + Str(p.password)
  {
    hide Be32;
    var ks, vs := REGISTER_SCHEMA, RegisterFields(p);
    assert Print(ks, vs, 2) == Str(p.password) + [];
    assert Print(ks, vs, 1) == Str(p.email) + Str(p.password);
  }

  lemma DataLayout(p: UploadData)
    ensures Print(DATA_SCHEMA, DataFields(p)) == Str(p.uploadId) + Be64(p.offset) + Str(p.chunk)
  {
    hide Be32, Be64;
    var ks, vs := DATA_SCHEMA, DataFields(p);
    assert Print(ks, vs, 2) == Str(p.chunk) + [];
    assert Print(ks, vs, 1) == Be64(p.offset) + Str(p.chunk);
  }

  lemma InitLayout(p: UploadInit)
    ensures Print(INIT_SCHEMA, InitFields(p)) ==
            Str(p.recipient) + Str(p.origName) + Str(p.uploadId) + Be64(p.size) + p.digest
            + Str(p.wrapped.recipientId) + Str(p.wrapped.nonce) + Str(p.wrapped.bytes) + Str(p.wrapped.alg)
  {
    hide Be32, Be64;
    var ks, vs := INIT_SCHEMA, InitFields(p);
    var w := p.wrapped;
    assert Print(ks, vs, 8) == Str(w.alg) + [];
    assert Print(ks, vs, 7) == Str(w.bytes) + Str(w.alg);
    assert Print(ks, vs, 6) == Str(w.nonce) + (Str(w.bytes) + Str(w.alg));
    assert Print(ks, vs, 5) == Str(w.recipientId) + (Str(w.nonce) + (Str(w.bytes) + Str(w.alg)));
    assert Print(ks, vs, 4) == p.digest + Print(ks, vs, 5);
    assert Print(ks, vs, 3) == Be64(p.size) + Print(ks, vs, 4);
    assert Print(ks, vs, 2) == Str(p.uploadId) + Print(ks, vs, 3);
    assert Print(ks, vs, 1) == Str(p.origName) + Print(ks, vs, 2);
    hide Print, Str;
  }

  /** The two-string payloads are read off exactly as they are laid out. */
  lemma ReadPair(body: Text, first: Text, second: Text, rest: Text)
    requires body == Str(first) + Str(second) + rest && |first| < 0x1_0000_0000 && |second| < 0x1_0000_0000
    ensures ParsePair(body) == Some(Pair(first, second))
  {
    hide Be32, Print, ParsePair;
    TwoFields(Pair(first, second));
    PairCodec(Pair(first, second), rest, []);
  }

  /** A frame on the wire: length of what follows it, kind, request id, body. */
  lemma FrameLayout(f: Frame)
    requires |f.body| < 0xFFFF_FFFB
    ensures Encode(f) == Be32(5 + |f.body|) + [f.kind] + Be32(f.requestId) + f.body
  {
    hide Be32;
  }

  /** The client's frames, with the numbers it uses. */
  lemma ClientFrames(init: UploadInit, d: UploadData, id: Text)
    ensures InitFrame(init) == Frame(7, 4, Print(INIT_SCHEMA, InitFields(init)))
    ensures DataFrame(d) == Frame(8, 4, Str(d.uploadId) + Be64(d.offset) + Str(d.chunk))
    ensures CommitFrame(id) == Frame(9, 4, Str(id))
    ensures |d.uploadId| == 36 && |d.chunk| <= 1048576 ==> |Encode(DataFrame(d))| <= 4 + 4194304 && Fits(DataFrame(d))
  {
    hide Be32, Be64, Print;
    DataLayout(d);
    if |d.uploadId| == 36 && |d.chunk| <= 1048576 {
      DataFrameFits(d);
    }
  }

  /** The receiver's limit in bytes, and what it does with any other length: it drops the buffer and
      the connection ends. */
  lemma LengthLimit(buf: Text, input: seq<Text>, f: Frame)
    ensures Fits(f) <==> |f.body| <= 4194299
    ensures |buf| >= 4 && (Value(buf[..4]) < 5 || Value(buf[..4]) > 4194304) ==> Receive(buf, input) == Closed([], input)
  {
  }

  // ---------------------------------------------------------------------------------------
  // The upload id of a COMMIT
  // ---------------------------------------------------------------------------------------

  /** The readings of a COMMIT body, in order: a length-prefixed id, an encoded chunk, the bytes
      themselves; and an empty id means the only upload that is open. */
  lemma CommitReadings(body: Text, id: Text, d: UploadData, rest: Text, pending: set<Text>)
    ensures body == Str(id) && 0 < |id| < 0xFFFF_FFFC ==> CommitId(body, pending) == id
    ensures (body == Str(d.uploadId) + Be64(d.offset) + Str(d.chunk) + rest && HoldsAll(DATA_SCHEMA, DataFields(d))
             && (Get32(body) + 4) % 0x1_0000_0000 != |body| && d.uploadId != [])
            ==> CommitId(body, pending) == d.uploadId
    ensures 0 < |body| < 4 ==> CommitId(body, pending) == body
    ensures |body| >= 4 && (Get32(body) + 4) % 0x1_0000_0000 != |body| && ParseData(body).None? ==> CommitId(body, pending) == body
    ensures body == [] && pending == {id} ==> CommitId(body, pending) == id
    ensures body == [] && |pending| != 1 ==> CommitId(body, pending) == []
  {
    if body == Str(id) && 0 < |id| < 0xFFFF_FFFC {
      CommitPrefixed(body, id);
    }
    if body == Str(d.uploadId) + Be64(d.offset) + Str(d.chunk) + rest && HoldsAll(DATA_SCHEMA, DataFields(d)) {
      DataLayout(d);
      UploadDataCodec(d, rest, []);
    }
    hide Get32, ParseData, Str, Be64, HoldsAll;
  }

  lemma CommitPrefixed(body: Text, id: Text)
    requires body == Str(id) && |id| < 0xFFFF_FFFC
    ensures RawCommitId(body) == id
  {
    hide Be32, Get32, ParseData;
    Get32OfBe32(|id|, id);
    assert body[4..] == id;
  }

  // ---------------------------------------------------------------------------------------
  // Replies
  // ---------------------------------------------------------------------------------------

  /** Every reply carries the request id of the frame it answers. */
  lemma ReplyEchoes(p: Ports, c: Conn, w: World, f: Frame, e: Env)
    ensures Handle(p, c, w, f, e).reply.requestId == f.requestId
  {
    hide ParsePair, ParseRegister, ParseInit, ParseData, Download, CommitId, A.Login, A.AdminToken, A.SetInactive, Upload, Step;
  }

  /** INIT is answered with "ok" if and only if it decodes, the connection has a token that is live
      for somebody, and the validator accepts name and size with a PDF header. It opens an empty
      buffer and touches nothing else; otherwise nothing changes and the answer is ERR. */
  lemma InitAnswered(p: Ports, c: Conn, w: World, f: Frame, e: Env)
    requires f.kind == 7
    ensures var h := Handle(p, c, w, f, e);
            var ok := && ParseInit(f.body).Some? && c.token != [] && (exists id :: L.LiveFor(p.crypto, w.accounts, c.token, e.draw.now, id))
                      && p.validate(ParseInit(f.body).value.origName, ParseInit(f.body).value.size, [37, 80, 68, 70, 45, 49, 46, 52]);
            && h.world == w && h.reply.kind == (if ok then 7 else 255)
            && (!ok ==> h.conn == c)
            && (ok ==> var init := ParseInit(f.body).value;
                       h.reply.body == [111, 107] && h.conn == Conn(c.inits[init.uploadId := init], c.data[init.uploadId := []], c.token))
  {
    assert PDF_HEADER == [37, 80, 68, 70, 45, 49, 46, 52];
    assert OK == [111, 107];
    L.ValidIsLive(p.crypto, w.accounts, c.token, e.draw.now);
    hide ParseInit, L.LiveFor, A.TokenValid;
  }

  /** COMMIT is answered with the transfer's id if and only if it names an open upload, the
      connection has a token and the upload succeeds with the buffered bytes under the fields of
      its INIT; then that upload is closed. Otherwise the connection is unchanged and the answer
      is ERR. */
  lemma CommitAnswered(p: Ports, c: Conn, w: World, f: Frame, e: Env)
    requires f.kind == 9 && A.Inv(w.accounts)
    ensures var h, id := Handle(p, c, w, f, e), CommitId(f.body, c.inits.Keys);
            var open := id in c.inits && id in c.data && c.token != [];
            var q := if open then
                       Request(c.token, c.inits[id].recipient, c.inits[id].origName, c.data[id], c.inits[id].uploadId,
                               c.inits[id].size, c.inits[id].digest, c.inits[id].wrapped)
                     else Request([], [], [], [], [], 0, [], WrappedKey([], [], [], []));
            var ok := open && Upload(p, w, q, e.draw).1.Uploaded?;
            && h.reply.kind == (if ok then 9 else 255)
            && h.world == (if open then Upload(p, w, q, e.draw).0 else w)
            && (!ok ==> h.conn == c)
            && (ok ==> h.reply.body == e.draw.transferId && h.conn == Conn(c.inits - {id}, c.data - {id}, c.token))
  {
    var id := CommitId(f.body, c.inits.Keys);
    hide CommitId, A.Inv;
    if id in c.inits && id in c.data && c.token != [] {
      var q := RequestOf(c.token, c.inits[id], c.data[id]);
      InvalidTokenNoUpload(p, w, q, e.draw);
      UploadEffect(p, w, q, e.draw);
      InvalidNotUploaded(p, w, q, e.draw);
    }
    hide Upload, A.TokenValid;
  }

  lemma InvalidNotUploaded(p: Ports, w: World, q: Request, d: Draw)
    ensures !A.TokenValid(p.crypto, w.accounts, q.token, d.now) ==> !Upload(p, w, q, d).1.Uploaded?
  {
  }

  /** A download request is answered with the blob in one frame if and only if its token, or the
      connection's when it gives none, is live for the owner or recipient of an existing record
      whose blob is there. Nothing changes. */
  lemma DownloadAnswered(p: Ports, c: Conn, w: World, f: Frame, e: Env, file: Text, token: Text, rest: Text)
    requires f.kind == 10 && f.body == Str(file) + Str(token) + rest && |file| < 0x1_0000_0000 && |token| < 0x1_0000_0000
    ensures var h, tok := Handle(p, c, w, f, e), if token == [] then c.token else token;
            var ok := && file in w.files && w.files[file].storageId != [] && w.files[file].storageId in w.blobs
                      && exists id :: L.LiveFor(p.crypto, w.accounts, tok, e.draw.now, id) && (id == w.files[file].owner || id == w.files[file].recipient);
            && h.conn == c && h.world == w
            && (if ok then h.reply == Frame(11, f.requestId, w.blobs[w.files[file].storageId]) else h.reply.kind == 255)
  {
    ReadPair(f.body, file, token, rest);
    T.DownloadIff(p, w, if token == [] then c.token else token, file, e.draw.now);
    hide ParsePair, Download, Str, L.LiveFor;
  }

  /** AUTH is answered with a session token if and only if the password is right for an active user
      of that name who is not locked out; the connection then uses that token. */
  lemma AuthAnswered(p: Ports, c: Conn, w: World, f: Frame, e: Env, name: Text, password: Text, rest: Text)
    requires f.kind == 2 && f.body == Str(name) + Str(password) + rest && |name| < 0x1_0000_0000 && |password| < 0x1_0000_0000
    requires A.Inv(w.accounts)
    ensures var h := Handle(p, c, w, f, e);
            var ok := exists id :: L.MayLogIn(p.crypto, w.accounts, id, name, password, e.draw.now);
            && h.world == w.(accounts := A.Step(p.crypto, w.accounts, A.LoginOp(name, password, e.draw.now, e.sessionToken)))
            && h.conn == (if ok then c.(token := e.sessionToken) else c)
            && (if ok then h.reply == Frame(2, f.requestId, e.sessionToken) else h.reply.kind == 255)
  {
    ReadPair(f.body, name, password, rest);
    A.InvWellFormed(w.accounts);
    L.LoginIff(p.crypto, w.accounts, name, password, e.draw.now, e.sessionToken);
    hide ParsePair, Str, A.Login, L.MayLogIn, A.Inv, A.WellFormed;
    if id :| L.MayLogIn(p.crypto, w.accounts, id, name, password, e.draw.now) {
    }
  }

  /** LOGOUT revokes the session of the token that is its body, says whether there was one, and
      clears the connection's token if it is that one. */
  lemma LogoutAnswered(p: Ports, c: Conn, w: World, f: Frame, e: Env)
    requires f.kind == 4
    ensures var h, k := Handle(p, c, w, f, e), p.crypto.hash(f.body);
            && h.reply.kind == (if k in w.accounts.sessions then 4 else 255)
            && h.conn == (if k in w.accounts.sessions && c.token == f.body then c.(token := []) else c)
            && h.world.accounts.users == w.accounts.users && h.world.files == w.files && h.world.blobs == w.blobs
            && h.world.accounts.sessions.Keys == w.accounts.sessions.Keys
            && forall x :: x in w.accounts.sessions ==>
                 h.world.accounts.sessions[x] == if x == k then w.accounts.sessions[x].(revoked := true) else w.accounts.sessions[x]
  {
  }

  /** REGISTER performs one registration with the role "user" and always answers REGISTER, unless
      the payload does not decode. */
  lemma RegisterAnswered(p: Ports, c: Conn, w: World, f: Frame, e: Env, name: Text, email: Text, password: Text, rest: Text)
    requires f.kind == 3 && f.body == Str(name) + Str(email) + Str(password) + rest
    requires |name| < 0x1_0000_0000 && |email| < 0x1_0000_0000 && |password| < 0x1_0000_0000
    ensures var h := Handle(p, c, w, f, e);
            && h.conn == c && h.reply.kind == 3
            && h.world == w.(accounts := A.Register(w.accounts, name, email, password, "user", e.encoded, e.newUserId).0)
  {
    var r := Register(name, email, password);
    RegisterLayout(r);
    RegisterCodec(r, rest, []);
    hide Str, ParseRegister, A.Register, Print;
  }

  /** The two admin frames perform the operation named, for the token and target they carry, and
      answer with their own kind if and only if an admin asked for an existing user, who is not
      the last admin if it is to be deactivated. */
  lemma AdminAnswered(p: Ports, c: Conn, w: World, f: Frame, e: Env, token: Text, target: Text, rest: Text)
    requires (f.kind == 5 || f.kind == 6) && f.body == Str(token) + Str(target) + rest && |token| < 0x1_0000_0000 && |target| < 0x1_0000_0000
    ensures var h := Handle(p, c, w, f, e);
            var op := if f.kind == 5 then A.ActivateOp(token, target, e.draw.now) else A.DeactivateOp(token, target, e.draw.now);
            var ok := && L.ByAdmin(p.crypto, w.accounts, op, target) && target in w.accounts.users
                      && (f.kind == 6 ==> !L.LastAdmin(w.accounts, target));
            && h.conn == c && h.world == w.(accounts := A.Step(p.crypto, w.accounts, op))
            && h.reply.kind == (if ok then f.kind else 255)
  {
    ReadPair(f.body, token, target, rest);
    L.Cleared(p.crypto, w.accounts, A.ActivateOp(token, target, e.draw.now));
    L.Cleared(p.crypto, w.accounts, A.DeactivateOp(token, target, e.draw.now));
    L.LastAdminCounts(w.accounts, target);
    hide Str, ParsePair, A.AdminToken, L.ByAdmin, L.LastAdmin, A.ActiveAdmins, A.IsActiveAdmin, A.Step;
  }

  /** LIST and a stray DOWNLOAD_DATA get an empty list; any other kind, HELLO included, gets an empty
      ERR. Nothing changes. */
  lemma OthersAnswered(p: Ports, c: Conn, w: World, f: Frame, e: Env)
    ensures f.kind == 12 || f.kind == 11 ==> Handle(p, c, w, f, e) == Handled(c, w, Frame(12, f.requestId, []))
    ensures f.kind < 2 || f.kind > 12 ==> Handle(p, c, w, f, e) == Handled(c, w, Frame(255, f.requestId, []))
  {
  }

  /** A payload that does not decode gets an empty ERR, and nothing changes. */
  lemma UndecodableAnswered(p: Ports, c: Conn, w: World, f: Frame, e: Env)
    requires || (f.kind == 3 && ParseRegister(f.body).None?) || (f.kind == 7 && ParseInit(f.body).None?) || (f.kind == 8 && ParseData(f.body).None?)
             || (f.kind in {2, 5, 6, 10} && ParsePair(f.body).None?)
    ensures Handle(p, c, w, f, e) == Handled(c, w, Frame(255, f.requestId, []))
  {
    hide ParseRegister, ParseInit, ParseData, ParsePair;
  }

  /** DATA is answered with "ok" if and only if it decodes, its upload is open and its offset is the
      number of bytes there; then its bytes are appended to that buffer and nothing else changes. */
  lemma DataAnswered(p: Ports, c: Conn, w: World, f: Frame, e: Env)
    requires f.kind == 8
    ensures var h := Handle(p, c, w, f, e);
            var ok := && ParseData(f.body).Some? && ParseData(f.body).value.uploadId in c.data
                      && ParseData(f.body).value.offset == |c.data[ParseData(f.body).value.uploadId]|;
            && h.world == w && (!ok ==> h.conn == c && h.reply == Frame(255, f.requestId, []))
            && (ok ==> var d := ParseData(f.body).value;
                       && h.reply == Frame(8, f.requestId, [111, 107])
                       && h.conn == Conn(c.inits, c.data[d.uploadId := c.data[d.uploadId] + d.chunk], c.token))
  {
    assert OK == [111, 107];
    hide ParseData;
  }

  // ---------------------------------------------------------------------------------------
  // Over whole connections
  // ---------------------------------------------------------------------------------------

  /** Everybody who asks properly is served. On any connection, after any earlier operations: a
      request for a file uploaded at some earlier point, with a token (or, when it gives none, on a
      connection whose token is) live for the upload's sender or recipient, is answered with
      exactly the bytes of that upload. */
  lemma DownloadServed(p: Ports, w0: World, pre: seq<Op>, c: Conn, frames: seq<Frame>, envs: seq<Env>, i: nat, j: nat,
                       file: Text, token: Text, rest: Text, user: Text)
    requires |envs| == |frames| && i < |frames| && Inv(w0)
    requires AllFresh(p, w0, History(p, w0, pre, c, frames, envs, i))
    requires Sent(p, w0, History(p, w0, pre, c, frames, envs, i), j, file)
    requires frames[i].kind == 10 && frames[i].body == Str(file) + Str(token) + rest && |file| < 0x1_0000_0000 && |token| < 0x1_0000_0000
    requires var s, t := Serve(p, c, Run(p, w0, pre), frames[..i], envs[..i]), TransferAt(p, w0, History(p, w0, pre, c, frames, envs, i), j, file);
             && (user == t.sender || user == t.recipient)
             && L.LiveFor(p.crypto, s.world.accounts, if token == [] then s.conn.token else token, envs[i].draw.now, user)
    ensures Serve(p, c, Run(p, w0, pre), frames, envs).replies[i]
         == Frame(11, frames[i].requestId, History(p, w0, pre, c, frames, envs, i)[j].request.blob)
  {
    var w := Run(p, w0, pre);
    var s, ops := Serve(p, c, w, frames[..i], envs[..i]), History(p, w0, pre, c, frames, envs, i);
    ServeSplit(p, c, w, frames, envs, i);
    ServeIsRun(p, c, w, frames[..i], envs[..i]);
    RunConcat(p, w0, pre, ServeOps(p, c, w, frames[..i], envs[..i]));
    assert s.world == Run(p, w0, ops);
    hide Serve, ServeOps, AllFresh, Run, History, Inv, Handle, Str;
    SentIsHeld(p, w0, ops, j, file);
    DownloadAnswered(p, s.conn, s.world, frames[i], envs[i], file, token, rest);
    hide L.LiveFor, Sent, TransferAt;
  }

  /** The operations of a connection register users with the role "user" only. */
  lemma {:induction false} OnlyUsersRegistered(p: Ports, c: Conn, w: World, frames: seq<Frame>, envs: seq<Env>)
    requires |envs| == |frames|
    ensures forall op :: op in ServeOps(p, c, w, frames, envs) && op.Account? && op.op.RegisterOp? ==> op.op.role == "user"
    decreases |frames|
  {
    hide Handle;
    if frames != [] {
      var h := Handle(p, c, w, frames[0], envs[0]);
      OnlyUsersRegistered(p, h.conn, h.world, frames[1..], envs[1..]);
      OpsRegisterUsers(c, frames[0], envs[0]);
      hide OpsOf;
    }
  }

  lemma OpsRegisterUsers(c: Conn, f: Frame, e: Env)
    ensures forall op :: op in OpsOf(c, f, e) && op.Account? && op.op.RegisterOp? ==> op.op.role == "user"
  {
    hide ParsePair, ParseRegister, CommitId;
  }

  lemma {:induction false} RolesOverRun(p: Ports, w: World, ops: seq<Op>, id: Text)
    requires id in Run(p, w, ops).accounts.users
    requires forall op :: op in ops && op.Account? && op.op.RegisterOp? ==> op.op.role == "user"
    ensures var u := Run(p, w, ops).accounts.users[id];
            if id in w.accounts.users then u.role == w.accounts.users[id].role else u.role == "user"
    decreases |ops|
  {
    hide Step;
    if ops != [] {
      var n := |ops| - 1;
      var before := Run(p, w, ops[..n]);
      StepRole(p, before, ops[n], id);
      assert ops[n] in ops;
      if id in before.accounts.users {
        RolesOverRun(p, w, ops[..n], id);
      } else if id in w.accounts.users {
        UsersStayOverRun(p, w, ops[..n], id);
      }
    }
  }

  lemma StepRole(p: Ports, w: World, op: Op, id: Text)
    requires id in Step(p, w, op).accounts.users
    ensures var u := Step(p, w, op).accounts.users[id];
            if id in w.accounts.users then u.role == w.accounts.users[id].role
            else op.Account? && op.op.RegisterOp? && op.op.role == u.role
  {
    hide Upload, A.Step;
    match op
    case Account(a) => L.StepKeepsRole(p.crypto, w.accounts, a, id);
    case Send(q, d) => T.UploadFiles(p, w, q, d);
    case _ =>
  }

  lemma {:induction false} UsersStayOverRun(p: Ports, w: World, ops: seq<Op>, id: Text)
    requires id in w.accounts.users
    ensures id in Run(p, w, ops).accounts.users
  {
    hide A.Step, Upload;
    if ops != [] {
      var n := |ops| - 1;
      UsersStayOverRun(p, w, ops[..n], id);
      var before := Run(p, w, ops[..n]);
      match ops[n]
      case Account(a) => L.UsersStay(p.crypto, before.accounts, a, id);
      case Send(q, d) => T.UploadFiles(p, before, q, d);
      case _ =>
    }
  }

  /** Nothing that comes over the wire makes anybody an admin: after any frames, whoever has the role
      "admin" had it before. */
  lemma WireMakesNoAdmin(p: Ports, c: Conn, w: World, frames: seq<Frame>, envs: seq<Env>, id: Text)
    requires |envs| == |frames| && id in Serve(p, c, w, frames, envs).world.accounts.users
    requires Serve(p, c, w, frames, envs).world.accounts.users[id].role == "admin"
    ensures id in w.accounts.users && w.accounts.users[id].role == "admin"
  {
    hide Serve, ServeOps, Run;
    ServeIsRun(p, c, w, frames, envs);
    OnlyUsersRegistered(p, c, w, frames, envs);
    RolesOverRun(p, w, ServeOps(p, c, w, frames, envs), id);
  }
}
