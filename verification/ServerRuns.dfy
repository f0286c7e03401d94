/** What every run of the connection loop keeps: the uploads in progress against the traffic
    seen on the wire, and the server's state against the runs of Transfers.dfy
    (src/presentation/server_app.cpp). */
module ServerRuns {
  import opened Bytes
  import opened Framing
  import opened Protocol
  import opened Transfers
  import opened Server
  import A = Accounts

  // ---------------------------------------------------------------------------------------
  // The upload state machine, read off the wire
  // ---------------------------------------------------------------------------------------

  /** One frame and its reply, as anyone watching the connection sees them. */
  datatype Exchange = Exchange(frame: Frame, reply: Frame)

  /** The upload id of an INIT that was answered with an INIT. */
  function InitOk(x: Exchange): Option<Text>
  {
    if x.frame.kind == UPLOAD_INIT && x.reply.kind == UPLOAD_INIT && ParseInit(x.frame.body).Some?
    then Some(ParseInit(x.frame.body).value.uploadId) else None
  }

  /** The chunk of a DATA that was answered with a DATA. */
  function DataOk(x: Exchange): Option<UploadData>
  {
    if x.frame.kind == UPLOAD_DATA && x.reply.kind == UPLOAD_DATA then ParseData(x.frame.body) else None
  }

  predicate CommitOk(x: Exchange)
  {
    x.frame.kind == UPLOAD_COMMIT && x.reply.kind == UPLOAD_COMMIT
  }

  /** The uploads that are open after an exchange of frames. */
  ghost function Pending(log: seq<Exchange>): set<Text>
  {
    if log == [] then {}
    else
      var before, x := Pending(log[..|log| - 1]), log[|log| - 1];
      if InitOk(x).Some? then before + {InitOk(x).value}
      else if CommitOk(x) then before - {CommitId(x.frame.body, before)}
      else before
  }

  /** The chunks accepted for `id` since its last INIT, in order. */
  function Chunks(log: seq<Exchange>, id: Text): seq<Text>
  {
    if log == [] then []
    else
      var before, x := Chunks(log[..|log| - 1], id), log[|log| - 1];
      if InitOk(x) == Some(id) then []
      else if DataOk(x).Some? && DataOk(x).value.uploadId == id then before + [DataOk(x).value.chunk]
      else before
  }

  /** The two maps have the same keys, each stored INIT carries its own key, and each buffer is
      the concatenation of the chunks accepted since the last INIT for its id. */
  ghost predicate Matches(c: Conn, log: seq<Exchange>)
  {
    && c.inits.Keys == c.data.Keys == Pending(log)
    && (forall id :: id in c.inits ==> c.inits[id].uploadId == id)
    && (forall id :: id in c.data ==> c.data[id] == Concat(Chunks(log, id)))
  }

  lemma {:induction false} ConcatSnoc(xs: seq<Text>, x: Text)
    ensures Concat(xs + [x]) == Concat(xs) + x
  {
    if xs == [] {
      assert [x][1..] == [];
    } else {
      ConcatSnoc(xs[1..], x);
      assert (xs + [x])[1..] == xs[1..] + [x];
    }
  }

  lemma PendingStep(log: seq<Exchange>, x: Exchange)
    ensures Pending(log + [x]) ==
            if InitOk(x).Some? then Pending(log) + {InitOk(x).value}
            else if CommitOk(x) then Pending(log) - {CommitId(x.frame.body, Pending(log))}
            else Pending(log)
  {
    hide InitOk, CommitOk, CommitId;
    assert (log + [x])[..|log|] == log && (log + [x])[|log|] == x;
  }

  lemma ChunksStep(log: seq<Exchange>, x: Exchange)
    ensures forall id :: Chunks(log + [x], id) == (
              if InitOk(x) == Some(id) then []
              else if DataOk(x).Some? && DataOk(x).value.uploadId == id then Chunks(log, id) + [DataOk(x).value.chunk]
              else Chunks(log, id))
  {
    hide InitOk, DataOk;
    assert (log + [x])[..|log|] == log && (log + [x])[|log|] == x;
  }

  /** An exchange that is no accepted INIT, DATA or COMMIT changes nothing. */
  lemma IdleMatches(c: Conn, c': Conn, log: seq<Exchange>, x: Exchange)
    requires Matches(c, log) && c'.inits == c.inits && c'.data == c.data
    requires InitOk(x).None? && DataOk(x).None? && !CommitOk(x)
    ensures Matches(c', log + [x])
  {
    hide InitOk, DataOk, CommitOk, Concat, Chunks, Pending;
    PendingStep(log, x);
    ChunksStep(log, x);
  }

  lemma InitMatches(p: Ports, c: Conn, w: World, f: Frame, e: Env, log: seq<Exchange>)
    requires Matches(c, log) && f.kind == UPLOAD_INIT
    ensures var h := HandleInit(p, c, w, f, e); Matches(h.conn, log + [Exchange(f, h.reply)])
  {
    hide ParseInit, Chunks, Pending;
    var h := HandleInit(p, c, w, f, e);
    var x := Exchange(f, h.reply);
    if h.reply.kind == UPLOAD_INIT {
      PendingStep(log, x);
      ChunksStep(log, x);
    } else {
      hide Matches;
      IdleMatches(c, h.conn, log, x);
    }
  }

  lemma DataMatches(c: Conn, w: World, f: Frame, log: seq<Exchange>)
    requires Matches(c, log) && f.kind == UPLOAD_DATA
    ensures var h := HandleData(c, w, f); Matches(h.conn, log + [Exchange(f, h.reply)])
  {
    hide ParseData, Chunks, Pending, Concat;
    var h := HandleData(c, w, f);
    var x := Exchange(f, h.reply);
    if h.reply.kind == UPLOAD_DATA {
      var d := ParseData(f.body).value;
      PendingStep(log, x);
      ChunksStep(log, x);
      ConcatSnoc(Chunks(log, d.uploadId), d.chunk);
    } else {
      hide Matches;
      IdleMatches(c, h.conn, log, x);
    }
  }

  lemma CommitMatches(p: Ports, c: Conn, w: World, f: Frame, e: Env, log: seq<Exchange>)
    requires Matches(c, log) && f.kind == UPLOAD_COMMIT
    ensures var h := HandleCommit(p, c, w, f, e); Matches(h.conn, log + [Exchange(f, h.reply)])
  {
    hide Upload, CommitId, Chunks, Pending, Concat;
    var h := HandleCommit(p, c, w, f, e);
    var x := Exchange(f, h.reply);
    if h.reply.kind == UPLOAD_COMMIT {
      PendingStep(log, x);
      ChunksStep(log, x);
    } else {
      hide Matches;
      IdleMatches(c, h.conn, log, x);
    }
  }

  lemma OtherMatches(p: Ports, c: Conn, w: World, f: Frame, e: Env, log: seq<Exchange>)
    requires Matches(c, log) && f.kind != UPLOAD_INIT && f.kind != UPLOAD_DATA && f.kind != UPLOAD_COMMIT
    ensures var h := Handle(p, c, w, f, e); Matches(h.conn, log + [Exchange(f, h.reply)])
  {
    hide Matches, ParsePair, ParseRegister, Download, A.Login, A.AdminToken, A.SetInactive, Step;
    var h := Handle(p, c, w, f, e);
    IdleMatches(c, h.conn, log, Exchange(f, h.reply));
  }

  lemma HandleMatches(p: Ports, c: Conn, w: World, f: Frame, e: Env, log: seq<Exchange>)
    requires Matches(c, log)
    ensures var h := Handle(p, c, w, f, e); Matches(h.conn, log + [Exchange(f, h.reply)])
  {
    hide Matches, HandleInit, HandleData, HandleCommit;
    if f.kind == UPLOAD_INIT {
      InitMatches(p, c, w, f, e, log);
    } else if f.kind == UPLOAD_DATA {
      DataMatches(c, w, f, log);
    } else if f.kind == UPLOAD_COMMIT {
      CommitMatches(p, c, w, f, e, log);
    } else {
      OtherMatches(p, c, w, f, e, log);
    }
  }

  function Exchanges(frames: seq<Frame>, replies: seq<Frame>): seq<Exchange>
    requires |frames| == |replies|
  {
    seq(|frames|, i requires 0 <= i < |frames| => Exchange(frames[i], replies[i]))
  }

  lemma {:induction false} ServeMatchesFrom(p: Ports, c: Conn, w: World, frames: seq<Frame>, envs: seq<Env>, log: seq<Exchange>)
    requires |envs| == |frames| && Matches(c, log)
    ensures var s := Serve(p, c, w, frames, envs); Matches(s.conn, log + Exchanges(frames, s.replies))
    decreases |frames|
  {
    hide Matches, Handle;
    var s := Serve(p, c, w, frames, envs);
    if frames == [] {
      assert log + Exchanges(frames, s.replies) == log;
    } else {
      var h := Handle(p, c, w, frames[0], envs[0]);
      HandleMatches(p, c, w, frames[0], envs[0], log);
      var x := Exchange(frames[0], h.reply);
      ServeMatchesFrom(p, h.conn, h.world, frames[1..], envs[1..], log + [x]);
      var rest := Serve(p, h.conn, h.world, frames[1..], envs[1..]).replies;
      assert log + [x] + Exchanges(frames[1..], rest) == log + Exchanges(frames, s.replies);
    }
  }

  /** After any sequence of frames on a new connection, whatever the replies. */
  lemma ServeMatches(p: Ports, w: World, frames: seq<Frame>, envs: seq<Env>)
    requires |envs| == |frames|
    ensures var s := Serve(p, FRESH, w, frames, envs); Matches(s.conn, Exchanges(frames, s.replies))
  {
    hide Serve;
    ServeMatchesFrom(p, FRESH, w, frames, envs, []);
    assert [] + Exchanges(frames, Serve(p, FRESH, w, frames, envs).replies) == Exchanges(frames, Serve(p, FRESH, w, frames, envs).replies);
  }

  /** A chunk is accepted exactly when its upload is open and its offset is the number of bytes
      accepted so far. */
  lemma ChunkAcceptedIff(c: Conn, w: World, f: Frame, log: seq<Exchange>)
    requires Matches(c, log) && f.kind == UPLOAD_DATA && ParseData(f.body).Some?
    ensures var d := ParseData(f.body).value;
            HandleData(c, w, f).reply.kind == UPLOAD_DATA <==> d.uploadId in Pending(log) && d.offset == |Concat(Chunks(log, d.uploadId))|
  {
    hide ParseData;
  }

  /** Refused INIT, DATA and COMMIT frames leave the connection as it was, and no record. */
  lemma RefusedChangesNothing(p: Ports, c: Conn, w: World, f: Frame, e: Env)
    requires f.kind == UPLOAD_INIT || f.kind == UPLOAD_DATA || f.kind == UPLOAD_COMMIT
    requires Handle(p, c, w, f, e).reply.kind == ERR
    ensures Handle(p, c, w, f, e).conn == c && Handle(p, c, w, f, e).world.files == w.files
  {
    hide ParseInit, ParseData, CommitId, Upload;
    if f.kind == UPLOAD_COMMIT {
      var id := CommitId(f.body, c.inits.Keys);
      if id in c.inits && id in c.data {
        NotUploadedNoRecord(p, w, RequestOf(c.token, c.inits[id], c.data[id]), e.draw);
      }
    }
  }

  lemma NotUploadedNoRecord(p: Ports, w: World, q: Request, d: Draw)
    ensures !Upload(p, w, q, d).1.Uploaded? ==> Upload(p, w, q, d).0.files == w.files
  {
    hide Store, Refusal;
    if Refusal(p, w, q, d.now).None? {
      RefusalNone(p, w, q, d.now);
      StoreShape(w, RecordOf(SenderOf(p, w, q.token), A.ByUsername(w.accounts.users, q.recipient).value.id, q, d), q.blob, d);
    }
  }

  /** The same non-empty chunk sent twice is refused the second time. */
  lemma DuplicateChunkRefused(c: Conn, w: World, f: Frame)
    requires HandleData(c, w, f).reply.kind == UPLOAD_DATA && ParseData(f.body).value.chunk != []
    ensures var h := HandleData(c, w, f); HandleData(h.conn, w, f) == Handled(h.conn, w, Reply(f, ERR, []))
  {
    hide ParseData;
  }

  // ---------------------------------------------------------------------------------------
  // The connection's session
  // ---------------------------------------------------------------------------------------

  /** The token in force after an exchange: a successful AUTH replaces it, a successful LOGOUT of
      that very token clears it. */
  function TokenAfter(token: Text, x: Exchange): Text
  {
    if x.frame.kind == AUTH && x.reply.kind == AUTH then x.reply.body
    else if x.frame.kind == LOGOUT && x.reply.kind == LOGOUT && x.frame.body == token then []
    else token
  }

  function TokenSeen(token: Text, log: seq<Exchange>): Text
    decreases |log|
  {
    if log == [] then token else TokenSeen(TokenAfter(token, log[0]), log[1..])
  }

  lemma HandleToken(p: Ports, c: Conn, w: World, f: Frame, e: Env)
    ensures var h := Handle(p, c, w, f, e); h.conn.token == TokenAfter(c.token, Exchange(f, h.reply))
  {
    hide ParsePair, ParseRegister, ParseInit, ParseData, Download, CommitId, A.Login, A.AdminToken, A.SetInactive, Upload, Step;
    LoginToken(p, w, f, e);
  }

  lemma LoginToken(p: Ports, w: World, f: Frame, e: Env)
    ensures forall n, q :: var r := A.Login(p.crypto, w.accounts, n, q, e.draw.now, e.sessionToken).1; r.Some? ==> r.value == e.sessionToken
  {
    hide A.Judge;
  }

  /** The token the server acts under is the one the wire shows. */
  lemma {:induction false} ServeToken(p: Ports, c: Conn, w: World, frames: seq<Frame>, envs: seq<Env>)
    requires |envs| == |frames|
    ensures var s := Serve(p, c, w, frames, envs); s.conn.token == TokenSeen(c.token, Exchanges(frames, s.replies))
    decreases |frames|
  {
    hide Handle, TokenAfter;
    if frames != [] {
      var h := Handle(p, c, w, frames[0], envs[0]);
      HandleToken(p, c, w, frames[0], envs[0]);
      ServeToken(p, h.conn, h.world, frames[1..], envs[1..]);
      var s := Serve(p, c, w, frames, envs);
      assert s.replies[1..] == Serve(p, h.conn, h.world, frames[1..], envs[1..]).replies;
      assert Exchanges(frames, s.replies)[1..] == Exchanges(frames[1..], s.replies[1..]);
    }
  }

  /** No upload is opened or committed without a valid session of an existing, active user. */
  lemma UploadNeedsSession(p: Ports, c: Conn, w: World, f: Frame, e: Env)
    requires Inv(w) && (f.kind == UPLOAD_INIT || f.kind == UPLOAD_COMMIT) && Handle(p, c, w, f, e).reply.kind != ERR
    ensures c.token != [] && A.TokenValid(p.crypto, w.accounts, c.token, e.draw.now)
    ensures var user := SenderOf(p, w, c.token); user in w.accounts.users && w.accounts.users[user].IsActive()
  {
    hide ParseInit, CommitId, Upload, FilesOk;
    A.ValidTokenIsActive(p.crypto, w.accounts, c.token, e.draw.now);
  }

  // ---------------------------------------------------------------------------------------
  // Every run of the loop is a run of the account and transfer operations
  // ---------------------------------------------------------------------------------------

  /** The operation a frame performs on the server's state, if any. */
  ghost function OpsOf(c: Conn, f: Frame, e: Env): seq<Op>
  {
    if f.kind == REGISTER then
      match ParseRegister(f.body)
      case None => []
      case Some(r) => [Account(A.RegisterOp(r.username, r.email, r.password, "user", e.encoded, e.newUserId))]
    else if f.kind == LOGOUT then [Account(A.LogoutOp(f.body))]
    else if f.kind == AUTH || f.kind == ADMIN_ACTIVATE || f.kind == ADMIN_DEACTIVATE then
      match ParsePair(f.body)
      case None => []
      case Some(q) =>
        if f.kind == AUTH then [Account(A.LoginOp(q.first, q.second, e.draw.now, e.sessionToken))]
        else if f.kind == ADMIN_ACTIVATE then [Account(A.ActivateOp(q.first, q.second, e.draw.now))]
        else [Account(A.DeactivateOp(q.first, q.second, e.draw.now))]
    else if f.kind == UPLOAD_COMMIT then
      var id := CommitId(f.body, c.inits.Keys);
      if id in c.inits && id in c.data && c.token != [] then [Send(RequestOf(c.token, c.inits[id], c.data[id]), e.draw)] else []
    else []
  }

  lemma RunOne(p: Ports, w: World, op: Op)
    ensures Run(p, w, []) == w && Run(p, w, [op]) == Step(p, w, op)
  {
    hide Step;
    assert [op][..0] == [];
  }

  lemma HandleIsRun(p: Ports, c: Conn, w: World, f: Frame, e: Env)
    ensures Handle(p, c, w, f, e).world == Run(p, w, OpsOf(c, f, e))
  {
    hide ParsePair, ParseRegister, ParseInit, ParseData, Download, CommitId, A.Login, A.AdminToken, A.SetInactive, Run, Upload;
    var ops := OpsOf(c, f, e);
    RunOne(p, w, if ops == [] then PublishKey([]) else ops[0]);
    assert ops == [] || ops == [ops[0]];
    if ops != [] && f.kind == UPLOAD_COMMIT {
      InvalidTokenNoUpload(p, w, ops[0].request, e.draw);
    }
  }

  lemma InvalidTokenNoUpload(p: Ports, w: World, q: Request, d: Draw)
    ensures !A.TokenValid(p.crypto, w.accounts, q.token, d.now) ==> Upload(p, w, q, d).0 == w
  {
  }

  /** The operations a whole run of the loop performs. */
  ghost function ServeOps(p: Ports, c: Conn, w: World, frames: seq<Frame>, envs: seq<Env>): seq<Op>
    requires |envs| == |frames|
    decreases |frames|
  {
    if frames == [] then []
    else
      var h := Handle(p, c, w, frames[0], envs[0]);
      OpsOf(c, frames[0], envs[0]) + ServeOps(p, h.conn, h.world, frames[1..], envs[1..])
  }

  lemma {:induction false} RunConcat(p: Ports, w: World, xs: seq<Op>, ys: seq<Op>)
    ensures Run(p, w, xs + ys) == Run(p, Run(p, w, xs), ys)
    decreases |ys|
  {
    hide Step;
    if ys == [] {
      assert xs + ys == xs;
    } else {
      var n := |ys| - 1;
      RunConcat(p, w, xs, ys[..n]);
      assert (xs + ys)[..|xs| + n] == xs + ys[..n];
    }
  }

  /** So everything proved about runs of Transfers.dfy holds of the server behind the wire. */
  lemma {:induction false} ServeIsRun(p: Ports, c: Conn, w: World, frames: seq<Frame>, envs: seq<Env>)
    requires |envs| == |frames|
    ensures Serve(p, c, w, frames, envs).world == Run(p, w, ServeOps(p, c, w, frames, envs))
    decreases |frames|
  {
    hide Handle, OpsOf, Step;
    if frames != [] {
      var h := Handle(p, c, w, frames[0], envs[0]);
      HandleIsRun(p, c, w, frames[0], envs[0]);
      ServeIsRun(p, h.conn, h.world, frames[1..], envs[1..]);
      RunConcat(p, w, OpsOf(c, frames[0], envs[0]), ServeOps(p, h.conn, h.world, frames[1..], envs[1..]));
    }
  }

  lemma {:induction false} ServeSplit(p: Ports, c: Conn, w: World, frames: seq<Frame>, envs: seq<Env>, i: nat)
    requires |envs| == |frames| && i < |frames|
    ensures var s := Serve(p, c, w, frames[..i], envs[..i]);
            Serve(p, c, w, frames, envs).replies[i] == Handle(p, s.conn, s.world, frames[i], envs[i]).reply
    decreases i
  {
    hide Handle;
    if i > 0 {
      var h := Handle(p, c, w, frames[0], envs[0]);
      ServeSplit(p, h.conn, h.world, frames[1..], envs[1..], i - 1);
      assert frames[1..][..i - 1] == frames[..i][1..] && envs[1..][..i - 1] == envs[..i][1..];
    } else {
      assert frames[..0] == [] && envs[..0] == [];
    }
  }

  /** One connection, from accept to close. */
  datatype Visit = Visit(frames: seq<Frame>, envs: seq<Env>)

  /** The accept loop: one connection after the other, each with a connection state of its own. */
  ghost function ServeVisits(p: Ports, w: World, vs: seq<Visit>): World
    requires forall i :: 0 <= i < |vs| ==> |vs[i].envs| == |vs[i].frames|
    decreases |vs|
  {
    if vs == [] then w else ServeVisits(p, Serve(p, FRESH, w, vs[0].frames, vs[0].envs).world, vs[1..])
  }

  ghost function VisitOps(p: Ports, w: World, vs: seq<Visit>): seq<Op>
    requires forall i :: 0 <= i < |vs| ==> |vs[i].envs| == |vs[i].frames|
    decreases |vs|
  {
    if vs == [] then []
    else
      ServeOps(p, FRESH, w, vs[0].frames, vs[0].envs)
      + VisitOps(p, Serve(p, FRESH, w, vs[0].frames, vs[0].envs).world, vs[1..])
  }

  /** So any number of connections, one after the other, is one run too. */
  lemma {:induction false} VisitsAreRun(p: Ports, w: World, vs: seq<Visit>)
    requires forall i :: 0 <= i < |vs| ==> |vs[i].envs| == |vs[i].frames|
    ensures ServeVisits(p, w, vs) == Run(p, w, VisitOps(p, w, vs))
    decreases |vs|
  {
    hide Serve, ServeOps;
    if vs != [] {
      var v := vs[0];
      var w' := Serve(p, FRESH, w, v.frames, v.envs).world;
      ServeIsRun(p, FRESH, w, v.frames, v.envs);
      VisitsAreRun(p, w', vs[1..]);
      RunConcat(p, w, ServeOps(p, FRESH, w, v.frames, v.envs), VisitOps(p, w', vs[1..]));
    }
  }

  /** Everything that happened before frame `i` of a connection, since the server held no files. */
  ghost function History(p: Ports, w0: World, pre: seq<Op>, c: Conn, frames: seq<Frame>, envs: seq<Env>, i: nat): seq<Op>
    requires |envs| == |frames| && i < |frames|
  {
    pre + ServeOps(p, c, Run(p, w0, pre), frames[..i], envs[..i])
  }

  /** Bytes leave the server only in answer to a download request, and they are the bytes of the
      upload that created the file named, at any time since the server held no files: earlier on
      this connection or on any earlier one. The session used is valid and belongs to that
      upload's sender or recipient, who exists and is active. */
  lemma RelayedBytesAreAuthorised(p: Ports, w0: World, pre: seq<Op>, c: Conn, frames: seq<Frame>, envs: seq<Env>, i: nat) returns (j: nat)
    requires |envs| == |frames| && i < |frames| && Inv(w0) && w0.files == map[]
    requires AllFresh(p, w0, History(p, w0, pre, c, frames, envs, i))
    requires Serve(p, c, Run(p, w0, pre), frames, envs).replies[i].kind == DOWNLOAD_DATA
    ensures frames[i].kind == DOWNLOAD_REQ && ParsePair(frames[i].body).Some?
    ensures var q, ops := ParsePair(frames[i].body).value, History(p, w0, pre, c, frames, envs, i);
            && Sent(p, w0, ops, j, q.first)
            && Serve(p, c, Run(p, w0, pre), frames, envs).replies[i].body == ops[j].request.blob
    ensures var s, q := Serve(p, c, Run(p, w0, pre), frames[..i], envs[..i]), ParsePair(frames[i].body).value;
            var token := if q.second == [] then s.conn.token else q.second;
            var t := TransferAt(p, w0, History(p, w0, pre, c, frames, envs, i), j, q.first);
            && A.TokenValid(p.crypto, s.world.accounts, token, envs[i].draw.now)
            && var user := SenderOf(p, s.world, token);
            && (user == t.sender || user == t.recipient)
            && user in s.world.accounts.users && s.world.accounts.users[user].IsActive()
  {
    var w := Run(p, w0, pre);
    var s := Serve(p, c, w, frames[..i], envs[..i]);
    ServeSplit(p, c, w, frames, envs, i);
    ServeIsRun(p, c, w, frames[..i], envs[..i]);
    RunConcat(p, w0, pre, ServeOps(p, c, w, frames[..i], envs[..i]));
    var ops := History(p, w0, pre, c, frames, envs, i);
    assert s.world == Run(p, w0, ops);
    hide Serve, ServeOps, Inv, AllFresh, Run, Download, History;
    OnlyDownloadsRelay(p, s.conn, s.world, frames[i], envs[i]);
    var q := ParsePair(frames[i].body).value;
    j := DownloadSound(p, w0, ops, if q.second == [] then s.conn.token else q.second, q.first, envs[i].draw.now);
  }

  lemma OnlyDownloadsRelay(p: Ports, c: Conn, w: World, f: Frame, e: Env)
    requires Handle(p, c, w, f, e).reply.kind == DOWNLOAD_DATA
    ensures f.kind == DOWNLOAD_REQ && ParsePair(f.body).Some?
    ensures var q := ParsePair(f.body).value;
            var r := Download(p, w, if q.second == [] then c.token else q.second, q.first, e.draw.now);
            && r.Bytes? && r.data == Handle(p, c, w, f, e).reply.body
            && A.TokenValid(p.crypto, w.accounts, if q.second == [] then c.token else q.second, e.draw.now)
  {
    hide ParsePair, ParseRegister, ParseInit, ParseData, CommitId, A.Login, A.AdminToken, A.SetInactive, Upload, Step;
  }
}
