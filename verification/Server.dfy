/** The server's connection loop (src/presentation/server_app.cpp): one frame in, one reply out,
    with the uploads in progress kept per connection. */
module Server {
  import opened Bytes
  import opened Framing
  import opened Protocol
  import opened Transfers
  import opened Repositories
  import A = Accounts
  import S = Services
  import TS = TransferServices

  /** `pendingInit`, `pendingData` and `connToken`. */
  datatype Conn = Conn(inits: map<Text, UploadInit>, data: map<Text, Text>, token: Text)

  const FRESH := Conn(map[], map[], [])

  /** What handling one frame draws from its surroundings; `note` is the text of a reply that is
      meant for people. */
  datatype Env = Env(draw: Draw, sessionToken: Text, newUserId: Text, encoded: Text, note: Text)

  datatype Handled = Handled(conn: Conn, world: World, reply: Frame)

  const OK: Text := Ascii("ok")

  // ---------------------------------------------------------------------------------------
  // One frame
  // ---------------------------------------------------------------------------------------

  /** The upload id a COMMIT body names: length-prefixed, or an encoded chunk, or plain. */
  function RawCommitId(body: Text): Text
  {
    if |body| < 4 then body
    else if (Get32(body) + 4) % TWO32 == |body| then body[4..]
    else
      match ParseData(body)
      case Some(d) => d.uploadId
      case None => body
  }

  ghost function TheOnly(keys: set<Text>): (k: Text)
    requires |keys| == 1
    ensures keys == {k}
  {
    var k :| k in keys;
    assert |keys - {k}| == 0;
    k
  }

  /** An empty id stands for the only upload in progress, if there is exactly one. */
  ghost function CommitId(body: Text, pending: set<Text>): Text
  {
    if RawCommitId(body) == [] && |pending| == 1 then TheOnly(pending) else RawCommitId(body)
  }

  function RequestOf(token: Text, init: UploadInit, body: Text): Request
  {
    Request(token, init.recipient, init.origName, body, init.uploadId, init.size, init.digest, init.wrapped)
  }

  function Reply(f: Frame, kind: byte, body: Text): Frame
  {
    Frame(kind, f.requestId, body)
  }

  ghost function HandleInit(p: Ports, c: Conn, w: World, f: Frame, e: Env): Handled
  {
    match ParseInit(f.body)
    case None => Handled(c, w, Reply(f, ERR, []))
    case Some(init) =>
      if c.token == [] then Handled(c, w, Reply(f, ERR, Ascii("no token")))
      else if !A.TokenValid(p.crypto, w.accounts, c.token, e.draw.now) then Handled(c, w, Reply(f, ERR, []))
      else if !p.validate(init.origName, init.size, PDF_HEADER) then Handled(c, w, Reply(f, ERR, e.note))
      else Handled(c.(inits := c.inits[init.uploadId := init], data := c.data[init.uploadId := []]), w, Reply(f, UPLOAD_INIT, OK))
  }

  function HandleData(c: Conn, w: World, f: Frame): Handled
  {
    match ParseData(f.body)
    case None => Handled(c, w, Reply(f, ERR, []))
    case Some(d) =>
      if d.uploadId !in c.data || d.offset != |c.data[d.uploadId]| then Handled(c, w, Reply(f, ERR, []))
      else Handled(c.(data := c.data[d.uploadId := c.data[d.uploadId] + d.chunk]), w, Reply(f, UPLOAD_DATA, OK))
  }

  ghost function HandleCommit(p: Ports, c: Conn, w: World, f: Frame, e: Env): Handled
  {
    var id := CommitId(f.body, c.inits.Keys);
    if id !in c.inits || id !in c.data then Handled(c, w, Reply(f, ERR, []))
    else if c.token == [] || !A.TokenValid(p.crypto, w.accounts, c.token, e.draw.now) then Handled(c, w, Reply(f, ERR, []))
    else
      var (w', res) := Upload(p, w, RequestOf(c.token, c.inits[id], c.data[id]), e.draw);
      match res
      case Uploaded(t) => Handled(c.(inits := c.inits - {id}, data := c.data - {id}), w', Reply(f, UPLOAD_COMMIT, t.id))
      case Duplicate => Handled(c, w', Reply(f, ERR, e.note))
      case Thrown(_) => Handled(c, w', Reply(f, ERR, []))
  }

  function HandleDownload(p: Ports, c: Conn, w: World, f: Frame, e: Env): Handled
  {
    match ParsePair(f.body)
    case None => Handled(c, w, Reply(f, ERR, []))
    case Some(q) =>
      match Download(p, w, if q.second == [] then c.token else q.second, q.first, e.draw.now)
      case Bytes(data) => Handled(c, w, Reply(f, DOWNLOAD_DATA, data))
      case Refused => Handled(c, w, Reply(f, ERR, e.note))
      case LoginFailed => Handled(c, w, Reply(f, ERR, []))
  }

  ghost function HandleAccount(p: Ports, c: Conn, w: World, f: Frame, e: Env): Handled
  {
    if f.kind == REGISTER then
      match ParseRegister(f.body)
      case None => Handled(c, w, Reply(f, ERR, []))
      case Some(r) =>
        Handled(c, Step(p, w, Account(A.RegisterOp(r.username, r.email, r.password, "user", e.encoded, e.newUserId))), Reply(f, REGISTER, e.note))
    else if f.kind == AUTH then
      match ParsePair(f.body)
      case None => Handled(c, w, Reply(f, ERR, []))
      case Some(q) =>
        var (s, r) := A.Login(p.crypto, w.accounts, q.first, q.second, e.draw.now, e.sessionToken);
        if r.Some? then Handled(c.(token := r.value), w.(accounts := s), Reply(f, AUTH, r.value))
        else Handled(c, w.(accounts := s), Reply(f, ERR, e.note))
    else if f.kind == LOGOUT then
      var ok := p.crypto.hash(f.body) in w.accounts.sessions;
      Handled(if ok && c.token == f.body then c.(token := []) else c, Step(p, w, Account(A.LogoutOp(f.body))), Reply(f, if ok then LOGOUT else ERR, e.note))
    else
      match ParsePair(f.body)
      case None => Handled(c, w, Reply(f, ERR, []))
      case Some(q) =>
        var cleared := A.AdminToken(p.crypto, w.accounts, q.first, e.draw.now);
        if f.kind == ADMIN_ACTIVATE then
          Handled(c, Step(p, w, Account(A.ActivateOp(q.first, q.second, e.draw.now))),
                  Reply(f, if cleared && q.second in w.accounts.users then f.kind else ERR, e.note))
        else
          Handled(c, Step(p, w, Account(A.DeactivateOp(q.first, q.second, e.draw.now))),
                  Reply(f, if cleared && A.SetInactive(w.accounts, q.second).1 then f.kind else ERR, e.note))
  }

  predicate IsAccountFrame(f: Frame)
  {
    f.kind == REGISTER || f.kind == AUTH || f.kind == LOGOUT || f.kind == ADMIN_ACTIVATE || f.kind == ADMIN_DEACTIVATE
  }

  ghost function Handle(p: Ports, c: Conn, w: World, f: Frame, e: Env): Handled
  {
    if IsAccountFrame(f) then HandleAccount(p, c, w, f, e)
    else if f.kind == UPLOAD_INIT then HandleInit(p, c, w, f, e)
    else if f.kind == UPLOAD_DATA then HandleData(c, w, f)
    else if f.kind == UPLOAD_COMMIT then HandleCommit(p, c, w, f, e)
    else if f.kind == DOWNLOAD_REQ then HandleDownload(p, c, w, f, e)
    else if f.kind == LIST || f.kind == DOWNLOAD_DATA then Handled(c, w, Reply(f, LIST, []))
    else Handled(c, w, Reply(f, ERR, []))
  }

  datatype Served = Served(conn: Conn, world: World, replies: seq<Frame>)

  /** The connection loop over a list of received frames. */
  ghost function Serve(p: Ports, c: Conn, w: World, frames: seq<Frame>, envs: seq<Env>): (r: Served)
    requires |envs| == |frames|
    ensures |r.replies| == |frames|
    decreases |frames|
  {
    if frames == [] then Served(c, w, [])
    else
      var h := Handle(p, c, w, frames[0], envs[0]);
      var rest := Serve(p, h.conn, h.world, frames[1..], envs[1..]);
      rest.(replies := [h.reply] + rest.replies)
  }

  /** The loop with its receive buffer: what is served, and what is left unread. */
  ghost function ReceiveAndServe(p: Ports, c: Conn, w: World, buf: Text, input: seq<Text>, envs: seq<Env>): (Served, Text, seq<Text>)
  {
    var (frames, b, rest) := ReceiveMany(|envs|, buf, input);
    (Serve(p, c, w, frames, envs[..|frames|]), b, rest)
  }

  function Prepend(replies: seq<Frame>, r: (Served, Text, seq<Text>)): (Served, Text, seq<Text>)
  {
    (r.0.(replies := replies + r.0.replies), r.1, r.2)
  }

  lemma Nothing(xs: seq<Frame>)
    ensures [] + xs == xs && xs + [] == xs
  {
  }

  lemma PrependTwice(xs: seq<Frame>, x: Frame, r: (Served, Text, seq<Text>))
    ensures Prepend(xs, Prepend([x], r)) == Prepend(xs + [x], r)
  {
    assert xs + ([x] + r.0.replies) == xs + [x] + r.0.replies;
  }

  lemma ReceiveAndServeStep(p: Ports, c: Conn, w: World, buf: Text, input: seq<Text>, envs: seq<Env>)
    requires envs != []
    ensures ReceiveAndServe(p, c, w, buf, input, envs) ==
            match Receive(buf, input)
            case Closed(b, rest) => (Served(c, w, []), b, rest)
            case Delivered(f, b, rest) =>
              var h := Handle(p, c, w, f, envs[0]);
              Prepend([h.reply], ReceiveAndServe(p, h.conn, h.world, b, rest, envs[1..]))
  {
    hide Handle, Receive;
    var r := Receive(buf, input);
    if r.Delivered? {
      var later := ReceiveMany(|envs| - 1, r.buf, r.input).0;
      var frames := [r.frame] + later;
      assert frames[1..] == later && envs[..|frames|][1..] == envs[1..][..|later|];
    }
  }

  lemma ReceiveAndServeEnd(p: Ports, c: Conn, w: World, buf: Text, input: seq<Text>)
    ensures ReceiveAndServe(p, c, w, buf, input, []) == (Served(c, w, []), buf, input)
  {
  }

  // ---------------------------------------------------------------------------------------
  // The connection loop as a class over the services
  // ---------------------------------------------------------------------------------------

  class Connection {
    const auth: S.AuthService
    const admin: S.AdminService
    const transfers: TS.TransferService
    var pendingInit: map<Text, UploadInit>
    var pendingData: map<Text, Text>
    var connToken: Text

    ghost predicate Valid()
      reads this, transfers, transfers.files, transfers.users, transfers.sessions
    {
      && transfers.Valid()
      && auth.repo == admin.repo == transfers.users && auth.sessions == admin.sessions == transfers.sessions
      && auth.crypto == admin.crypto == transfers.ports.crypto
    }

    ghost function State(): Conn
      reads this
    {
      Conn(pendingInit, pendingData, connToken)
    }

    ghost function Ports(): Ports
    {
      transfers.ports
    }

    constructor (auth: S.AuthService, admin: S.AdminService, transfers: TS.TransferService)
      requires transfers.Valid()
      requires auth.repo == admin.repo == transfers.users && auth.sessions == admin.sessions == transfers.sessions
      requires auth.crypto == admin.crypto == transfers.ports.crypto
      ensures Valid() && State() == FRESH
    {
      this.auth, this.admin, this.transfers := auth, admin, transfers;
      pendingInit, pendingData, connToken := map[], map[], [];
    }

    method OnInit(f: Frame, e: Env) returns (reply: Frame)
      requires Valid()
      modifies this
      ensures Valid()
      ensures Handled(State(), transfers.View(), reply) == old(HandleInit(Ports(), State(), transfers.View(), f, e))
    {
      hide ParseInit;
      var init := DecodeUploadInit(f.body);
      if init.None? {
        return Reply(f, ERR, []);
      }
      if connToken == [] {
        return Reply(f, ERR, Ascii("no token"));
      }
      var valid := transfers.sessions.IsValid(connToken, e.draw.now);
      if !valid {
        return Reply(f, ERR, []);
      }
      if !transfers.ports.validate(init.value.origName, init.value.size, PDF_HEADER) {
        return Reply(f, ERR, e.note);
      }
      pendingInit := pendingInit[init.value.uploadId := init.value];
      pendingData := pendingData[init.value.uploadId := []];
      reply := Reply(f, UPLOAD_INIT, OK);
    }

    method OnData(f: Frame) returns (reply: Frame)
      requires Valid()
      modifies this`pendingData
      ensures Valid()
      ensures Handled(State(), transfers.View(), reply) == old(HandleData(State(), transfers.View(), f))
    {
      hide ParseData;
      var d := DecodeUploadData(f.body);
      if d.None? || d.value.uploadId !in pendingData {
        return Reply(f, ERR, []);
      }
      var id := d.value.uploadId;
      if d.value.offset != |pendingData[id]| {
        return Reply(f, ERR, []);
      }
      pendingData := pendingData[id := pendingData[id] + d.value.chunk];
      reply := Reply(f, UPLOAD_DATA, OK);
    }

    method FindCommitId(body: Text) returns (id: Text)
      ensures id == CommitId(body, pendingInit.Keys)
    {
      hide ParseData;
      id := [];
      if body != [] {
        if |body| >= 4 {
          var len := Get32(body);
          if (len + 4) % TWO32 == |body| {
            id := body[4..];
          } else {
            var d := DecodeUploadData(body);
            id := if d.Some? then d.value.uploadId else body;
          }
        } else {
          id := body;
        }
      }
      assert id == RawCommitId(body);
      hide RawCommitId;
      if id == [] && |pendingInit.Keys| == 1 {
        var k :| k in pendingInit.Keys;
        id := k;
      }
    }

    method OnCommit(f: Frame, e: Env) returns (reply: Frame)
      requires Valid()
      modifies this, transfers.storage, transfers.files
      ensures Valid()
      ensures Handled(State(), transfers.View(), reply) == old(HandleCommit(Ports(), State(), transfers.View(), f, e))
    {
      hide CommitId, Upload;
      var id := FindCommitId(f.body);
      if id !in pendingInit || id !in pendingData {
        return Reply(f, ERR, []);
      }
      if connToken == [] {
        return Reply(f, ERR, []);
      }
      var valid := transfers.sessions.IsValid(connToken, e.draw.now);
      if !valid {
        return Reply(f, ERR, []);
      }
      var res := transfers.UploadFile(RequestOf(connToken, pendingInit[id], pendingData[id]), e.draw);
      match res
      case Uploaded(t) =>
        reply := Reply(f, UPLOAD_COMMIT, t.id);
        pendingInit := pendingInit - {id};
        pendingData := pendingData - {id};
      case Duplicate => reply := Reply(f, ERR, e.note);
      case Thrown(_) => reply := Reply(f, ERR, []);
    }

    method OnDownload(f: Frame, e: Env) returns (reply: Frame)
      requires Valid()
      ensures Handled(State(), transfers.View(), reply) == HandleDownload(Ports(), State(), transfers.View(), f, e)
    {
      hide ParsePair, Download;
      var q := DecodePair(f.body);
      if q.None? {
        return Reply(f, ERR, []);
      }
      var token := if q.value.second == [] then connToken else q.value.second;
      var res := transfers.DownloadFile(token, q.value.first, e.draw.now);
      match res
      case Bytes(data) => reply := Reply(f, DOWNLOAD_DATA, data);
      case Refused => reply := Reply(f, ERR, e.note);
      case LoginFailed => reply := Reply(f, ERR, []);
    }

    method OnAccount(f: Frame, e: Env) returns (reply: Frame)
      requires Valid() && IsAccountFrame(f)
      modifies this`connToken, transfers.users, transfers.sessions
      ensures Valid()
      ensures Handled(State(), transfers.View(), reply) == old(HandleAccount(Ports(), State(), transfers.View(), f, e))
    {
      hide ParsePair, ParseRegister, A.Register, A.Login, A.AdminToken, A.SetInactive, A.SetActive, A.Revoke, Upload;
      if f.kind == REGISTER {
        var r := DecodeRegister(f.body);
        if r.None? {
          return Reply(f, ERR, []);
        }
        var _ := auth.RegisterUser(r.value.username, r.value.email, r.value.password, "user", e.encoded, e.newUserId);
        reply := Reply(f, REGISTER, e.note);
      } else if f.kind == LOGOUT {
        var ok := auth.Logout(f.body);
        reply := Reply(f, if ok then LOGOUT else ERR, e.note);
        if ok && connToken == f.body {
          connToken := [];
        }
      } else {
        var q := DecodePair(f.body);
        if q.None? {
          return Reply(f, ERR, []);
        }
        if f.kind == AUTH {
          var token := auth.LoginUser(q.value.first, q.value.second, e.draw.now, e.sessionToken);
          if token.Some? {
            connToken := token.value;
            reply := Reply(f, AUTH, token.value);
          } else {
            reply := Reply(f, ERR, e.note);
          }
        } else if f.kind == ADMIN_ACTIVATE {
          var ok := admin.Activate(q.value.first, q.value.second, e.draw.now);
          reply := Reply(f, if ok then f.kind else ERR, e.note);
        } else {
          var ok := admin.Deactivate(q.value.first, q.value.second, e.draw.now);
          reply := Reply(f, if ok then f.kind else ERR, e.note);
        }
      }
    }

    /** The dispatch of the loop body. */
    method OnFrame(f: Frame, e: Env) returns (reply: Frame)
      requires Valid()
      modifies this, transfers.storage, transfers.files, transfers.users, transfers.sessions
      ensures Valid()
      ensures Handled(State(), transfers.View(), reply) == old(Handle(Ports(), State(), transfers.View(), f, e))
    {
      hide HandleAccount, HandleInit, HandleData, HandleCommit, HandleDownload;
      if f.kind == REGISTER || f.kind == AUTH || f.kind == LOGOUT || f.kind == ADMIN_ACTIVATE || f.kind == ADMIN_DEACTIVATE {
        reply := OnAccount(f, e);
      } else if f.kind == UPLOAD_INIT {
        reply := OnInit(f, e);
      } else if f.kind == UPLOAD_DATA {
        reply := OnData(f);
      } else if f.kind == UPLOAD_COMMIT {
        reply := OnCommit(f, e);
      } else if f.kind == DOWNLOAD_REQ {
        reply := OnDownload(f, e);
      } else if f.kind == LIST || f.kind == DOWNLOAD_DATA {
        reply := Reply(f, LIST, []);
      } else {
        reply := Reply(f, ERR, []);
      }
    }

    /** One turn of the loop: false when `recvFrame` fails. */
    method Turn(rx: Receiver, e: Env) returns (more: bool, reply: Frame)
      requires Valid()
      modifies this, rx, transfers.storage, transfers.files, transfers.users, transfers.sessions
      ensures Valid()
      ensures var r := old(Receive(rx.rxBuf, rx.incoming));
              && rx.rxBuf == r.buf && rx.incoming == r.input && more == r.Delivered?
              && (!more ==> State() == old(State()) && transfers.View() == old(transfers.View()))
              && (more ==> Handled(State(), transfers.View(), reply) == old(Handle(Ports(), State(), transfers.View(), r.frame, e)))
    {
      hide Handle, Receive;
      var f := rx.RecvFrame();
      assert State() == old(State()) && transfers.View() == old(transfers.View());
      more, reply := f.Some?, Frame(0, 0, []);
      if more {
        reply := OnFrame(f.value, e);
      }
    }

    /** The loop itself: receive, dispatch, reply, until `recvFrame` fails. `envs` holds one
        entry for each frame the connection will carry. */
    method Loop(rx: Receiver, envs: seq<Env>) returns (replies: seq<Frame>)
      requires Valid()
      modifies this, rx, transfers.storage, transfers.files, transfers.users, transfers.sessions
      ensures Valid()
      ensures (Served(State(), transfers.View(), replies), rx.rxBuf, rx.incoming)
           == old(ReceiveAndServe(Ports(), State(), transfers.View(), rx.rxBuf, rx.incoming, envs))
    {
      hide Handle, Receive, ReceiveAndServe;
      replies := [];
      ghost var whole := ReceiveAndServe(Ports(), State(), transfers.View(), rx.rxBuf, rx.incoming, envs);
      Nothing(whole.0.replies);
      assert envs[0..] == envs;
      var i := 0;
      while i < |envs|
        invariant 0 <= i <= |envs| && Valid()
        invariant whole == Prepend(replies, ReceiveAndServe(Ports(), State(), transfers.View(), rx.rxBuf, rx.incoming, envs[i..]))
      {
        ReceiveAndServeStep(Ports(), State(), transfers.View(), rx.rxBuf, rx.incoming, envs[i..]);
        assert envs[i..][0] == envs[i] && envs[i..][1..] == envs[i + 1..];
        var more, reply := Turn(rx, envs[i]);
        if !more {
          Nothing(replies);
          return;
        }
        PrependTwice(replies, reply, ReceiveAndServe(Ports(), State(), transfers.View(), rx.rxBuf, rx.incoming, envs[i + 1..]));
        replies := replies + [reply];
        i := i + 1;
      }
      assert envs[i..] == [];
      ReceiveAndServeEnd(Ports(), State(), transfers.View(), rx.rxBuf, rx.incoming);
      Nothing(replies);
    }
  }
}
