/** From the client's cipher to the stored blob and back: client, wire, receive buffer, connection
    loop and transfer service together (src/presentation/client_app.cpp,
    src/infrastructure/asio_tls_transport.cpp, src/presentation/server_app.cpp,
    src/application/transfer_service.cpp). */
module EndToEnd {
  import opened Bytes
  import opened Framing
  import opened Protocol
  import opened Transfers
  import opened Server
  import opened Client
  import A = Accounts
  import St = Storage

  /** The frames of an upload in which the client sends the first `k` chunks before committing. */
  function Frames(init: UploadInit, cipher: Text, k: nat): seq<Frame>
    requires |cipher| < TWO64 && k <= |ChunksFrom(init.uploadId, cipher, 0)|
  {
    [InitFrame(init)] + DataFrames(ChunksFrom(init.uploadId, cipher, 0)[..k]) + [CommitFrame(init.uploadId)]
  }

  /** Uploads the protocol can carry: the id is not empty, and every frame is within the limit. */
  predicate Sendable(init: UploadInit, cipher: Text)
  {
    && |cipher| < TWO64 && 0 < |init.uploadId| <= MAX_LEN - CHUNK - 21
    && HoldsAll(INIT_SCHEMA, InitFields(init)) && Fits(InitFrame(init))
  }

  /** What the first `k` chunks hold. */
  function Covered(cipher: Text, k: nat): Text
  {
    cipher[..Min(k * CHUNK, |cipher|)]
  }

  function Normalised(init: UploadInit): UploadInit
  {
    init.(wrapped := init.wrapped.(alg := Normal(init.wrapped.alg)))
  }

  // ---------------------------------------------------------------------------------------
  // The server's side, frame by frame
  // ---------------------------------------------------------------------------------------

  lemma InitHandled(p: Ports, c: Conn, w: World, init: UploadInit, e: Env)
    requires HoldsAll(INIT_SCHEMA, InitFields(init))
    ensures var h := Handle(p, c, w, InitFrame(init), e);
            && h.world == w
            && (h.reply.kind != ERR ==>
                  h.conn == c.(inits := c.inits[init.uploadId := Normalised(init)], data := c.data[init.uploadId := []]))
  {
    hide Print, ParseInit, InitFields;
    UploadInitCodec(init, [], []);
    var body := Print(INIT_SCHEMA, InitFields(init));
    assert body + [] == body;
  }

  lemma DataHandled(p: Ports, c: Conn, w: World, d: UploadData, e: Env)
    requires HoldsAll(DATA_SCHEMA, DataFields(d)) && d.uploadId in c.data && d.offset == |c.data[d.uploadId]|
    ensures var h := Handle(p, c, w, DataFrame(d), e);
            h.world == w && h.reply.kind == UPLOAD_DATA && h.conn == c.(data := c.data[d.uploadId := c.data[d.uploadId] + d.chunk])
  {
    hide Print, ParseData, DataFields;
    UploadDataCodec(d, [], []);
    var body := Print(DATA_SCHEMA, DataFields(d));
    assert body + [] == body;
  }

  lemma CommitNames(id: Text, pending: set<Text>)
    requires 0 < |id| < TWO32 - 4
    ensures CommitId(CommitFrame(id).body, pending) == id
  {
    hide Be32;
    Get32OfBe32(|id|, id);
    hide Get32, ParseData;
    var body := CommitFrame(id).body;
    assert body[4..] == id;
  }

  /** Chunks of one upload that follow on each other from offset `start`. */
  ghost predicate InOrder(ds: seq<UploadData>, id: Text, start: nat)
  {
    ds != [] ==>
      && ds[0].uploadId == id && ds[0].offset == start && HoldsAll(DATA_SCHEMA, DataFields(ds[0]))
      && InOrder(ds[1..], id, start + |ds[0].chunk|)
  }

  /** An open upload accepts every list of chunks that continues it in order. */
  lemma {:induction false} DataAccepted(p: Ports, c: Conn, w: World, id: Text, ds: seq<UploadData>, envs: seq<Env>)
    requires |envs| == |ds| && id in c.data && InOrder(ds, id, |c.data[id]|)
    ensures var s := Serve(p, c, w, DataFrames(ds), envs);
            && s.world == w
            && s.conn == c.(data := c.data[id := c.data[id] + Concat(Bodies(ds))])
            && (forall i :: 0 <= i < |ds| ==> s.replies[i].kind == UPLOAD_DATA)
    decreases |ds|
  {
    hide Handle, DataFrame, HoldsAll;
    if ds == [] {
      assert c.data[id] + [] == c.data[id] && c.data[id := c.data[id]] == c.data;
    } else {
      var d, later := ds[0], ds[1..];
      assert DataFrames(ds)[0] == DataFrame(d) && DataFrames(ds)[1..] == DataFrames(later);
      assert Bodies(ds)[0] == d.chunk && Bodies(ds)[1..] == Bodies(later);
      DataHandled(p, c, w, d, envs[0]);
      var h := Handle(p, c, w, DataFrame(d), envs[0]);
      DataAccepted(p, h.conn, w, id, later, envs[1..]);
      var b := c.data[id];
      assert b + d.chunk + Concat(Bodies(later)) == b + (d.chunk + Concat(Bodies(later)));
      var m := c.data[id := b + d.chunk];
      assert m[id := m[id] + Concat(Bodies(later))] == c.data[id := b + Concat(Bodies(ds))];
    }
  }

  /** One step of the client's chunk list. */
  lemma ChunksHead(id: Text, cipher: Text, off: nat, k: nat) returns (n: nat, d: UploadData)
    requires |cipher| < TWO64 && off <= |cipher| && 0 < k <= |ChunksFrom(id, cipher, off)|
    ensures n == Min(CHUNK, |cipher| - off) && off + n <= |cipher| && d == UploadData(id, off, cipher[off..off + n])
    ensures k - 1 <= |ChunksFrom(id, cipher, off + n)|
    ensures ChunksFrom(id, cipher, off)[..k] == [d] + ChunksFrom(id, cipher, off + n)[..k - 1]
    ensures k > 1 ==> n == CHUNK && off + n < |cipher|
  {
    n := Min(CHUNK, |cipher| - off);
    d := UploadData(id, off, cipher[off..off + n]);
    if k > 1 {
      ChunksMore(id, cipher, off + n);
    }
  }

  /** The client's chunks are in order. */
  lemma {:induction false} ChunksInOrder(id: Text, cipher: Text, off: nat, k: nat)
    requires |cipher| < TWO64 && off <= |cipher| && |id| <= MAX_LEN - CHUNK - 21 && k <= |ChunksFrom(id, cipher, off)|
    ensures InOrder(ChunksFrom(id, cipher, off)[..k], id, off)
    decreases k
  {
    hide HoldsAll, Fits, DataFrame, ChunksFrom;
    if k > 0 {
      var n, d := ChunksHead(id, cipher, off, k);
      DataFrameFits(d);
      ChunksInOrder(id, cipher, off + n, k - 1);
      var later := ChunksFrom(id, cipher, off + n)[..k - 1];
      assert ([d] + later)[1..] == later;
    }
  }

  /** And `k` of them hold the first `k` megabytes. */
  lemma {:induction false} ChunksHold(id: Text, cipher: Text, off: nat, k: nat)
    requires |cipher| < TWO64 && off <= |cipher| && k <= |ChunksFrom(id, cipher, off)|
    ensures Concat(Bodies(ChunksFrom(id, cipher, off)[..k])) == cipher[off..Min(off + k * CHUNK, |cipher|)]
    decreases k
  {
    hide ChunksFrom;
    if k > 0 {
      var n, d := ChunksHead(id, cipher, off, k);
      ChunksHold(id, cipher, off + n, k - 1);
      var later := ChunksFrom(id, cipher, off + n)[..k - 1];
      assert Bodies([d] + later)[0] == d.chunk && Bodies([d] + later)[1..] == Bodies(later);
      var end := Min(off + k * CHUNK, |cipher|);
      assert Min(off + n + (k - 1) * CHUNK, |cipher|) == end;
      assert cipher[off..off + n] + cipher[off + n..end] == cipher[off..end];
    }
  }

  lemma ChunksMore(id: Text, cipher: Text, off: nat)
    requires |cipher| < TWO64
    ensures ChunksFrom(id, cipher, off) != [] ==> off < |cipher|
  {
  }

  lemma {:induction false} ServeAppend(p: Ports, c: Conn, w: World, fs: seq<Frame>, gs: seq<Frame>, es: seq<Env>, ds: seq<Env>)
    requires |fs| == |es| && |gs| == |ds|
    ensures var s := Serve(p, c, w, fs, es);
            var t := Serve(p, s.conn, s.world, gs, ds);
            Serve(p, c, w, fs + gs, es + ds) == t.(replies := s.replies + t.replies)
    decreases |fs|
  {
    hide Handle;
    if fs == [] {
      assert fs + gs == gs && es + ds == ds;
    } else {
      var h := Handle(p, c, w, fs[0], es[0]);
      ServeAppend(p, h.conn, h.world, fs[1..], gs, es[1..], ds);
      assert (fs + gs)[1..] == fs[1..] + gs && (es + ds)[1..] == es[1..] + ds;
    }
  }

  lemma ServeOne(p: Ports, c: Conn, w: World, f: Frame, e: Env)
    ensures var h := Handle(p, c, w, f, e); Serve(p, c, w, [f], [e]) == Served(h.conn, h.world, [h.reply])
  {
    hide Handle;
    assert [f][1..] == [] && [e][1..] == [];
  }

  // ---------------------------------------------------------------------------------------
  // The whole upload
  // ---------------------------------------------------------------------------------------

  /** File `f` holds `body`, sent by the user of the connection's session under `init`. */
  ghost predicate Delivered(p: Ports, c: Conn, w: World, w': World, init: UploadInit, body: Text, d: Draw)
  {
    && A.TokenValid(p.crypto, w.accounts, c.token, d.now)
    && d.fileId in w'.files && d.fileId !in w.files
    && var r := w'.files[d.fileId];
    && A.ByUsername(w.accounts.users, init.recipient).Some? && r.recipient == A.ByUsername(w.accounts.users, init.recipient).value.id
    && r == RecordOf(SenderOf(p, w, c.token), r.recipient, RequestOf(c.token, Normalised(init), body), d)
    && Held(w', d.fileId, Transfer(d.transferId, d.fileId, r.owner, r.recipient), body)
    && w' == Upload(p, w, RequestOf(c.token, Normalised(init), body), d).0
    && Upload(p, w, RequestOf(c.token, Normalised(init), body), d).1 == Uploaded(Transfer(d.transferId, d.fileId, r.owner, r.recipient))
  }

  /** The record of a delivered upload, field by field. */
  lemma DeliveredRecord(p: Ports, c: Conn, w: World, w': World, init: UploadInit, body: Text, d: Draw)
    requires Delivered(p, c, w, w', init, body, d)
    ensures var r := w'.files[d.fileId];
            && r.origName == init.origName && r.uploadId == init.uploadId && r.size == init.size && r.digest == init.digest
            && r.wrapped.recipientId == init.wrapped.recipientId && r.wrapped.nonce == init.wrapped.nonce && r.wrapped.bytes == init.wrapped.bytes
            && r.wrapped.alg == (if init.wrapped.alg == [] then Ascii("X25519-AES-GCM-Seal") else init.wrapped.alg)
            && r.createdAt == d.now && r.id == d.fileId && r.storageId == d.blobId + Ascii(".bin")
            && r.storageId in w'.blobs && w'.blobs[r.storageId] == body
            && r.owner == w.accounts.sessions[p.crypto.hash(c.token)].userId
  {
    hide Upload;
  }

  lemma CommitHandled(p: Ports, c: Conn, w: World, init: UploadInit, e: Env)
    requires 0 < |init.uploadId| < TWO32 - 4
    requires init.uploadId in c.inits && c.inits[init.uploadId] == Normalised(init) && init.uploadId in c.data
    requires Handle(p, c, w, CommitFrame(init.uploadId), e).reply.kind != ERR
    ensures Delivered(p, c, w, Handle(p, c, w, CommitFrame(init.uploadId), e).world, init, c.data[init.uploadId], e.draw)
  {
    CommitNames(init.uploadId, c.inits.Keys);
    var q := RequestOf(c.token, Normalised(init), c.data[init.uploadId]);
    UploadEffect(p, w, q, e.draw);
    hide CommitId, Upload, Be32, Held;
  }

  lemma ServeThree(p: Ports, c: Conn, w: World, first: Frame, mid: seq<Frame>, last: Frame, e0: Env, es: seq<Env>, e1: Env)
    requires |mid| == |es|
    ensures var h := Handle(p, c, w, first, e0);
            var s := Serve(p, h.conn, h.world, mid, es);
            var z := Handle(p, s.conn, s.world, last, e1);
            Serve(p, c, w, [first] + mid + [last], [e0] + es + [e1]) == Served(z.conn, z.world, [h.reply] + s.replies + [z.reply])
  {
    hide Serve, Handle;
    ServeAppend(p, c, w, [first] + mid, [last], [e0] + es, [e1]);
    ServeAppend(p, c, w, [first], mid, [e0], es);
    ServeOne(p, c, w, first, e0);
    var h := Handle(p, c, w, first, e0);
    var s := Serve(p, h.conn, h.world, mid, es);
    ServeOne(p, s.conn, s.world, last, e1);
  }

  /** The connection once INIT is accepted and the first `k` chunks have come. */
  function Filled(c: Conn, init: UploadInit, cipher: Text, k: nat): Conn
  {
    c.(inits := c.inits[init.uploadId := Normalised(init)], data := c.data[init.uploadId := Covered(cipher, k)])
  }

  /** After an accepted INIT every chunk is accepted, and the buffer holds their bytes. */
  lemma ChunksServed(p: Ports, c: Conn, w: World, init: UploadInit, cipher: Text, k: nat, e: Env, es: seq<Env>)
    requires Sendable(init, cipher) && k <= |ChunksFrom(init.uploadId, cipher, 0)| && |es| == k
    requires Handle(p, c, w, InitFrame(init), e).reply.kind != ERR
    ensures var h := Handle(p, c, w, InitFrame(init), e);
            var s := Serve(p, h.conn, h.world, DataFrames(ChunksFrom(init.uploadId, cipher, 0)[..k]), es);
            && h.world == s.world == w && s.conn == Filled(c, init, cipher, k)
            && (forall i :: 0 <= i < k ==> s.replies[i].kind == UPLOAD_DATA)
  {
    hide Serve, Handle, DataFrame, InitFrame, ChunksFrom, HoldsAll, Fits, Concat, Bodies, DataFrames, InOrder, Covered, Min, Normalised;
    InitHandled(p, c, w, init, e);
    var id := init.uploadId;
    var ds := ChunksFrom(id, cipher, 0)[..k];
    var h := Handle(p, c, w, InitFrame(init), e);
    ChunksInOrder(id, cipher, 0, k);
    DataAccepted(p, h.conn, w, id, ds, es);
    ChunksAreCovered(id, cipher, k);
  }

  lemma ChunksAreCovered(id: Text, cipher: Text, k: nat)
    requires |cipher| < TWO64 && k <= |ChunksFrom(id, cipher, 0)|
    ensures [] + Concat(Bodies(ChunksFrom(id, cipher, 0)[..k])) == Covered(cipher, k)
  {
    hide ChunksFrom, Concat, Bodies;
    ChunksHold(id, cipher, 0, k);
  }

  lemma FramesServed(p: Ports, c: Conn, w: World, init: UploadInit, cipher: Text, k: nat, envs: seq<Env>)
    requires Sendable(init, cipher) && k <= |ChunksFrom(init.uploadId, cipher, 0)| && |envs| == k + 2
    ensures |Frames(init, cipher, k)| == k + 2
    ensures var s, h := Serve(p, c, w, Frames(init, cipher, k), envs), Handle(p, c, w, InitFrame(init), envs[0]);
            && s.replies[0] == h.reply
            && (h.reply.kind != ERR ==>
                  var z := Handle(p, Filled(c, init, cipher, k), w, CommitFrame(init.uploadId), envs[k + 1]);
                  && (forall i :: 1 <= i <= k ==> s.replies[i].kind == UPLOAD_DATA)
                  && s.world == z.world && s.replies[k + 1] == z.reply)
  {
    hide Serve, Handle, DataFrames, CommitFrame, InitFrame, ChunksFrom, HoldsAll, Fits, Filled;
    FrameCount(init, cipher, k);
    var id := init.uploadId;
    var mid := DataFrames(ChunksFrom(id, cipher, 0)[..k]);
    var e0, es, e1 := envs[0], envs[1..k + 1], envs[k + 1];
    assert envs == [e0] + es + [e1];
    ServeThree(p, c, w, InitFrame(init), mid, CommitFrame(id), e0, es, e1);
    var h := Handle(p, c, w, InitFrame(init), e0);
    var s := Serve(p, h.conn, h.world, mid, es);
    hide Frames;
    if h.reply.kind != ERR {
      ChunksServed(p, c, w, init, cipher, k, e0, es);
      Between(h.reply, s.replies, Handle(p, Filled(c, init, cipher, k), w, CommitFrame(id), e1).reply);
    }
  }

  lemma Between(a: Frame, xs: seq<Frame>, z: Frame)
    ensures forall i :: 1 <= i <= |xs| ==> ([a] + xs + [z])[i] == xs[i - 1]
  {
  }

  /** The server's run over an upload of which `k` chunks are sent: once INIT is accepted every
      DATA is, and an accepted COMMIT stores exactly the bytes of those chunks. */
  lemma UploadServed(p: Ports, c: Conn, w: World, init: UploadInit, cipher: Text, k: nat, envs: seq<Env>)
    requires Sendable(init, cipher) && k <= |ChunksFrom(init.uploadId, cipher, 0)| && |envs| == k + 2
    requires Serve(p, c, w, Frames(init, cipher, k), envs).replies[0].kind != ERR
    ensures var s := Serve(p, c, w, Frames(init, cipher, k), envs);
            && (forall i :: 1 <= i <= k ==> s.replies[i].kind == UPLOAD_DATA)
            && (s.replies[k + 1].kind != ERR ==> Delivered(p, c, w, s.world, init, Covered(cipher, k), envs[k + 1].draw))
  {
    hide Serve, Handle, Frames, CommitFrame, InitFrame, Delivered, ChunksFrom, HoldsAll, Fits, Covered;
    FramesServed(p, c, w, init, cipher, k, envs);
    var full := Filled(c, init, cipher, k);
    if Handle(p, full, w, CommitFrame(init.uploadId), envs[k + 1]).reply.kind != ERR {
      CommitHandled(p, full, w, init, envs[k + 1]);
      SameToken(p, c, full, w, Handle(p, full, w, CommitFrame(init.uploadId), envs[k + 1]).world, init, Covered(cipher, k), envs[k + 1].draw);
    }
  }

  lemma SameToken(p: Ports, c: Conn, c': Conn, w: World, w': World, init: UploadInit, body: Text, d: Draw)
    requires c.token == c'.token && Delivered(p, c', w, w', init, body, d)
    ensures Delivered(p, c, w, w', init, body, d)
  {
    hide Upload, Held;
  }

  // ---------------------------------------------------------------------------------------
  // End to end
  // ---------------------------------------------------------------------------------------

  lemma FramesFit(init: UploadInit, cipher: Text, k: nat)
    requires Sendable(init, cipher) && k <= |ChunksFrom(init.uploadId, cipher, 0)|
    ensures forall f :: f in Frames(init, cipher, k) ==> Fits(f)
  {
    hide Print, Be32, HoldsAll;
    var ds := ChunksFrom(init.uploadId, cipher, 0);
    ChunksCover(init.uploadId, cipher, 0);
    forall i | 0 <= i < k ensures Fits(DataFrames(ds[..k])[i]) {
      DataFrameFits(ds[i]);
    }
  }

  /** Which of a list of replies the client takes as good. */
  function Good(replies: seq<Frame>): seq<bool>
  {
    seq(|replies|, i requires 0 <= i < |replies| => replies[i].kind != ERR)
  }

  /** The frames of an upload come out of the receive buffer as they went in. */
  lemma ArrivesIntact(init: UploadInit, cipher: Text, k: nat, input: seq<Text>, rest: Text)
    requires Sendable(init, cipher) && k <= |ChunksFrom(init.uploadId, cipher, 0)|
    requires [] !in input && Concat(input) == EncodeAll(Frames(init, cipher, k)) + rest
    ensures var r := ReceiveMany(k + 2, [], input); r.0 == Frames(init, cipher, k) && r.1 + Concat(r.2) == rest
  {
    FramesFit(init, cipher, k);
    hide Fits, HoldsAll, ChunksFrom, DataFrame, InitFrame, CommitFrame, EncodeAll, Concat, ReceiveMany;
    var fs := Frames(init, cipher, k);
    assert |fs| == k + 2;
    hide Frames;
    assert [] + Concat(input) == Concat(input);
    Reassembly(fs, [], input, rest);
  }

  /** A client that gets no bad DATA reply sends every chunk. */
  lemma ClientSendsAll(init: UploadInit, cipher: Text, replies: seq<Frame>)
    requires |cipher| < TWO64 && |replies| == |ChunksFrom(init.uploadId, cipher, 0)|
    requires forall i :: 0 <= i < |replies| ==> replies[i].kind != ERR
    ensures SentFrames(init, cipher, true, Good(replies)) == Frames(init, cipher, |replies|)
  {
    hide DataFrame, InitFrame, CommitFrame, ChunksFrom;
    var ds := ChunksFrom(init.uploadId, cipher, 0);
    AllSent(ds, Good(replies));
    assert ds[..|replies|] == ds;
  }

  /** End-to-end upload. For every cipher, every way the wire is split into reads, and every state
      of the connection and the server: the server receives exactly the frames sent; if it
      accepts INIT then it accepts every chunk, so that the client, which watches the replies,
      does send them all; and if it accepts COMMIT then the blob stored is the cipher. */
  lemma EndToEndUpload(p: Ports, c: Conn, w: World, init: UploadInit, cipher: Text, input: seq<Text>, rest: Text, envs: seq<Env>)
    requires Sendable(init, cipher) && |envs| == |ChunksFrom(init.uploadId, cipher, 0)| + 2
    requires [] !in input && Concat(input) == EncodeAll(Frames(init, cipher, |envs| - 2)) + rest
    ensures ReceiveMany(|envs|, [], input).0 == Frames(init, cipher, |envs| - 2)
    ensures var n, s := |envs| - 2, Serve(p, c, w, Frames(init, cipher, |envs| - 2), envs);
            s.replies[0].kind != ERR ==>
              && SentFrames(init, cipher, true, Good(s.replies[1..n + 1])) == Frames(init, cipher, n)
              && (s.replies[n + 1].kind != ERR ==> Delivered(p, c, w, s.world, init, cipher, envs[n + 1].draw))
  {
    hide Serve, Good, Frames, SentFrames, Fits, HoldsAll, InitFrame, ChunksFrom, Delivered, EncodeAll, Concat, ReceiveMany, Covered;
    var n := |envs| - 2;
    FrameCount(init, cipher, n);
    ArrivesIntact(init, cipher, n, input, rest);
    WholeIsCovered(init.uploadId, cipher, n);
    var s := Serve(p, c, w, Frames(init, cipher, n), envs);
    if s.replies[0].kind != ERR {
      UploadServed(p, c, w, init, cipher, n, envs);
      ClientSendsAll(init, cipher, s.replies[1..n + 1]);
    }
  }

  lemma FrameCount(init: UploadInit, cipher: Text, k: nat)
    requires |cipher| < TWO64 && k <= |ChunksFrom(init.uploadId, cipher, 0)|
    ensures |Frames(init, cipher, k)| == k + 2
  {
    hide ChunksFrom, InitFrame, CommitFrame, DataFrame;
  }

  /** The chunks sent hold the whole cipher exactly when all of them are sent. */
  lemma WholeIsCovered(id: Text, cipher: Text, k: nat)
    requires |cipher| < TWO64 && k <= |ChunksFrom(id, cipher, 0)|
    ensures Covered(cipher, k) == cipher <==> k == |ChunksFrom(id, cipher, 0)|
  {
    ChunkCount(id, cipher, 0);
  }

  lemma {:induction false} ChunkCount(id: Text, cipher: Text, off: nat)
    requires |cipher| < TWO64 && off <= |cipher|
    ensures var n := |ChunksFrom(id, cipher, off)|;
            && off + n * CHUNK >= |cipher|
            && (n > 0 ==> off + (n - 1) * CHUNK < |cipher|)
            && (n == 0 ==> off == |cipher|)
    decreases |cipher| - off
  {
    if off < |cipher| {
      ChunkCount(id, cipher, off + Min(CHUNK, |cipher| - off));
    }
  }

  // ---------------------------------------------------------------------------------------
  // The client that stops early
  // ---------------------------------------------------------------------------------------

  /** How many replies are good before the first bad or missing one. */
  function Leading(good: seq<bool>): nat
  {
    if good == [] || !good[0] then 0 else 1 + Leading(good[1..])
  }

  /** The client sends one chunk more than it has had good replies, as far as there are chunks. */
  lemma {:induction false} SentIsPrefix(ds: seq<UploadData>, good: seq<bool>)
    ensures SentChunks(ds, good) == ds[..Min(|ds|, 1 + Leading(good))]
    decreases |ds|
  {
    if ds != [] && good != [] && good[0] {
      SentIsPrefix(ds[1..], good[1..]);
      var k := Min(|ds|, 1 + Leading(good));
      assert ds[..k] == [ds[0]] + ds[1..][..k - 1];
    }
  }

  function SentCount(init: UploadInit, cipher: Text, good: seq<bool>): nat
    requires |cipher| < TWO64
  {
    Min(|ChunksFrom(init.uploadId, cipher, 0)|, 1 + Leading(good))
  }

  /** What the client sends, for every pattern of replies. */
  lemma ClientSends(init: UploadInit, cipher: Text, good: seq<bool>)
    requires |cipher| < TWO64
    ensures SentFrames(init, cipher, true, good) == Frames(init, cipher, SentCount(init, cipher, good))
  {
    hide DataFrame, InitFrame, CommitFrame, ChunksFrom;
    SentIsPrefix(ChunksFrom(init.uploadId, cipher, 0), good);
  }

  /** No reply but the last is bad or missing. */
  predicate OnlyLastMayFail(n: nat, good: seq<bool>)
  {
    n - 1 <= |good| && forall i :: 0 <= i < n - 1 ==> good[i]
  }

  lemma {:induction false} LeadingEnough(n: nat, good: seq<bool>)
    ensures 1 + Leading(good) >= n <==> OnlyLastMayFail(n, good)
    decreases n
  {
    if n > 1 && good != [] {
      LeadingEnough(n - 1, good[1..]);
      assert forall i :: 1 <= i < |good| ==> good[i] == good[1..][i - 1];
      assert OnlyLastMayFail(n, good) <==> good[0] && OnlyLastMayFail(n - 1, good[1..]);
    }
  }

  /** The client commits whatever the replies to its chunks were, and the server compares no
      length. For every pattern of replies: what an accepted COMMIT has stored is the cipher if
      and only if no reply but the one to the last chunk was bad or missing. */
  lemma EarlyCommitStoresCipherIff(p: Ports, c: Conn, w: World, init: UploadInit, cipher: Text, good: seq<bool>, envs: seq<Env>)
    requires Sendable(init, cipher) && |envs| == |SentFrames(init, cipher, true, good)|
    requires var s := Serve(p, c, w, SentFrames(init, cipher, true, good), envs);
             s.replies[0].kind != ERR && s.replies[|envs| - 1].kind != ERR
    ensures var s, f := Serve(p, c, w, SentFrames(init, cipher, true, good), envs), envs[|envs| - 1].draw.fileId;
            && f in s.world.files && s.world.files[f].storageId in s.world.blobs
            && var stored := s.world.blobs[s.world.files[f].storageId];
            && stored == Covered(cipher, SentCount(init, cipher, good))
            && (stored == cipher <==> OnlyLastMayFail(|ChunksFrom(init.uploadId, cipher, 0)|, good))
  {
    hide Serve, Frames, HoldsAll, Fits, InitFrame, ChunksFrom, Covered, SentFrames, OnlyLastMayFail, SentCount;
    ClientSends(init, cipher, good);
    var k := SentCount(init, cipher, good);
    SentEnough(init, cipher, good);
    FrameCount(init, cipher, k);
    CutShortStores(p, c, w, init, cipher, k, envs);
    WholeIsCovered(init.uploadId, cipher, k);
  }

  lemma SentEnough(init: UploadInit, cipher: Text, good: seq<bool>)
    requires |cipher| < TWO64
    ensures var n := |ChunksFrom(init.uploadId, cipher, 0)|;
            SentCount(init, cipher, good) <= n && (SentCount(init, cipher, good) == n <==> OnlyLastMayFail(n, good))
  {
    hide ChunksFrom, OnlyLastMayFail;
    LeadingEnough(|ChunksFrom(init.uploadId, cipher, 0)|, good);
  }

  /** An upload cut short after `k` chunks stores, if its COMMIT is accepted, their bytes. */
  lemma CutShortStores(p: Ports, c: Conn, w: World, init: UploadInit, cipher: Text, k: nat, envs: seq<Env>)
    requires Sendable(init, cipher) && k <= |ChunksFrom(init.uploadId, cipher, 0)| && |envs| == k + 2 == |Frames(init, cipher, k)|
    requires var s := Serve(p, c, w, Frames(init, cipher, k), envs); s.replies[0].kind != ERR && s.replies[k + 1].kind != ERR
    ensures var s, f := Serve(p, c, w, Frames(init, cipher, k), envs), envs[k + 1].draw.fileId;
            f in s.world.files && s.world.files[f].storageId in s.world.blobs && s.world.blobs[s.world.files[f].storageId] == Covered(cipher, k)
  {
    hide Serve, Frames, Fits, HoldsAll, ChunksFrom, Upload, Covered, InitFrame;
    UploadServed(p, c, w, init, cipher, k, envs);
  }

  /** When nothing stands in the way of an upload: a live session at INIT and at COMMIT, a
      validator that agrees, no reason to refuse, storage that works and a record that can be
      saved. */
  ghost predicate Clear(p: Ports, c: Conn, w: World, init: UploadInit, body: Text, at: int, d: Draw)
  {
    var q := RequestOf(c.token, Normalised(init), body);
    && c.token != [] && A.TokenValid(p.crypto, w.accounts, c.token, at) && A.TokenValid(p.crypto, w.accounts, c.token, d.now)
    && p.validate(init.origName, init.size, PDF_HEADER)
    && Refusal(p, w, q, d.now).None? && A.ByUsername(w.accounts.users, q.recipient).Some?
    && d.faults.fault.NoFault? && !St.BadId(StorageIdOf(d))
    && CanSave(w.files, RecordOf(SenderOf(p, w, c.token), A.ByUsername(w.accounts.users, q.recipient).value.id, q, d))
  }

  lemma InitAccepted(p: Ports, c: Conn, w: World, init: UploadInit, e: Env)
    requires HoldsAll(INIT_SCHEMA, InitFields(init))
    requires c.token != [] && A.TokenValid(p.crypto, w.accounts, c.token, e.draw.now) && p.validate(init.origName, init.size, PDF_HEADER)
    ensures Handle(p, c, w, InitFrame(init), e).reply.kind != ERR
  {
    hide Print, ParseInit, InitFields;
    UploadInitCodec(init, [], []);
    var body := Print(INIT_SCHEMA, InitFields(init));
    assert body + [] == body;
  }

  lemma ClearUploads(p: Ports, c: Conn, w: World, init: UploadInit, body: Text, at: int, d: Draw)
    requires Clear(p, c, w, init, body, at, d)
    ensures Upload(p, w, RequestOf(c.token, Normalised(init), body), d).1.Uploaded?
  {
    hide Refusal, CanSave, A.ByUsername, St.BadId, St.TempName;
  }

  lemma CommitAccepted(p: Ports, c: Conn, w: World, init: UploadInit, at: int, e: Env)
    requires 0 < |init.uploadId| < TWO32 - 4
    requires init.uploadId in c.inits && c.inits[init.uploadId] == Normalised(init) && init.uploadId in c.data
    requires Clear(p, c, w, init, c.data[init.uploadId], at, e.draw)
    ensures Handle(p, c, w, CommitFrame(init.uploadId), e).reply.kind != ERR
  {
    CommitNames(init.uploadId, c.inits.Keys);
    ClearUploads(p, c, w, init, c.data[init.uploadId], at, e.draw);
    hide CommitId, Upload, Be32, Refusal, CanSave, St.BadId;
  }

  lemma ClearSameToken(p: Ports, c: Conn, c': Conn, w: World, init: UploadInit, body: Text, at: int, d: Draw)
    requires c.token == c'.token && Clear(p, c, w, init, body, at, d)
    ensures Clear(p, c', w, init, body, at, d)
  {
    hide Refusal, CanSave, St.BadId;
  }

  /** Then every frame of the upload is accepted, also of one that is cut short. */
  lemma UploadAccepted(p: Ports, c: Conn, w: World, init: UploadInit, cipher: Text, k: nat, envs: seq<Env>)
    requires Sendable(init, cipher) && k <= |ChunksFrom(init.uploadId, cipher, 0)| && |envs| == k + 2
    requires Clear(p, c, w, init, Covered(cipher, k), envs[0].draw.now, envs[k + 1].draw)
    ensures |Frames(init, cipher, k)| == k + 2
    ensures forall i :: 0 <= i < k + 2 ==> Serve(p, c, w, Frames(init, cipher, k), envs).replies[i].kind != ERR
  {
    hide Serve, Handle, Frames, CommitFrame, InitFrame, ChunksFrom, HoldsAll, Fits, Clear, Covered, INIT_SCHEMA, InitFields;
    ClearInit(p, c, w, init, Covered(cipher, k), envs[0].draw.now, envs[k + 1].draw);
    InitAccepted(p, c, w, init, envs[0]);
    FramesServed(p, c, w, init, cipher, k, envs);
    var full := Filled(c, init, cipher, k);
    ClearSameToken(p, c, full, w, init, Covered(cipher, k), envs[0].draw.now, envs[k + 1].draw);
    CommitAccepted(p, full, w, init, envs[0].draw.now, envs[k + 1]);
  }

  lemma ClearInit(p: Ports, c: Conn, w: World, init: UploadInit, body: Text, at: int, d: Draw)
    requires Clear(p, c, w, init, body, at, d)
    ensures c.token != [] && A.TokenValid(p.crypto, w.accounts, c.token, at) && p.validate(init.origName, init.size, PDF_HEADER)
  {
    hide Refusal, CanSave, St.BadId;
  }

  /** A server with one user, who has a key and a session, and nothing stored. */
  function OneUser(name: Text): World
  {
    World(A.State(map[[1] := A.User([1], name, [2], "user", "active", 0, 0)], map[[1] := []],
                  map[[7] := A.Session([7], [1], 0, 1, false)]), {[1]}, map[], map[])
  }

  function Willing(): Ports
  {
    Ports(A.Crypto(t => t, (h, q) => true), (n, size, hdr) => true)
  }

  function Still(): Draw
  {
    Draw(0, [3], [4], [5], St.Faults(St.NoFault, true, true, true, map[]), true, true)
  }

  lemma OneUserClear(init: UploadInit, body: Text)
    requires init.uploadId != []
    ensures Inv(OneUser(init.recipient)) && Clear(Willing(), FRESH.(token := [7]), OneUser(init.recipient), init, body, 0, Still())
  {
    OneUserInv(init.recipient);
    OneUserFound(init.recipient);
    StillGood();
    hide A.ByUsername, HeaderFor, Inv, St.BadId, StorageIdOf;
  }

  lemma OneUserInv(name: Text)
    ensures Inv(OneUser(name))
  {
  }

  lemma StillGood()
    ensures !St.BadId(StorageIdOf(Still())) && StorageIdOf(Still()) != []
  {
    assert StorageIdOf(Still()) == [4, 46, 98, 105, 110];
  }

  lemma OneUserFound(name: Text)
    ensures A.ByUsername(OneUser(name).accounts.users, name) == Some(A.User([1], name, [2], "user", "active", 0, 0))
  {
    assert [1] in OneUser(name).accounts.users;
  }

  /** And it happens: whatever is being sent in more than one chunk, there is a server on which a
      client that gets no reply to its first chunk has its COMMIT accepted, with the first
      megabyte stored in place of the cipher. */
  lemma ShortCommitAccepted(init: UploadInit, cipher: Text) returns (p: Ports, c: Conn, w: World, envs: seq<Env>)
    requires Sendable(init, cipher) && |cipher| > CHUNK
    ensures Inv(w) && |envs| == |SentFrames(init, cipher, true, [])| == 3
    ensures var s := Serve(p, c, w, SentFrames(init, cipher, true, []), envs);
            && s.replies[0].kind != ERR && s.replies[2].kind != ERR
            && [3] in s.world.files && s.world.files[[3]].storageId in s.world.blobs
            && s.world.blobs[s.world.files[[3]].storageId] == cipher[..CHUNK] != cipher
  {
    hide Serve, Frames, Fits, HoldsAll, Upload, SentFrames, Clear, Inv, OneUser, Willing, InitFrame;
    p, c, w := Willing(), FRESH.(token := [7]), OneUser(init.recipient);
    var e := Env(Still(), [], [], [], []);
    envs := [e, e, e];
    ClientSends(init, cipher, []);
    ChunkCount(init.uploadId, cipher, 0);
    hide ChunksFrom;
    FrameCount(init, cipher, 1);
    OneUserClear(init, Covered(cipher, 1));
    UploadAccepted(p, c, w, init, cipher, 1, envs);
    EarlyCommitStoresCipherIff(p, c, w, init, cipher, [], envs);
    hide Covered;
    assert Covered(cipher, 1) == cipher[..CHUNK] by { CoveredOne(cipher); }
  }

  lemma CoveredOne(cipher: Text)
    requires |cipher| > CHUNK
    ensures Covered(cipher, 1) == cipher[..CHUNK]
  {
  }

  /** From then on, whatever the server does next, a download by the sender or the recipient with
      a valid session returns exactly the cipher. */
  lemma DeliveredIsDownloaded(p: Ports, c: Conn, w: World, w': World, init: UploadInit, cipher: Text, d: Draw, ops: seq<Op>, token: Text, now: int)
    requires Inv(w) && Delivered(p, c, w, w', init, cipher, d)
    requires Fresh(w, Send(RequestOf(c.token, Normalised(init), cipher), d)) && AllFresh(p, w', ops)
    requires A.TokenValid(p.crypto, Run(p, w', ops).accounts, token, now)
    requires var user, r := SenderOf(p, Run(p, w', ops), token), w'.files[d.fileId]; user == r.owner || user == r.recipient
    ensures Download(p, Run(p, w', ops), token, d.fileId, now) == Bytes(cipher)
  {
    StepInv(p, w, Send(RequestOf(c.token, Normalised(init), cipher), d));
    hide Inv, Upload, Fresh;
    assert ops[..0] == [];
    RunOne(p, w');
    RunKeeps(p, w', ops, 0);
    var r := w'.files[d.fileId];
    KeepsHolds(w', Run(p, w', ops), d.fileId, Transfer(d.transferId, d.fileId, r.owner, r.recipient), cipher);
    hide Run, Keeps;
  }

  lemma RunOne(p: Ports, w: World)
    ensures Run(p, w, []) == w
  {
  }

  /** Over the wire the answer to that download arrives exactly when the blob fits one frame. */
  lemma DownloadArrivesIff(p: Ports, c: Conn, w: World, f: Frame, e: Env, input: seq<Text>, rest: Text)
    requires f.kind == DOWNLOAD_REQ
    requires var h := HandleDownload(p, c, w, f, e);
             h.reply.kind == DOWNLOAD_DATA && [] !in input && Concat(input) == Encode(h.reply) + rest
    ensures var h := HandleDownload(p, c, w, f, e); var r := Receive([], input);
            (r.Delivered? && r.frame == h.reply) <==> |h.reply.body| <= MAX_LEN - 5
  {
    hide HandleDownload, Receive, Encode;
    DeliveredIffFits(input, HandleDownload(p, c, w, f, e).reply, rest);
  }
}
