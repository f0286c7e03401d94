/** The client's upload (src/presentation/client_app.cpp): INIT, one-megabyte DATA chunks, COMMIT. */
module Client {
  import opened Bytes
  import opened Framing
  import opened Protocol

  const CHUNK := 1024 * 1024

  /** The client's request id for uploads. */
  const UPLOAD_REQUEST: u32 := 4

  function InitFrame(init: UploadInit): Frame
  {
    Frame(UPLOAD_INIT, UPLOAD_REQUEST, Print(INIT_SCHEMA, InitFields(init)))
  }

  function DataFrame(d: UploadData): Frame
  {
    Frame(UPLOAD_DATA, UPLOAD_REQUEST, Print(DATA_SCHEMA, DataFields(d)))
  }

  function CommitFrame(id: Text): Frame
  {
    Frame(UPLOAD_COMMIT, UPLOAD_REQUEST, Be32(|id| % TWO32) + id)
  }

  function Min(x: nat, y: nat): nat { if x < y then x else y }

  /** The chunks of the cipher from offset `off` on. */
  function ChunksFrom(id: Text, cipher: Text, off: nat): seq<UploadData>
    requires |cipher| < TWO64
    decreases |cipher| - off
  {
    if off >= |cipher| then []
    else
      var n := Min(CHUNK, |cipher| - off);
      [UploadData(id, off, cipher[off..off + n])] + ChunksFrom(id, cipher, off + n)
  }

  function DataFrames(ds: seq<UploadData>): (fs: seq<Frame>)
    ensures |fs| == |ds|
  {
    seq(|ds|, i requires 0 <= i < |ds| => DataFrame(ds[i]))
  }

  /** The chunks sent when the k-th DATA reply is good exactly if `good[k]`: the loop stops after
      the first bad one. */
  function SentChunks(ds: seq<UploadData>, good: seq<bool>): seq<UploadData>
  {
    if ds == [] then []
    else if good == [] || !good[0] then [ds[0]]
    else [ds[0]] + SentChunks(ds[1..], good[1..])
  }

  /** Everything the client sends for one upload. After a bad DATA reply it still commits. */
  function SentFrames(init: UploadInit, cipher: Text, initGood: bool, good: seq<bool>): seq<Frame>
    requires |cipher| < TWO64
  {
    [InitFrame(init)] +
    if !initGood then []
    else DataFrames(SentChunks(ChunksFrom(init.uploadId, cipher, 0), good)) + [CommitFrame(init.uploadId)]
  }

  /** The DATA frames still to be sent from `offset` on, with the replies still to come. */
  function RestFrames(id: Text, cipher: Text, offset: nat, good: seq<bool>): seq<Frame>
    requires |cipher| < TWO64
  {
    DataFrames(SentChunks(ChunksFrom(id, cipher, offset), good))
  }

  lemma RestStep(id: Text, cipher: Text, offset: nat, good: seq<bool>)
    requires |cipher| < TWO64 && offset < |cipher|
    ensures var n := Min(CHUNK, |cipher| - offset);
            RestFrames(id, cipher, offset, good) ==
            [DataFrame(UploadData(id, offset, cipher[offset..offset + n]))]
            + (if good == [] || !good[0] then [] else RestFrames(id, cipher, offset + n, good[1..]))
  {
    hide DataFrame;
    var n := Min(CHUNK, |cipher| - offset);
    var d := UploadData(id, offset, cipher[offset..offset + n]);
    var later := ChunksFrom(id, cipher, offset + n);
    var ds := ChunksFrom(id, cipher, offset);
    assert ds == [d] + later && ds[1..] == later;
  }

  /** The upload as the client runs it; the replies it will get are given as a list. */
  method SendUpload(init: UploadInit, cipher: Text, initGood: bool, good: seq<bool>) returns (sent: seq<Frame>)
    requires |cipher| < TWO64
    ensures sent == SentFrames(init, cipher, initGood, good)
  {
    hide Print, Be32, RestFrames;
    var id := init.uploadId;
    var body := EncodeUploadInit(init);
    sent := [Frame(UPLOAD_INIT, UPLOAD_REQUEST, body)];
    if !initGood {
      return;
    }
    var data := SendChunks(id, cipher, good);
    SentIsRest(id, cipher, good);
    var commitBody := Be32(|id| % TWO32);
    commitBody := commitBody + id;
    sent := sent + (data + [Frame(UPLOAD_COMMIT, UPLOAD_REQUEST, commitBody)]);
  }

  lemma SentIsRest(id: Text, cipher: Text, good: seq<bool>)
    requires |cipher| < TWO64
    ensures RestFrames(id, cipher, 0, good) == DataFrames(SentChunks(ChunksFrom(id, cipher, 0), good))
  {
  }

  /** The chunk loop, which stops at the first bad reply. */
  method SendChunks(id: Text, cipher: Text, good: seq<bool>) returns (data: seq<Frame>)
    requires |cipher| < TWO64
    ensures data == RestFrames(id, cipher, 0, good)
  {
    hide Print, RestFrames;
    var offset, k := 0, 0;
    data := [];
    ghost var all := RestFrames(id, cipher, 0, good);
    assert [] + all == all && good[0..] == good;
    while offset < |cipher|
      invariant k <= |good| && all == data + RestFrames(id, cipher, offset, good[k..])
      decreases |cipher| - offset
    {
      RestStep(id, cipher, offset, good[k..]);
      var n := Min(CHUNK, |cipher| - offset);
      var d := UploadData(id, offset, cipher[offset..offset + n]);
      var bodyData := EncodeUploadData(d);
      data := data + [Frame(UPLOAD_DATA, UPLOAD_REQUEST, bodyData)];
      if k == |good| || !good[k] {
        return;
      }
      assert good[k..][1..] == good[k + 1..];
      offset, k := offset + n, k + 1;
    }
    RestEnd(id, cipher, offset, good[k..]);
  }

  lemma RestEnd(id: Text, cipher: Text, offset: nat, good: seq<bool>)
    requires |cipher| < TWO64 && offset >= |cipher|
    ensures RestFrames(id, cipher, offset, good) == []
  {
  }

  // ---------------------------------------------------------------------------------------
  // Chunking
  // ---------------------------------------------------------------------------------------

  function Bodies(ds: seq<UploadData>): seq<Text>
  {
    seq(|ds|, i requires 0 <= i < |ds| => ds[i].chunk)
  }

  /** The chunks are contiguous from the start offset, at most one megabyte each, none empty, and
      they concatenate to the rest of the cipher. */
  lemma {:induction false} ChunksCover(id: Text, cipher: Text, off: nat)
    requires |cipher| < TWO64 && off <= |cipher|
    ensures var ds := ChunksFrom(id, cipher, off);
            && Concat(Bodies(ds)) == cipher[off..]
            && (forall i :: 0 <= i < |ds| ==> ds[i].uploadId == id && 0 < |ds[i].chunk| <= CHUNK)
            && (forall i :: 0 <= i < |ds| ==> ds[i].offset == off + i * CHUNK)
    decreases |cipher| - off
  {
    var ds := ChunksFrom(id, cipher, off);
    if off < |cipher| {
      var n := Min(CHUNK, |cipher| - off);
      var rest := ChunksFrom(id, cipher, off + n);
      ChunksCover(id, cipher, off + n);
      assert Bodies(ds)[0] == cipher[off..off + n] && Bodies(ds)[1..] == Bodies(rest);
      assert cipher[off..] == cipher[off..off + n] + cipher[off + n..];
      forall i | 0 <= i < |ds| ensures ds[i].offset == off + i * CHUNK {
        if i > 0 {
          assert ds[i] == rest[i - 1];
          assert n == CHUNK;
        }
      }
    }
  }

  /** Every DATA frame fits the receiver's limit when the upload id does not exceed three
      megabytes less the framing; the client's ids are 36 bytes. */
  lemma DataFrameFits(d: UploadData)
    requires |d.chunk| <= CHUNK && |d.uploadId| <= MAX_LEN - CHUNK - 21
    ensures Fits(DataFrame(d)) && HoldsAll(DATA_SCHEMA, DataFields(d))
    ensures |DataFrame(d).body| == 16 + |d.uploadId| + |d.chunk|
  {
    hide Be64, PrintField;
    var vs := DataFields(d);
    PrintFieldWidth(DATA_SCHEMA[0], vs[0]);
    PrintFieldWidth(DATA_SCHEMA[1], vs[1]);
    PrintFieldWidth(DATA_SCHEMA[2], vs[2]);
    assert |Print(DATA_SCHEMA, vs, 2)| == Width(DATA_SCHEMA[2], vs[2]);
    assert |Print(DATA_SCHEMA, vs, 1)| == 8 + |Print(DATA_SCHEMA, vs, 2)|;
  }

  /** If no DATA reply is bad, every chunk is sent. */
  lemma {:induction false} AllSent(ds: seq<UploadData>, good: seq<bool>)
    requires |good| >= |ds| && forall i :: 0 <= i < |ds| ==> good[i]
    ensures SentChunks(ds, good) == ds
  {
    if ds != [] {
      AllSent(ds[1..], good[1..]);
    }
  }
}
