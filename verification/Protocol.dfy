/** The six payload codecs (src/presentation/protocol.cpp). Each payload is a list of fields;
    a schema says how each field is laid out, and the codec laws are proved once, for every
    schema. */
module Protocol {
  import opened Bytes

  datatype Kind = Prefixed | Fixed(n: nat)

  type Schema = seq<Kind>

  // ---------------------------------------------------------------------------------------
  // Reference: printing and parsing a list of fields
  // ---------------------------------------------------------------------------------------

  /** The values a field can carry without its length being cut to 32 bits. */
  predicate Holds(k: Kind, v: Text)
  {
    match k
    case Prefixed => |v| < TWO32
    case Fixed(n) => |v| == n
  }

  predicate HoldsAll(ks: Schema, vs: seq<Text>)
  {
    |ks| == |vs| && forall i :: 0 <= i < |ks| ==> Holds(ks[i], vs[i])
  }

  function PrintField(k: Kind, v: Text): Text
  {
    match k
    case Prefixed => Be32(|v| % TWO32) + v
    case Fixed(_) => v
  }

  function Width(k: Kind, v: Text): nat
  {
    if k.Prefixed? then 4 + |v| else |v|
  }

  /** The field at offset `off`, if the buffer is long enough. */
  function ReadAt(k: Kind, b: Text, off: nat): Option<Text>
  {
    match k
    case Prefixed =>
      if off + 4 > |b| then None
      else
        var len := Get32(b[off..]);
        if off + 4 + len > |b| then None else Some(b[off + 4..off + 4 + len])
    case Fixed(n) =>
      if off + n > |b| then None else Some(b[off..off + n])
  }

  function Print(ks: Schema, vs: seq<Text>, i: nat := 0): Text
    requires i <= |ks| == |vs|
    decreases |ks| - i
  {
    if i == |ks| then [] else PrintField(ks[i], vs[i]) + Print(ks, vs, i + 1)
  }

  function Parse(ks: Schema, b: Text, i: nat := 0, off: nat := 0): Option<seq<Text>>
    requires i <= |ks|
    decreases |ks| - i
  {
    if i == |ks| then Some([])
    else
      var v :- ReadAt(ks[i], b, off);
      var vs :- Parse(ks, b, i + 1, off + Width(ks[i], v));
      Some([v] + vs)
  }

  lemma ReadPrinted(k: Kind, v: Text, b: Text, off: nat)
    requires Holds(k, v) && off <= |b| && PrintField(k, v) <= b[off..]
    ensures ReadAt(k, b, off) == Some(v)
  {
    hide Be32, Get32;
    var w := Width(k, v);
    assert b[off..][..w] == b[off..off + w] == PrintField(k, v);
    if k.Prefixed? {
      var h, rest := Be32(|v|), b[off + w..];
      assert b[off..] == h + (v + rest);
      Get32OfBe32(|v|, v + rest);
      assert b[off + 4..off + w] == b[off..off + w][4..] == v;
    }
  }

  lemma ReadIsPrinted(k: Kind, b: Text, off: nat)
    requires ReadAt(k, b, off).Some?
    ensures var v := ReadAt(k, b, off).value;
            && Holds(k, v) && off + Width(k, v) <= |b|
            && PrintField(k, v) == b[off..off + Width(k, v)]
  {
    hide Be32, Get32;
    if k.Prefixed? {
      Be32OfGet32(b[off..]);
      var v := ReadAt(k, b, off).value;
      assert b[off..][..4] == b[off..off + 4];
      assert b[off..off + 4 + |v|] == b[off..off + 4] + v;
    }
  }

  lemma {:induction false} ParsePrinted(ks: Schema, vs: seq<Text>, b: Text, i: nat, off: nat)
    requires HoldsAll(ks, vs) && i <= |ks| && off <= |b|
    requires Print(ks, vs, i) <= b[off..]
    ensures Parse(ks, b, i, off) == Some(vs[i..])
    decreases |ks| - i
  {
    hide PrintField, ReadAt;
    if i < |ks| {
      PrintFieldWidth(ks[i], vs[i]);
      var p, q, w := PrintField(ks[i], vs[i]), Print(ks, vs, i + 1), Width(ks[i], vs[i]);
      SplitPrefix(p, q, b[off..]);
      assert b[off..][w..] == b[off + w..];
      ReadPrinted(ks[i], vs[i], b, off);
      ParsePrinted(ks, vs, b, i + 1, off + w);
      assert vs[i..] == [vs[i]] + vs[i + 1..];
    } else {
      assert vs[i..] == [];
    }
  }

  lemma PrintFieldWidth(k: Kind, v: Text)
    ensures |PrintField(k, v)| == Width(k, v)
  {
    hide Be32;
  }

  lemma SplitPrefix(p: Text, q: Text, b: Text)
    requires |p| <= |b|
    ensures p + q <= b <==> p <= b && q <= b[|p|..]
  {
    if p + q <= b {
      assert p == (p + q)[..|p|] && q == (p + q)[|p|..];
    }
    if p <= b && q <= b[|p|..] {
      assert b == p + b[|p|..];
    }
  }

  lemma {:induction false} ParsedIsPrinted(ks: Schema, b: Text, i: nat, off: nat, vs: seq<Text>)
    requires i <= |ks| == |vs| && off <= |b|
    requires Parse(ks, b, i, off) == Some(vs[i..])
    ensures Print(ks, vs, i) <= b[off..]
    ensures forall j :: i <= j < |ks| ==> Holds(ks[j], vs[j])
    decreases |ks| - i
  {
    hide PrintField, ReadAt;
    if i < |ks| {
      ReadIsPrinted(ks[i], b, off);
      PrintFieldWidth(ks[i], vs[i]);
      assert vs[i..][0] == vs[i] && vs[i..][1..] == vs[i + 1..];
      var p, w := PrintField(ks[i], vs[i]), Width(ks[i], vs[i]);
      ParsedIsPrinted(ks, b, i + 1, off + w, vs);
      assert b[off..][w..] == b[off + w..] && b[off..][..w] == b[off..off + w];
      SplitPrefix(p, Print(ks, vs, i + 1), b[off..]);
    }
  }

  lemma {:induction false} ParseLength(ks: Schema, b: Text, i: nat, off: nat)
    requires i <= |ks|
    ensures Parse(ks, b, i, off).Some? ==> |Parse(ks, b, i, off).value| == |ks| - i
    decreases |ks| - i
  {
    hide ReadAt, Width;
    if i < |ks| && ReadAt(ks[i], b, off).Some? {
      ParseLength(ks, b, i + 1, off + Width(ks[i], ReadAt(ks[i], b, off).value));
    }
  }

  /** Parsing is exact: the values found are `vs` if and only if the buffer starts with their
      printing. Bytes after it are ignored. */
  lemma ParseIffPrinted(ks: Schema, vs: seq<Text>, b: Text)
    ensures Parse(ks, b) == Some(vs) <==> HoldsAll(ks, vs) && Print(ks, vs) <= b
  {
    assert b[0..] == b && vs[0..] == vs;
    ParseLength(ks, b, 0, 0);
    if Parse(ks, b) == Some(vs) {
      ParsedIsPrinted(ks, b, 0, 0, vs);
    }
    if HoldsAll(ks, vs) && Print(ks, vs) <= b {
      ParsePrinted(ks, vs, b, 0, 0);
    }
  }

  /** Every proper prefix of a printing is refused. */
  lemma TruncatedRefused(ks: Schema, vs: seq<Text>, b: Text)
    requires HoldsAll(ks, vs) && b < Print(ks, vs)
    ensures Parse(ks, b).None?
  {
    if Parse(ks, b).Some? {
      var ws := Parse(ks, b).value;
      ParseIffPrinted(ks, ws, b);
      ParseIffPrinted(ks, ws, Print(ks, vs));
      ParseIffPrinted(ks, vs, Print(ks, vs));
    }
  }

  // ---------------------------------------------------------------------------------------
  // The payloads
  // ---------------------------------------------------------------------------------------

  datatype Register = Register(username: Text, email: Text, password: Text)

  /** LoginPayload, AdminPayload and DownloadReq: two strings each. */
  datatype Pair = Pair(first: Text, second: Text)

  datatype WrappedKey = WrappedKey(recipientId: Text, nonce: Text, bytes: Text, alg: Text)

  datatype UploadInit = UploadInit(recipient: Text, origName: Text, uploadId: Text, size: u64, digest: Text, wrapped: WrappedKey)

  datatype UploadData = UploadData(uploadId: Text, offset: u64, chunk: Text)

  const REGISTER_SCHEMA: Schema := [Prefixed, Prefixed, Prefixed]
  const PAIR_SCHEMA: Schema := [Prefixed, Prefixed]
  const INIT_SCHEMA: Schema := [Prefixed, Prefixed, Prefixed, Fixed(8), Fixed(32), Prefixed, Prefixed, Prefixed, Prefixed]
  const DATA_SCHEMA: Schema := [Prefixed, Fixed(8), Prefixed]

  function DefaultAlg(): (alg: Text)
    ensures alg != []
  {
    Ascii("X25519-AES-GCM-Seal")
  }

  function Normal(alg: Text): Text
  {
    if alg == [] then DefaultAlg() else alg
  }

  function RegisterFields(p: Register): seq<Text> { [p.username, p.email, p.password] }
  function PairFields(p: Pair): seq<Text> { [p.first, p.second] }
  function DataFields(p: UploadData): seq<Text> { [p.uploadId, Be64(p.offset), p.chunk] }
  function InitFields(p: UploadInit): seq<Text>
  {
    [p.recipient, p.origName, p.uploadId, Be64(p.size), p.digest,
     p.wrapped.recipientId, p.wrapped.nonce, p.wrapped.bytes, p.wrapped.alg]
  }

  function RegisterOf(vs: seq<Text>): Register requires |vs| == 3 { Register(vs[0], vs[1], vs[2]) }
  function PairOf(vs: seq<Text>): Pair requires |vs| == 2 { Pair(vs[0], vs[1]) }
  function DataOf(vs: seq<Text>): UploadData requires |vs| == 3 && |vs[1]| == 8 { UploadData(vs[0], Get64(vs[1]), vs[2]) }
  function InitOf(vs: seq<Text>): UploadInit
    requires |vs| == 9 && |vs[3]| == 8
  {
    UploadInit(vs[0], vs[1], vs[2], Get64(vs[3]), vs[4], WrappedKey(vs[5], vs[6], vs[7], Normal(vs[8])))
  }

  function ParseRegister(b: Text): Option<Register>
  {
    ParseLength(REGISTER_SCHEMA, b, 0, 0);
    var vs :- Parse(REGISTER_SCHEMA, b);
    Some(RegisterOf(vs))
  }

  function ParsePair(b: Text): Option<Pair>
  {
    ParseLength(PAIR_SCHEMA, b, 0, 0);
    var vs :- Parse(PAIR_SCHEMA, b);
    Some(PairOf(vs))
  }

  function ParseData(b: Text): Option<UploadData>
  {
    ParseLength(DATA_SCHEMA, b, 0, 0);
    var vs :- Parse(DATA_SCHEMA, b);
    ParseIffPrinted(DATA_SCHEMA, vs, b);
    assert Holds(DATA_SCHEMA[1], vs[1]);
    Some(DataOf(vs))
  }

  function ParseInit(b: Text): Option<UploadInit>
  {
    ParseLength(INIT_SCHEMA, b, 0, 0);
    var vs :- Parse(INIT_SCHEMA, b);
    ParseIffPrinted(INIT_SCHEMA, vs, b);
    assert Holds(INIT_SCHEMA[3], vs[3]);
    Some(InitOf(vs))
  }

  // ---------------------------------------------------------------------------------------
  // Encoders and decoders as the source writes them: one buffer, one advancing offset
  // ---------------------------------------------------------------------------------------

  method PutString(out: Text, s: Text) returns (r: Text)
    ensures r == out + PrintField(Prefixed, s)
  {
    r := out + Be32(|s| % TWO32);
    r := r + s;
  }

  lemma PrintStep(out: Text, ks: Schema, vs: seq<Text>, i: nat)
    requires i < |ks| == |vs|
    ensures out + Print(ks, vs, i) == out + PrintField(ks[i], vs[i]) + Print(ks, vs, i + 1)
  {
  }

  lemma PrintEnd(out: Text, ks: Schema, vs: seq<Text>)
    requires |ks| == |vs|
    ensures out + Print(ks, vs, |ks|) == out
  {
  }

  /** The part of a parse that is left when fields `0..i` have been read and `off` bytes used. */
  ghost predicate Reached(ks: Schema, b: Text, i: nat, off: nat, done: seq<Text>)
    requires i <= |ks|
  {
    Parse(ks, b) == match Parse(ks, b, i, off)
                    case None => None
                    case Some(vs) => Some(done + vs)
  }

  lemma Start(ks: Schema, b: Text)
    ensures Reached(ks, b, 0, 0, [])
  {
    if Parse(ks, b).Some? {
      assert [] + Parse(ks, b).value == Parse(ks, b).value;
    }
  }

  lemma Advance(ks: Schema, b: Text, i: nat, off: nat, done: seq<Text>)
    requires i < |ks| && Reached(ks, b, i, off, done)
    ensures match ReadAt(ks[i], b, off)
            case None => Parse(ks, b).None?
            case Some(v) => Reached(ks, b, i + 1, off + Width(ks[i], v), done + [v])
  {
    hide ReadAt, Width;
    var v := ReadAt(ks[i], b, off);
    if v.Some? {
      var rest := Parse(ks, b, i + 1, off + Width(ks[i], v.value));
      if rest.Some? {
        assert done + ([v.value] + rest.value) == done + [v.value] + rest.value;
      }
    }
  }

  /** The buffer and the captured offset that a decoder's `readStr` and `readBytes` advance.
      The ghost fields follow the schema: `done` holds the fields read so far. */
  class Cursor {
    const b: Text
    var off: nat
    ghost const ks: Schema
    ghost var i: nat
    ghost var done: seq<Text>

    ghost predicate Valid()
      reads this
    {
      i <= |ks| && Reached(ks, b, i, off, done)
    }

    constructor (b: Text, ghost ks: Schema)
      ensures Valid() && this.b == b && this.ks == ks && i == off == 0 && done == []
    {
      this.b, this.ks, off, i, done := b, ks, 0, 0, [];
      Start(ks, b);
    }

    method ReadString() returns (r: Option<Text>)
      requires Valid() && i < |ks| && ks[i] == Prefixed
      modifies this
      ensures r.None? ==> Parse(ks, b).None?
      ensures r.Some? ==> Valid() && i == old(i) + 1 && done == old(done) + [r.value]
    {
      hide Reached, Parse;
      Advance(ks, b, i, off, done);
      if off + 4 > |b| {
        return None;
      }
      var len := Get32(b[off..]);
      off := off + 4;
      if off + len > |b| {
        return None;
      }
      r := Some(b[off..off + len]);
      off, i, done := off + len, i + 1, done + [r.value];
    }

    method ReadRaw(n: nat) returns (r: Option<Text>)
      requires Valid() && i < |ks| && ks[i] == Fixed(n)
      modifies this
      ensures r.None? ==> Parse(ks, b).None?
      ensures r.Some? ==> Valid() && i == old(i) + 1 && done == old(done) + [r.value] && |r.value| == n
    {
      hide Reached, Parse;
      Advance(ks, b, i, off, done);
      if off + n > |b| {
        return None;
      }
      r := Some(b[off..off + n]);
      off, i, done := off + n, i + 1, done + [r.value];
    }
  }

  lemma Finished(c: Cursor)
    requires c.Valid() && c.i == |c.ks|
    ensures Parse(c.ks, c.b) == Some(c.done)
  {
    assert c.done + [] == c.done;
  }

  method EncodeRegister(p: Register) returns (out: Text)
    ensures out == Print(REGISTER_SCHEMA, RegisterFields(p))
  {
    hide Print, PrintField;
    ghost var ks, vs := REGISTER_SCHEMA, RegisterFields(p);
    out := [];
    assert out + Print(ks, vs) == Print(ks, vs);
    PrintStep(out, ks, vs, 0); out := PutString(out, p.username);
    PrintStep(out, ks, vs, 1); out := PutString(out, p.email);
    PrintStep(out, ks, vs, 2); out := PutString(out, p.password);
    PrintEnd(out, ks, vs);
  }

  method DecodeRegister(b: Text) returns (r: Option<Register>)
    ensures r == ParseRegister(b)
  {
    hide Reached, Parse;
    var c := new Cursor(b, REGISTER_SCHEMA);
    var username := c.ReadString(); if username.None? { return None; }
    var email := c.ReadString(); if email.None? { return None; }
    var password := c.ReadString(); if password.None? { return None; }
    Finished(c);
    r := Some(Register(username.value, email.value, password.value));
  }

  /** `encodeLogin`, `encodeAdmin` and `encodeDownloadReq` share one body. */
  method EncodePair(p: Pair) returns (out: Text)
    ensures out == Print(PAIR_SCHEMA, PairFields(p))
  {
    hide Print, PrintField;
    ghost var ks, vs := PAIR_SCHEMA, PairFields(p);
    out := [];
    assert out + Print(ks, vs) == Print(ks, vs);
    PrintStep(out, ks, vs, 0); out := PutString(out, p.first);
    PrintStep(out, ks, vs, 1); out := PutString(out, p.second);
    PrintEnd(out, ks, vs);
  }

  method DecodePair(b: Text) returns (r: Option<Pair>)
    ensures r == ParsePair(b)
  {
    hide Reached, Parse;
    var c := new Cursor(b, PAIR_SCHEMA);
    var first := c.ReadString(); if first.None? { return None; }
    var second := c.ReadString(); if second.None? { return None; }
    Finished(c);
    r := Some(Pair(first.value, second.value));
  }

  method EncodeUploadInit(p: UploadInit) returns (out: Text)
    ensures out == Print(INIT_SCHEMA, InitFields(p))
  {
    hide Print, PrintField, Be64;
    ghost var ks, vs := INIT_SCHEMA, InitFields(p);
    out := [];
    assert out + Print(ks, vs) == Print(ks, vs);
    PrintStep(out, ks, vs, 0); out := PutString(out, p.recipient);
    PrintStep(out, ks, vs, 1); out := PutString(out, p.origName);
    PrintStep(out, ks, vs, 2); out := PutString(out, p.uploadId);
    PrintStep(out, ks, vs, 3); PrintRaw(8, vs[3]); out := Put64(out, p.size);
    PrintStep(out, ks, vs, 4); PrintRaw(32, vs[4]); out := out + p.digest;
    PrintStep(out, ks, vs, 5); out := PutString(out, p.wrapped.recipientId);
    PrintStep(out, ks, vs, 6); out := PutString(out, p.wrapped.nonce);
    PrintStep(out, ks, vs, 7); out := PutString(out, p.wrapped.bytes);
    PrintStep(out, ks, vs, 8); out := PutString(out, p.wrapped.alg);
    PrintEnd(out, ks, vs);
  }

  lemma PrintRaw(n: nat, v: Text)
    ensures PrintField(Fixed(n), v) == v
  {
  }

  method DecodeUploadInit(b: Text) returns (r: Option<UploadInit>)
    ensures r == ParseInit(b)
  {
    hide Reached, Parse, Get64;
    var c := new Cursor(b, INIT_SCHEMA);
    var recipient := c.ReadString(); if recipient.None? { return None; }
    var origName := c.ReadString(); if origName.None? { return None; }
    var uploadId := c.ReadString(); if uploadId.None? { return None; }
    var size := c.ReadRaw(8); if size.None? { return None; }
    var digest := c.ReadRaw(32); if digest.None? { return None; }
    var recipientId := c.ReadString(); if recipientId.None? { return None; }
    var nonce := c.ReadString(); if nonce.None? { return None; }
    var bytes := c.ReadString(); if bytes.None? { return None; }
    var alg := c.ReadString(); if alg.None? { return None; }
    Finished(c);
    var n := Load64(size.value);
    var wrapped := WrappedKey(recipientId.value, nonce.value, bytes.value, alg.value);
    if wrapped.alg == [] {
      wrapped := wrapped.(alg := DefaultAlg());
    }
    r := Some(UploadInit(recipient.value, origName.value, uploadId.value, n, digest.value, wrapped));
  }

  method EncodeUploadData(p: UploadData) returns (out: Text)
    ensures out == Print(DATA_SCHEMA, DataFields(p))
  {
    hide Print, PrintField, Be64;
    ghost var ks, vs := DATA_SCHEMA, DataFields(p);
    out := [];
    assert out + Print(ks, vs) == Print(ks, vs);
    PrintStep(out, ks, vs, 0); out := PutString(out, p.uploadId);
    PrintStep(out, ks, vs, 1); PrintRaw(8, vs[1]); out := Put64(out, p.offset);
    PrintStep(out, ks, vs, 2); out := PutString(out, p.chunk);
    PrintEnd(out, ks, vs);
  }

  method DecodeUploadData(b: Text) returns (r: Option<UploadData>)
    ensures r == ParseData(b)
  {
    hide Reached, Parse, Get64;
    var c := new Cursor(b, DATA_SCHEMA);
    var uploadId := c.ReadString(); if uploadId.None? { return None; }
    var offset := c.ReadRaw(8); if offset.None? { return None; }
    var chunk := c.ReadString(); if chunk.None? { return None; }
    Finished(c);
    var n := Load64(offset.value);
    r := Some(UploadData(uploadId.value, n, chunk.value));
  }

  // ---------------------------------------------------------------------------------------
  // Codec laws, payload by payload
  // ---------------------------------------------------------------------------------------

  /** Decoding an encoding, whatever follows it, and refusing every truncation of it. */
  lemma RegisterCodec(p: Register, rest: Text, cut: Text)
    requires HoldsAll(REGISTER_SCHEMA, RegisterFields(p))
    ensures ParseRegister(Print(REGISTER_SCHEMA, RegisterFields(p)) + rest) == Some(p)
    ensures cut < Print(REGISTER_SCHEMA, RegisterFields(p)) ==> ParseRegister(cut).None?
  {
    hide Print, Parse;
    ParseIffPrinted(REGISTER_SCHEMA, RegisterFields(p), Print(REGISTER_SCHEMA, RegisterFields(p)) + rest);
    if cut < Print(REGISTER_SCHEMA, RegisterFields(p)) {
      TruncatedRefused(REGISTER_SCHEMA, RegisterFields(p), cut);
    }
  }

  lemma PairCodec(p: Pair, rest: Text, cut: Text)
    requires HoldsAll(PAIR_SCHEMA, PairFields(p))
    ensures ParsePair(Print(PAIR_SCHEMA, PairFields(p)) + rest) == Some(p)
    ensures cut < Print(PAIR_SCHEMA, PairFields(p)) ==> ParsePair(cut).None?
  {
    hide Print, Parse;
    ParseIffPrinted(PAIR_SCHEMA, PairFields(p), Print(PAIR_SCHEMA, PairFields(p)) + rest);
    if cut < Print(PAIR_SCHEMA, PairFields(p)) {
      TruncatedRefused(PAIR_SCHEMA, PairFields(p), cut);
    }
  }

  lemma UploadDataCodec(p: UploadData, rest: Text, cut: Text)
    requires HoldsAll(DATA_SCHEMA, DataFields(p))
    ensures ParseData(Print(DATA_SCHEMA, DataFields(p)) + rest) == Some(p)
    ensures cut < Print(DATA_SCHEMA, DataFields(p)) ==> ParseData(cut).None?
  {
    hide Print, Parse, Be64, Get64;
    ParseIffPrinted(DATA_SCHEMA, DataFields(p), Print(DATA_SCHEMA, DataFields(p)) + rest);
    if cut < Print(DATA_SCHEMA, DataFields(p)) {
      TruncatedRefused(DATA_SCHEMA, DataFields(p), cut);
    }
    Get64OfBe64(p.offset, []);
    assert Be64(p.offset) + [] == Be64(p.offset);
  }

  /** The one payload that does not come back as it was sent: an empty `alg` is replaced. */
  lemma UploadInitCodec(p: UploadInit, rest: Text, cut: Text)
    requires HoldsAll(INIT_SCHEMA, InitFields(p))
    ensures ParseInit(Print(INIT_SCHEMA, InitFields(p)) + rest) == Some(p.(wrapped := p.wrapped.(alg := Normal(p.wrapped.alg))))
    ensures cut < Print(INIT_SCHEMA, InitFields(p)) ==> ParseInit(cut).None?
  {
    hide Print, Parse, Be64, Get64;
    ParseIffPrinted(INIT_SCHEMA, InitFields(p), Print(INIT_SCHEMA, InitFields(p)) + rest);
    if cut < Print(INIT_SCHEMA, InitFields(p)) {
      TruncatedRefused(INIT_SCHEMA, InitFields(p), cut);
    }
    Get64OfBe64(p.size, []);
    assert Be64(p.size) + [] == Be64(p.size);
  }

  /** A decoded `UploadData` is on the wire: the body starts with its encoding. */
  lemma DecodedDataIsEncoded(b: Text)
    requires ParseData(b).Some?
    ensures var p := ParseData(b).value;
            HoldsAll(DATA_SCHEMA, DataFields(p)) && Print(DATA_SCHEMA, DataFields(p)) <= b
  {
    hide Print, Parse, Be64, Get64;
    var vs := Parse(DATA_SCHEMA, b).value;
    ParseIffPrinted(DATA_SCHEMA, vs, b);
    assert Holds(DATA_SCHEMA[1], vs[1]);
    Be64OfGet64(vs[1]);
    assert vs[1][..8] == vs[1];
    assert DataFields(ParseData(b).value) == vs;
  }
}
