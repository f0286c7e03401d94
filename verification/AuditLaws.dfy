/** The audit log against what its format promises: JSON strings by RFC 8259, the lines character
    by character, numbers as `std::stoull` reads them, and a log that has been tampered with
    (src/infrastructure/hash_chain_file_audit.cpp). */
module AuditLaws {
  import opened Bytes
  import opened AuditText
  import opened AuditLog
  import opened AuditRuns

  // ---------------------------------------------------------------------------------------
  // Escaped text is a JSON string
  // ---------------------------------------------------------------------------------------

  function HexValue(c: char): Option<nat>
  {
    if '0' <= c <= '9' then Some(c as int - '0' as int)
    else if 'a' <= c <= 'f' then Some(c as int - 'a' as int + 10)
    else if 'A' <= c <= 'F' then Some(c as int - 'A' as int + 10)
    else None
  }

  /** The two-character escapes of section 7 of RFC 8259. */
  function Named(c: char): Option<char>
  {
    if c == '\"' || c == '\\' || c == '/' then Some(c)
    else if c == 'b' then Some(8 as char)
    else if c == 'f' then Some(12 as char)
    else if c == 'n' then Some(10 as char)
    else if c == 'r' then Some(13 as char)
    else if c == 't' then Some(9 as char)
    else None
  }

  /** The character of four hexadecimal digits, below the surrogates. */
  function Coded(s: string): Option<char>
    requires |s| == 4
  {
    var a :- HexValue(s[0]);
    var b :- HexValue(s[1]);
    var c :- HexValue(s[2]);
    var d :- HexValue(s[3]);
    var code := 4096 * a + 256 * b + 16 * c + d;
    if code < 0xD800 then Some(code as char) else None
  }

  /** Reads the inside of a JSON string: a bare quote or control character is an error. */
  function Unescape(s: string): Option<string>
  {
    if s == "" then Some("")
    else if s[0] == '\"' || s[0] < ' ' then None
    else if s[0] != '\\' then
      var rest :- Unescape(s[1..]);
      Some([s[0]] + rest)
    else if |s| >= 6 && s[1] == 'u' then
      var c :- Coded(s[2..6]);
      var rest :- Unescape(s[6..]);
      Some([c] + rest)
    else if |s| >= 2 then
      var c :- Named(s[1]);
      var rest :- Unescape(s[2..]);
      Some([c] + rest)
    else None
  }

  lemma UnescapeOne(c: char, rest: string)
    ensures Unescape(EscapeChar(c) + rest) == match Unescape(rest) case None => None case Some(t) => Some([c] + t)
  {
    var p, s := EscapeChar(c), EscapeChar(c) + rest;
    assert s[|p|..] == rest;
    if Mnemonic(c).Some? {
      assert s[0] == p[0] && s[1] == p[1];
    } else if c < ' ' {
      UnescapeCode(c);
      assert s[0] == p[0] && s[1] == p[1] && s[2..6] == p[2..6];
    } else {
      assert s[0] == c;
    }
  }

  lemma UnescapeCode(c: char)
    requires c < ' ' && Mnemonic(c).None?
    ensures |EscapeChar(c)| == 6 && Coded(EscapeChar(c)[2..6]) == Some(c)
  {
    var p, n := EscapeChar(c), c as int;
    assert p[2..6] == ['0', '0', HexDigit(n / 16), HexDigit(n % 16)];
    HexValueOfDigit(n / 16);
    HexValueOfDigit(n % 16);
    hide HexDigit, HexValue;
    assert HexValue('0') == Some(0) by { HexValueOfZero(); }
  }

  lemma HexValueOfDigit(i: nat)
    requires i < 16
    ensures HexValue(HexDigit(i)) == Some(i)
  {
  }

  lemma HexValueOfZero()
    ensures HexValue('0') == Some(0)
  {
  }

  /** Any JSON reader gets back exactly the text that was escaped. */
  lemma {:induction false} UnescapeEscape(s: string)
    ensures Unescape(Escape(s)) == Some(s)
  {
    if s != "" {
      hide EscapeChar;
      UnescapeEscape(s[1..]);
      UnescapeOne(s[0], Escape(s[1..]));
      hide Unescape;
      assert Escape(s) == EscapeChar(s[0]) + Escape(s[1..]);
      assert s == [s[0]] + s[1..];
    }
  }

  // ---------------------------------------------------------------------------------------
  // The lines, character by character
  // ---------------------------------------------------------------------------------------

  /** One member of the object, its value as a JSON string. */
  function Member(k: string, v: string): string
  {
    ",\"" + k + "\":\"" + Escape(v) + "\""
  }

  /** The text that is hashed. */
  lemma CanonicalText(e: Event)
    ensures Canonical(e) ==
            "{\"seq\":" + Decimal(e.seqNo) + Member("ts", e.ts) + Member("actor", e.actor) + Member("action", e.action)
            + Member("fileId", e.fileId) + Member("cipherHash", e.cipherHash) + Member("prevHash", e.prevHash) + "}"
  {
    hide Decimal, Members, Member, Fields;
    MembersText(e);
    Assoc("{\"seq\":" + Decimal(e.seqNo), Member("ts", e.ts), Member("actor", e.actor), Member("action", e.action),
          Member("fileId", e.fileId), Member("cipherHash", e.cipherHash), Member("prevHash", e.prevHash), "}");
  }

  lemma MembersText(e: Event)
    ensures Members(Fields(e)) ==
            Member("ts", e.ts) + (Member("actor", e.actor) + (Member("action", e.action)
            + (Member("fileId", e.fileId) + (Member("cipherHash", e.cipherHash) + (Member("prevHash", e.prevHash) + "}")))))
  {
    var kvs, vs := Fields(e), Values(e);
    FieldsList(e);
    assert kvs[0..] == kvs && kvs[6..] == [];
    assert Members([]) == "}";
    hide Members, Member, Fields, Escape;
    MembersOf(kvs, KEYS, vs, 0);
    MembersOf(kvs, KEYS, vs, 1);
    MembersOf(kvs, KEYS, vs, 2);
    MembersOf(kvs, KEYS, vs, 3);
    MembersOf(kvs, KEYS, vs, 4);
    MembersOf(kvs, KEYS, vs, 5);
  }

  lemma Assoc(h: string, a: string, b: string, c: string, d: string, e: string, f: string, z: string)
    ensures h + (a + (b + (c + (d + (e + (f + z)))))) == h + a + b + c + d + e + f + z
  {
    assert e + (f + z) == e + f + z;
    assert d + (e + f + z) == d + e + f + z;
    assert c + (d + e + f + z) == c + d + e + f + z;
    assert b + (c + d + e + f + z) == b + c + d + e + f + z;
    assert a + (b + c + d + e + f + z) == a + b + c + d + e + f + z;
    assert h + (a + b + c + d + e + f + z) == h + a + b + c + d + e + f + z;
  }

  lemma MembersOf(kvs: seq<(string, string)>, keys: seq<string>, vals: seq<string>, i: nat)
    requires Lists(kvs, keys, vals) && i < |kvs|
    ensures Members(kvs[i..]) == Member(keys[i], vals[i]) + Members(kvs[i + 1..])
  {
    hide Escape;
    assert kvs[i..][1..] == kvs[i + 1..];
  }

  /** The line that is written: the same, with the hash before the closing brace. */
  lemma WrittenText(e: Event, h: string)
    ensures |Canonical(e)| > 0
    ensures Written(e, h) == Canonical(e)[..|Canonical(e)| - 1] + ",\"msgHash\":\"" + h + "\"}"
  {
    var kvs, kvs' := Fields(e), Fields(e) + [("msgHash", h)];
    hide Escape, Decimal;
    MembersSnoc(kvs, "msgHash", h);
    hide Members, Fields;
    var m := Members(kvs);
    assert Canonical(e)[..|Canonical(e)| - 1] == "{\"seq\":" + Decimal(e.seqNo) + m[..|m| - 1];
  }

  lemma {:induction false} MembersSnoc(kvs: seq<(string, string)>, k: string, v: string)
    ensures Members(kvs) != ""
    ensures Members(kvs + [(k, v)]) == Members(kvs)[..|Members(kvs)| - 1] + ",\"" + k + "\":\"" + v + "\"}"
  {
    if kvs == [] {
      assert [(k, v)][1..] == [];
      assert Members([]) == "}";
    } else {
      MembersSnoc(kvs[1..], k, v);
      assert (kvs + [(k, v)])[1..] == kvs[1..] + [(k, v)];
    }
  }

  // ---------------------------------------------------------------------------------------
  // Numbers
  // ---------------------------------------------------------------------------------------

  lemma DecimalDigits(n: nat, rest: string)
    requires rest == "" || !IsDigit(rest[0])
    ensures SkipSpace(Decimal(n) + rest) == Decimal(n) + rest && DigitRun(Decimal(n) + rest) == Decimal(n)
  {
    hide Decimal;
    DigitRunOf(Decimal(n), rest);
  }

  lemma {:induction false} DigitRunOf(d: string, rest: string)
    requires (forall i :: 0 <= i < |d| ==> IsDigit(d[i])) && (rest == "" || !IsDigit(rest[0]))
    ensures DigitRun(d + rest) == d
  {
    if d == "" {
      assert d + rest == rest;
    } else {
      DigitRunOf(d[1..], rest);
      assert (d + rest)[1..] == d[1..] + rest;
    }
  }

  /** How the sequence number is read: what follows the digits is ignored, and a number of 2^64 or
      more reads as 0. */
  lemma StoullReads(n: nat, rest: string)
    requires rest == "" || !IsDigit(rest[0])
    ensures Stoull(Decimal(n) + rest) == if n < 0x1_0000_0000_0000_0000 then n else 0
  {
    DecimalDigits(n, rest);
    DigitsOfDecimal(n);
    hide Decimal, DigitRun, Digits, Stoull;
    assert Decimal(n) != "" && '0' <= (Decimal(n) + rest)[0] <= '9';
    Unsigned(Decimal(n) + rest);
  }

  lemma Unsigned(s: string)
    requires s != "" && '0' <= s[0] <= '9'
    ensures Stoull(s) == Leading(s)
  {
    hide DigitRun, Digits;
    assert SkipSpace(s) == s;
  }

  /** A plus is skipped, and a minus wraps around. */
  lemma StoullSigns(n: nat, rest: string)
    requires rest == "" || !IsDigit(rest[0])
    ensures Stoull("+" + (Decimal(n) + rest)) == if n < 0x1_0000_0000_0000_0000 then n else 0
    ensures Stoull("-" + (Decimal(n) + rest)) == if 0 < n < 0x1_0000_0000_0000_0000 then 0x1_0000_0000_0000_0000 - n else 0
  {
    DecimalDigits(n, rest);
    DigitsOfDecimal(n);
    hide Decimal, DigitRun, Digits, Stoull;
    Signed('+', Decimal(n) + rest);
    Signed('-', Decimal(n) + rest);
  }

  /** The value of the digits at the start, 0 if there are none or too many. */
  function Leading(s: string): nat
  {
    var d := DigitRun(s);
    if d == "" || Digits(d) >= TWO64 then 0 else Digits(d)
  }

  lemma Signed(c: char, s: string)
    requires c == '+' || c == '-'
    ensures Stoull([c] + s) == if c == '+' || Leading(s) == 0 then Leading(s) else TWO64 - Leading(s)
  {
    hide DigitRun, Digits;
    assert ([c] + s)[1..] == s;
    assert SkipSpace([c] + s) == [c] + s;
  }

  /** A text without digits reads as 0. */
  lemma StoullNothing(s: string)
    requires s == "" || !(IsDigit(s[0]) || s[0] == ' ' || '\t' <= s[0] <= '\r' || s[0] == '+' || s[0] == '-')
    ensures Stoull(s) == 0
  {
    NoDigits(s);
    hide DigitRun, Digits;
  }

  lemma NoDigits(s: string)
    requires s == "" || !IsDigit(s[0])
    ensures DigitRun(s) == ""
  {
  }

  lemma StoullSkips(s: string)
    ensures Stoull(" " + s) == Stoull("\t" + s) == Stoull(s)
  {
    assert (" " + s)[1..] == s && ("\t" + s)[1..] == s;
    hide DigitRun, Digits;
  }

  // ---------------------------------------------------------------------------------------
  // Tampered logs
  // ---------------------------------------------------------------------------------------

  /** A log that does not verify is opened as corrupted, and from then on nothing is recorded, not
      even after further reopenings. */
  lemma {:induction false} CorruptedForGood(hash: Hash, file: string, acts: seq<Action>)
    requires !Verified(hash, file)
    ensures Open(hash, file).lastHash == "CORRUPTED" && Run(hash, Open(hash, file), acts).file == file
  {
    NoLinesVerify(hash, file);
    hide Verified, Lines, GetFirst, Stoull, Append;
    if acts != [] {
      CorruptedForGood(hash, file, acts[..|acts| - 1]);
    }
  }

  lemma NoLinesVerify(hash: Hash, file: string)
    ensures Lines(file) == [] ==> Verified(hash, file)
  {
    hide Lines, Canonical;
  }

  /** Changing any one entry of a log that verifies is noticed, unless every later entry is changed
      too or the hash has a collision: two logs that verify and agree from some entry on agree
      before it as well. */
  lemma TamperingShows(hash: Hash, es: seq<Entry>, fs: seq<Entry>, i: nat) returns (x: string, y: string)
    requires Chain(hash, es) && Chain(hash, fs) && ByteEntries(es) && ByteEntries(fs)
    requires |es| == |fs| && i < |es| && es[i] == fs[i]
    ensures es[..i + 1] == fs[..i + 1] || Collision(hash, x, y)
  {
    hide Chain, Collision;
    ChainPrefix(hash, es, i + 1);
    ChainPrefix(hash, fs, i + 1);
    hide ByteEvent;
    x, y := OneHashPinsHistory(hash, es[..i + 1], fs[..i + 1]);
  }
}
