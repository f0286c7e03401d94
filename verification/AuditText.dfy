/** The text of the audit log (src/infrastructure/hash_chain_file_audit.cpp): the printer of
    one line and the parser that searches it for keys. */
module AuditText {
  import opened Bytes

  // ---------------------------------------------------------------------------------------
  // Printing
  // ---------------------------------------------------------------------------------------

  datatype Event = Event(seqNo: nat, ts: string, actor: string, action: string, fileId: string, cipherHash: string, prevHash: string)

  /** The letter that stands for a character after a backslash, if it has one. */
  function Mnemonic(c: char): Option<char>
  {
    if c == '\"' then Some('\"')
    else if c == '\\' then Some('\\')
    else if c == '\n' then Some('n')
    else if c == '\r' then Some('r')
    else if c == '\t' then Some('t')
    else None
  }

  function HexDigit(i: nat): (c: char)
    requires i < 16
    ensures '0' <= c <= '9' || 'a' <= c <= 'f'
  {
    if i < 10 then '0' + i as char else 'a' + (i - 10) as char
  }

  function EscapeChar(c: char): (r: string)
    ensures r != ""
  {
    match Mnemonic(c)
    case Some(m) => ['\\', m]
    case None => if c < ' ' then ['\\', 'u', '0', '0', HexDigit(c as int / 16), HexDigit(c as int % 16)] else [c]
  }

  function Escape(s: string): string
  {
    if s == "" then "" else EscapeChar(s[0]) + Escape(s[1..])
  }

  lemma EscapeStep(s: string, x: string)
    requires s != ""
    ensures Escape(s) + x == EscapeChar(s[0]) + (Escape(s[1..]) + x)
  {
    hide EscapeChar;
  }

  /** `jsonEscape`. */
  method JsonEscape(s: string) returns (out: string)
    ensures out == Escape(s)
  {
    hide EscapeChar;
    out := "";
    assert s[0..] == s;
    for i := 0 to |s|
      invariant Escape(s) == out + Escape(s[i..])
    {
      assert s[i..][1..] == s[i + 1..];
      var piece := EscapeOne(s[i]);
      assert out + (piece + Escape(s[i + 1..])) == out + piece + Escape(s[i + 1..]);
      out := out + piece;
    }
  }

  /** The branches of the loop body of `jsonEscape`. */
  method EscapeOne(c: char) returns (piece: string)
    ensures piece == EscapeChar(c)
  {
    if c == '\"' { piece := "\\\""; }
    else if c == '\\' { piece := "\\\\"; }
    else if c == '\n' { piece := "\\n"; }
    else if c == '\r' { piece := "\\r"; }
    else if c == '\t' { piece := "\\t"; }
    else if c < ' ' { piece := "\\u00" + [HexDigit(c as int / 16), HexDigit(c as int % 16)]; }
    else { piece := [c]; }
  }

  function Decimal(n: nat): (r: string)
    ensures r != "" && forall i :: 0 <= i < |r| ==> '0' <= r[i] <= '9'
  {
    (if n < 10 then "" else Decimal(n / 10)) + ['0' + (n % 10) as char]
  }

  /** The `,"key":"text"` members after the first, and the closing brace. */
  function Members(kvs: seq<(string, string)>): (r: string)
    ensures r != "" && r[0] == (if kvs == [] then '}' else ',')
  {
    if kvs == [] then "}"
    else ",\"" + kvs[0].0 + "\":\"" + kvs[0].1 + "\"" + Members(kvs[1..])
  }

  function Line(n: nat, kvs: seq<(string, string)>): string
  {
    "{\"seq\":" + Decimal(n) + Members(kvs)
  }

  function Fields(e: Event): seq<(string, string)>
  {
    [("ts", Escape(e.ts)), ("actor", Escape(e.actor)), ("action", Escape(e.action)),
     ("fileId", Escape(e.fileId)), ("cipherHash", Escape(e.cipherHash)), ("prevHash", Escape(e.prevHash))]
  }

  function Canonical(e: Event): string
  {
    Line(e.seqNo, Fields(e))
  }

  /** The line `record` appends, without its newline. `msgHash` is written unescaped. */
  function Written(e: Event, msgHash: string): string
  {
    Line(e.seqNo, Fields(e) + [("msgHash", msgHash)])
  }

  // ---------------------------------------------------------------------------------------
  // Canonical text is injective
  // ---------------------------------------------------------------------------------------

  /** The escaping is a prefix code: the first code word can be read off unambiguously. */
  lemma EscapeCharPrefixFree(c: char, d: char, x: string, y: string)
    requires EscapeChar(c) + x == EscapeChar(d) + y
    ensures c == d && x == y
  {
    var p, q := EscapeChar(c), EscapeChar(d);
    SameStart(p, x, q, y);
    EscapeCharSelf(c, d);
    assert x == (p + x)[|p|..] && y == (q + y)[|q|..];
  }

  lemma SameStart(p: string, x: string, q: string, y: string)
    requires p + x == q + y
    ensures forall i :: 0 <= i < |p| && i < |q| ==> p[i] == q[i]
  {
    assert forall i :: 0 <= i < |p| ==> (p + x)[i] == p[i];
    assert forall i :: 0 <= i < |q| ==> (q + y)[i] == q[i];
  }

  /** Two code words that agree as far as both go are the same. */
  lemma EscapeCharSelf(c: char, d: char)
    requires forall i :: 0 <= i < |EscapeChar(c)| && i < |EscapeChar(d)| ==> EscapeChar(c)[i] == EscapeChar(d)[i]
    ensures c == d
  {
    var p, q := EscapeChar(c), EscapeChar(d);
    assert p[0] == q[0];
    if |p| > 1 && |q| > 1 {
      assert p[1] == q[1];
    }
    if |p| == 6 && |q| == 6 {
      assert p[4] == q[4] && p[5] == q[5];
      HexDistinct(c as int / 16, d as int / 16);
      HexDistinct(c as int % 16, d as int % 16);
    }
  }

  lemma HexDistinct(i: nat, j: nat)
    requires i < 16 && j < 16 && HexDigit(i) == HexDigit(j)
    ensures i == j
  {
  }

  /** An escaped string never starts with a bare quote. */
  lemma EscapeStart(c: char, x: string, y: string)
    ensures EscapeChar(c) + x != "\"" + y
  {
    assert (EscapeChar(c) + x)[0] == EscapeChar(c)[0] != '\"';
  }

  /** Escaped text up to its closing quote determines the string and what follows. */
  lemma {:induction false} EscapeInjective(a: string, b: string, x: string, y: string)
    requires Escape(a) + "\"" + x == Escape(b) + "\"" + y
    ensures a == b && x == y
  {
    hide EscapeChar;
    var u, v := "\"" + x, "\"" + y;
    assert Escape(a) + "\"" + x == Escape(a) + u && Escape(b) + "\"" + y == Escape(b) + v;
    if a != "" { EscapeStep(a, u); EscapeStart(a[0], Escape(a[1..]) + u, y); }
    if b != "" { EscapeStep(b, v); EscapeStart(b[0], Escape(b[1..]) + v, x); }
    assert a == "" ==> Escape(a) + u == u;
    assert b == "" ==> Escape(b) + v == v;
    if a == "" {
      assert u[1..] == x && v[1..] == y;
    } else {
      EscapeCharPrefixFree(a[0], b[0], Escape(a[1..]) + u, Escape(b[1..]) + v);
      assert Escape(a[1..]) + "\"" + x == Escape(a[1..]) + u && Escape(b[1..]) + "\"" + y == Escape(b[1..]) + v;
      EscapeInjective(a[1..], b[1..], x, y);
      assert a == [a[0]] + a[1..] && b == [b[0]] + b[1..];
    }
  }

  function Digits(s: string): nat
    requires forall i :: 0 <= i < |s| ==> '0' <= s[i] <= '9'
  {
    if s == "" then 0 else 10 * Digits(s[..|s| - 1]) + (s[|s| - 1] as int - '0' as int)
  }

  lemma {:induction false} DigitsOfDecimal(n: nat)
    ensures Digits(Decimal(n)) == n
  {
    var d := Decimal(n);
    if n < 10 {
      assert d[..0] == "";
    } else {
      DigitsOfDecimal(n / 10);
      assert d[..|d| - 1] == Decimal(n / 10);
    }
  }

  lemma DecimalInjective(m: nat, n: nat, x: string, y: string)
    requires Decimal(m) + x == Decimal(n) + y
    requires x != "" && y != "" && !('0' <= x[0] <= '9') && !('0' <= y[0] <= '9')
    ensures m == n && x == y
  {
    hide Decimal;
    var p, q, s := Decimal(m), Decimal(n), Decimal(m) + x;
    assert s[|p|] == x[0];
    assert (q + y)[|q|] == y[0];
    assert forall i :: 0 <= i < |p| ==> s[i] == p[i];
    assert forall i :: 0 <= i < |q| ==> (q + y)[i] == q[i];
    assert |p| == |q|;
    assert p == s[..|p|] == q && x == s[|p|..] == y;
    DigitsOfDecimal(m);
    DigitsOfDecimal(n);
  }

  function Values(e: Event): seq<string>
  {
    [e.ts, e.actor, e.action, e.fileId, e.cipherHash, e.prevHash]
  }

  /** `kvs` lists `vals`, escaped, under the keys `keys`. */
  ghost predicate Lists(kvs: seq<(string, string)>, keys: seq<string>, vals: seq<string>)
  {
    |kvs| == |keys| == |vals| && forall i :: 0 <= i < |kvs| ==> kvs[i] == (keys[i], Escape(vals[i]))
  }

  const KEYS: seq<string> := ["ts", "actor", "action", "fileId", "cipherHash", "prevHash"]

  lemma FieldsList(e: Event)
    ensures Lists(Fields(e), KEYS, Values(e))
  {
    hide Escape;
  }

  /** The text before a member's value. */
  function Head(key: string): string
  {
    ",\"" + key + "\":\""
  }

  lemma MembersStep(kvs: seq<(string, string)>)
    requires kvs != []
    ensures Members(kvs) == Head(kvs[0].0) + (kvs[0].1 + "\"" + Members(kvs[1..]))
  {
  }

  lemma {:induction false} MembersInjective(kvs: seq<(string, string)>, kvs': seq<(string, string)>, keys: seq<string>, vals: seq<string>, vals': seq<string>)
    requires Lists(kvs, keys, vals) && Lists(kvs', keys, vals') && Members(kvs) == Members(kvs')
    ensures vals == vals'
    decreases |kvs|
  {
    hide Escape;
    if kvs != [] {
      var h, m, m' := Head(keys[0]), Members(kvs[1..]), Members(kvs'[1..]);
      MembersStep(kvs);
      MembersStep(kvs');
      var x, y := Escape(vals[0]) + "\"" + m, Escape(vals'[0]) + "\"" + m';
      assert (h + x)[|h|..] == x && (h + y)[|h|..] == y;
      EscapeInjective(vals[0], vals'[0], m, m');
      MembersInjective(kvs[1..], kvs'[1..], keys[1..], vals[1..], vals'[1..]);
      assert vals == [vals[0]] + vals[1..] && vals' == [vals'[0]] + vals'[1..];
    }
  }

  /** Equal canonical texts mean equal events, for arbitrary bytes in every string. */
  lemma CanonicalInjective(e: Event, f: Event)
    requires Canonical(e) == Canonical(f)
    ensures e == f
  {
    hide Escape, Decimal, Members;
    var open := "{\"seq\":";
    var x, y := Members(Fields(e)), Members(Fields(f));
    assert (open + Decimal(e.seqNo) + x)[|open|..] == Decimal(e.seqNo) + x;
    assert (open + Decimal(f.seqNo) + y)[|open|..] == Decimal(f.seqNo) + y;
    DecimalInjective(e.seqNo, f.seqNo, x, y);
    FieldsList(e);
    FieldsList(f);
    MembersInjective(Fields(e), Fields(f), KEYS, Values(e), Values(f));
    assert Values(e)[0] == Values(f)[0] && Values(e)[1] == Values(f)[1] && Values(e)[2] == Values(f)[2];
    assert Values(e)[3] == Values(f)[3] && Values(e)[4] == Values(f)[4] && Values(e)[5] == Values(f)[5];
  }

  // ---------------------------------------------------------------------------------------
  // Texts of bytes
  // ---------------------------------------------------------------------------------------

  /** A `std::string` holds bytes: every text the program can have is one of these. */
  predicate ByteText(s: string)
  {
    forall i :: 0 <= i < |s| ==> s[i] as int < 256
  }

  predicate ByteEvent(e: Event)
  {
    ByteText(e.ts) && ByteText(e.actor) && ByteText(e.action) && ByteText(e.fileId) && ByteText(e.cipherHash) && ByteText(e.prevHash)
  }

  lemma ByteConcat(a: string, b: string)
    ensures ByteText(a + b) <==> ByteText(a) && ByteText(b)
  {
    assert forall i :: 0 <= i < |a| ==> (a + b)[i] == a[i];
    assert forall i :: 0 <= i < |b| ==> (a + b)[|a| + i] == b[i];
  }

  lemma {:induction false} ByteEscape(s: string)
    requires ByteText(s)
    ensures ByteText(Escape(s))
  {
    if s != "" {
      ByteEscape(s[1..]);
      ByteConcat(EscapeChar(s[0]), Escape(s[1..]));
    }
  }

  lemma {:induction false} ByteMembers(kvs: seq<(string, string)>)
    requires forall i :: 0 <= i < |kvs| ==> ByteText(kvs[i].0) && ByteText(kvs[i].1)
    ensures ByteText(Members(kvs))
  {
    if kvs != [] {
      ByteMembers(kvs[1..]);
      MembersStep(kvs);
      hide Members;
      ByteConcat(Head(kvs[0].0), kvs[0].1 + "\"" + Members(kvs[1..]));
      ByteConcat(kvs[0].1 + "\"", Members(kvs[1..]));
    }
  }

  lemma ByteLine(n: nat, kvs: seq<(string, string)>)
    requires forall i :: 0 <= i < |kvs| ==> ByteText(kvs[i].0) && ByteText(kvs[i].1)
    ensures ByteText(Line(n, kvs))
  {
    ByteMembers(kvs);
    var d := Decimal(n);
    hide Decimal, Members;
    ByteConcat("{\"seq\":" + d, Members(kvs));
  }

  lemma ByteFields(e: Event)
    requires ByteEvent(e)
    ensures |Fields(e)| == 6 && forall i :: 0 <= i < 6 ==> ByteText(Fields(e)[i].0) && ByteText(Fields(e)[i].1)
  {
    hide Escape;
    ByteEscape(e.ts);
    ByteEscape(e.actor);
    ByteEscape(e.action);
    ByteEscape(e.fileId);
    ByteEscape(e.cipherHash);
    ByteEscape(e.prevHash);
  }

  /** What is printed of an event of bytes is bytes. */
  lemma BytePrinted(e: Event, h: string)
    requires ByteEvent(e) && ByteText(h)
    ensures ByteText(Canonical(e)) && ByteText(Written(e, h))
  {
    ByteFields(e);
    hide Line, Fields, ByteEvent;
    ByteLine(e.seqNo, Fields(e));
    ByteLine(e.seqNo, Fields(e) + [("msgHash", h)]);
  }

  // ---------------------------------------------------------------------------------------
  // Parsing by searching for `"key":`
  // ---------------------------------------------------------------------------------------

  predicate Match(s: string, pat: string, i: nat)
  {
    i + |pat| <= |s| && s[i..i + |pat|] == pat
  }

  /** `std::string::find`, with -1 for `npos`. */
  function Find(s: string, pat: string, from: nat): (r: int)
    ensures r == -1 || (from <= r <= |s| - |pat| && Match(s, pat, r))
    decreases |s| - from
  {
    if from + |pat| > |s| then -1
    else if Match(s, pat, from) then from
    else Find(s, pat, from + 1)
  }

  lemma {:induction false} FindFirst(s: string, pat: string, from: nat, m: nat)
    requires from <= m && Match(s, pat, m)
    requires forall i :: from <= i < m ==> !Match(s, pat, i)
    ensures Find(s, pat, from) == m
    decreases m - from
  {
    if from < m {
      FindFirst(s, pat, from + 1, m);
    }
  }

  function Substr(s: string, p: nat, q: int): string
    requires p <= |s| && (q == -1 || p <= q <= |s|)
  {
    if q == -1 then s[p..] else s[p..q]
  }

  function Pattern(k: string): string
  {
    "\"" + k + "\":"
  }

  /** From a quote found at `q`, on to the first one not preceded by a backslash. */
  function Closing(s: string, q: int): (r: int)
    requires q == -1 || 0 < q < |s|
    ensures r == -1 || q <= r < |s|
    decreases if q == -1 then 0 else |s| - q
  {
    if q != -1 && s[q - 1] == '\\' then Closing(s, Find(s, "\"", q + 1)) else q
  }

  /** The `get` of `verify`. A search that fails gives the empty string, an unclosed value the
      rest of the line. */
  function Get(line: string, k: string): string
  {
    var at := Find(line, Pattern(k), 0);
    if at == -1 then ""
    else
      var p := at + |Pattern(k)|;
      if p < |line| && line[p] == '\"' then Substr(line, p + 1, Closing(line, Find(line, "\"", p + 1)))
      else
        var q := Find(line, ",", p);
        Substr(line, p, if q == -1 then Find(line, "}", p) else q)
  }

  /** The `get` of the constructor: it stops at the first quote, escaped or not. */
  function GetFirst(line: string, k: string): string
  {
    var at := Find(line, Pattern(k), 0);
    if at == -1 then ""
    else
      var p := at + |Pattern(k)|;
      if p < |line| && line[p] == '\"' then Substr(line, p + 1, Find(line, "\"", p + 1))
      else
        var q := Find(line, ",", p);
        Substr(line, p, if q == -1 then Find(line, "}", p) else q)
  }

  /** The `get` of `verify` with its search loop. */
  method GetField(line: string, k: string) returns (r: string)
    ensures r == Get(line, k)
  {
    hide Find, Match;
    var pat := "\"" + k + "\":";
    var at := Find(line, pat, 0);
    if at == -1 {
      return "";
    }
    var p := at + |pat|;
    if p < |line| && line[p] == '\"' {
      p := p + 1;
      var q := Find(line, "\"", p);
      while q != -1 && line[q - 1] == '\\'
        invariant q == -1 || p <= q < |line|
        invariant Closing(line, q) == Closing(line, Find(line, "\"", p))
        decreases if q == -1 then 0 else |line| - q
      {
        q := Find(line, "\"", q + 1);
      }
      r := Substr(line, p, q);
    } else {
      var q := Find(line, ",", p);
      if q == -1 {
        q := Find(line, "}", p);
      }
      r := Substr(line, p, q);
    }
  }

  // ---------------------------------------------------------------------------------------
  // What the parser finds in a printed line
  // ---------------------------------------------------------------------------------------

  predicate KeyName(k: string)
  {
    k != "" && forall i :: 0 <= i < |k| ==> 'a' <= k[i] <= 'z' || 'A' <= k[i] <= 'Z'
  }

  /** Every quote in the text follows a backslash. */
  predicate NoBareQuote(t: string)
  {
    forall i :: 0 <= i < |t| && t[i] == '\"' ==> i > 0 && t[i - 1] == '\\'
  }

  /** No character that `jsonEscape` would change. */
  predicate Plain(t: string)
  {
    forall i :: 0 <= i < |t| ==> t[i] != '\"' && t[i] != '\\' && t[i] >= ' '
  }

  lemma EscapeCharNoBareQuote(c: char)
    ensures NoBareQuote(EscapeChar(c))
    ensures '\n' !in EscapeChar(c)
    ensures EscapeChar(c) == [c] <==> Plain([c])
  {
    assert [c][0] == c;
  }

  lemma {:induction false} EscapeNoBareQuote(s: string)
    ensures NoBareQuote(Escape(s)) && '\n' !in Escape(s)
    ensures |Escape(s)| >= |s|
    ensures |Escape(s)| == |s| <==> Plain(s)
    ensures Plain(s) ==> Escape(s) == s
  {
    hide EscapeChar;
    if s != "" {
      EscapeCharNoBareQuote(s[0]);
      EscapeNoBareQuote(s[1..]);
      assert Plain(s) <==> Plain([s[0]]) && Plain(s[1..]) by {
        assert s == [s[0]] + s[1..];
      }
      var p, q := EscapeChar(s[0]), Escape(s[1..]);
      assert forall i :: 0 <= i < |q| ==> (p + q)[|p| + i] == q[i];
      EscapeCharLength(s[0]);
      assert s == [s[0]] + s[1..];
    }
  }

  lemma EscapeCharLength(c: char)
    ensures |EscapeChar(c)| == 1 <==> EscapeChar(c) == [c]
  {
  }

  /** A member `,"key":"text"` laid out in `s` at `off`, followed by another one or by the brace. */
  predicate MemberAt(s: string, off: nat, key: string, text: string)
  {
    var q := off + 2 + |key|;
    var end := q + 3 + |text|;
    && end + 1 < |s|
    && s[off] == ',' && s[off + 1] == '\"' && s[off + 2..q] == key
    && s[q] == '\"' && s[q + 1] == ':' && s[q + 2] == '\"'
    && s[q + 3..end] == text && s[end] == '\"'
    && (s[end + 1] == ',' || s[end + 1] == '}')
  }

  function MemberLength(kv: (string, string)): nat
  {
    6 + |kv.0| + |kv.1|
  }

  lemma MatchShape(s: string, k: string, i: nat)
    ensures Match(s, Pattern(k), i) ==>
              && i + |k| + 2 < |s| && s[i] == '\"' && s[i + 1 + |k|] == '\"' && s[i + 2 + |k|] == ':'
              && forall x :: 0 <= x < |k| ==> s[i + 1 + x] == k[x]
  {
    var p := Pattern(k);
    assert forall x :: 0 <= x < |k| ==> p[1 + x] == k[x];
    if i + |p| <= |s| {
      var t := s[i..i + |p|];
      assert forall x :: 0 <= x < |p| ==> t[x] == s[i + x];
      if t == p {
        forall x | 0 <= x < |k| ensures s[i + 1 + x] == k[x] {
          assert t[1 + x] == p[1 + x];
        }
      }
    }
  }

  /** Inside a member the pattern of another key matches nowhere: every quote there either opens
      or closes something else, or stands before an escaped quote. */
  lemma NoMatchInMember(s: string, off: nat, key: string, text: string, k: string, i: nat)
    requires MemberAt(s, off, key, text) && KeyName(key) && KeyName(k) && NoBareQuote(text)
    requires off <= i < off + 6 + |key| + |text|
    requires key != k || i != off + 1
    ensures !Match(s, Pattern(k), i)
  {
    var q := off + 2 + |key|;
    var end := q + 3 + |text|;
    var j := i + 1 + |k|;
    MatchShape(s, k, i);
    hide Match;
    assert forall x :: off + 2 <= x < q ==> s[x] == s[off + 2..q][x - off - 2] == key[x - off - 2];
    assert forall x :: q + 3 <= x < end ==> s[x] == s[q + 3..end][x - q - 3] == text[x - q - 3];
    assert k[0] != ':' && k[0] != ',' && k[0] != '}' && k[|k| - 1] != '\\';
    if i == off + 1 {
      if |k| < |key| {
        assert s[j] == key[|k|];
      } else if |k| > |key| {
        assert k[|key|] != '\"';
      } else {
        assert exists x :: 0 <= x < |k| && k[x] != key[x];
      }
    } else if i < q {
      assert i == off || s[i] == key[i - off - 2];
    } else if q + 2 <= i < end {
      if j > end {
        assert k[end - i - 1] != '\"';
      } else if j < end {
        assert s[j] == text[j - q - 3];
        assert s[j] == '\"' ==> s[j - 1] == text[j - q - 4] == '\\';
      }
    }
  }

  /** The layout of one printed member. */
  lemma PrintedLayout(key: string, text: string, rest: string)
    requires rest != "" && (rest[0] == ',' || rest[0] == '}')
    ensures var t := Head(key) + (text + "\"" + rest); MemberAt(t, 0, key, text) && t[6 + |key| + |text|..] == rest
  {
    var t, q := Head(key) + (text + "\"" + rest), 2 + |key|;
    assert t[2..q] == key;
    assert t[q + 3..q + 3 + |text|] == text;
    assert t[q + 4 + |text|] == rest[0];
  }

  lemma ShiftMember(s: string, off: nat, key: string, text: string)
    requires off <= |s| && MemberAt(s[off..], 0, key, text)
    ensures MemberAt(s, off, key, text)
  {
    var t, q := s[off..], 2 + |key|;
    assert s[off + 2..off + q] == t[2..q];
    assert s[off + q + 3..off + q + 3 + |text|] == t[q + 3..q + 3 + |text|];
  }

  lemma MembersLayout(s: string, off: nat, kvs: seq<(string, string)>)
    requires off <= |s| && s[off..] == Members(kvs) && kvs != []
    ensures off + MemberLength(kvs[0]) <= |s|
    ensures MemberAt(s, off, kvs[0].0, kvs[0].1) && s[off + MemberLength(kvs[0])..] == Members(kvs[1..])
  {
    MembersStep(kvs);
    PrintedLayout(kvs[0].0, kvs[0].1, Members(kvs[1..]));
    ShiftMember(s, off, kvs[0].0, kvs[0].1);
    hide Members, Head;
    assert s[off..][MemberLength(kvs[0])..] == s[off + MemberLength(kvs[0])..];
  }

  ghost predicate WellKeyed(kvs: seq<(string, string)>)
  {
    forall i :: 0 <= i < |kvs| ==> KeyName(kvs[i].0) && NoBareQuote(kvs[i].1)
  }

  /** Member `j` is found at `at`: no earlier match from `off` on, and its text is there. */
  lemma {:induction false} FindMember(s: string, off: nat, kvs: seq<(string, string)>, j: nat) returns (at: nat)
    requires off <= |s| && s[off..] == Members(kvs) && WellKeyed(kvs) && j < |kvs|
    requires forall i :: 0 <= i < j ==> kvs[i].0 != kvs[j].0
    ensures off <= at && MemberAt(s, at, kvs[j].0, kvs[j].1)
    ensures forall i :: off <= i <= at ==> !Match(s, Pattern(kvs[j].0), i)
    decreases j
  {
    hide Members, MemberAt, Match, NoBareQuote, KeyName;
    MembersLayout(s, off, kvs);
    var k := kvs[j].0;
    if j == 0 {
      at := off;
      NoMatchInMember(s, off, k, kvs[0].1, k, off);
    } else {
      var next := off + MemberLength(kvs[0]);
      forall i | off <= i < next ensures !Match(s, Pattern(k), i) {
        NoMatchInMember(s, off, kvs[0].0, kvs[0].1, k, i);
      }
      at := FindMember(s, next, kvs[1..], j - 1);
    }
  }

  lemma LineHead(n: nat, kvs: seq<(string, string)>)
    ensures var s, off := Line(n, kvs), 7 + |Decimal(n)|;
            && off <= |s| && s[off..] == Members(kvs) && s[..7] == "{\"seq\":"
            && (forall i :: 7 <= i < off ==> '0' <= s[i] <= '9')
            && s[7..off] == Decimal(n)
  {
    hide Decimal, Members;
    var d, s, open := Decimal(n), Line(n, kvs), "{\"seq\":";
    assert forall i :: 7 <= i < 7 + |d| ==> s[i] == d[i - 7];
    assert s[..7] == open;
  }

  lemma NoMatchInHead(n: nat, kvs: seq<(string, string)>, k: string, i: nat)
    requires KeyName(k) && i < 7 + |Decimal(n)| && (k != "seq" || i != 1)
    ensures !Match(Line(n, kvs), Pattern(k), i)
  {
    hide Decimal, Members, Line;
    LineHead(n, kvs);
    var s := Line(n, kvs);
    MatchShape(s, k, i);
    hide Match;
    assert forall x :: 0 <= x < 7 ==> s[x] == s[..7][x];
    assert k[0] != ':';
    if i == 1 {
      if |k| > 3 {
        assert k[3] != '\"';
      } else if |k| == 3 {
        assert exists x :: 0 <= x < 3 && k[x] != "seq"[x];
      } else {
        assert s[1 + 1 + |k|] != '\"';
      }
    }
  }

  lemma SeqFound(n: nat, kvs: seq<(string, string)>)
    ensures Find(Line(n, kvs), Pattern("seq"), 0) == 1
  {
    hide Decimal, Members, Line;
    LineHead(n, kvs);
    var s := Line(n, kvs);
    assert s[1..7] == s[..7][1..] == Pattern("seq");
    NoMatchInHead(n, kvs, "seq", 0);
    FindFirst(s, Pattern("seq"), 0, 1);
  }

  lemma Single(s: string, c: char, i: nat)
    ensures Match(s, [c], i) <==> i < |s| && s[i] == c
  {
    if i < |s| {
      assert s[i..i + 1] == [s[i]];
    }
  }

  /** The sequence number is read back as it was printed. */
  lemma GetSeq(n: nat, kvs: seq<(string, string)>)
    requires kvs != []
    ensures Get(Line(n, kvs), "seq") == GetFirst(Line(n, kvs), "seq") == Decimal(n)
  {
    hide Decimal, Members, Line, Match;
    LineHead(n, kvs);
    SeqFound(n, kvs);
    var s, off := Line(n, kvs), 7 + |Decimal(n)|;
    assert s[off] == Members(kvs)[0] == ',';
    forall i | 7 <= i <= off ensures Match(s, ",", i) <==> i == off {
      Single(s, ',', i);
    }
    FindFirst(s, ",", 7, off);
  }

  lemma MemberFound(n: nat, kvs: seq<(string, string)>, j: nat) returns (at: nat)
    requires WellKeyed(kvs) && j < |kvs| && kvs[j].0 != "seq"
    requires forall i :: 0 <= i < j ==> kvs[i].0 != kvs[j].0
    ensures MemberAt(Line(n, kvs), at, kvs[j].0, kvs[j].1)
    ensures Find(Line(n, kvs), Pattern(kvs[j].0), 0) == at + 1
  {
    hide Decimal, Members, Line, Match;
    LineHead(n, kvs);
    var s, off, k := Line(n, kvs), 7 + |Decimal(n)|, kvs[j].0;
    at := FindMember(s, off, kvs, j);
    forall i | 0 <= i < off ensures !Match(s, Pattern(k), i) {
      NoMatchInHead(n, kvs, k, i);
    }
    PatternMatches(s, at, k, kvs[j].1);
    FindFirst(s, Pattern(k), 0, at + 1);
  }

  lemma PatternMatches(s: string, at: nat, k: string, text: string)
    requires MemberAt(s, at, k, text)
    ensures Match(s, Pattern(k), at + 1)
  {
    var q := at + 2 + |k|;
    assert s[at + 1..q + 2] == [s[at + 1]] + s[at + 2..q] + [s[q], s[q + 1]];
  }

  lemma {:induction false} ClosingPast(s: string, start: nat, end: nat, q: int)
    requires 0 < start <= end < |s| && forall x :: start <= x < end && s[x] == '\"' ==> s[x - 1] == '\\'
    requires q == -1 || (start <= q < |s| && s[q] == '\"')
    ensures Closing(s, q) == -1 || end <= Closing(s, q)
    decreases if q == -1 then 0 else |s| - q
  {
    if q != -1 && q < end {
      var next := Find(s, "\"", q + 1);
      if next != -1 {
        Single(s, '\"', next);
      }
      ClosingPast(s, start, end, next);
    }
  }

  lemma FindClosing(s: string, start: nat, text: string)
    requires start + |text| < |s| && s[start..start + |text|] == text && s[start + |text|] == '\"' && Plain(text)
    ensures Find(s, "\"", start) == start + |text|
  {
    hide Match;
    var end := start + |text|;
    forall i | start <= i <= end ensures Match(s, "\"", i) <==> i == end {
      Single(s, '\"', i);
      assert i < end ==> s[i] == s[start..end][i - start] == text[i - start];
    }
    FindFirst(s, "\"", start, end);
  }

  lemma GetPlain(s: string, at: nat, k: string, text: string)
    requires MemberAt(s, at, k, text) && Plain(text) && Find(s, Pattern(k), 0) == at + 1
    ensures Get(s, k) == GetFirst(s, k) == text
  {
    hide Match, Closing, Find, Get, GetFirst;
    var start := at + 5 + |k|;
    var end := start + |text|;
    LastPlain(s, start, text);
    FindClosing(s, start, text);
    hide Plain;
    ClosingStops(s, end);
    GetQuoted(s, at, k, end);
  }

  lemma GetQuoted(s: string, at: nat, k: string, end: nat)
    requires Find(s, Pattern(k), 0) == at + 1 && at + 5 + |k| <= end < |s| && s[at + 4 + |k|] == '\"'
    requires Find(s, "\"", at + 5 + |k|) == end && Closing(s, end) == end
    ensures Get(s, k) == GetFirst(s, k) == s[at + 5 + |k|..end]
  {
    hide Match, Closing, Find;
  }

  lemma LastPlain(s: string, start: nat, text: string)
    requires 0 < start && start + |text| <= |s| && s[start..start + |text|] == text && Plain(text) && s[start - 1] == '\"'
    ensures s[start + |text| - 1] != '\\'
  {
    if text != "" {
      assert s[start + |text| - 1] == s[start..start + |text|][|text| - 1] == text[|text| - 1];
    }
  }

  lemma ClosingStops(s: string, q: int)
    requires 0 < q < |s| && s[q - 1] != '\\'
    ensures Closing(s, q) == q
  {
  }

  lemma GetLong(s: string, at: nat, k: string, text: string)
    requires MemberAt(s, at, k, text) && NoBareQuote(text) && Find(s, Pattern(k), 0) == at + 1
    ensures |Get(s, k)| >= |text|
  {
    hide Match, Closing;
    var start := at + 5 + |k|;
    var end := start + |text|;
    var q := Find(s, "\"", start);
    if q != -1 {
      Single(s, '\"', q);
    }
    forall x | start <= x < end && s[x] == '\"' ensures s[x - 1] == '\\' {
      assert s[x] == s[start..end][x - start] == text[x - start];
      assert s[x - 1] == s[start..end][x - 1 - start] == text[x - 1 - start];
    }
    ClosingPast(s, start, end, q);
  }

  /** What `get` returns for a member: plain text comes back unchanged, and escaped text never
      comes back shorter than it was written. */
  lemma GetMember(n: nat, kvs: seq<(string, string)>, j: nat)
    requires WellKeyed(kvs) && j < |kvs| && kvs[j].0 != "seq"
    requires forall i :: 0 <= i < j ==> kvs[i].0 != kvs[j].0
    ensures Plain(kvs[j].1) ==> Get(Line(n, kvs), kvs[j].0) == GetFirst(Line(n, kvs), kvs[j].0) == kvs[j].1
    ensures |Get(Line(n, kvs), kvs[j].0)| >= |kvs[j].1|
  {
    hide Line, Get, GetFirst, MemberAt;
    var at := MemberFound(n, kvs, j);
    GetLong(Line(n, kvs), at, kvs[j].0, kvs[j].1);
    if Plain(kvs[j].1) {
      GetPlain(Line(n, kvs), at, kvs[j].0, kvs[j].1);
    }
  }

  /** What is read from a line of bytes is bytes. */
  lemma ByteGet(line: string, k: string)
    requires ByteText(line)
    ensures ByteText(Get(line, k))
  {
    ByteSlices(line);
    hide Find, Closing, Match, ByteText;
    assert ByteText("") by { EmptyByteText(); }
  }

  lemma EmptyByteText()
    ensures ByteText("")
  {
  }

  lemma ByteSlices(s: string)
    requires ByteText(s)
    ensures forall p, q :: 0 <= p <= q <= |s| ==> ByteText(s[p..q])
    ensures forall p :: 0 <= p <= |s| ==> ByteText(s[p..])
  {
  }

  /** The parser that stops at the first quote reads what the other reads, or a beginning of it
      up to a quote. */
  lemma GetFirstStops(line: string, k: string)
    ensures GetFirst(line, k) == Get(line, k) || GetFirst(line, k) + "\"" <= Get(line, k)
  {
    ClosingNone(line);
    hide Find, Match, Closing;
    var at := Find(line, Pattern(k), 0);
    if at != -1 {
      var p := at + |Pattern(k)|;
      if p < |line| && line[p] == '\"' {
        var q := Find(line, "\"", p + 1);
        if q != -1 && Closing(line, q) != q {
          Single(line, '\"', q);
          assert GetFirst(line, k) + "\"" == line[p + 1..q + 1];
        }
      }
    }
  }

  lemma ClosingNone(s: string)
    ensures Closing(s, -1) == -1
  {
  }

  /** So they agree wherever the text read holds no quote. */
  lemma GetFirstAgrees(line: string, k: string)
    requires '\"' !in Get(line, k)
    ensures GetFirst(line, k) == Get(line, k)
  {
    hide Get, GetFirst;
    GetFirstStops(line, k);
    QuoteInside(GetFirst(line, k), Get(line, k));
  }

  lemma QuoteInside(a: string, b: string)
    ensures a + "\"" <= b ==> '\"' in b
  {
    if a + "\"" <= b {
      assert b[|a|] == (a + "\"")[|a|] == '\"';
    }
  }
}
