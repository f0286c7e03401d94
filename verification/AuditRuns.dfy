/** Whole histories of the audit log: every sequence of `record` calls, with the logger closed
    and reopened at any point (src/infrastructure/hash_chain_file_audit.cpp). */
module AuditRuns {
  import opened Bytes
  import opened AuditText
  import opened AuditLog
  import Sha256

  /** What the proofs use of the hash: it prints 64 bytes that need no escaping. */
  ghost predicate HexLike(hash: Hash)
  {
    forall s :: Plain(hash(s)) && ByteText(hash(s)) && |hash(s)| == 64
  }

  /** The hash in use, on texts of bytes. */
  function Sha256Hex(s: string): string
  {
    Sha256.Hex(Sha256.Digest(Ascii(s)))
  }

  /** It satisfies this. */
  lemma Sha256IsHexLike()
    ensures HexLike(Sha256Hex)
  {
    hide Sha256.Digest, Sha256.Hex, Plain, ByteText;
    forall s ensures Plain(Sha256Hex(s)) && ByteText(Sha256Hex(s)) && |Sha256Hex(s)| == 64 {
      HexIsPlain(Sha256.Digest(Ascii(s)));
    }
  }

  lemma HexIsPlain(b: Text)
    ensures Plain(Sha256.Hex(b)) && ByteText(Sha256.Hex(b))
  {
    var h := Sha256.Hex(b);
    hide Sha256.Hex;
    forall i | 0 <= i < |h| ensures h[i] != '\"' && h[i] != '\\' && h[i] >= ' ' && h[i] as int < 256 {
      assert h[i] in Sha256.HEX_DIGITS;
    }
  }

  /** A collision of it is a collision of SHA-256: two different byte strings, one digest. */
  lemma Sha256CollisionIsReal(x: string, y: string)
    requires Collision(Sha256Hex, x, y)
    ensures Ascii(x) != Ascii(y) && Sha256.Digest(Ascii(x)) == Sha256.Digest(Ascii(y))
  {
    hide Sha256.Digest, Sha256.Hex;
    Sha256.HexInjective(Sha256.Digest(Ascii(x)), Sha256.Digest(Ascii(y)));
    if |x| == |y| {
      var i :| 0 <= i < |x| && x[i] != y[i];
      assert Ascii(x)[i] == x[i] as int && Ascii(y)[i] == y[i] as int;
    }
  }

  /** None of the five caller-supplied fields holds a character that `jsonEscape` changes. */
  predicate PlainEvent(e: Event)
  {
    Plain(e.ts) && Plain(e.actor) && Plain(e.action) && Plain(e.fileId) && Plain(e.cipherHash)
  }

  // ---------------------------------------------------------------------------------------
  // One line
  // ---------------------------------------------------------------------------------------

  lemma {:induction false} DigitRunAll(s: string)
    requires forall i :: 0 <= i < |s| ==> IsDigit(s[i])
    ensures DigitRun(s) == s
  {
    if s != "" {
      DigitRunAll(s[1..]);
    }
  }

  lemma StoullOfDecimal(n: nat)
    requires n < TWO64
    ensures Stoull(Decimal(n)) == n
  {
    hide Decimal;
    DigitRunAll(Decimal(n));
    DigitsOfDecimal(n);
  }

  function WrittenFields(e: Event, h: string): seq<(string, string)>
  {
    Fields(e) + [("msgHash", h)]
  }

  lemma WrittenWellKeyed(e: Event, h: string)
    requires Plain(h)
    ensures WellKeyed(WrittenFields(e, h)) && |WrittenFields(e, h)| == 7
    ensures forall i :: 0 <= i < 6 ==> WrittenFields(e, h)[i] == (KEYS[i], Escape(Values(e)[i]))
    ensures WrittenFields(e, h)[6] == ("msgHash", h)
  {
    hide Escape, NoBareQuote, Plain;
    FieldsList(e);
    PlainHasNoQuote(h);
    forall i | 0 <= i < 6 ensures NoBareQuote(Escape(Values(e)[i])) {
      EscapeNoBareQuote(Values(e)[i]);
    }
  }

  lemma PlainHasNoQuote(t: string)
    requires Plain(t)
    ensures NoBareQuote(t) && '\n' !in t
  {
  }

  /** Reading back field `j` of a written line. */
  lemma ReadBack(e: Event, h: string, j: nat)
    requires Plain(h) && j < 6
    ensures |Get(Written(e, h), KEYS[j])| >= |Escape(Values(e)[j])|
    ensures Get(Written(e, h), KEYS[j]) == Values(e)[j] <==> Plain(Values(e)[j])
  {
    hide Escape, Get, GetFirst, Line, Plain, NoBareQuote, KeyName;
    WrittenWellKeyed(e, h);
    GetMember(e.seqNo, WrittenFields(e, h), j);
    EscapeNoBareQuote(Values(e)[j]);
  }

  /** What `verify` and the constructor read back from the line `record` wrote. */
  lemma ParseWritten(e: Event, h: string)
    requires Plain(h) && Plain(e.prevHash) && e.seqNo < TWO64
    ensures var p := ParseLine(Written(e, h));
            && p.msgHash == h && p.event.seqNo == e.seqNo && p.event.prevHash == e.prevHash
            && (p.event == e <==> PlainEvent(e))
    ensures GetFirst(Written(e, h), "msgHash") == h && Stoull(GetFirst(Written(e, h), "seq")) == e.seqNo
  {
    hide Escape, Get, GetFirst, Line, Plain, Stoull, Decimal;
    var kvs := WrittenFields(e, h);
    WrittenWellKeyed(e, h);
    GetSeq(e.seqNo, kvs);
    StoullOfDecimal(e.seqNo);
    GetMember(e.seqNo, kvs, 6);
    ReadBack(e, h, 0);
    ReadBack(e, h, 1);
    ReadBack(e, h, 2);
    ReadBack(e, h, 3);
    ReadBack(e, h, 4);
    ReadBack(e, h, 5);
  }

  lemma {:induction false} MembersNoNewline(kvs: seq<(string, string)>)
    requires forall i :: 0 <= i < |kvs| ==> '\n' !in kvs[i].0 && '\n' !in kvs[i].1
    ensures '\n' !in Members(kvs)
  {
    if kvs != [] {
      MembersNoNewline(kvs[1..]);
      MembersStep(kvs);
      hide Members;
      assert '\n' !in Head(kvs[0].0);
    }
  }

  lemma WrittenOneLine(e: Event, h: string)
    requires Plain(h)
    ensures '\n' !in Written(e, h) && Written(e, h) != ""
  {
    hide Escape, Members, Plain;
    var kvs := WrittenFields(e, h);
    WrittenWellKeyed(e, h);
    PlainHasNoQuote(h);
    forall i | 0 <= i < 7 ensures '\n' !in kvs[i].0 && '\n' !in kvs[i].1 {
      if i < 6 {
        EscapeNoBareQuote(Values(e)[i]);
      }
    }
    MembersNoNewline(kvs);
    assert '\n' !in Decimal(e.seqNo);
    hide Decimal;
  }

  predicate EndsLine(file: string)
  {
    file == "" || file[|file| - 1] == '\n'
  }

  /** Appending one line to a file of whole lines appends it to the list of lines. */
  lemma {:induction false} LinesAppend(file: string, line: string)
    requires EndsLine(file) && '\n' !in line
    ensures Lines(file + line + "\n") == Lines(file) + [line]
    decreases |file|
  {
    hide Lines, Find, Match, EndsLine;
    if file == "" {
      EmptyFile();
      assert file + line + "\n" == line + "\n";
      OneLine(line);
    } else {
      FoundNewline(file);
      var i, t := Find(file, "\n", 0), line + "\n";
      SameFind(file, t, i);
      var rest := file[i + 1..];
      ConcatSlices(file, t, i);
      LinesCons(file + t, i);
      LinesCons(file, i);
      LinesAppend(rest, line);
      assert file + line + "\n" == file + t && rest + line + "\n" == rest + t;
    }
  }

  lemma ConcatSlices(file: string, t: string, i: nat)
    requires i < |file|
    ensures (file + t)[..i] == file[..i] && (file + t)[i + 1..] == file[i + 1..] + t
    ensures EndsLine(file) ==> EndsLine(file[i + 1..])
  {
  }

  lemma LinesCons(file: string, i: nat)
    requires Find(file, "\n", 0) == i && i < |file|
    ensures Lines(file) == [file[..i]] + Lines(file[i + 1..])
  {
  }

  lemma OneLine(line: string)
    requires '\n' !in line
    ensures Lines(line + "\n") == [line]
  {
    var s, n := line + "\n", |line|;
    forall i | 0 <= i < n ensures !Match(s, "\n", i) {
      Single(s, '\n', i);
      assert s[i] == line[i];
    }
    Single(s, '\n', n);
    FindFirst(s, "\n", 0, n);
    assert s[..n] == line && s[n + 1..] == "";
  }

  lemma FoundNewline(file: string)
    requires file != "" && EndsLine(file)
    ensures 0 <= Find(file, "\n", 0) < |file|
  {
    var n := |file| - 1;
    Single(file, '\n', n);
    FindSome(file, "\n", 0, n);
  }

  lemma {:induction false} FindSome(s: string, pat: string, from: nat, m: nat)
    requires from <= m && Match(s, pat, m)
    ensures from <= Find(s, pat, from) <= m
    ensures forall i :: from <= i < Find(s, pat, from) ==> !Match(s, pat, i)
    decreases m - from
  {
    if !Match(s, pat, from) {
      FindSome(s, pat, from + 1, m);
    }
  }

  lemma SameFind(s: string, t: string, i: nat)
    requires Find(s, "\n", 0) == i
    ensures Find(s + t, "\n", 0) == i
  {
    FindSome(s, "\n", 0, i);
    forall j | 0 <= j <= i ensures Match(s + t, "\n", j) <==> Match(s, "\n", j) {
      Single(s, '\n', j);
      Single(s + t, '\n', j);
      Single(s, '\n', i);
    }
    FindFirst(s + t, "\n", 0, i);
  }

  // ---------------------------------------------------------------------------------------
  // Histories
  // ---------------------------------------------------------------------------------------

  /** The chain that a list of completed events should give, defined without any file. */
  function Expected(hash: Hash, evs: seq<Event>): seq<Entry>
  {
    if evs == [] then []
    else
      var n := |evs| - 1;
      var es := Expected(hash, evs[..n]);
      es + [NextEntry(hash, es, evs[n])]
  }

  /** The logger's state after recording `evs`, whose times are filled in, on a new file. */
  function Recorded(hash: Hash, evs: seq<Event>): Log
  {
    if evs == [] then Log("", "GENESIS", 0)
    else Append(hash, Recorded(hash, evs[..|evs| - 1]), evs[|evs| - 1], "")
  }

  ghost predicate Recordable(evs: seq<Event>)
  {
    |evs| < TWO64 && forall i :: 0 <= i < |evs| ==> PlainEvent(evs[i])
  }

  /** One more line on a good file: what the file then holds, for any event at all. */
  lemma AppendedEntries(hash: Hash, log: Log, e: Event)
    requires HexLike(hash) && EndsLine(log.file) && Plain(log.lastHash)
    ensures var e' := Complete(log, e, "");
            var log' := Append(hash, log, e, "");
            && EndsLine(log'.file)
            && Lines(log'.file) == Lines(log.file) + [Written(e', log'.lastHash)]
            && Entries(Lines(log'.file)) == Entries(Lines(log.file)) + [ParseLine(Written(e', log'.lastHash))]
  {
    hide Canonical, ParseLine, Written, Lines, Plain;
    var e' := Complete(log, e, "");
    var h := hash(Canonical(e'));
    WrittenOneLine(e', h);
    var line := Written(e', h);
    LinesAppend(log.file, line);
    var ls := Lines(log.file);
    assert (ls + [line])[..|ls|] == ls;
  }

  /** The file holds the chain `es`, and the logger stands at its tip. */
  ghost predicate Holding(hash: Hash, log: Log, es: seq<Entry>)
  {
    && EndsLine(log.file) && Entries(Lines(log.file)) == es && Chain(hash, es)
    && log.lastHash == Tip(es) && Plain(Tip(es)) && Tip(es) != "CORRUPTED" && log.lastSeq == |es|
  }

  /** The entry the next event should become. */
  function NextEntry(hash: Hash, es: seq<Entry>, ev: Event): Entry
  {
    var e := ev.(seqNo := |es| + 1, prevHash := Tip(es));
    Entry(e, hash(Canonical(e)))
  }

  /** Appending any event to a good log: the line written, and what it parses to. */
  lemma AppendToChain(hash: Hash, log: Log, es: seq<Entry>, ev: Event)
    requires HexLike(hash) && Holding(hash, log, es) && |es| + 1 < TWO64
    ensures var log', next := Append(hash, log, ev, ""), NextEntry(hash, es, ev);
            var line := Written(next.event, next.msgHash);
            && EndsLine(log'.file) && log'.lastHash == next.msgHash && log'.lastSeq == |es| + 1
            && Lines(log'.file) == Lines(log.file) + [line]
            && Entries(Lines(log'.file)) == es + [ParseLine(line)]
            && ParseLine(line).msgHash == next.msgHash
            && ParseLine(line).event.seqNo == |es| + 1 && ParseLine(line).event.prevHash == Tip(es)
            && (ParseLine(line) == next <==> PlainEvent(ev))
            && GetFirst(line, "msgHash") == next.msgHash && Stoull(GetFirst(line, "seq")) == |es| + 1
  {
    hide Canonical, ParseLine, Chain, Written, PlainEvent, Plain, Stoull, GetFirst, EndsLine, Lines, Entries, Get;
    var next := NextEntry(hash, es, ev);
    CompleteWithTime(log, ev);
    AppendedEntries(hash, log, ev);
    ParseWritten(next.event, next.msgHash);
    SamePlain(next.event, ev);
  }

  lemma ExtendHolding(hash: Hash, log: Log, es: seq<Entry>, ev: Event)
    requires HexLike(hash) && Holding(hash, log, es) && |es| + 1 < TWO64 && PlainEvent(ev)
    ensures var log', es' := Append(hash, log, ev, ""), es + [NextEntry(hash, es, ev)];
            Holding(hash, log', es') && Open(hash, log'.file) == log'
  {
    AppendToChain(hash, log, es, ev);
    hide Canonical, ParseLine, Chain, Written, PlainEvent, Stoull, GetFirst, EndsLine, Lines, Entries, Append;
    ChainExtend(hash, es, NextEntry(hash, es, ev));
    AppendFile(hash, log, ev);
  }

  lemma AppendFile(hash: Hash, log: Log, ev: Event)
    ensures var log' := Append(hash, log, ev, ""); log' == Log(log'.file, log'.lastHash, log'.lastSeq)
  {
  }

  /** Print, parse and reopen: for every list of events that need no escaping, the file parses
      to exactly the expected chain, it verifies, and reopening it recovers the logger's state. */
  lemma {:induction false} RecordedVerifies(hash: Hash, evs: seq<Event>)
    requires HexLike(hash) && Recordable(evs)
    ensures var log, es := Recorded(hash, evs), Expected(hash, evs);
            && |es| == |evs| && Holding(hash, log, es)
            && Verified(hash, log.file) && Open(hash, log.file) == log && CanAppend(hash, log)
  {
    hide Canonical, Chain, PlainEvent, Plain, EndsLine, Append;
    if evs == [] {
      EmptyFile();
      ChainEmpty(hash);
      assert Plain("GENESIS") by { GenesisPlain(); }
    } else {
      var n := |evs| - 1;
      RecordedVerifies(hash, evs[..n]);
      ExtendHolding(hash, Recorded(hash, evs[..n]), Expected(hash, evs[..n]), evs[n]);
    }
  }

  lemma GenesisPlain()
    ensures Plain("GENESIS")
  {
  }

  lemma EmptyFile()
    ensures Lines("") == [] && Entries([]) == [] && EndsLine("")
  {
  }

  lemma CompleteWithTime(log: Log, e: Event)
    ensures Complete(log, e, "") == e.(seqNo := (log.lastSeq + 1) % TWO64, prevHash := log.lastHash)
  {
  }

  /** Exactly when a recorded event keeps the log verifiable: on a good log, `verify` accepts the
      file after `record` if and only if no field of the event needed escaping (or the hash has
      a collision, which is then exhibited). */
  lemma RecordVerifiesIffPlain(hash: Hash, evs: seq<Event>, ev: Event) returns (x: string, y: string)
    requires HexLike(hash) && Recordable(evs) && |evs| + 1 < TWO64 && ByteEvent(ev)
    ensures (Verified(hash, Recorded(hash, evs + [ev]).file) <==> PlainEvent(ev)) || Collision(hash, x, y)
  {
    var log, es := Recorded(hash, evs), Expected(hash, evs);
    assert (evs + [ev])[..|evs|] == evs;
    RecordedVerifies(hash, evs);
    AppendToChain(hash, log, es, ev);
    hide Canonical, ParseLine, Chain, Written, PlainEvent, Plain, EndsLine, Append, Stoull, GetFirst, Holding, Lines, Entries;
    var next := NextEntry(hash, es, ev);
    var p := ParseLine(Written(next.event, next.msgHash));
    HoldingChain(hash, log, es);
    ChainExtend(hash, es, p);
    x, y := Canonical(next.event), Canonical(p.event);
    BytesBoth(hash, es, ev);
    if x == y {
      CanonicalInjective(next.event, p.event);
    }
  }

  /** The text hashed when an event is recorded, and the one hashed again by `verify`. */
  lemma BytesBoth(hash: Hash, es: seq<Entry>, ev: Event)
    requires HexLike(hash) && Chain(hash, es) && ByteEvent(ev)
    ensures var next := NextEntry(hash, es, ev);
            var p := ParseLine(Written(next.event, next.msgHash));
            ByteText(Canonical(next.event)) && ByteText(Canonical(p.event))
  {
    var next := NextEntry(hash, es, ev);
    if es != [] {
      ChainLast(hash, es);
    }
    assert ByteText(Tip(es));
    hide Canonical, Written, ParseLine, ByteText, Chain, Tip;
    BytePrinted(next.event, next.msgHash);
    ByteParsed(Written(next.event, next.msgHash));
    EmptyByteText();
    BytePrinted(ParseLine(Written(next.event, next.msgHash)).event, "");
  }

  lemma HoldingChain(hash: Hash, log: Log, es: seq<Entry>)
    requires Holding(hash, log, es)
    ensures Chain(hash, es)
  {
  }

  lemma SamePlain(e: Event, ev: Event)
    requires e.(seqNo := ev.seqNo, prevHash := ev.prevHash) == ev
    ensures PlainEvent(e) <==> PlainEvent(ev)
  {
  }

  /** An event that breaks the log: one quote in the actor is enough. */
  lemma QuoteBreaksTheLog(hash: Hash) returns (x: string, y: string)
    requires HexLike(hash)
    ensures !Verified(hash, Recorded(hash, [Event(0, "t", "a\"b", "LOGIN_OK", "", "", "")]).file) || Collision(hash, x, y)
  {
    hide Canonical, Verified, Recorded;
    var ev := Event(0, "t", "a\"b", "LOGIN_OK", "", "", "");
    assert [] + [ev] == [ev];
    assert ev.actor[1] == '\"';
    x, y := RecordVerifiesIffPlain(hash, [], ev);
  }

  // ---------------------------------------------------------------------------------------
  // Closing and reopening at any point
  // ---------------------------------------------------------------------------------------

  datatype Action = Record(event: Event, now: string) | Reopen

  ghost function Step(hash: Hash, log: Log, a: Action): Log
  {
    match a
    case Record(e, now) => if CanAppend(hash, log) then Append(hash, log, e, now) else log
    case Reopen => Open(hash, log.file)
  }

  ghost function Run(hash: Hash, log: Log, acts: seq<Action>): Log
  {
    if acts == [] then log else Step(hash, Run(hash, log, acts[..|acts| - 1]), acts[|acts| - 1])
  }

  /** The events recorded by a run, with their times filled in. */
  function EventsOf(acts: seq<Action>): seq<Event>
  {
    if acts == [] then []
    else
      var n := |acts| - 1;
      EventsOf(acts[..n]) + match acts[n]
                            case Record(e, now) => [e.(ts := if e.ts == "" then now else e.ts)]
                            case Reopen => []
  }

  /** Any run of records and reopenings on a new file leaves the logger exactly where recording
      the same events without any reopening would, so reopening is invisible and `verify` holds
      throughout. */
  lemma {:induction false} ReopeningIsInvisible(hash: Hash, acts: seq<Action>)
    requires HexLike(hash) && Recordable(EventsOf(acts))
    ensures Run(hash, Open(hash, ""), acts) == Recorded(hash, EventsOf(acts))
    ensures Verified(hash, Run(hash, Open(hash, ""), acts).file)
  {
    hide Canonical, Verified, PlainEvent, Append, CanAppend, Holding, Open, Expected, HexLike;
    RecordedVerifies(hash, EventsOf(acts));
    if acts != [] {
      var n := |acts| - 1;
      var before, after := EventsOf(acts[..n]), EventsOf(acts);
      assert forall i :: 0 <= i < |before| ==> before[i] == after[i];
      ReopeningIsInvisible(hash, acts[..n]);
      RecordedVerifies(hash, before);
      if acts[n].Record? {
        assert after[..|before|] == before;
        AppendTime(hash, Recorded(hash, before), acts[n].event, acts[n].now);
      } else {
        assert after == before;
      }
    }
  }

  lemma AppendTime(hash: Hash, log: Log, e: Event, now: string)
    ensures Append(hash, log, e, now) == Append(hash, log, e.(ts := if e.ts == "" then now else e.ts), "")
  {
    hide Canonical, Written;
  }

  // ---------------------------------------------------------------------------------------
  // Any events, plain or not
  // ---------------------------------------------------------------------------------------

  ghost predicate AllPlain(evs: seq<Event>)
  {
    forall i :: 0 <= i < |evs| ==> PlainEvent(evs[i])
  }

  lemma AllPlainSnoc(evs: seq<Event>, ev: Event)
    ensures AllPlain(evs + [ev]) <==> AllPlain(evs) && PlainEvent(ev)
  {
    hide PlainEvent;
    assert (evs + [ev])[|evs|] == ev;
    assert forall i :: 0 <= i < |evs| ==> (evs + [ev])[i] == evs[i];
  }

  /** A log that does not verify is never changed again. */
  lemma BrokenStays(hash: Hash, log: Log, a: Action)
    requires !Verified(hash, log.file)
    ensures Step(hash, log, a).file == log.file
  {
    hide Verified, Append;
  }

  /** Over any run of records and reopenings on a new file, whatever the events hold: `verify`
      accepts the file if and only if no event given to `record` needed escaping, or the hash has
      a collision, which is then exhibited. */
  lemma {:induction false} VerifiedIffAllPlain(hash: Hash, acts: seq<Action>) returns (x: string, y: string)
    requires HexLike(hash) && |EventsOf(acts)| < TWO64
    requires forall i :: 0 <= i < |EventsOf(acts)| ==> ByteEvent(EventsOf(acts)[i])
    ensures (Verified(hash, Run(hash, Open(hash, ""), acts).file) <==> AllPlain(EventsOf(acts))) || Collision(hash, x, y)
    decreases |acts|
  {
    hide Canonical, Verified, PlainEvent, ByteEvent, Append, Open, HexLike, Recorded, Collision;
    x, y := "", "";
    if AllPlain(EventsOf(acts)) {
      ReopeningIsInvisible(hash, acts);
    } else if acts != [] {
      var n := |acts| - 1;
      var evs, log := EventsOf(acts[..n]), Run(hash, Open(hash, ""), acts[..n]);
      assert forall i :: 0 <= i < |evs| ==> evs[i] == EventsOf(acts)[i];
      if AllPlain(evs) && acts[n].Record? {
        var ev := EventsOf(acts)[|evs|];
        AllPlainSnoc(evs, ev);
        x, y := LastNotPlain(hash, acts, ev);
      } else {
        x, y := VerifiedIffAllPlain(hash, acts[..n]);
        if !Verified(hash, log.file) {
          BrokenStays(hash, log, acts[n]);
        }
      }
    }
  }

  /** The first event that needs escaping: it is recorded, and the log is broken. */
  lemma LastNotPlain(hash: Hash, acts: seq<Action>, ev: Event) returns (x: string, y: string)
    requires HexLike(hash) && acts != [] && acts[|acts| - 1].Record? && AllPlain(EventsOf(acts[..|acts| - 1]))
    requires EventsOf(acts) == EventsOf(acts[..|acts| - 1]) + [ev] && |EventsOf(acts)| < TWO64 && ByteEvent(ev) && !PlainEvent(ev)
    ensures !Verified(hash, Run(hash, Open(hash, ""), acts).file) || Collision(hash, x, y)
  {
    hide Canonical, Verified, PlainEvent, ByteEvent, Append, Open, HexLike, Collision, CanAppend, Holding, Expected;
    var n := |acts| - 1;
    var evs, a := EventsOf(acts[..n]), acts[n];
    ReopeningIsInvisible(hash, acts[..n]);
    RecordedVerifies(hash, evs);
    assert ev == EventsOf(acts)[|evs|] == a.event.(ts := if a.event.ts == "" then a.now else a.event.ts);
    AppendTime(hash, Recorded(hash, evs), a.event, a.now);
    assert (evs + [ev])[..|evs|] == evs;
    x, y := RecordVerifiesIffPlain(hash, evs, ev);
  }

  // ---------------------------------------------------------------------------------------
  // Reopening any log that verifies
  // ---------------------------------------------------------------------------------------

  lemma {:induction false} SkipSpaceStops(a: string, b: string)
    ensures SkipSpace(a + "\"" + b) == SkipSpace(a) + "\"" + b
  {
    if a != "" && (a[0] == ' ' || '\t' <= a[0] <= '\r') {
      SkipSpaceStops(a[1..], b);
      assert (a + "\"" + b)[1..] == a[1..] + "\"" + b;
    }
  }

  lemma {:induction false} DigitRunStops(a: string, b: string)
    ensures DigitRun(a + "\"" + b) == DigitRun(a)
  {
    if a != "" && IsDigit(a[0]) {
      DigitRunStops(a[1..], b);
      assert (a + "\"" + b)[1..] == a[1..] + "\"" + b;
    }
  }

  /** A quote ends the number. */
  lemma StoullStops(a: string, b: string)
    ensures Stoull(a + "\"" + b) == Stoull(a)
  {
    SkipSpaceStops(a, b);
    var t := SkipSpace(a);
    DigitRunStops(t, b);
    if t != "" {
      DigitRunStops(t[1..], b);
      assert (t + "\"" + b)[1..] == t[1..] + "\"" + b;
    }
    hide SkipSpace, DigitRun;
  }

  /** Both parsers read the same number from any line. */
  lemma SameNumber(line: string)
    ensures Stoull(GetFirst(line, "seq")) == Stoull(Get(line, "seq"))
  {
    hide Get, GetFirst, Stoull;
    GetFirstStops(line, "seq");
    var a, b := GetFirst(line, "seq"), Get(line, "seq");
    if a + "\"" <= b {
      assert b == a + "\"" + b[|a| + 1..];
      StoullStops(a, b[|a| + 1..]);
    }
  }

  /** The state a logger has when it stands at the tip of the chain in its file. */
  function AtTip(file: string): Log
  {
    var es := Entries(Lines(file));
    Log(file, Tip(es), |es|)
  }

  predicate EndsBlank(lines: seq<string>)
  {
    lines != [] && lines[|lines| - 1] == ""
  }

  lemma BlankReadsNothing()
    ensures GetFirst("", "msgHash") == "" && GetFirst("", "seq") == "" && Stoull("") == 0
  {
  }

  /** For any file that verifies, written by whatever: the constructor recovers the tip of the
      chain if and only if the last line is not blank, or there is no entry to recover. After a
      trailing blank line it starts again from GENESIS and 0. */
  lemma ReopenRecoversIff(hash: Hash, file: string)
    requires HexLike(hash) && Verified(hash, file)
    ensures Open(hash, file) == AtTip(file) <==> !EndsBlank(Lines(file)) || Entries(Lines(file)) == []
    ensures EndsBlank(Lines(file)) ==> Open(hash, file) == Log(file, "GENESIS", 0)
  {
    var lines, es := Lines(file), Entries(Lines(file));
    BlankReadsNothing();
    hide Lines, Stoull, GetFirst, ParseLine;
    if lines != [] {
      var last := lines[|lines| - 1];
      if last != "" {
        LastEntry(hash, lines);
        hide Entries, Verified;
        LastReadBack(hash, es, last);
      } else if es != [] {
        hide Entries;
        ChainLast(hash, es);
      }
    }
  }

  lemma LastEntry(hash: Hash, lines: seq<string>)
    requires lines != [] && lines[|lines| - 1] != ""
    ensures var es := Entries(lines); es != [] && es[|es| - 1] == ParseLine(lines[|lines| - 1])
  {
    hide ParseLine;
  }

  lemma LastReadBack(hash: Hash, es: seq<Entry>, last: string)
    requires HexLike(hash) && Chain(hash, es) && es != [] && es[|es| - 1] == ParseLine(last)
    ensures GetFirst(last, "msgHash") == Tip(es) != "" && Stoull(GetFirst(last, "seq")) == |es|
  {
    ChainLast(hash, es);
    hide Get, GetFirst, Stoull, Chain, Canonical;
    SameNumber(last);
    GetFirstAgrees(last, "msgHash");
  }

  lemma {:induction false} BlankEndsLine(file: string)
    requires EndsBlank(Lines(file))
    ensures EndsLine(file)
    decreases |file|
  {
    var i := Find(file, "\n", 0);
    if i != -1 {
      Single(file, '\n', i);
      hide Find, Match;
      var rest := file[i + 1..];
      if rest != "" {
        LinesNotEmpty(rest);
        hide Lines;
        LinesCons(file, i);
        BlankEndsLine(rest);
      }
    }
  }

  lemma LinesNotEmpty(file: string)
    requires file != ""
    ensures Lines(file) != []
  {
    hide Find, Match;
  }

  /** And then the next `record` goes through and breaks the log, whatever it records. */
  lemma BlankBreaksTheLog(hash: Hash, file: string, e: Event, now: string)
    requires HexLike(hash) && Verified(hash, file) && EndsBlank(Lines(file)) && Entries(Lines(file)) != []
    ensures var log := Open(hash, file);
            CanAppend(hash, log) && !Verified(hash, Append(hash, log, e, now).file)
  {
    var log, es := Open(hash, file), Entries(Lines(file));
    ReopenRecoversIff(hash, file);
    BlankEndsLine(file);
    GenesisPlain();
    var ev := e.(ts := if e.ts == "" then now else e.ts);
    AppendTime(hash, log, e, now);
    AppendedEntries(hash, log, ev);
    var e' := Complete(log, ev, "");
    var log' := Append(hash, log, ev, "");
    var p := ParseLine(Written(e', log'.lastHash));
    ParseWritten(e', log'.lastHash);
    hide Lines, Entries, Canonical, ParseLine, Written, Plain, ByteText, Chain, Stoull, GetFirst, EndsLine, Append, Open;
    ChainExtend(hash, es, p);
  }
}
