/** The hash-chained audit log (src/infrastructure/hash_chain_file_audit.cpp): the chain
    verifier, appending and reopening. The hash function is a parameter. */
module AuditLog {
  import opened Bytes
  import opened AuditText
  import Sha256

  type Hash = string -> string

  // ---------------------------------------------------------------------------------------
  // Reading a log file
  // ---------------------------------------------------------------------------------------

  /** Successive `std::getline` calls. */
  function Lines(file: string): seq<string>
    decreases |file|
  {
    if file == "" then []
    else
      var i := Find(file, "\n", 0);
      if i == -1 then [file] else [file[..i]] + Lines(file[i + 1..])
  }

  predicate IsDigit(c: char) { '0' <= c <= '9' }

  function SkipSpace(s: string): string
  {
    if s != "" && (s[0] == ' ' || '\t' <= s[0] <= '\r') then SkipSpace(s[1..]) else s
  }

  /** The longest run of digits at the start. */
  function DigitRun(s: string): (r: string)
    ensures forall i :: 0 <= i < |r| ==> IsDigit(r[i])
  {
    if s != "" && IsDigit(s[0]) then [s[0]] + DigitRun(s[1..]) else ""
  }

  /** `std::stoull`, with 0 for the exceptions that the source swallows. */
  function Stoull(s: string): nat
  {
    var t := SkipSpace(s);
    var minus := t != "" && t[0] == '-';
    var digits := DigitRun(if t != "" && (t[0] == '-' || t[0] == '+') then t[1..] else t);
    if digits == "" || Digits(digits) >= TWO64 then 0
    else if minus then (TWO64 - Digits(digits)) % TWO64
    else Digits(digits)
  }

  datatype Entry = Entry(event: Event, msgHash: string)

  function ParseLine(line: string): Entry
  {
    Entry(Event(Stoull(Get(line, "seq")), Get(line, "ts"), Get(line, "actor"), Get(line, "action"),
                Get(line, "fileId"), Get(line, "cipherHash"), Get(line, "prevHash")),
          Get(line, "msgHash"))
  }

  /** The entries of a log: blank lines are skipped. */
  function Entries(lines: seq<string>): seq<Entry>
  {
    if lines == [] then []
    else
      var n := |lines| - 1;
      Entries(lines[..n]) + (if lines[n] == "" then [] else [ParseLine(lines[n])])
  }

  /** The hash the next entry must point back to. */
  function Tip(es: seq<Entry>): string
  {
    if es == [] then "GENESIS" else es[|es| - 1].msgHash
  }

  /** Sequence numbers run 1..n, each entry points back to the one before it, and each stored
      hash is the hash of the canonical text. */
  ghost predicate Chain(hash: Hash, es: seq<Entry>)
  {
    forall i :: 0 <= i < |es| ==>
      && es[i].event.seqNo == i + 1
      && es[i].event.prevHash == Tip(es[..i])
      && es[i].msgHash == hash(Canonical(es[i].event))
  }

  ghost predicate Verified(hash: Hash, file: string)
  {
    Chain(hash, Entries(Lines(file)))
  }

  // ---------------------------------------------------------------------------------------
  // One hash pins the whole history
  // ---------------------------------------------------------------------------------------

  /** Two different texts of bytes with the same hash. */
  ghost predicate Collision(hash: Hash, x: string, y: string)
  {
    ByteText(x) && ByteText(y) && x != y && hash(x) == hash(y)
  }

  ghost predicate ByteEntries(es: seq<Entry>)
  {
    forall i :: 0 <= i < |es| ==> ByteEvent(es[i].event)
  }

  /** A file of bytes has lines and entries of bytes. */
  lemma {:induction false} ByteLines(file: string)
    requires ByteText(file)
    ensures forall i :: 0 <= i < |Lines(file)| ==> ByteText(Lines(file)[i])
    decreases |file|
  {
    if file != "" {
      var i := Find(file, "\n", 0);
      hide Find, Match;
      if i != -1 {
        ByteSlices(file);
        hide ByteText;
        ByteLines(file[i + 1..]);
      }
    }
  }

  lemma ByteParsed(line: string)
    requires ByteText(line)
    ensures ByteEvent(ParseLine(line).event)
  {
    hide Get, ByteText, Stoull;
    ByteGet(line, "ts");
    ByteGet(line, "actor");
    ByteGet(line, "action");
    ByteGet(line, "fileId");
    ByteGet(line, "cipherHash");
    ByteGet(line, "prevHash");
  }

  lemma {:induction false} ByteEntriesOf(lines: seq<string>)
    requires forall i :: 0 <= i < |lines| ==> ByteText(lines[i])
    ensures ByteEntries(Entries(lines))
  {
    hide ParseLine, ByteText, ByteEvent;
    if lines != [] {
      ByteEntriesOf(lines[..|lines| - 1]);
      ByteParsed(lines[|lines| - 1]);
    }
  }

  /** Two non-empty chains that end in the same hash are the same chain, entry for entry, or
      they exhibit two different texts with the same hash. */
  lemma {:induction false} OneHashPinsHistory(hash: Hash, es: seq<Entry>, fs: seq<Entry>) returns (x: string, y: string)
    requires Chain(hash, es) && Chain(hash, fs) && es != [] && fs != []
    requires es[|es| - 1].msgHash == fs[|fs| - 1].msgHash && ByteEntries(es) && ByteEntries(fs)
    ensures es == fs || Collision(hash, x, y)
    decreases |es|
  {
    hide Canonical, Chain, ByteText, ByteEvent;
    var m, n := |es| - 1, |fs| - 1;
    ChainLast(hash, es);
    ChainLast(hash, fs);
    EmptyByteText();
    BytePrinted(es[m].event, "");
    BytePrinted(fs[n].event, "");
    x, y := Canonical(es[m].event), Canonical(fs[n].event);
    if x == y {
      CanonicalInjective(es[m].event, fs[n].event);
      assert m == n && es[m] == fs[m];
      ChainPrefix(hash, es, m);
      ChainPrefix(hash, fs, m);
      if m > 0 {
        x, y := OneHashPinsHistory(hash, es[..m], fs[..m]);
      }
      assert es == es[..m] + [es[m]] && fs == fs[..m] + [fs[m]];
    }
  }

  /** The same for two log files that both verify: one hash at the end fixes every entry. */
  lemma OneHashPinsFiles(hash: Hash, f: string, g: string) returns (x: string, y: string)
    requires Verified(hash, f) && Verified(hash, g) && Entries(Lines(f)) != [] && Entries(Lines(g)) != []
    requires Tip(Entries(Lines(f))) == Tip(Entries(Lines(g))) && ByteText(f) && ByteText(g)
    ensures Entries(Lines(f)) == Entries(Lines(g)) || Collision(hash, x, y)
  {
    hide Chain, Lines, Entries, ByteText;
    ByteLines(f);
    ByteLines(g);
    ByteEntriesOf(Lines(f));
    ByteEntriesOf(Lines(g));
    x, y := OneHashPinsHistory(hash, Entries(Lines(f)), Entries(Lines(g)));
  }

  lemma ChainLast(hash: Hash, es: seq<Entry>)
    requires Chain(hash, es) && es != []
    ensures var n := |es| - 1;
            es[n].event.seqNo == n + 1 && es[n].event.prevHash == Tip(es[..n]) && es[n].msgHash == hash(Canonical(es[n].event))
  {
    hide Canonical;
  }

  lemma ChainEmpty(hash: Hash)
    ensures Chain(hash, [])
  {
  }

  lemma {:induction false} EntriesSplit(a: seq<string>, b: seq<string>)
    ensures Entries(a + b) == Entries(a) + Entries(b)
    decreases |b|
  {
    hide ParseLine;
    if b == [] {
      assert a + b == a;
    } else {
      var n := |b| - 1;
      EntriesSplit(a, b[..n]);
      assert (a + b)[..|a| + n] == a + b[..n];
    }
  }

  lemma BadPrefix(hash: Hash, lines: seq<string>, n: nat)
    requires n <= |lines| && !Chain(hash, Entries(lines[..n]))
    ensures !Chain(hash, Entries(lines))
  {
    hide Chain, ParseLine;
    assert lines == lines[..n] + lines[n..];
    EntriesSplit(lines[..n], lines[n..]);
    if Chain(hash, Entries(lines)) {
      ChainPrefix(hash, Entries(lines), |Entries(lines[..n])|);
    }
  }

  lemma ChainPrefix(hash: Hash, es: seq<Entry>, n: nat)
    requires Chain(hash, es) && n <= |es|
    ensures Chain(hash, es[..n])
  {
    hide Canonical;
    assert forall i :: 0 <= i < n ==> es[..n][..i] == es[..i];
  }

  lemma ChainExtend(hash: Hash, es: seq<Entry>, e: Entry)
    ensures Chain(hash, es + [e]) <==>
              && Chain(hash, es)
              && e.event.seqNo == |es| + 1 && e.event.prevHash == Tip(es) && e.msgHash == hash(Canonical(e.event))
  {
    hide Canonical;
    var fs, n := es + [e], |es|;
    assert fs[..n] == es && fs[n] == e;
    assert forall i :: 0 <= i < n ==> fs[..i] == es[..i];
    if Chain(hash, fs) {
      ChainPrefix(hash, fs, n);
    }
  }

  // ---------------------------------------------------------------------------------------
  // The logger
  // ---------------------------------------------------------------------------------------

  datatype Log = Log(file: string, lastHash: string, lastSeq: nat)

  /** The constructor: verify, then recover the chain tip from the last line. */
  ghost function Open(hash: Hash, file: string): Log
  {
    var lines := Lines(file);
    if lines == [] then Log(file, "GENESIS", 0)
    else if !Verified(hash, file) then Log(file, "CORRUPTED", 0)
    else
      var last := lines[|lines| - 1];
      var tip := GetFirst(last, "msgHash");
      Log(file, if tip == "" then "GENESIS" else tip, Stoull(GetFirst(last, "seq")))
  }

  ghost predicate CanAppend(hash: Hash, log: Log)
  {
    log.lastHash != "CORRUPTED" && Verified(hash, log.file)
  }

  /** The event `record` completes: number, back pointer, and a time if none was given. */
  function Complete(log: Log, e: Event, now: string): Event
  {
    e.(seqNo := (log.lastSeq + 1) % TWO64, prevHash := log.lastHash, ts := if e.ts == "" then now else e.ts)
  }

  function Append(hash: Hash, log: Log, e: Event, now: string): Log
  {
    var e' := Complete(log, e, now);
    var h := hash(Canonical(e'));
    Log(log.file + Written(e', h) + "\n", h, e'.seqNo)
  }

  class Logger {
    const hash: Hash
    var file: string
    var lastHash: string
    var lastSeq: nat

    ghost function State(): Log
      reads this
    {
      Log(file, lastHash, lastSeq)
    }

    /** Opens an existing log file; an absent file reads as an empty one. */
    constructor (hash: Hash, file: string)
      ensures this.hash == hash && State() == Open(hash, file)
    {
      hide Verified, Stoull, GetFirst, Lines;
      this.hash, this.file, lastHash, lastSeq := hash, file, "GENESIS", 0;
      new;
      var lines := Lines(file);
      if lines != [] {
        var ok := Verify();
        if !ok {
          lastHash := "CORRUPTED";
          return;
        }
        var last := lines[|lines| - 1];
        lastHash := GetFirst(last, "msgHash");
        lastSeq := Stoull(GetFirst(last, "seq"));
      }
      if lastHash == "" {
        lastHash := "GENESIS";
      }
    }

    /** The verification loop: line by line, with the expected number and back pointer. */
    method Verify() returns (ok: bool)
      ensures ok <==> Verified(hash, file)
    {
      hide ParseLine, Canonical, Lines, Chain;
      var lines := Lines(file);
      var prev, expected := "GENESIS", 1;
      ChainEmpty(hash);
      for i := 0 to |lines|
        invariant var es := Entries(lines[..i]); Chain(hash, es) && expected == |es| + 1 && prev == Tip(es)
      {
        assert lines[..i + 1][..i] == lines[..i] && lines[..i + 1][i] == lines[i];
        assert Entries(lines[..i]) + [] == Entries(lines[..i]);
        if lines[i] != "" {
          var e := ParseLine(lines[i]);
          ChainExtend(hash, Entries(lines[..i]), e);
          var bad := e.event.seqNo != expected || e.event.prevHash != prev || hash(Canonical(e.event)) != e.msgHash;
          if bad {
            BadPrefix(hash, lines, i + 1);
            return false;
          }
          prev, expected := e.msgHash, expected + 1;
        }
      }
      assert lines[..|lines|] == lines;
      ok := true;
    }

    /** `record`; `now` is the formatted wall clock. False stands for the thrown exception. */
    method Record(e: Event, now: string) returns (ok: bool)
      modifies this
      ensures ok <==> old(CanAppend(hash, State()))
      ensures State() == if ok then old(Append(hash, State(), e, now)) else old(State())
    {
      hide Canonical, Written, Verified;
      if lastHash == "CORRUPTED" {
        return false;
      }
      ok := Verify();
      if ok {
        var e' := e.(prevHash := lastHash);
        lastSeq := (lastSeq + 1) % TWO64;
        e' := e'.(seqNo := lastSeq);
        if e'.ts == "" {
          e' := e'.(ts := now);
        }
        var msgHash := hash(Canonical(e'));
        file := file + Written(e', msgHash) + "\n";
        lastHash := msgHash;
      }
    }
  }
}
