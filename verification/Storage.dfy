/** Blob storage (src/infrastructure/binary_storage.cpp) over a file system that keeps what
    running processes see apart from what would survive a crash. */
module Storage {
  import opened Bytes

  type Name = Text

  // ---------------------------------------------------------------------------------------
  // The file system
  // ---------------------------------------------------------------------------------------

  /** `synced` says that the contents have reached the disk. */
  datatype File = File(data: Text, synced: bool)

  /** `view` is the storage root as processes see it, `disk` what a crash would leave of it. */
  datatype Fs = Fs(view: map<Name, File>, disk: map<Name, Text>, subdirs: set<Name>)

  function Contents(fs: Fs): map<Name, Text>
  {
    map n | n in fs.view :: fs.view[n].data
  }

  /** Opening for writing truncates or creates. */
  function Create(fs: Fs, n: Name): Fs { fs.(view := fs.view[n := File([], false)]) }

  function Write(fs: Fs, n: Name, bytes: Text): Fs
  {
    if n in fs.view then fs.(view := fs.view[n := File(fs.view[n].data + bytes, false)]) else fs
  }

  function SyncFile(fs: Fs, n: Name): Fs
  {
    if n in fs.view then fs.(view := fs.view[n := File(fs.view[n].data, true)]) else fs
  }

  function Remove(fs: Fs, n: Name): Fs { fs.(view := fs.view - {n}) }

  function Rename(fs: Fs, a: Name, b: Name): Fs
  {
    if a in fs.view then fs.(view := (fs.view - {a})[b := fs.view[a]]) else fs
  }

  /** What the disk holds of a file whose name has been written back: its contents if they are
      synced, otherwise anything. */
  function OnDisk(f: File, junk: Text): Text { if f.synced then f.data else junk }

  /** The operating system writes one directory entry back, at a time of its own choosing. */
  function Writeback(fs: Fs, n: Name, junk: Text): Fs
  {
    fs.(disk := if n in fs.view then fs.disk[n := OnDisk(fs.view[n], junk)] else fs.disk - {n})
  }

  /** `fsync` on the directory writes every entry back. */
  function SyncDir(fs: Fs, junk: map<Name, Text>): Fs
  {
    fs.(disk := map n | n in fs.view :: OnDisk(fs.view[n], if n in junk then junk[n] else []))
  }

  /** After a crash and restart only the disk is left. */
  function Crash(fs: Fs): Fs
  {
    fs.(view := map n | n in fs.disk :: File(fs.disk[n], true))
  }

  // ---------------------------------------------------------------------------------------
  // Names
  // ---------------------------------------------------------------------------------------

  const PART := Ascii(".part")
  const BIN := Ascii(".bin")

  function TempName(id: Name): Name
  {
    Ascii("tmp.") + id + PART
  }

  predicate EndsWith(n: Name, suffix: Text)
  {
    |suffix| <= |n| && n[|n| - |suffix|..] == suffix
  }

  /** Storage ids that `stagedWrite` refuses: empty, with a NUL byte, or with two dots in a row. */
  predicate BadId(id: Name)
  {
    id == [] || 0 in id || exists i :: 0 <= i < |id| - 1 && id[i] == 46 && id[i + 1] == 46
  }

  /** A NUL byte or two dots in a row anywhere make an id bad, and nothing else does but being
      empty. */
  lemma BadIdMeans(a: Text, b: Text, id: Name)
    ensures BadId(a + [0] + b) && BadId(a + [46, 46] + b) && BadId([])
    ensures BadId(id) ==> id == [] || exists i :: 0 <= i < |id| && (id[i] == 0 || (i + 1 < |id| && id[i] == id[i + 1] == 46))
    ensures (forall i :: 0 <= i < |id| ==> id[i] != 0 && id[i] != 46) ==> !BadId(id + BIN)
  {
    assert (a + [0] + b)[|a|] == 0;
    assert (a + [46, 46] + b)[|a|] == 46 && (a + [46, 46] + b)[|a| + 1] == 46;
    assert BIN == [46, 98, 105, 110];
  }

  lemma TempNameShape(id: Name)
    ensures EndsWith(TempName(id), PART) && TempName(id) != id
  {
    var t := TempName(id);
    assert t[|t| - 5..] == PART;
  }

  lemma TempNameInjective(a: Name, b: Name)
    requires TempName(a) == TempName(b)
    ensures a == b
  {
    var t := TempName(a);
    assert a == t[4..|t| - 5] && b == t[4..|t| - 5];
  }

  /** No name ends both ways, so temporary names and recorded ids never meet. */
  lemma BinIsNotPart(n: Name)
    requires EndsWith(n, BIN)
    ensures !EndsWith(n, PART)
  {
    if |n| >= 5 {
      assert n[|n| - 4..][3] == BIN[3] && BIN[3] == 'n' as int;
      assert n[|n| - 5..][4] == n[|n| - 4..][3];
      assert PART[4] == 't' as int;
    }
  }

  // ---------------------------------------------------------------------------------------
  // Staged writes: what they come to
  // ---------------------------------------------------------------------------------------

  /** The system call of a staged write that fails, if any. */
  datatype Fault = NoFault | OpenFails | WriteFails(n: nat) | FlushFails | CloseFails | SyncFails | RenameFails

  /** The behaviour of the operating system during one call. */
  datatype Faults = Faults(fault: Fault, removeTemp: bool, removeOld: bool, syncDir: bool, junk: map<Name, Text>)

  datatype Outcome = Stored | Invalid | StorageError

  function Prefix(data: Text, n: nat): Text
  {
    if n <= |data| then data[..n] else data
  }

  function Cleaned(c: map<Name, Text>, temp: Name, f: Faults): map<Name, Text>
  {
    if f.removeTemp then c - {temp} else c
  }

  /** The temporary file could not be completed and flushed. An empty file is never written to. */
  predicate TempFails(data: Text, f: Faults)
  {
    !f.fault.NoFault? && !f.fault.RenameFails? && (f.fault.WriteFails? ==> data != [])
  }

  /** What a failed call has left in the temporary file. */
  function TempLeft(c: map<Name, Text>, temp: Name, data: Text, f: Faults): map<Name, Text>
  {
    match f.fault
    case OpenFails => c
    case WriteFails(n) => c[temp := Prefix(data, n)]
    case _ => c[temp := data]
  }

  /** The contents of the root after `stagedWrite`, and its outcome. */
  function Staged(c: map<Name, Text>, id: Name, data: Text, f: Faults): (map<Name, Text>, Outcome)
  {
    var temp := TempName(id);
    if BadId(id) then (c, Invalid)
    else if TempFails(data, f) then (Cleaned(TempLeft(c, temp, data, f), temp, f), StorageError)
    else if f.fault.RenameFails? then (Cleaned(TempLeft(if f.removeOld then c - {id} else c, temp, data, f), temp, f), StorageError)
    else ((c - {temp})[id := data], Stored)
  }

  function Unstaged(c: map<Name, Text>, id: Name, removeTemp: bool, removeFinal: bool): map<Name, Text>
  {
    if id == [] then c
    else c - ((if removeTemp then {TempName(id)} else {}) + (if removeFinal then {id} else {}))
  }

  // ---------------------------------------------------------------------------------------
  // Staged writes: the system calls they make
  // ---------------------------------------------------------------------------------------

  /** The system calls of a staged write to `id`. All but `DropOld` and `MoveIn` concern its
      temporary file or the directory. */
  datatype Call = Open | Put(bytes: Text) | SyncTemp | DropOld | DropTemp | MoveIn | SyncRoot(junk: map<Name, Text>)

  function Apply(fs: Fs, id: Name, c: Call): Fs
  {
    match c
    case Open => Create(fs, TempName(id))
    case Put(bytes) => Write(fs, TempName(id), bytes)
    case SyncTemp => SyncFile(fs, TempName(id))
    case DropOld => Remove(fs, id)
    case DropTemp => Remove(fs, TempName(id))
    case MoveIn => Rename(fs, TempName(id), id)
    case SyncRoot(junk) => SyncDir(fs, junk)
  }

  function After(fs: Fs, id: Name, cs: seq<Call>): Fs
  {
    if cs == [] then fs else Apply(After(fs, id, cs[..|cs| - 1]), id, cs[|cs| - 1])
  }

  function Cleanup(f: Faults): seq<Call>
  {
    if f.removeTemp then [DropTemp] else []
  }

  /** Writing the temporary file, as far as it gets. An empty file is opened and not written. */
  function TempCalls(data: Text, f: Faults): seq<Call>
  {
    if f.fault.OpenFails? then []
    else if data == [] then (if TempFails(data, f) then [Open] else [Open, SyncTemp])
    else if f.fault.WriteFails? then [Open, Put(Prefix(data, f.fault.n))]
    else if TempFails(data, f) then [Open, Put(data)]
    else [Open, Put(data), SyncTemp]
  }

  /** Moving a flushed temporary file into place, past an existing destination. */
  function MoveCalls(present: bool, f: Faults): seq<Call>
  {
    (if present && f.removeOld then [DropOld] else []) +
    if f.fault.RenameFails? then Cleanup(f)
    else if f.syncDir then [MoveIn, SyncRoot(f.junk)]
    else [MoveIn]
  }

  /** All the system calls of one `stagedWrite`, in order. */
  function Calls(present: bool, id: Name, data: Text, f: Faults): seq<Call>
  {
    if BadId(id) then []
    else TempCalls(data, f) + if TempFails(data, f) then Cleanup(f) else MoveCalls(present, f)
  }

  lemma AfterSnoc(fs: Fs, id: Name, cs: seq<Call>, c: Call)
    ensures After(fs, id, cs + [c]) == Apply(After(fs, id, cs), id, c)
  {
    hide Apply;
    assert (cs + [c])[..|cs|] == cs;
  }

  lemma {:induction false} AfterConcat(fs: Fs, id: Name, cs: seq<Call>, ds: seq<Call>)
    ensures After(fs, id, cs + ds) == After(After(fs, id, cs), id, ds)
    decreases |ds|
  {
    hide Apply;
    if ds == [] {
      assert cs + ds == cs;
    } else {
      var n := |ds| - 1;
      AfterConcat(fs, id, cs, ds[..n]);
      assert (cs + ds)[..|cs| + n] == cs + ds[..n];
    }
  }

  lemma AfterOne(fs: Fs, id: Name, c: Call)
    ensures After(fs, id, []) == fs && After(fs, id, [c]) == Apply(fs, id, c)
  {
    hide Apply;
    assert [c][..0] == [];
  }

  // ---------------------------------------------------------------------------------------
  // Never a partial destination
  // ---------------------------------------------------------------------------------------

  /** Between `before` and `now` only the temporary file and the destination may differ, and the
      destination is as before, absent, or complete. */
  ghost predicate NeverPartial(before: Fs, now: Fs, id: Name, data: Text)
  {
    && (forall n :: n != id && n != TempName(id) ==>
          (n in now.view <==> n in before.view) && (n in now.view ==> now.view[n] == before.view[n]))
    && (id in now.view ==> now.view[id] == File(data, true) || (id in before.view && now.view[id] == before.view[id]))
  }

  /** The temporary file is complete and flushed. */
  predicate Ready(fs: Fs, id: Name, data: Text)
  {
    TempName(id) in fs.view && fs.view[TempName(id)] == File(data, true)
  }

  lemma CallNeverPartial(before: Fs, now: Fs, id: Name, data: Text, c: Call)
    requires NeverPartial(before, now, id, data) && (c.MoveIn? ==> Ready(now, id, data))
    ensures NeverPartial(before, Apply(now, id, c), id, data)
  {
    TempNameShape(id);
    hide TempName, EndsWith;
  }

  /** After the first half the temporary file is ready and nothing else has changed. */
  lemma TempWritten(fs: Fs, id: Name, data: Text, f: Faults)
    requires !TempFails(data, f)
    ensures After(fs, id, TempCalls(data, f)) == fs.(view := fs.view[TempName(id) := File(data, true)])
  {
    hide TempName;
    var t, v := TempName(id), fs.view;
    AfterOne(fs, id, Open);
    AfterSnoc(fs, id, [Open], SyncTemp);
    AfterSnoc(fs, id, [Open], Put(data));
    AfterSnoc(fs, id, [Open, Put(data)], SyncTemp);
    assert [Open] + [SyncTemp] == [Open, SyncTemp] && [Open] + [Put(data)] == [Open, Put(data)] && [Open, Put(data)] + [SyncTemp] == [Open, Put(data), SyncTemp];
    hide After;
    assert [] + data == data;
    assert v[t := File([], false)][t := File(data, false)] == v[t := File(data, false)];
    assert v[t := File(data, false)][t := File(data, true)] == v[t := File(data, true)] == v[t := File([], false)][t := File(data, true)];
  }

  /** The rename, if it comes, comes after the first half and at most a removal. */
  lemma WhereMoved(present: bool, id: Name, data: Text, f: Faults, k: nat)
    requires k < |Calls(present, id, data, f)| && Calls(present, id, data, f)[k].MoveIn?
    ensures !TempFails(data, f)
    ensures Calls(present, id, data, f)[..k] == TempCalls(data, f) + if present && f.removeOld then [DropOld] else []
  {
    hide BadId, TempFails;
    var first := TempCalls(data, f);
    assert forall i :: 0 <= i < |first| ==> !first[i].MoveIn?;
    hide TempCalls;
  }

  /** The rename comes only when the temporary file is ready. */
  lemma MovedWhenReady(fs: Fs, id: Name, data: Text, f: Faults, k: nat)
    requires k < |Calls(id in fs.view, id, data, f)| && Calls(id in fs.view, id, data, f)[k].MoveIn?
    ensures Ready(After(fs, id, Calls(id in fs.view, id, data, f)[..k]), id, data)
  {
    hide After, Calls, TempCalls, Apply, Ready, TempFails;
    WhereMoved(id in fs.view, id, data, f, k);
    var first := TempCalls(data, f);
    TempWritten(fs, id, data, f);
    ReadyThenDropped(fs, id, data);
    if id in fs.view && f.removeOld {
      AfterSnoc(fs, id, first, DropOld);
    } else {
      assert first + [] == first;
    }
  }

  lemma ReadyThenDropped(fs: Fs, id: Name, data: Text)
    ensures var now := fs.(view := fs.view[TempName(id) := File(data, true)]);
            Ready(now, id, data) && Ready(Apply(now, id, DropOld), id, data)
  {
    TempNameShape(id);
    hide TempName, EndsWith;
  }

  /** In every state a `stagedWrite` passes through, whatever fails, the destination has its old
      bytes, is absent, or has all the new bytes, and no other file is touched. */
  lemma {:induction false} StagedNeverPartial(fs: Fs, id: Name, data: Text, f: Faults, k: nat)
    requires k <= |Calls(id in fs.view, id, data, f)|
    ensures NeverPartial(fs, After(fs, id, Calls(id in fs.view, id, data, f)[..k]), id, data)
  {
    var cs := Calls(id in fs.view, id, data, f);
    hide TempName, BadId, NeverPartial, Calls, Ready;
    if k == 0 {
      NeverPartialSelf(fs, id, data);
    } else {
      StagedNeverPartial(fs, id, data, f, k - 1);
      assert cs[..k][..k - 1] == cs[..k - 1];
      if cs[k - 1].MoveIn? {
        MovedWhenReady(fs, id, data, f, k - 1);
      }
      CallNeverPartial(fs, After(fs, id, cs[..k - 1]), id, data, cs[k - 1]);
    }
  }

  lemma NeverPartialSelf(fs: Fs, id: Name, data: Text)
    ensures NeverPartial(fs, fs, id, data)
  {
  }

  lemma {:induction false} PresentWithoutDrop(fs: Fs, id: Name, cs: seq<Call>)
    requires id in fs.view && DropOld !in cs
    ensures id in After(fs, id, cs).view
  {
    TempNameShape(id);
    hide TempName;
    if cs != [] {
      PresentWithoutDrop(fs, id, cs[..|cs| - 1]);
    }
  }

  /** Replacing a file goes through a state without it: the old destination is there in every
      state passed through if and only if its removal is never reached or does not work. */
  lemma OldPresentThroughoutIff(fs: Fs, id: Name, data: Text, f: Faults)
    requires id in fs.view
    ensures var cs := Calls(true, id, data, f);
            (forall k :: 0 <= k <= |cs| ==> id in After(fs, id, cs[..k]).view) <==> BadId(id) || TempFails(data, f) || !f.removeOld
  {
    var cs, first := Calls(true, id, data, f), TempCalls(data, f);
    hide BadId, After, TempFails;
    assert DropOld !in first;
    if BadId(id) || TempFails(data, f) || !f.removeOld {
      assert DropOld !in cs;
      forall k | 0 <= k <= |cs| ensures id in After(fs, id, cs[..k]).view {
        PresentWithoutDrop(fs, id, cs[..k]);
      }
    } else {
      hide TempCalls;
      assert cs[..|first| + 1] == first + [DropOld];
      AfterSnoc(fs, id, first, DropOld);
      assert id !in After(fs, id, cs[..|first| + 1]).view;
    }
  }

  // ---------------------------------------------------------------------------------------
  // Crashes during a staged write, with the destination present or absent
  // ---------------------------------------------------------------------------------------

  /** What happens on the machine while a write is in progress: its next call, or a directory
      entry written back by the operating system. */
  datatype Happening = Called(call: Call) | WrittenBack(name: Name, junk: Text)

  function Happens(fs: Fs, id: Name, hs: seq<Happening>): Fs
  {
    if hs == [] then fs
    else
      var before := Happens(fs, id, hs[..|hs| - 1]);
      match hs[|hs| - 1]
      case Called(c) => Apply(before, id, c)
      case WrittenBack(n, junk) => Writeback(before, n, junk)
  }

  function CallsOf(hs: seq<Happening>): seq<Call>
  {
    if hs == [] then []
    else CallsOf(hs[..|hs| - 1]) + match hs[|hs| - 1]
                                  case Called(c) => [c]
                                  case WrittenBack(_, _) => []
  }

  lemma ApplyView(a: Fs, b: Fs, id: Name, c: Call)
    requires a.view == b.view
    ensures Apply(a, id, c).view == Apply(b, id, c).view
  {
    hide TempName;
  }

  /** Processes see what the calls alone would have left. */
  lemma {:induction false} ViewOfCalls(fs: Fs, id: Name, hs: seq<Happening>)
    ensures Happens(fs, id, hs).view == After(fs, id, CallsOf(hs)).view
  {
    hide Apply, After;
    AfterOne(fs, id, Open);
    if hs != [] {
      var before, earlier := CallsOf(hs[..|hs| - 1]), Happens(fs, id, hs[..|hs| - 1]);
      ViewOfCalls(fs, id, hs[..|hs| - 1]);
      if hs[|hs| - 1].Called? {
        AfterSnoc(fs, id, before, hs[|hs| - 1].call);
        ApplyView(earlier, After(fs, id, before), id, hs[|hs| - 1].call);
      } else {
        assert before + [] == before;
      }
    }
  }

  /** The disk holds, under `id`, nothing, one of the old contents, or all of the new ones. */
  ghost predicate OldOrNew(before: Fs, now: Fs, id: Name, data: Text)
  {
    id in now.disk ==>
      || now.disk[id] == data
      || (id in before.disk && now.disk[id] == before.disk[id])
      || (id in before.view && now.disk[id] == before.view[id].data)
  }

  lemma HappeningOldOrNew(before: Fs, now: Fs, next: Fs, id: Name, data: Text, h: Happening)
    requires NeverPartial(before, now, id, data) && OldOrNew(before, now, id, data)
    requires id in before.view ==> before.view[id].synced
    requires next == match h case Called(c) => Apply(now, id, c) case WrittenBack(n, junk) => Writeback(now, n, junk)
    ensures OldOrNew(before, next, id, data)
  {
    hide TempName;
  }

  /** A crash at any moment of a `stagedWrite`, whatever has failed and whatever the operating
      system has written back by then, leaves the destination absent, with contents it had
      before, or with all the new ones: also when an earlier file is being replaced. */
  lemma {:induction false} CrashLeavesOldOrNew(fs: Fs, id: Name, data: Text, f: Faults, hs: seq<Happening>)
    requires id in fs.view ==> fs.view[id].synced
    requires CallsOf(hs) <= Calls(id in fs.view, id, data, f)
    ensures var now := Crash(Happens(fs, id, hs));
            && OldOrNew(fs, Happens(fs, id, hs), id, data)
            && (id in now.view ==>
                  || now.view[id].data == data
                  || (id in fs.disk && now.view[id].data == fs.disk[id])
                  || (id in fs.view && now.view[id].data == fs.view[id].data))
    decreases |hs|
  {
    hide TempName, BadId, NeverPartial, Calls, Apply;
    if hs != [] {
      var earlier, cs := hs[..|hs| - 1], Calls(id in fs.view, id, data, f);
      assert CallsOf(earlier) <= CallsOf(hs);
      CrashLeavesOldOrNew(fs, id, data, f, earlier);
      ViewOfCalls(fs, id, earlier);
      var k := |CallsOf(earlier)|;
      assert CallsOf(earlier) == cs[..k];
      StagedNeverPartial(fs, id, data, f, k);
      SameView(fs, After(fs, id, cs[..k]), Happens(fs, id, earlier), id, data);
      HappeningOldOrNew(fs, Happens(fs, id, earlier), Happens(fs, id, hs), id, data, hs[|hs| - 1]);
    }
  }

  lemma SameView(before: Fs, a: Fs, b: Fs, id: Name, data: Text)
    requires NeverPartial(before, a, id, data) && a.view == b.view
    ensures NeverPartial(before, b, id, data)
  {
  }

  // ---------------------------------------------------------------------------------------
  // What the calls come to
  // ---------------------------------------------------------------------------------------

  lemma ContentsSet(fs: Fs, n: Name, f: File)
    ensures Contents(fs.(view := fs.view[n := f])) == Contents(fs)[n := f.data]
  {
  }

  lemma ContentsRemove(fs: Fs, n: Name)
    ensures Contents(Remove(fs, n)) == Contents(fs) - {n}
  {
  }

  lemma NotThere(fs: Fs, n: Name)
    ensures n !in fs.view ==> Contents(fs) - {n} == Contents(fs)
  {
  }

  lemma SameContents(a: Fs, b: Fs)
    requires a.view == b.view
    ensures Contents(a) == Contents(b)
  {
  }

  /** What the first half leaves when it fails. */
  lemma TempFailed(fs: Fs, id: Name, data: Text, f: Faults)
    requires TempFails(data, f)
    ensures Contents(After(fs, id, TempCalls(data, f))) == TempLeft(Contents(fs), TempName(id), data, f)
  {
    hide TempName;
    var t, v, part := TempName(id), fs.view, if f.fault.WriteFails? then Prefix(data, f.fault.n) else data;
    AfterOne(fs, id, Open);
    AfterSnoc(fs, id, [Open], Put(part));
    assert [Open] + [Put(part)] == [Open, Put(part)];
    hide After;
    assert [] + part == part;
    assert v[t := File([], false)][t := File(part, false)] == v[t := File(part, false)];
    ContentsSet(fs, t, File(part, false));
    hide Contents;
  }

  lemma CleanedUp(fs: Fs, id: Name, f: Faults)
    ensures Contents(After(fs, id, Cleanup(f))) == Cleaned(Contents(fs), TempName(id), f)
  {
    hide TempName;
    AfterOne(fs, id, DropTemp);
    ContentsRemove(fs, TempName(id));
  }

  /** The file system after the rename of a ready temporary file, the destination gone or not. */
  lemma MovedIn(fs: Fs, id: Name, data: Text, f: Faults)
    requires Ready(fs, id, data) && !f.fault.RenameFails?
    ensures var now := After(fs, id, MoveCalls(id in fs.view, f));
            && now.view == (fs.view - {TempName(id)})[id := File(data, true)]
            && (f.syncDir ==> id in now.disk && now.disk[id] == data)
  {
    hide Apply, After, Ready, TempName;
    var drop := if id in fs.view && f.removeOld then [DropOld] else [];
    var gone := After(fs, id, drop);
    AfterOne(fs, id, DropOld);
    AfterConcat(fs, id, drop, if f.syncDir then [MoveIn, SyncRoot(f.junk)] else [MoveIn]);
    AfterOne(gone, id, MoveIn);
    AfterSnoc(gone, id, [MoveIn], SyncRoot(f.junk));
    assert [MoveIn] + [SyncRoot(f.junk)] == [MoveIn, SyncRoot(f.junk)];
    RenameReady(fs, gone, id, data, f.junk);
  }

  lemma RenameReady(fs: Fs, gone: Fs, id: Name, data: Text, junk: map<Name, Text>)
    requires Ready(fs, id, data) && (gone == fs || gone == Apply(fs, id, DropOld))
    ensures var now := Apply(gone, id, MoveIn);
            && now.view == Apply(now, id, SyncRoot(junk)).view == (fs.view - {TempName(id)})[id := File(data, true)]
            && id in Apply(now, id, SyncRoot(junk)).disk && Apply(now, id, SyncRoot(junk)).disk[id] == data
  {
    TempNameShape(id);
    hide TempName, EndsWith;
  }

  lemma MoveFailed(fs: Fs, id: Name, data: Text, f: Faults)
    requires f.fault.RenameFails?
    ensures var c := if f.removeOld then Contents(fs) - {id} else Contents(fs);
            Contents(After(fs, id, MoveCalls(id in fs.view, f))) == Cleaned(c, TempName(id), f)
  {
    hide TempName;
    var drop := if id in fs.view && f.removeOld then [DropOld] else [];
    AfterOne(fs, id, DropOld);
    ContentsRemove(fs, id);
    NotThere(fs, id);
    AfterConcat(fs, id, drop, Cleanup(f));
    CleanedUp(After(fs, id, drop), id, f);
    hide After, Contents;
  }

  function OutcomeOf(id: Name, data: Text, f: Faults): Outcome
  {
    if BadId(id) then Invalid else if TempFails(data, f) || f.fault.RenameFails? then StorageError else Stored
  }

  /** The calls leave exactly the files that `Staged` says, and a stored blob is flushed. */
  lemma CallsAreStaged(fs: Fs, id: Name, data: Text, f: Faults)
    ensures var now := After(fs, id, Calls(id in fs.view, id, data, f));
            && (Contents(now), OutcomeOf(id, data, f)) == Staged(Contents(fs), id, data, f)
            && (OutcomeOf(id, data, f).Stored? ==> id in now.view && now.view[id].synced && (f.syncDir ==> id in now.disk && now.disk[id] == data))
            && (OutcomeOf(id, data, f).Invalid? ==> now == fs)
  {
    TempNameShape(id);
    hide TempName, EndsWith, BadId, After, TempCalls, MoveCalls, Cleanup, Contents, Cleaned;
    var first, temp := TempCalls(data, f), TempName(id);
    var mid := After(fs, id, first);
    AfterOne(fs, id, Open);
    AfterConcat(fs, id, first, if TempFails(data, f) then Cleanup(f) else MoveCalls(id in fs.view, f));
    if TempFails(data, f) {
      TempFailed(fs, id, data, f);
      CleanedUp(mid, id, f);
    } else {
      TempWritten(fs, id, data, f);
      ContentsSet(fs, temp, File(data, true));
      if f.fault.RenameFails? {
        MoveFailed(mid, id, data, f);
        SetElsewhere(Contents(fs), id, temp, data);
      } else {
        MovedIn(mid, id, data, f);
        MovedContents(fs, After(mid, id, MoveCalls(id in fs.view, f)), temp, id, data);
      }
    }
  }

  lemma SetElsewhere(c: map<Name, Text>, id: Name, temp: Name, data: Text)
    requires id != temp
    ensures c[temp := data] - {id} == (c - {id})[temp := data]
  {
  }

  lemma MovedContents(fs: Fs, now: Fs, temp: Name, id: Name, data: Text)
    requires now.view == (fs.view[temp := File(data, true)] - {temp})[id := File(data, true)]
    ensures Contents(now) == (Contents(fs) - {temp})[id := data]
  {
  }

  lemma AllNeverPartial(fs: Fs, id: Name, data: Text, f: Faults)
    ensures var cs := Calls(id in fs.view, id, data, f);
            forall k :: 0 <= k <= |cs| ==> NeverPartial(fs, After(fs, id, cs[..k]), id, data)
  {
    hide NeverPartial, After, Calls;
    forall k | 0 <= k <= |Calls(id in fs.view, id, data, f)|
      ensures NeverPartial(fs, After(fs, id, Calls(id in fs.view, id, data, f)[..k]), id, data)
    {
      StagedNeverPartial(fs, id, data, f, k);
    }
  }

  lemma DestinationStays(fs: Fs, now: Fs, id: Name, data: Text)
    requires now.view == fs.view[TempName(id) := File(data, true)]
    ensures id in now.view <==> id in fs.view
  {
    TempNameShape(id);
    hide TempName;
  }

  class BinaryStorage {
    var fs: Fs
    /** The system calls of the write in progress, and of the last one when it is over. */
    ghost var calls: seq<Call>

    constructor (fs: Fs)
      ensures this.fs == fs
    {
      this.fs, calls := fs, [];
    }

    /** One system call of a write to `id`: the only way such a write changes the files. */
    method Do(id: Name, c: Call)
      modifies this`fs, this`calls
      ensures fs == Apply(old(fs), id, c) && calls == old(calls) + [c]
    {
      fs, calls := Apply(fs, id, c), calls + [c];
    }

    /** The first half of `stagedWrite`: write the temporary file and flush it, or clean up. */
    method WriteTemp(id: Name, data: Text, f: Faults, ghost start: Fs) returns (ok: bool)
      requires fs == After(start, id, calls)
      modifies this`fs, this`calls
      ensures fs == After(start, id, calls) && (ok <==> !TempFails(data, f))
      ensures calls == old(calls) + TempCalls(data, f) + (if ok then [] else Cleanup(f))
    {
      hide Apply, TempName, After;
      ok := !TempFails(data, f);
      if f.fault.OpenFails? {
        GiveUp(id, f, start);
        return;
      }
      AfterSnoc(start, id, calls, Open);
      Do(id, Open);
      if data != [] {
        var part := if f.fault.WriteFails? then Prefix(data, f.fault.n) else data;
        AfterSnoc(start, id, calls, Put(part));
        Do(id, Put(part));
        if f.fault.WriteFails? {
          GiveUp(id, f, start);
          return;
        }
      }
      if f.fault.FlushFails? || f.fault.CloseFails? || f.fault.SyncFails? {
        GiveUp(id, f, start);
        return;
      }
      AfterSnoc(start, id, calls, SyncTemp);
      Do(id, SyncTemp);
    }

    /** Removes the temporary file after a failure, if the operating system lets it. */
    method GiveUp(id: Name, f: Faults, ghost start: Fs)
      requires fs == After(start, id, calls)
      modifies this`fs, this`calls
      ensures fs == After(start, id, calls) && calls == old(calls) + Cleanup(f)
    {
      hide Apply, After;
      if f.removeTemp {
        AfterSnoc(start, id, calls, DropTemp);
        Do(id, DropTemp);
      }
    }

    /** The second half: past an existing destination, rename and flush the directory. */
    method FinishWrite(id: Name, f: Faults, ghost start: Fs) returns (ok: bool)
      requires fs == After(start, id, calls)
      modifies this`fs, this`calls
      ensures fs == After(start, id, calls) && (ok <==> !f.fault.RenameFails?)
      ensures calls == old(calls) + MoveCalls(id in old(fs).view, f)
    {
      hide Apply, After, TempName;
      if id in fs.view && f.removeOld {
        AfterSnoc(start, id, calls, DropOld);
        Do(id, DropOld);
      }
      if f.fault.RenameFails? {
        GiveUp(id, f, start);
        return false;
      }
      AfterSnoc(start, id, calls, MoveIn);
      Do(id, MoveIn);
      if f.syncDir {
        AfterSnoc(start, id, calls, SyncRoot(f.junk));
        Do(id, SyncRoot(f.junk));
      }
      ok := true;
    }

    /** `stagedWrite`: write a temporary file, flush it, rename it, flush the directory. It makes
        exactly the calls listed, so every state between two of them is one that
        `StagedNeverPartial` and `CrashLeavesOldOrNew` speak of. */
    method StagedWrite(id: Name, data: Text, f: Faults) returns (r: Outcome)
      modifies this
      ensures (Contents(fs), r) == old(Staged(Contents(fs), id, data, f))
      ensures calls == Calls(id in old(fs).view, id, data, f) && fs == After(old(fs), id, calls)
      ensures forall k :: 0 <= k <= |calls| ==> NeverPartial(old(fs), After(old(fs), id, calls[..k]), id, data)
      ensures r.Stored? ==> id in fs.view && fs.view[id].synced && (f.syncDir ==> id in fs.disk && fs.disk[id] == data)
      ensures r.Invalid? ==> fs == old(fs)
    {
      ghost var start := fs;
      hide NeverPartial, After, Calls, Contents, Staged, OutcomeOf;
      r := MakeCalls(id, data, f);
      CallsAreStaged(start, id, data, f);
      AllNeverPartial(start, id, data, f);
    }

    /** The calls themselves. */
    method MakeCalls(id: Name, data: Text, f: Faults) returns (r: Outcome)
      modifies this
      ensures calls == Calls(id in old(fs).view, id, data, f) && fs == After(old(fs), id, calls) && r == OutcomeOf(id, data, f)
    {
      ghost var start := fs;
      calls := [];
      AfterOne(start, id, Open);
      hide TempName, After, Apply, TempCalls, MoveCalls, Cleanup, TempFails;
      if BadId(id) {
        return Invalid;
      }
      hide BadId;
      var written := WriteTemp(id, data, f, start);
      if !written {
        assert calls == TempCalls(data, f) + Cleanup(f);
        return StorageError;
      }
      assert calls == TempCalls(data, f);
      TempWritten(start, id, data, f);
      DestinationStays(start, fs, id, data);
      var moved := FinishWrite(id, f, start);
      r := if moved then Stored else StorageError;
    }

    method Read(k: Name) returns (r: Option<Text>)
      ensures r == if k != [] && k in Contents(fs) then Some(Contents(fs)[k]) else None
    {
      if k == [] || k !in fs.view {
        return None;
      }
      r := Some(fs.view[k].data);
    }

    /** `removeStaged`: after a failed save, neither the temporary nor the final file is left
        when the removals succeed. */
    method RemoveStaged(id: Name, removeTemp: bool, removeFinal: bool)
      modifies this`fs
      ensures Contents(fs) == old(Unstaged(Contents(fs), id, removeTemp, removeFinal))
      ensures id != [] && removeTemp && removeFinal ==> id !in fs.view && TempName(id) !in fs.view
    {
      if id == [] {
        return;
      }
      if removeTemp { fs := Remove(fs, TempName(id)); }
      if removeFinal { fs := Remove(fs, id); }
    }

    /** `sweepOrphans`: deletes exactly the regular files that end in `.part`, except those in
        `stuck`, which the operating system will not remove, and counts what it deleted. */
    method SweepOrphans(stuck: set<Name>, syncDir: bool, junk: map<Name, Text>) returns (count: nat)
      modifies this`fs
      ensures fs.view == old(fs.view) - (Orphans(old(fs)) - stuck)
      ensures count == |Orphans(old(fs)) - stuck|
      ensures forall n :: n in old(fs.view) && EndsWith(n, BIN) ==> n in fs.view && fs.view[n] == old(fs.view)[n]
    {
      var left := fs.view.Keys + fs.subdirs;
      ghost var swept: set<Name> := {};
      count := 0;
      while left != {}
        invariant fs.subdirs == old(fs.subdirs) && swept <= old(fs.view).Keys
        invariant swept == set n | n in Orphans(old(fs)) - stuck && n !in left
        invariant left <= old(fs.view).Keys + fs.subdirs && fs.view == old(fs.view) - swept && count == |swept|
        decreases left
      {
        var n :| n in left;
        left := left - {n};
        if n in fs.view && n !in fs.subdirs && EndsWith(n, PART) && n !in stuck {
          fs := Remove(fs, n);
          count := count + 1;
          swept := swept + {n};
        }
      }
      if count > 0 && syncDir {
        fs := SyncDir(fs, junk);
      }
      assert swept == Orphans(old(fs)) - stuck;
      forall n | n in old(fs.view) && EndsWith(n, BIN) ensures n !in Orphans(old(fs)) {
        BinIsNotPart(n);
      }
    }
  }

  /** The regular files whose names end in `.part`. */
  function Orphans(fs: Fs): set<Name>
  {
    set n | n in fs.view && n !in fs.subdirs && EndsWith(n, PART)
  }
}
