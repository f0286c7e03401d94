/** The link between the transfer service and the crash model: what `stagedWrite` and the save
    or rollback after it come to is a run of the small steps of CrashSafety.dfy, so that a crash
    may strike between any two of them (src/application/transfer_service.cpp,
    src/infrastructure/binary_storage.cpp). */
module UploadSteps {
  import opened Bytes
  import opened Storage
  import opened CrashSafety
  import T = Transfers

  /** The steps of one `stagedWrite` call, for every way it can go. */
  function StagingSteps(id: Name, data: Text, f: Faults): seq<Event>
  {
    if BadId(id) then []
    else if !TempFails(data, f) then
      [Begin(id, data), WriteSome(id, |data|), Flush(id)] +
      if f.fault.RenameFails? then [Abort(id, f.removeTemp, false)]
      else [RenameIn(id), FlushDir(id, f.syncDir, f.junk)]
    else if f.fault.OpenFails? then (if f.removeTemp then [Begin(id, data), Abort(id, true, false)] else [])
    else
      var n := if f.fault.WriteFails? then |Prefix(data, f.fault.n)| else |data|;
      [Begin(id, data), WriteSome(id, n), Abort(id, f.removeTemp, false)]
  }

  /** The steps of a whole upload once its checks have passed: staging, then the save, or the
      removal of the blob if the save is refused. */
  function StoreSteps(w: T.World, r: T.FileRecord, body: Text, d: T.Draw): seq<Event>
  {
    StagingSteps(r.storageId, body, d.faults) +
    if !Staged(w.blobs, r.storageId, body, d.faults).1.Stored? then []
    else if T.CanSave(w.files, r) then [Save(r.storageId)]
    else [Abort(r.storageId, d.removeTemp, d.removeFinal)]
  }

  /** The system `s` with an upload in flight and its own files in the view. */
  function InFlight(s: System, id: Name, view: map<Name, File>, u: Upload): System
  {
    s.(fs := s.fs.(view := view), uploads := s.uploads[id := u], used := s.used + {id})
  }

  ghost predicate Unused(s: System, id: Name)
  {
    Inv(s) && id !in s.used && EndsWith(id, BIN)
  }

  lemma UnusedIsAbsent(s: System, id: Name)
    requires Unused(s, id)
    ensures id !in s.fs.view && id !in s.fs.disk && id !in s.uploads && id !in s.records && TempName(id) != id
  {
    TempNameShape(id);
    hide TempName, EndsWith;
  }

  lemma RunEmpty(s: System)
    ensures Run(s, []) == s
  {
  }

  lemma RunSnoc(s: System, es: seq<Event>, e: Event)
    ensures Run(s, es + [e]) == Step(Run(s, es), e)
  {
    hide Step;
    assert (es + [e])[..|es|] == es;
  }

  /** Opening the temporary file and writing `n` bytes to it. */
  lemma Wrote(s: System, id: Name, data: Text, n: nat)
    requires Unused(s, id) && n <= |data|
    ensures Run(s, [Begin(id, data)]) == InFlight(s, id, s.fs.view[TempName(id) := File([], false)], Upload(Writing, data))
    ensures Run(s, [Begin(id, data), WriteSome(id, n)]) ==
            InFlight(s, id, s.fs.view[TempName(id) := File(data[..n], false)], Upload(Writing, data))
  {
    hide TempName, EndsWith, Inv;
    var e1, e2 := Begin(id, data), WriteSome(id, n);
    assert [] + [e1] == [e1] && [e1] + [e2] == [e1, e2];
    RunEmpty(s);
    RunSnoc(s, [], e1);
    RunSnoc(s, [e1], e2);
    hide Run;
    var t := InFlight(s, id, s.fs.view[TempName(id) := File([], false)], Upload(Writing, data));
    assert Step(s, e1) == t;
    assert [] + data[0..0 + n] == data[..n];
    assert Step(t, e2).fs.view == s.fs.view[TempName(id) := File(data[..n], false)];
  }

  /** Writing all of it and flushing. */
  lemma WroteAll(s: System, id: Name, data: Text)
    requires Unused(s, id)
    ensures Run(s, [Begin(id, data), WriteSome(id, |data|), Flush(id)]) ==
            InFlight(s, id, s.fs.view[TempName(id) := File(data, true)], Upload(Flushed, data))
  {
    Wrote(s, id, data, |data|);
    hide TempName, EndsWith, Inv, Unused, Run;
    assert data[..|data|] == data;
    var es := [Begin(id, data), WriteSome(id, |data|)];
    RunSnoc(s, es, Flush(id));
    assert es + [Flush(id)] == [Begin(id, data), WriteSome(id, |data|), Flush(id)];
    var t := InFlight(s, id, s.fs.view[TempName(id) := File(data, false)], Upload(Writing, data));
    assert Step(t, Flush(id)).fs.view == s.fs.view[TempName(id) := File(data, true)];
  }

  /** Giving up: the temporary file goes if it can, and the rest is as before. */
  lemma GaveUp(s: System, id: Name, f: File, u: Upload, es: seq<Event>, removeTemp: bool)
    requires Unused(s, id) && Run(s, es) == InFlight(s, id, s.fs.view[TempName(id) := f], u)
    ensures var t := Run(s, es + [Abort(id, removeTemp, false)]);
            && t.uploads == s.uploads && t.records == s.records
            && Contents(t.fs) == if removeTemp then Contents(s.fs)[TempName(id) := f.data] - {TempName(id)} else Contents(s.fs)[TempName(id) := f.data]
  {
    UnusedIsAbsent(s, id);
    RunSnoc(s, es, Abort(id, removeTemp, false));
    hide TempName, Unused, Run, Step, Contents;
    AbortStep(s, id, f, u, removeTemp);
  }

  lemma AbortStep(s: System, id: Name, f: File, u: Upload, removeTemp: bool)
    requires id !in s.uploads
    ensures var t := Step(InFlight(s, id, s.fs.view[TempName(id) := f], u), Abort(id, removeTemp, false));
            && t.uploads == s.uploads && t.records == s.records
            && Contents(t.fs) == if removeTemp then Contents(s.fs)[TempName(id) := f.data] - {TempName(id)} else Contents(s.fs)[TempName(id) := f.data]
  {
    hide TempName, Contents;
    var temp := TempName(id);
    UnusedUploads(s, id, u);
    ContentsSet(s.fs, temp, f);
    ContentsRemove(s.fs.(view := s.fs.view[temp := f]), temp);
  }

  /** Renaming the flushed file and flushing the directory. */
  lemma MovedIn(s: System, id: Name, data: Text, es: seq<Event>, ok: bool, junk: map<Name, Text>)
    requires Unused(s, id) && Run(s, es) == InFlight(s, id, s.fs.view[TempName(id) := File(data, true)], Upload(Flushed, data))
    ensures var t := Run(s, es + [RenameIn(id), FlushDir(id, ok, junk)]);
            && t.uploads == s.uploads[id := Upload(DirFlushed, data)] && t.records == s.records
            && Contents(t.fs) == (Contents(s.fs) - {TempName(id)})[id := data]
            && (ok ==> id in t.fs.disk && t.fs.disk[id] == data)
  {
    var e, e' := RenameIn(id), FlushDir(id, ok, junk);
    RunSnoc(s, es, e);
    RunSnoc(s, es + [e], e');
    assert es + [e] + [e'] == es + [e, e'];
    hide TempName, Unused, Run, Step, Contents;
    var t := Run(s, es + [e]);
    RenamedIn(s, id, data, t);
    DirFlushedThen(t, id, data, ok, junk);
    MovedContents(s.fs, t.fs, TempName(id), id, data);
    assert s.uploads[id := Upload(Renamed, data)][id := Upload(DirFlushed, data)] == s.uploads[id := Upload(DirFlushed, data)];
  }

  lemma DirFlushedThen(t: System, id: Name, data: Text, ok: bool, junk: map<Name, Text>)
    requires id in t.uploads && t.uploads[id] == Upload(Renamed, data) && id in t.fs.view && t.fs.view[id] == File(data, true)
    ensures var u := Step(t, FlushDir(id, ok, junk));
            && u.uploads == t.uploads[id := Upload(DirFlushed, data)] && u.records == t.records && Contents(u.fs) == Contents(t.fs)
            && (ok ==> id in u.fs.disk && u.fs.disk[id] == data)
  {
    SameContents(t.fs, Step(t, FlushDir(id, ok, junk)).fs);
    hide Contents;
  }

  /** An upload that nothing disturbs reaches the point where its blob is renamed, complete, and
      not yet on disk: there a directory flush that fails decides its fate. */
  lemma RenamedNotOnDisk(s: System, id: Name, data: Text)
    requires Unused(s, id)
    ensures var t := Run(s, [Begin(id, data), WriteSome(id, |data|), Flush(id), RenameIn(id)]);
            && id in t.uploads && t.uploads[id] == Upload(Renamed, data)
            && id in t.fs.view && t.fs.view[id] == File(data, true) && id !in t.fs.disk
  {
    UnusedIsAbsent(s, id);
    WroteAll(s, id, data);
    var es := [Begin(id, data), WriteSome(id, |data|), Flush(id)];
    RunSnoc(s, es, RenameIn(id));
    assert es + [RenameIn(id)] == [Begin(id, data), WriteSome(id, |data|), Flush(id), RenameIn(id)];
    hide TempName, Unused, Run, Step;
    RenamedIn(s, id, data, Run(s, es + [RenameIn(id)]));
  }

  lemma RenamedIn(s: System, id: Name, data: Text, t: System)
    requires t == Step(InFlight(s, id, s.fs.view[TempName(id) := File(data, true)], Upload(Flushed, data)), RenameIn(id))
    ensures t.fs == s.fs.(view := (s.fs.view[TempName(id) := File(data, true)] - {TempName(id)})[id := File(data, true)])
    ensures t.uploads == s.uploads[id := Upload(Renamed, data)] && t.records == s.records
  {
    hide TempName;
  }

  /** `stagedWrite` is a run of small steps: for every way the call can go, the files it leaves
      are those its steps leave one by one, and it reports success exactly when the upload
      stands ready for its record. */
  lemma StagingIsRun(s: System, id: Name, data: Text, f: Faults)
    requires Unused(s, id)
    ensures var t, r := Run(s, StagingSteps(id, data, f)), Staged(Contents(s.fs), id, data, f);
            && Contents(t.fs) == r.0 && t.records == s.records
            && t.uploads == (if r.1.Stored? then s.uploads[id := Upload(DirFlushed, data)] else s.uploads)
            && (r.1.Stored? && f.syncDir ==> id in t.fs.disk && t.fs.disk[id] == data)
  {
    hide TempName, EndsWith, Inv, Unused, Run, Contents, InFlight, BadId;
    var begin, temp := Begin(id, data), TempName(id);
    RunEmpty(s);
    if !BadId(id) {
      if !TempFails(data, f) {
        WroteAll(s, id, data);
        var es := [begin, WriteSome(id, |data|), Flush(id)];
        if f.fault.RenameFails? {
          NothingOld(s, id);
          GaveUp(s, id, File(data, true), Upload(Flushed, data), es, f.removeTemp);
        } else {
          MovedIn(s, id, data, es, f.syncDir, f.junk);
        }
      } else if f.fault.OpenFails? {
        if f.removeTemp {
          Wrote(s, id, data, 0);
          GaveUp(s, id, File([], false), Upload(Writing, data), [begin], true);
          assert [begin] + [Abort(id, true, false)] == [begin, Abort(id, true, false)];
          assert Contents(s.fs)[temp := []] - {temp} == Contents(s.fs) - {temp};
        }
      } else {
        var part := if f.fault.WriteFails? then Prefix(data, f.fault.n) else data;
        Wrote(s, id, data, |part|);
        assert data[..|part|] == part;
        var es := [begin, WriteSome(id, |part|)];
        GaveUp(s, id, File(part, false), Upload(Writing, data), es, f.removeTemp);
        assert es + [Abort(id, f.removeTemp, false)] == [begin, WriteSome(id, |part|), Abort(id, f.removeTemp, false)];
      }
    }
  }

  lemma NothingOld(s: System, id: Name)
    requires Unused(s, id)
    ensures Contents(s.fs) - {id} == Contents(s.fs)
  {
    UnusedIsAbsent(s, id);
  }

  /** The whole upload likewise: the blobs the transfer service leaves are those of the run, and
      the run ends with a record of the uploaded bytes exactly when the service reports one. */
  lemma StoreIsRun(s: System, w: T.World, r: T.FileRecord, body: Text, d: T.Draw)
    requires Unused(s, r.storageId) && w.blobs == Contents(s.fs)
    ensures var t, res := Run(s, StoreSteps(w, r, body, d)), T.Store(w, r, body, d);
            && Contents(t.fs) == res.0.blobs && t.uploads == s.uploads
            && t.records == (if res.1.Uploaded? then s.records[r.storageId := body] else s.records)
            && (res.1.Uploaded? && d.faults.syncDir ==> Survives(t, r.storageId))
  {
    StagingIsRun(s, r.storageId, body, d.faults);
    var es, id := StagingSteps(r.storageId, body, d.faults), r.storageId;
    var t := Run(s, es);
    RunKeepsInv(s, es);
    UnusedIsAbsent(s, id);
    StoredIsNamed(w.blobs, id, body, d.faults);
    UnusedUploads(s, id, Upload(DirFlushed, body));
    hide TempName, EndsWith, Inv, Unused, Run, Step, StagingSteps, T.CanSave, Staged, Unstaged, Survives, Contents;
    if !Staged(w.blobs, id, body, d.faults).1.Stored? {
      assert es + [] == es;
    } else if T.CanSave(w.files, r) {
      RunSnoc(s, es, Save(id));
      Saved(t, id);
    } else {
      RunSnoc(s, es, Abort(id, d.removeTemp, d.removeFinal));
      RolledBack(t, id, d.removeTemp, d.removeFinal);
    }
  }

  lemma UnusedUploads(s: System, id: Name, u: Upload)
    requires id !in s.uploads
    ensures s.uploads[id := u] - {id} == s.uploads
  {
  }

  lemma Saved(t: System, id: Name)
    requires Inv(t) && id in t.uploads && t.uploads[id].phase.DirFlushed?
    ensures var u := Step(t, Save(id));
            && u.fs == t.fs && u.records == t.records[id := t.uploads[id].data] && u.uploads == t.uploads - {id}
            && (id in t.fs.disk ==> Survives(u, id))
  {
    UploadFacts(t, id);
    StepInv(t, Save(id));
    hide Inv, Survives, TempName, EndsWith;
    SurvivesIffOnDisk(Step(t, Save(id)), id);
  }

  lemma StoredIsNamed(c: map<Name, Text>, id: Name, data: Text, f: Faults)
    ensures Staged(c, id, data, f).1.Stored? ==> id != []
  {
  }

  lemma RolledBack(t: System, id: Name, removeTemp: bool, removeFinal: bool)
    requires id in t.uploads && id != []
    ensures var u := Step(t, Abort(id, removeTemp, removeFinal));
            Contents(u.fs) == Unstaged(Contents(t.fs), id, removeTemp, removeFinal) && u.records == t.records && u.uploads == t.uploads - {id}
  {
    hide TempName;
  }

  lemma {:induction false} RunKeepsInv(s: System, es: seq<Event>)
    requires Inv(s)
    ensures Inv(Run(s, es))
  {
    hide Inv, Step;
    if es != [] {
      RunKeepsInv(s, es[..|es| - 1]);
      StepInv(Run(s, es[..|es| - 1]), es[|es| - 1]);
    }
  }
}
