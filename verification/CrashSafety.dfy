/** Crash consistency of uploads: any number of uploads in flight, their steps interleaved, with
    a crash, a restart or an orphan sweep possible between any two steps
    (src/application/transfer_service.cpp, src/infrastructure/binary_storage.cpp). */
module CrashSafety {
  import opened Bytes
  import opened Storage

  /** How far one upload has come: writing the temporary file, having flushed it, having renamed
      it to its final name, having flushed the directory. */
  datatype Phase = Writing | Flushed | Renamed | DirFlushed

  datatype Upload = Upload(phase: Phase, data: Text)

  /** `records` maps each saved record's storage id to the bytes uploaded with it; the database
      commit is one durable step. `used` holds every storage id ever drawn. */
  datatype System = System(fs: Fs, uploads: map<Name, Upload>, records: map<Name, Text>, used: set<Name>)

  const START := System(Fs(map[], map[], {}), map[], map[], {})

  datatype Event =
    | Begin(id: Name, data: Text)
    | WriteSome(id: Name, n: nat)
    | Flush(id: Name)
    | RemoveOld(id: Name)
    | RenameIn(id: Name)
    | FlushDir(id: Name, ok: bool, junk: map<Name, Text>)
    | Save(id: Name)
    | Abort(id: Name, removeTemp: bool, removeFinal: bool)
    | Background(name: Name, bytes: Text)
    | CrashRestart
    | Sweep(stuck: set<Name>)

  /** When an event can happen. `Begin` takes a storage id never drawn before, ending in `.bin`. */
  predicate Enabled(s: System, e: Event)
  {
    match e
    case Begin(id, _) => id !in s.used && EndsWith(id, BIN)
    case WriteSome(id, n) =>
      && id in s.uploads && s.uploads[id].phase.Writing? && TempName(id) in s.fs.view
      && |s.fs.view[TempName(id)].data| + n <= |s.uploads[id].data|
    case Flush(id) =>
      && id in s.uploads && s.uploads[id].phase.Writing? && TempName(id) in s.fs.view
      && |s.fs.view[TempName(id)].data| == |s.uploads[id].data|
    case RemoveOld(id) => id in s.uploads && s.uploads[id].phase.Flushed?
    case RenameIn(id) => id in s.uploads && s.uploads[id].phase.Flushed? && TempName(id) in s.fs.view
    case FlushDir(id, _, _) => id in s.uploads && s.uploads[id].phase.Renamed?
    case Save(id) => id in s.uploads && s.uploads[id].phase.DirFlushed?
    case Abort(id, _, _) => id in s.uploads
    case _ => true
  }

  function Next(s: System, e: Event): System
    requires Enabled(s, e)
  {
    match e
    case Begin(id, data) =>
      s.(fs := Create(s.fs, TempName(id)), uploads := s.uploads[id := Upload(Writing, data)], used := s.used + {id})
    case WriteSome(id, n) =>
      var k := |s.fs.view[TempName(id)].data|;
      s.(fs := Write(s.fs, TempName(id), s.uploads[id].data[k..k + n]))
    case Flush(id) => s.(fs := SyncFile(s.fs, TempName(id)), uploads := s.uploads[id := s.uploads[id].(phase := Flushed)])
    case RemoveOld(id) => s.(fs := Remove(s.fs, id))
    case RenameIn(id) => s.(fs := Rename(s.fs, TempName(id), id), uploads := s.uploads[id := s.uploads[id].(phase := Renamed)])
    case FlushDir(id, ok, junk) =>
      s.(fs := if ok then SyncDir(s.fs, junk) else s.fs, uploads := s.uploads[id := s.uploads[id].(phase := DirFlushed)])
    case Save(id) => s.(records := s.records[id := s.uploads[id].data], uploads := s.uploads - {id})
    case Abort(id, t, f) =>
      var fs := if t then Remove(s.fs, TempName(id)) else s.fs;
      s.(fs := if f then Remove(fs, id) else fs, uploads := s.uploads - {id})
    case Background(n, bytes) => s.(fs := Writeback(s.fs, n, bytes))
    case CrashRestart => s.(fs := Crash(s.fs), uploads := map[])
    case Sweep(stuck) => s.(fs := s.fs.(view := s.fs.view - (Orphans(s.fs) - stuck)))
  }

  /** Events that cannot happen are skipped. */
  function Step(s: System, e: Event): System
  {
    if Enabled(s, e) then Next(s, e) else s
  }

  function Run(s: System, es: seq<Event>): System
  {
    if es == [] then s else Step(Run(s, es[..|es| - 1]), es[|es| - 1])
  }

  // ---------------------------------------------------------------------------------------
  // The invariant
  // ---------------------------------------------------------------------------------------

  /** Wherever the name is bound, in the view or on disk, it holds exactly `data`. */
  predicate CompleteOrAbsent(fs: Fs, id: Name, data: Text)
  {
    (id in fs.view ==> fs.view[id] == File(data, true)) && (id in fs.disk ==> fs.disk[id] == data)
  }

  predicate UploadOk(fs: Fs, id: Name, u: Upload)
  {
    match u.phase
    case Writing =>
      && id !in fs.view && id !in fs.disk
      && (TempName(id) in fs.view ==> fs.view[TempName(id)].data <= u.data)
    case Flushed =>
      && id !in fs.view && id !in fs.disk
      && (TempName(id) in fs.view ==> fs.view[TempName(id)] == File(u.data, true))
    case _ => id in fs.view && CompleteOrAbsent(fs, id, u.data)
  }

  ghost predicate Inv(s: System)
  {
    && (forall id :: id in s.used ==> EndsWith(id, BIN))
    && (forall id :: id in s.uploads ==> id in s.used && id !in s.records && UploadOk(s.fs, id, s.uploads[id]))
    && (forall id :: id in s.records ==> id in s.used && CompleteOrAbsent(s.fs, id, s.records[id]))
    && (forall n :: n in s.fs.view && EndsWith(n, BIN) ==> n in s.used)
    && (forall n :: n in s.fs.disk && EndsWith(n, BIN) ==> n in s.used)
  }

  /** Temporary names and final names never meet, and two uploads never share either. */
  ghost predicate Apart(id: Name, other: Name)
  {
    && TempName(id) != other && !EndsWith(other, PART) && !EndsWith(TempName(id), BIN)
    && (TempName(id) == TempName(other) ==> id == other)
  }

  lemma NamesApart(id: Name, other: Name)
    requires EndsWith(other, BIN)
    ensures Apart(id, other)
  {
    TempNameShape(id);
    BinIsNotPart(other);
    if EndsWith(TempName(id), BIN) {
      BinIsNotPart(TempName(id));
    }
    if TempName(id) == TempName(other) {
      TempNameInjective(id, other);
    }
  }

  lemma AllApart(ids: set<Name>)
    requires forall id :: id in ids ==> EndsWith(id, BIN)
    ensures forall id, other :: id in ids && other in ids ==> Apart(id, other)
  {
    forall id, other | id in ids && other in ids ensures Apart(id, other) {
      NamesApart(id, other);
    }
  }

  /** Everything about one system except one name in the view and the uploads' own records. */
  ghost predicate SameElsewhere(s: System, t: System, a: Name, b: Name)
  {
    && t.records == s.records && t.fs.disk == s.fs.disk
    && (forall n :: n != a && n != b ==> (n in t.fs.view <==> n in s.fs.view) && (n in s.fs.view ==> t.fs.view[n] == s.fs.view[n]))
  }

  /** A step of one upload touches only its own two names and its own entry. */
  lemma OwnStep(s: System, t: System, id: Name)
    requires Inv(s) && SameElsewhere(s, t, TempName(id), id) && id !in s.records && EndsWith(id, BIN)
    requires t.used == s.used + {id} && t.uploads - {id} == s.uploads - {id}
    requires id in t.uploads ==> UploadOk(t.fs, id, t.uploads[id])
    ensures Inv(t)
  {
    AllApart(t.used);
    assert Apart(id, id);
    hide TempName, EndsWith;
    forall j | j in t.uploads ensures j in t.used && j !in t.records && UploadOk(t.fs, j, t.uploads[j]) {
      if j != id {
        assert j in t.uploads - {id} && j in s.uploads - {id} && (t.uploads - {id})[j] == (s.uploads - {id})[j];
        assert Apart(id, j) && Apart(j, id);
      }
    }
    forall j | j in t.records ensures j in t.used && CompleteOrAbsent(t.fs, j, t.records[j]) {
      assert Apart(id, j);
    }
    forall n | n in t.fs.view && EndsWith(n, BIN) ensures n in t.used {
      assert n != TempName(id);
    }
  }

  /** What the invariant says of one upload. */
  lemma UploadFacts(s: System, id: Name)
    requires Inv(s) && id in s.uploads
    ensures EndsWith(id, BIN) && id !in s.records && UploadOk(s.fs, id, s.uploads[id])
    ensures s.used == s.used + {id} && TempName(id) != id
  {
    NamesApart(id, id);
    hide UploadOk, TempName, EndsWith;
  }

  lemma BeginInv(s: System, e: Event)
    requires Inv(s) && Enabled(s, e) && e.Begin?
    ensures Inv(Next(s, e))
  {
    NamesApart(e.id, e.id);
    var t := Next(s, e);
    assert e.id !in s.fs.view && e.id !in s.fs.disk && e.id !in s.records;
    assert e.id !in s.uploads;
    hide TempName, EndsWith, Inv;
    OwnStep(s, t, e.id);
  }

  lemma WriteInv(s: System, e: Event)
    requires Inv(s) && Enabled(s, e) && e.WriteSome?
    ensures Inv(Next(s, e))
  {
    UploadFacts(s, e.id);
    hide TempName, EndsWith, Inv;
    var t, data, part := Next(s, e), s.uploads[e.id].data, s.fs.view[TempName(e.id)].data;
    MorePrefix(part, data, e.n);
    OwnStep(s, t, e.id);
  }

  lemma MorePrefix(part: Text, data: Text, n: nat)
    requires part <= data && |part| + n <= |data|
    ensures part + data[|part|..|part| + n] <= data
  {
  }

  lemma FlushInv(s: System, e: Event)
    requires Inv(s) && Enabled(s, e) && e.Flush?
    ensures Inv(Next(s, e))
  {
    UploadFacts(s, e.id);
    hide TempName, EndsWith, Inv;
    var t := Next(s, e);
    assert t.uploads - {e.id} == s.uploads - {e.id};
    OwnStep(s, t, e.id);
  }

  lemma RenameInv(s: System, e: Event)
    requires Inv(s) && Enabled(s, e) && e.RenameIn?
    ensures Inv(Next(s, e))
  {
    UploadFacts(s, e.id);
    hide TempName, EndsWith, Inv;
    var t := Next(s, e);
    assert t.uploads - {e.id} == s.uploads - {e.id};
    OwnStep(s, t, e.id);
  }

  lemma RemoveInv(s: System, e: Event)
    requires Inv(s) && Enabled(s, e) && (e.RemoveOld? || e.Abort?)
    ensures Inv(Next(s, e))
  {
    UploadFacts(s, e.id);
    hide TempName, EndsWith, Inv, CompleteOrAbsent;
    var t := Next(s, e);
    assert t.uploads - {e.id} == s.uploads - {e.id};
    OwnStep(s, t, e.id);
  }

  lemma SaveInv(s: System, id: Name)
    requires Inv(s) && Enabled(s, Save(id))
    ensures Inv(Next(s, Save(id)))
  {
    hide TempName, EndsWith;
  }

  lemma FlushDirInv(s: System, e: Event)
    requires Inv(s) && Enabled(s, e) && e.FlushDir?
    ensures Inv(Next(s, e))
  {
    hide TempName, EndsWith;
  }

  lemma BackgroundInv(s: System, e: Event)
    requires Inv(s) && e.Background?
    ensures Inv(Next(s, e))
  {
    hide TempName, EndsWith;
  }

  lemma CrashInv(s: System)
    requires Inv(s)
    ensures Inv(Next(s, CrashRestart))
  {
    hide TempName, EndsWith;
  }

  lemma SweepInv(s: System, e: Event)
    requires Inv(s) && e.Sweep?
    ensures Inv(Next(s, e))
  {
    AllApart(s.used);
    hide TempName, EndsWith;
    var t := Next(s, e);
    forall j | j in s.used ensures j !in Orphans(s.fs) {
      assert Apart(j, j);
    }
  }

  lemma StepInv(s: System, e: Event)
    requires Inv(s)
    ensures Inv(Step(s, e))
  {
    hide Inv, Next;
    if Enabled(s, e) {
      hide Enabled;
      match e
      case Begin(_, _) => BeginInv(s, e);
      case WriteSome(_, _) => WriteInv(s, e);
      case Flush(_) => FlushInv(s, e);
      case RemoveOld(_) => RemoveInv(s, e);
      case RenameIn(_) => RenameInv(s, e);
      case FlushDir(_, _, _) => FlushDirInv(s, e);
      case Save(id) => SaveInv(s, id);
      case Abort(_, _, _) => RemoveInv(s, e);
      case Background(_, _) => BackgroundInv(s, e);
      case CrashRestart => CrashInv(s);
      case Sweep(_) => SweepInv(s, e);
    }
  }

  lemma {:induction false} RunInv(es: seq<Event>)
    ensures Inv(Run(START, es))
  {
    if es != [] {
      RunInv(es[..|es| - 1]);
      StepInv(Run(START, es[..|es| - 1]), es[|es| - 1]);
    }
  }

  // ---------------------------------------------------------------------------------------
  // What survives
  // ---------------------------------------------------------------------------------------

  /** In every reachable state a recorded blob is complete or absent, never partial: in the
      running system, on disk, and so after any crash. */
  lemma RecordsNeverPartial(es: seq<Event>, id: Name)
    requires id in Run(START, es).records
    ensures CompleteOrAbsent(Run(START, es).fs, id, Run(START, es).records[id])
  {
    hide Run, CompleteOrAbsent;
    RunInv(es);
  }

  /** The record's blob is complete where processes see it, and its name is on disk. */
  ghost predicate Secured(s: System, id: Name)
  {
    && id in s.records && id in s.fs.view && id in s.fs.disk
    && s.fs.view[id] == File(s.records[id], true)
  }

  /** A step of an upload in flight touches no name but its own two. */
  lemma UploadStepElsewhere(s: System, e: Event, n: Name)
    requires Enabled(s, e) && (e.Begin? || e.WriteSome? || e.Flush? || e.RemoveOld? || e.RenameIn? || e.Abort?)
    requires n != e.id && n != TempName(e.id)
    ensures var t := Next(s, e);
            && t.records == s.records && t.fs.disk == s.fs.disk
            && (n in s.fs.view ==> n in t.fs.view && t.fs.view[n] == s.fs.view[n])
  {
    hide TempName, EndsWith;
  }

  /** So it touches no recorded blob. */
  lemma UploadStepSecured(s: System, e: Event, id: Name)
    requires Inv(s) && Secured(s, id) && Enabled(s, e)
    requires e.Begin? || e.WriteSome? || e.Flush? || e.RemoveOld? || e.RenameIn? || e.Abort?
    ensures Secured(Next(s, e), id) && Next(s, e).records == s.records
  {
    assert EndsWith(id, BIN);
    NamesApart(e.id, id);
    OtherThanRecorded(s, e, id);
    hide TempName, EndsWith, Inv, Enabled, Next;
    UploadStepElsewhere(s, e, id);
  }

  lemma OtherThanRecorded(s: System, e: Event, id: Name)
    requires Inv(s) && id in s.records && Enabled(s, e)
    requires e.Begin? || e.WriteSome? || e.Flush? || e.RemoveOld? || e.RenameIn? || e.Abort?
    ensures e.id != id
  {
    hide TempName, EndsWith, UploadOk, CompleteOrAbsent;
  }

  lemma FlushDirSecured(s: System, e: Event, id: Name)
    requires Inv(s) && Secured(s, id) && Enabled(s, e) && (e.FlushDir? || e.Save?)
    ensures Secured(Next(s, e), id) && Next(s, e).records[id] == s.records[id]
  {
    hide TempName, EndsWith, UploadOk;
  }

  lemma BackgroundSecured(s: System, e: Event, id: Name)
    requires Inv(s) && Secured(s, id) && e.Background?
    ensures Secured(Next(s, e), id) && Next(s, e).records == s.records
  {
    hide TempName, EndsWith, UploadOk;
  }

  lemma CrashSecured(s: System, id: Name)
    requires Inv(s) && Secured(s, id)
    ensures Secured(Next(s, CrashRestart), id) && Next(s, CrashRestart).records == s.records
  {
    hide TempName, EndsWith, UploadOk;
    assert s.fs.disk[id] == s.records[id];
  }

  lemma SweepSecured(s: System, e: Event, id: Name)
    requires Inv(s) && Secured(s, id) && e.Sweep?
    ensures Secured(Next(s, e), id) && Next(s, e).records == s.records
  {
    NamesApart(id, id);
    hide TempName, EndsWith, UploadOk;
    assert id !in Orphans(s.fs);
  }

  lemma StepKeepsSecured(s: System, e: Event, id: Name)
    requires Inv(s) && Secured(s, id)
    ensures Secured(Step(s, e), id) && Step(s, e).records[id] == s.records[id]
  {
    hide Inv, Enabled, Next;
    if Enabled(s, e) {
      match e
      case FlushDir(_, _, _) => FlushDirSecured(s, e, id);
      case Save(_) => FlushDirSecured(s, e, id);
      case Background(_, _) => BackgroundSecured(s, e, id);
      case CrashRestart => CrashSecured(s, id);
      case Sweep(_) => SweepSecured(s, e, id);
      case _ => UploadStepSecured(s, e, id);
    }
  }

  lemma {:induction false} SecuredForever(s: System, es: seq<Event>, id: Name)
    requires Inv(s) && Secured(s, id)
    ensures Inv(Run(s, es)) && Secured(Run(s, es), id) && Run(s, es).records[id] == s.records[id]
  {
    if es != [] {
      hide Inv, Secured, Step;
      var n := |es| - 1;
      SecuredForever(s, es[..n], id);
      StepInv(Run(s, es[..n]), es[n]);
      StepKeepsSecured(Run(s, es[..n]), es[n], id);
      SecuredRecorded(s, id);
      SecuredRecorded(Run(s, es[..n]), id);
    }
  }

  lemma SecuredRecorded(s: System, id: Name)
    requires Secured(s, id)
    ensures id in s.records && id in s.fs.view
  {
  }

  /** A record's blob stays readable, complete, in every continuation. */
  ghost predicate Survives(s: System, id: Name)
    requires id in s.records
  {
    forall es :: Readable(Run(s, es), id, s.records[id])
  }

  predicate Readable(s: System, id: Name, data: Text)
  {
    id in s.fs.view && s.fs.view[id].data == data
  }

  /** Exactly when it does: the name is there and has been written to disk. */
  lemma SurvivesIffOnDisk(s: System, id: Name)
    requires Inv(s) && id in s.records
    ensures Survives(s, id) <==> id in s.fs.view && id in s.fs.disk
  {
    hide Inv;
    if id in s.fs.view && id in s.fs.disk {
      SecuredWhen(s, id);
      forall es ensures Readable(Run(s, es), id, s.records[id]) {
        SecuredForever(s, es, id);
      }
    }
    assert Run(s, []) == s;
    assert [CrashRestart][..0] == [];
    assert Run(s, [CrashRestart]) == Step(s, CrashRestart);
    assert Readable(Run(s, []), id, s.records[id]) ==> id in s.fs.view;
    assert Readable(Run(s, [CrashRestart]), id, s.records[id]) ==> id in s.fs.disk;
  }

  lemma SecuredWhen(s: System, id: Name)
    requires Inv(s) && id in s.records && id in s.fs.view && id in s.fs.disk
    ensures Secured(s, id)
  {
  }

  // ---------------------------------------------------------------------------------------
  // Every saved record has its bytes, when its own directory flush worked
  // ---------------------------------------------------------------------------------------

  /** An upload ready for its record is in the view and on disk, and so is a recorded one. */
  ghost predicate Anchored(s: System, id: Name)
  {
    && (id in s.uploads && s.uploads[id].phase.DirFlushed? ==> id in s.fs.view && id in s.fs.disk)
    && (id in s.records ==> Secured(s, id))
  }

  /** A step of another upload leaves this one's blob alone. */
  lemma OthersAnchored(s: System, e: Event, id: Name)
    requires Inv(s) && Anchored(s, id) && Enabled(s, e) && EndsWith(id, BIN)
    requires e.Begin? || e.WriteSome? || e.Flush? || e.RemoveOld? || e.RenameIn? || e.Abort?
    requires e.id != id
    ensures Anchored(Next(s, e), id)
  {
    NamesApart(e.id, id);
    UploadStepElsewhere(s, e, id);
    OthersUploads(s, e, id);
    hide TempName, EndsWith, Inv, Next, Enabled;
  }

  lemma OthersUploads(s: System, e: Event, id: Name)
    requires Enabled(s, e) && (e.Begin? || e.WriteSome? || e.Flush? || e.RemoveOld? || e.RenameIn? || e.Abort?) && e.id != id
    ensures id in Next(s, e).uploads <==> id in s.uploads
    ensures id in s.uploads ==> Next(s, e).uploads[id] == s.uploads[id]
  {
    hide TempName, EndsWith;
  }

  /** Its own steps up to the rename leave it unready, and its record unwritten. */
  lemma OwnAnchored(s: System, e: Event)
    requires Inv(s) && Enabled(s, e)
    requires e.Begin? || e.WriteSome? || e.Flush? || e.RemoveOld? || e.RenameIn? || e.Abort?
    ensures e.id !in Next(s, e).records
    ensures e.id in Next(s, e).uploads ==> !Next(s, e).uploads[e.id].phase.DirFlushed?
  {
    hide TempName, EndsWith, UploadOk, CompleteOrAbsent;
  }

  lemma FlushDirAnchored(s: System, e: Event, id: Name)
    requires Inv(s) && Anchored(s, id) && Enabled(s, e) && e.FlushDir? && (e.id == id ==> e.ok)
    ensures Anchored(Next(s, e), id)
  {
    hide TempName, EndsWith;
  }

  lemma SaveAnchored(s: System, e: Event, id: Name)
    requires Inv(s) && Anchored(s, id) && Enabled(s, e) && e.Save?
    ensures Anchored(Next(s, e), id)
  {
    hide TempName, EndsWith;
  }

  /** A write-back, a crash and a sweep. */
  lemma MachineAnchored(s: System, e: Event, id: Name)
    requires Inv(s) && Anchored(s, id) && (e.Background? || e.CrashRestart? || e.Sweep?)
    ensures Anchored(Next(s, e), id)
  {
    if EndsWith(id, BIN) {
      NamesApart(id, id);
    }
    hide TempName, EndsWith;
    if id in s.records {
      hide Next;
      match e
      case Background(_, _) => BackgroundSecured(s, e, id);
      case CrashRestart => CrashSecured(s, id);
      case Sweep(_) => SweepSecured(s, e, id);
    }
    MachineUploads(s, e, id);
  }

  lemma MachineUploads(s: System, e: Event, id: Name)
    requires Inv(s) && (e.Background? || e.CrashRestart? || e.Sweep?)
    ensures Next(s, e).records == s.records
    ensures id in Next(s, e).uploads ==>
              && id in s.uploads && Next(s, e).uploads[id] == s.uploads[id]
              && (id in s.fs.view ==> id in Next(s, e).fs.view)
              && (id in s.fs.view && id in s.fs.disk ==> id in Next(s, e).fs.disk)
  {
    if id in s.uploads {
      UploadFacts(s, id);
      NamesApart(id, id);
    }
    hide Inv, TempName, EndsWith;
    match e
    case Background(n, bytes) =>
      hide Next;
      BackgroundDisk(s, n, bytes);
    case CrashRestart =>
    case Sweep(stuck) =>
      hide Next;
      SweepView(s, stuck);
  }

  lemma BackgroundDisk(s: System, n: Name, bytes: Text)
    ensures var t := Next(s, Background(n, bytes));
            && t.records == s.records && t.uploads == s.uploads && t.fs.view == s.fs.view
            && forall x :: x in s.fs.view && x in s.fs.disk ==> x in t.fs.disk
  {
  }

  lemma SweepView(s: System, stuck: set<Name>)
    ensures var t := Next(s, Sweep(stuck));
            && t.records == s.records && t.uploads == s.uploads && t.fs.disk == s.fs.disk
            && forall n :: n in s.fs.view && !EndsWith(n, PART) ==> n in t.fs.view
  {
    hide EndsWith;
  }

  lemma StepAnchored(s: System, e: Event, id: Name)
    requires Inv(s) && Anchored(s, id) && (e.FlushDir? && e.id == id ==> e.ok)
    ensures Anchored(Step(s, e), id)
  {
    if Enabled(s, e) {
      OwnedName(s, id);
      hide Inv, Enabled, Next, EndsWith, Secured;
      match e
      case FlushDir(_, _, _) => FlushDirAnchored(s, e, id);
      case Save(_) => SaveAnchored(s, e, id);
      case Background(_, _) => MachineAnchored(s, e, id);
      case CrashRestart => MachineAnchored(s, e, id);
      case Sweep(_) => MachineAnchored(s, e, id);
      case _ =>
        if e.id == id {
          OwnAnchored(s, e);
        } else if id in s.uploads || id in s.records {
          OthersAnchored(s, e, id);
        } else {
          UnknownStays(s, e, id);
        }
    }
  }

  lemma OwnedName(s: System, id: Name)
    requires Inv(s)
    ensures id in s.uploads || id in s.records ==> EndsWith(id, BIN)
  {
    hide EndsWith, UploadOk, CompleteOrAbsent;
  }

  lemma UnknownStays(s: System, e: Event, id: Name)
    requires Enabled(s, e) && (e.Begin? || e.WriteSome? || e.Flush? || e.RemoveOld? || e.RenameIn? || e.Abort?) && e.id != id
    requires id !in s.uploads && id !in s.records
    ensures id !in Next(s, e).uploads && id !in Next(s, e).records
  {
    hide TempName, EndsWith;
  }

  lemma {:induction false} RunAnchored(es: seq<Event>, id: Name)
    requires forall e :: e in es && e.FlushDir? && e.id == id ==> e.ok
    ensures Anchored(Run(START, es), id)
  {
    hide Step;
    if es != [] {
      var n := |es| - 1;
      RunAnchored(es[..n], id);
      RunInv(es[..n]);
      hide Anchored, Inv;
      assert es[n] in es;
      StepAnchored(Run(START, es[..n]), es[n], id);
    }
  }

  /** Crash consistency: over every interleaving of uploads, write-backs, crashes, restarts and
      sweeps, a saved record whose own directory flush worked has its complete bytes at its
      storage id, on disk too, and keeps them whatever comes next. */
  lemma SavedIsSecured(es: seq<Event>, id: Name)
    requires id in Run(START, es).records
    requires forall e :: e in es && e.FlushDir? && e.id == id ==> e.ok
    ensures var s := Run(START, es);
            && Secured(s, id) && Readable(s, id, s.records[id]) && s.fs.disk[id] == s.records[id]
            && Survives(s, id)
  {
    RunInv(es);
    RunAnchored(es, id);
    RecordsNeverPartial(es, id);
    SurvivesIffOnDisk(Run(START, es), id);
    hide Run, Inv, Survives;
  }

  /** So when no directory flush fails, every saved record has its bytes, in every reachable
      state and after every crash. */
  lemma RecordsAlwaysThere(es: seq<Event>)
    requires forall e :: e in es && e.FlushDir? ==> e.ok
    ensures var s := Run(START, es);
            forall id :: id in s.records ==> Secured(s, id) && Readable(s, id, s.records[id]) && Survives(s, id)
  {
    hide Run, Secured, Survives;
    forall id | id in Run(START, es).records
      ensures Secured(Run(START, es), id) && Readable(Run(START, es), id, Run(START, es).records[id]) && Survives(Run(START, es), id)
    {
      SavedIsSecured(es, id);
    }
  }

  /** The bytes of a record, or of an upload in flight, are those its upload began with. */
  lemma {:induction false} RecordedIsBegun(es: seq<Event>, id: Name)
    ensures var s := Run(START, es);
            && (id in s.records ==> Begin(id, s.records[id]) in es)
            && (id in s.uploads ==> Begin(id, s.uploads[id].data) in es)
  {
    if es != [] {
      var n := |es| - 1;
      RecordedIsBegun(es[..n], id);
      StepKeepsData(Run(START, es[..n]), es[n], id);
      hide Step;
      assert forall e :: e in es[..n] ==> e in es;
      assert es[n] in es;
    }
  }

  lemma StepKeepsData(s: System, e: Event, id: Name)
    ensures var t := Step(s, e);
            && (id in t.uploads ==> e == Begin(id, t.uploads[id].data) || (id in s.uploads && s.uploads[id].data == t.uploads[id].data))
            && (id in t.records ==> (id in s.records && t.records[id] == s.records[id]) || (id in s.uploads && s.uploads[id].data == t.records[id]))
  {
    hide TempName, EndsWith;
  }

  // ---------------------------------------------------------------------------------------
  // The directory flush decides
  // ---------------------------------------------------------------------------------------

  /** In every continuation that saves the record, the record has its bytes. */
  ghost predicate SafeToSave(s: System, id: Name)
  {
    forall es :: Kept(Run(s, es), id)
  }

  ghost predicate Kept(s: System, id: Name)
  {
    id in s.records ==> Readable(s, id, s.records[id])
  }

  /** Past its directory flush an upload flushes no more. */
  ghost predicate PastFlush(s: System, id: Name)
  {
    id in s.used && (id in s.uploads ==> s.uploads[id].phase.DirFlushed?)
  }

  lemma StepPastFlush(s: System, e: Event, id: Name)
    requires PastFlush(s, id)
    ensures PastFlush(Step(s, e), id) && (e.FlushDir? && e.id == id ==> Step(s, e) == s)
  {
    hide TempName, EndsWith;
  }

  lemma {:induction false} AnchoredForever(s: System, es: seq<Event>, id: Name)
    requires Inv(s) && Anchored(s, id) && PastFlush(s, id)
    ensures Inv(Run(s, es)) && Anchored(Run(s, es), id) && PastFlush(Run(s, es), id)
  {
    hide Inv, Anchored, PastFlush, Step;
    if es != [] {
      var n := |es| - 1;
      AnchoredForever(s, es[..n], id);
      var before := Run(s, es[..n]);
      StepInv(before, es[n]);
      StepPastFlush(before, es[n], id);
      if !(es[n].FlushDir? && es[n].id == id) {
        StepAnchored(before, es[n], id);
      }
    }
  }

  /** The id is taken, and any upload or record of it has these bytes. */
  ghost predicate Carries(s: System, id: Name, data: Text)
  {
    id in s.used && (id in s.uploads ==> s.uploads[id].data == data) && (id in s.records ==> s.records[id] == data)
  }

  lemma {:induction false} CarriesForever(s: System, es: seq<Event>, id: Name, data: Text)
    requires Carries(s, id, data)
    ensures Carries(Run(s, es), id, data)
  {
    if es != [] {
      var n := |es| - 1;
      CarriesForever(s, es[..n], id, data);
      StepCarries(Run(s, es[..n]), es[n], id, data);
    }
  }

  lemma StepCarries(s: System, e: Event, id: Name, data: Text)
    requires Carries(s, id, data)
    ensures Carries(Step(s, e), id, data)
  {
    hide TempName, EndsWith;
  }

  /** A record saved at any time after a directory flush that worked, whatever else happens in
      between, has the bytes of its upload and keeps them through every later crash. */
  lemma SavedAfterFlushSurvives(s: System, id: Name, junk: map<Name, Text>, es: seq<Event>)
    requires Inv(s) && Enabled(s, FlushDir(id, true, junk))
    requires id in Run(Step(s, FlushDir(id, true, junk)), es).records
    ensures var u := Run(Step(s, FlushDir(id, true, junk)), es);
            u.records[id] == s.uploads[id].data && Readable(u, id, s.uploads[id].data) && Survives(u, id)
  {
    var t := Step(s, FlushDir(id, true, junk));
    UploadFacts(s, id);
    StepInv(s, FlushDir(id, true, junk));
    assert Anchored(t, id) && PastFlush(t, id) && Carries(t, id, s.uploads[id].data);
    hide Inv, Step, Run, Survives;
    AnchoredForever(t, es, id);
    CarriesForever(t, es, id, s.uploads[id].data);
    SurvivesIffOnDisk(Run(t, es), id);
  }

  /** After the directory flush, every continuation whatever that saves the record keeps its bytes
      readable if and only if the flush worked or the entry had been written back before it. */
  lemma FlushDecides(s: System, id: Name, ok: bool, junk: map<Name, Text>)
    requires Inv(s) && Enabled(s, FlushDir(id, ok, junk))
    ensures SafeToSave(Step(s, FlushDir(id, ok, junk)), id) <==> ok || id in s.fs.disk
  {
    var t := Step(s, FlushDir(id, ok, junk));
    UploadFacts(s, id);
    StepInv(s, FlushDir(id, ok, junk));
    if ok || id in s.fs.disk {
      assert Anchored(t, id) && PastFlush(t, id);
      hide Inv, Step, Run;
      forall es ensures Kept(Run(t, es), id) {
        AnchoredForever(t, es, id);
      }
    } else {
      FailedFlushLosesBlob(s, id, junk);
      RunTwo(t, Save(id), CrashRestart);
      hide Run, Step, Inv;
      assert !Kept(Run(t, [Save(id), CrashRestart]), id);
    }
  }

  lemma RunTwo(s: System, a: Event, b: Event)
    ensures Run(s, [a, b]) == Step(Step(s, a), b)
  {
    hide Step;
    assert [a, b][..1] == [a] && [a][..0] == [];
    assert Run(s, [a]) == Step(s, a);
  }

  /** The source ignores a directory flush that fails. The save then goes through all the same,
      and unless the entry had reached the disk by itself, a crash leaves a record whose blob
      is gone. */
  lemma FailedFlushLosesBlob(s: System, id: Name, junk: map<Name, Text>)
    requires Inv(s) && Enabled(s, FlushDir(id, false, junk)) && id !in s.fs.disk
    ensures var u := Step(Step(Step(s, FlushDir(id, false, junk)), Save(id)), CrashRestart);
            id in u.records && u.records[id] == s.uploads[id].data && id !in u.fs.view
  {
    hide TempName, EndsWith, UploadOk;
    var t := Step(s, FlushDir(id, false, junk));
    assert t.fs == s.fs;
    var u := Step(t, Save(id));
    assert id in u.records && u.fs == s.fs;
  }

  /** The boot sweep leaves exactly the names on disk that do not end in `.part`, so a blob that
      was renamed and reached the disk before the crash stays, complete, without any record. */
  lemma UnrecordedBlobRemains(s: System, id: Name)
    requires Inv(s) && id in s.uploads && id in s.fs.disk
    ensures var t := Step(Step(s, CrashRestart), Sweep({}));
            && id !in t.records && id !in t.uploads && Readable(t, id, s.uploads[id].data)
            && forall n :: n in t.fs.view <==> n in s.fs.disk && (n in s.fs.subdirs || !EndsWith(n, PART))
  {
    UploadFacts(s, id);
    NamesApart(id, id);
    RestartLeaves(s);
    hide TempName, EndsWith, Inv, Orphans, Step;
  }

  lemma RestartLeaves(s: System)
    ensures var t := Step(Step(s, CrashRestart), Sweep({}));
            && t.records == s.records && t.uploads == map[]
            && (forall n :: n in t.fs.view <==> n in s.fs.disk && (n in s.fs.subdirs || !EndsWith(n, PART)))
            && (forall n :: n in t.fs.view ==> t.fs.view[n].data == s.fs.disk[n])
  {
    hide EndsWith, TempName;
  }

  /** A rollback whose removals succeed leaves neither the temporary file nor the blob. It flushes
      no directory: after a crash each is back if and only if its name had reached the disk. */
  lemma AbortLeavesNothing(s: System, id: Name)
    requires id in s.uploads
    ensures var t := Step(s, Abort(id, true, true));
            && id !in t.uploads && id !in t.fs.view && TempName(id) !in t.fs.view && t.records == s.records
            && (id in Step(t, CrashRestart).fs.view <==> id in s.fs.disk)
            && (TempName(id) in Step(t, CrashRestart).fs.view <==> TempName(id) in s.fs.disk)
  {
    hide TempName;
  }
}
