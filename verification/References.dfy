/**
 Which objects are needed, and what becomes of those that are not: a reference can only be copied
 from a reference, and an object that loses its last one is already queued for purging.
 */
module References {
  import opened Base
  import opened ObjectStore
  import opened Catalog
  import opened Transactions
  import opened Runs
  import opened Integrity
  import Completion
  import Safety
  import Versions

  predicate JobActive(o: ObjectRow) {
    o.purge in {JobPending, JobRunning, JobFailed}
  }

  /** Every unpurged object without a reference has a purge job that is pending, running or failed. */
  ghost predicate NoLeak(db: Db) {
    forall o {:trigger Referenced(db, o)} :: 0 <= o < |db.objects| ==>
      db.objects[o].state == PURGED || Referenced(db, o) || JobActive(db.objects[o])
  }

  /** No object gains its first reference, and one that loses its last is purged or queued. */
  ghost predicate RefStep(a: Db, b: Db) {
    && |a.objects| <= |b.objects|
    && (forall o {:trigger b.objects[o]} :: 0 <= o < |a.objects| ==>
          && (JobActive(a.objects[o]) ==> JobActive(b.objects[o]))
          && (a.objects[o].state == PURGED ==> b.objects[o].state == PURGED))
    && (forall o {:trigger Referenced(b, o)} :: 0 <= o < |a.objects| ==>
          && (Referenced(b, o) ==> Referenced(a, o))
          && (Referenced(a, o) && !Referenced(b, o) ==> JobActive(b.objects[o]) || b.objects[o].state == PURGED))
    && (forall o {:trigger Referenced(b, o)} :: |a.objects| <= o < |b.objects| ==>
          Referenced(b, o) || JobActive(b.objects[o]) || b.objects[o].state == PURGED)
  }

  lemma RefStepKeepsNoLeak(a: Db, b: Db)
    requires NoLeak(a) && RefStep(a, b)
    ensures NoLeak(b)
  {
    forall o | 0 <= o < |b.objects|
      ensures b.objects[o].state == PURGED || Referenced(b, o) || JobActive(b.objects[o])
    {
      if o < |a.objects| {
        assert a.objects[o].state == PURGED || Referenced(a, o) || JobActive(a.objects[o]);
      }
    }
  }

  lemma RefStepTransitive(a: Db, b: Db, c: Db)
    requires RefStep(a, b) && RefStep(b, c)
    ensures RefStep(a, c)
  {
    forall o | 0 <= o < |a.objects|
      ensures JobActive(a.objects[o]) ==> JobActive(c.objects[o])
      ensures a.objects[o].state == PURGED ==> c.objects[o].state == PURGED
      ensures Referenced(c, o) ==> Referenced(a, o)
      ensures Referenced(a, o) && !Referenced(c, o) ==> JobActive(c.objects[o]) || c.objects[o].state == PURGED
    {
      assert JobActive(a.objects[o]) ==> JobActive(b.objects[o]);
      assert Referenced(b, o) ==> Referenced(a, o);
      assert b.objects[o].state == PURGED ==> c.objects[o].state == PURGED;
    }
    forall o | |a.objects| <= o < |c.objects|
      ensures Referenced(c, o) || JobActive(c.objects[o]) || c.objects[o].state == PURGED
    {
      if o < |b.objects| {
        assert Referenced(b, o) || JobActive(b.objects[o]) || b.objects[o].state == PURGED;
      }
    }
  }

  // The three ways a step can move references.

  predicate Covered(o: ObjectRow) {
    JobActive(o) || o.state == PURGED
  }

  predicate ObjectMoves(a: ObjectRow, b: ObjectRow) {
    (JobActive(a) ==> JobActive(b)) && (a.state == PURGED ==> b.state == PURGED)
  }

  lemma VersionReferences(db: Db, v: VersionRow)
    requires v in db.versions
    ensures Referenced(db, v.obj)
  {
    var i :| 0 <= i < |db.versions| && db.versions[i] == v;
    assert db.versions[i].obj == v.obj;
  }

  /** Files change state but not content; versions only go. What loses a reference is covered. */
  lemma StatesMove(a: Db, b: Db)
    requires |a.objects| == |b.objects| && |a.files| == |b.files|
    requires forall o :: 0 <= o < |a.objects| ==> ObjectMoves(a.objects[o], b.objects[o])
    requires forall f :: 0 <= f < |a.files| ==>
      && b.files[f].obj == a.files[f].obj && a.files[f].obj < |a.objects|
      && (Live(b.files[f]) ==> Live(a.files[f]))
      && (Live(a.files[f]) && !Live(b.files[f]) ==> Covered(b.objects[a.files[f].obj]))
    requires forall v :: v in b.versions ==> v in a.versions
    requires forall v :: v in a.versions && v !in b.versions && v.obj < |a.objects| ==> Covered(b.objects[v.obj])
    ensures RefStep(a, b)
  {
    forall v | v in b.versions
      ensures Referenced(b, v.obj)
    {
      VersionReferences(b, v);
    }
    forall o | 0 <= o < |a.objects|
      ensures Referenced(b, o) ==> Referenced(a, o)
      ensures Referenced(a, o) && !Referenced(b, o) ==> Covered(b.objects[o])
    {
      if Referenced(b, o) {
        if f :| 0 <= f < |b.files| && b.files[f].obj == o && Live(b.files[f]) {
          assert a.files[f].obj == o && Live(a.files[f]);
        } else {
          var v :| 0 <= v < |b.versions| && b.versions[v].obj == o;
          assert b.versions[v] in a.versions;
          var w :| 0 <= w < |a.versions| && a.versions[w] == b.versions[v];
          assert a.versions[w].obj == o;
        }
      } else if Referenced(a, o) {
        if f :| 0 <= f < |a.files| && a.files[f].obj == o && Live(a.files[f]) {
          assert b.files[f].obj == o;
        } else {
          var v :| 0 <= v < |a.versions| && a.versions[v].obj == o;
          assert a.versions[v] in a.versions;
        }
      }
    }
  }

  /** A new file row points at a fresh object or at one that is referenced already. */
  lemma FileAppears(a: Db, b: Db, row: FileRow)
    requires b.files == a.files + [row] && b.versions == a.versions
    requires a.objects <= b.objects && Live(row)
    requires row.obj >= |a.objects| || Referenced(a, row.obj)
    requires |b.objects| == |a.objects| || (|b.objects| == |a.objects| + 1 && row.obj == |a.objects|)
    ensures RefStep(a, b)
  {
    forall o | 0 <= o < |b.objects|
      ensures o < |a.objects| ==> (Referenced(b, o) <==> Referenced(a, o))
      ensures o >= |a.objects| ==> Referenced(b, o)
    {
      if f :| 0 <= f < |b.files| && b.files[f].obj == o && Live(b.files[f]) {
        if f < |a.files| {
          assert a.files[f].obj == o && Live(a.files[f]);
        }
      }
      if f :| 0 <= f < |a.files| && a.files[f].obj == o && Live(a.files[f]) {
        assert b.files[f].obj == o && Live(b.files[f]);
      }
      if o >= |a.objects| {
        assert b.files[|a.files|].obj == o;
      }
    }
  }

  /** A file switches content: the old object stays referenced by the version, the new one was referenced. */
  lemma ContentSwitches(a: Db, f: nat, content: Content, id: nat, now: int)
    requires f < |a.files| && a.files[f].state == AVAILABLE && Referenced(a, content.obj)
    ensures RefStep(a, Switched(a, f, content, id, now))
  {
    var b := Switched(a, f, content, id, now);
    var n := |a.versions|;
    forall o | 0 <= o < |a.objects|
      ensures Referenced(b, o) <==> Referenced(a, o)
    {
      if g :| 0 <= g < |b.files| && b.files[g].obj == o && Live(b.files[g]) {
        if g != f {
          assert a.files[g].obj == o && Live(a.files[g]);
        }
      }
      if g :| 0 <= g < |a.files| && a.files[g].obj == o && Live(a.files[g]) {
        if g == f {
          assert b.versions[n].obj == o;
        } else {
          assert b.files[g].obj == o && Live(b.files[g]);
        }
      }
      if v :| 0 <= v < |a.versions| && a.versions[v].obj == o {
        assert b.versions[v].obj == o;
      }
      if v :| 0 <= v < |b.versions| && b.versions[v].obj == o {
        if v < n {
          assert a.versions[v].obj == o;
        } else {
          assert a.files[f].obj == o && Live(a.files[f]);
        }
      }
    }
  }

  // Every step.

  lemma InvRows(cfg: Config, s: Sys)
    requires Inv(cfg, s)
    ensures forall f :: 0 <= f < |s.db.files| ==> s.db.files[f].obj < |s.db.objects|
    ensures forall v :: v in s.db.versions ==> v.obj < |s.db.objects|
  {
    forall f | 0 <= f < |s.db.files|
      ensures s.db.files[f].obj < |s.db.objects|
    {
      assert FileOk(s.db.uploads, f, s.db.files[f]);
    }
    forall v | v in s.db.versions
      ensures v.obj < |s.db.objects|
    {
      var i :| 0 <= i < |s.db.versions| && s.db.versions[i] == v;
      assert VersionOk(s.db.uploads, s.db.files, s.db.versions[i]);
    }
  }

  lemma CreateRefs(cfg: Config, s: Sys, owner: nat, size: nat, mime: string, allowed: bool)
    requires Inv(cfg, s) && CreateTx(cfg, s, owner, size, mime, allowed).Some?
    ensures RefStep(s.db, CreateTx(cfg, s, owner, size, mime, allowed).value)
  {
    FileAppears(s.db, CreateTx(cfg, s, owner, size, mime, allowed).value,
                FileRow(owner, |s.db.objects|, PROCESSING, 1, mime));
  }

  lemma EndRefs(cfg: Config, s: Sys, u: nat, state: UploadState)
    requires Inv(cfg, s) && u < |s.db.uploads| && RowsExist(s.db, s.db.uploads[u])
    requires s.db.uploads[u].state != COMPLETE
    ensures RefStep(s.db, EndedDb(s.db, u, state))
  {
    InvRows(cfg, s);
    assert UploadRowsOk(s.db.objects, s.db.files, u, s.db.uploads[u]);
    StatesMove(s.db, EndedDb(s.db, u, state));
  }

  lemma CompletedRefs(cfg: Config, s: Sys, u: nat, row: UploadRow, size: nat, v: Verdict)
    requires Inv(cfg, s) && u < |s.db.uploads| && RowsExist(s.db, row)
    requires s.db.uploads[u].state in {UPLOADING, FAILED}
    requires row.obj == s.db.uploads[u].obj && row.file == s.db.uploads[u].file
    ensures RefStep(s.db, CompletedDb(s.db, u, row, size, v))
  {
    InvRows(cfg, s);
    assert UploadRowsOk(s.db.objects, s.db.files, u, s.db.uploads[u]);
    StatesMove(s.db, CompletedDb(s.db, u, row, size, v));
  }

  lemma FinalizeRefs(cfg: Config, s: Sys, u: nat, owner: nat, puts: seq<Put>, crash: bool, v: Verdict)
    requires Inv(cfg, s)
    ensures RefStep(s.db, FinalizeTx(cfg, s, u, owner, puts, crash, v).0.db)
  {
    if FinalizeTx(cfg, s, u, owner, puts, crash, v).0.db == s.db {
      SameRefs(cfg, s);
    } else {
      var row, size := Completion.FinalizeIsCompletion(cfg, s, u, owner, puts, crash, v);
      assert UploadOk(cfg, s.db.uploads[u]);
      CompletedRefs(cfg, s, u, row, size, v);
    }
  }

  lemma BulkItemRefs(cfg: Config, s: Sys, owner: nat, f: nat, action: BulkAction)
    requires Inv(cfg, s) && BulkItem(cfg, s.db, owner, f, action).Some?
    ensures RefStep(s.db, BulkItem(cfg, s.db, owner, f, action).value)
  {
    InvRows(cfg, s);
    var db := BulkItem(cfg, s.db, owner, f, action).value;
    if action == Copy {
      var row := FileRow(owner, s.db.files[f].obj, AVAILABLE, 1, s.db.files[f].mime);
      assert Live(s.db.files[f]);
      FileAppears(s.db, db, row);
    } else {
      StatesMove(s.db, db);
    }
  }

  lemma {:induction false} BulkRefs(cfg: Config, s: Sys, owner: nat, ids: seq<nat>, action: BulkAction)
    requires Inv(cfg, s) && BulkTx(cfg, s.db, owner, ids, action).Some?
    ensures RefStep(s.db, BulkTx(cfg, s.db, owner, ids, action).value)
    decreases |ids|
  {
    if |ids| == 0 {
      InvRows(cfg, s);
      StatesMove(s.db, s.db);
    } else {
      var next := s.(db := BulkItem(cfg, s.db, owner, ids[0], action).value);
      BulkItemRefs(cfg, s, owner, ids[0], action);
      BulkItemKeeps(cfg, s, owner, ids[0], action);
      BulkRefs(cfg, next, owner, ids[1..], action);
      RefStepTransitive(s.db, next.db, BulkTx(cfg, next.db, owner, ids[1..], action).value);
    }
  }

  lemma OverrideRefs(cfg: Config, s: Sys, f: nat, state: Option<FileState>, owner: Option<nat>)
    requires Inv(cfg, s) && Assumed(s, Override(f, state, owner))
    requires OverrideTx(cfg, s.db, f, state, owner).Some?
    ensures RefStep(s.db, OverrideTx(cfg, s.db, f, state, owner).value)
  {
    InvRows(cfg, s);
    OverrideStep(cfg, s, f, state, owner);
    OverrideRows(cfg, s.db, f, state, owner);
    OverrideQueues(cfg, s.db, f, state, owner);
    StatesMove(s.db, OverrideTx(cfg, s.db, f, state, owner).value);
  }

  lemma OverrideQueues(cfg: Config, db: Db, f: nat, state: Option<FileState>, owner: Option<nat>)
    requires OverrideTx(cfg, db, f, state, owner).Some?
    ensures var o := db.files[f].obj;
      var a, b := db.objects[o], OverrideTx(cfg, db, f, state, owner).value.objects[o];
      && (JobActive(a) ==> JobActive(b))
      && (state == Some(EXPIRED) ==> JobActive(b))
  {
  }

  lemma PruneRefs(cfg: Config, s: Sys, f: nat, now: int)
    requires Inv(cfg, s) && PruneTx(cfg, s.db, f, now).Some?
    ensures RefStep(s.db, PruneTx(cfg, s.db, f, now).value)
  {
    InvRows(cfg, s);
    var db := PruneTx(cfg, s.db, f, now).value;
    Versions.SurvivorsExact(s.db.versions, s.db.versions, f, RetentionFor(cfg, s.db.files[f], now));
    forall v | v in s.db.versions && v !in db.versions
      ensures Covered(db.objects[v.obj])
    {
      Versions.PruneDropsForAReason(cfg, s.db, f, now, v);
    }
    StatesMove(s.db, db);
  }

  lemma ReplaceRefs(cfg: Config, s: Sys, owner: nat, f: nat, expected: nat, source: Source, visible: bool,
                    id: nat, now: int)
    requires Inv(cfg, s) && ReplaceTx(cfg, s.db, owner, f, expected, source, visible, id, now).Some?
    ensures RefStep(s.db, ReplaceTx(cfg, s.db, owner, f, expected, source, visible, id, now).value)
  {
    var after := ReplaceTx(cfg, s.db, owner, f, expected, source, visible, id, now).value;
    if after == s.db {
      InvRows(cfg, s);
      StatesMove(s.db, s.db);
    } else {
      Versions.ReplaceShape(cfg, s.db, owner, f, expected, source, visible, id, now);
      Versions.SourceIsSafe(cfg, s, owner, f, source, visible);
      var content := SourceContent(s.db, owner, f, source, visible).value;
      SourceIsReferenced(s.db, owner, f, source, visible);
      ContentSwitches(s.db, f, content, id, now);
      Versions.SwitchKeeps(cfg, s, f, content, id, now);
      PruneRefs(cfg, s.(db := Switched(s.db, f, content, id, now)), f, now);
      RefStepTransitive(s.db, Switched(s.db, f, content, id, now), after);
    }
  }

  lemma SourceIsReferenced(db: Db, owner: nat, f: nat, source: Source, visible: bool)
    requires SourceContent(db, owner, f, source, visible).Some?
    ensures Referenced(db, SourceContent(db, owner, f, source, visible).value.obj)
  {
    match source
    case FromFile(g) =>
      assert Live(db.files[g]);
    case FromVersion(id) =>
      Versions.FoundVersion(db.versions, id, f);
      VersionReferences(db, FindVersion(db.versions, id, f).value);
  }

  /** Steps that touch neither files nor versions, and no job but one being finished. */
  lemma RequestRefs(cfg: Config, s: Sys, e: Event)
    requires Inv(cfg, s)
    requires e.InitUpload? || e.Sign? || e.PutPartBytes? || e.Ack? || e.Status? || e.RecordFailure?
    ensures RefStep(s.db, Apply(cfg, s, e).db)
  {
    InvRows(cfg, s);
    StatesMove(s.db, Apply(cfg, s, e).db);
  }

  lemma JobRefs(cfg: Config, s: Sys, e: Event)
    requires Inv(cfg, s) && (e.ClaimPurge? || e.RestartWorker? || e.RunPurge?)
    ensures RefStep(s.db, Apply(cfg, s, e).db)
  {
    InvRows(cfg, s);
    StatesMove(s.db, Apply(cfg, s, e).db);
  }

  lemma SweepRefs(cfg: Config, s: Sys, e: Event)
    requires Inv(cfg, s) && (e.SweepSession? || e.SweepRow? || e.SweepKey?)
    ensures RefStep(s.db, Apply(cfg, s, e).db)
  {
    InvRows(cfg, s);
    StatesMove(s.db, Apply(cfg, s, e).db);
  }

  lemma EditRefs(cfg: Config, s: Sys, f: nat, owner: nat, seen: Option<nat>)
    requires Inv(cfg, s) && EditTx(s.db, f, owner, seen).Some?
    ensures RefStep(s.db, EditTx(s.db, f, owner, seen).value)
  {
    InvRows(cfg, s);
    StatesMove(s.db, EditTx(s.db, f, owner, seen).value);
  }

  lemma EndFileRefs(cfg: Config, s: Sys, f: nat, why: EndReason)
    requires Inv(cfg, s)
    ensures RefStep(s.db, EndFileTx(s.db, f, why))
  {
    InvRows(cfg, s);
    StatesMove(s.db, EndFileTx(s.db, f, why));
  }

  lemma ScanRefs(cfg: Config, s: Sys, o: nat, clean: bool)
    requires Inv(cfg, s)
    ensures RefStep(s.db, ScanTx(s.db, o, clean))
  {
    InvRows(cfg, s);
    StatesMove(s.db, ScanTx(s.db, o, clean));
  }

  lemma SameRefs(cfg: Config, s: Sys)
    requires Inv(cfg, s)
    ensures RefStep(s.db, s.db)
  {
    InvRows(cfg, s);
    StatesMove(s.db, s.db);
  }

  lemma UploadEventRefs(cfg: Config, s: Sys, e: Event)
    requires Inv(cfg, s) && Safety.UploadEvent(e)
    ensures RefStep(s.db, Apply(cfg, s, e).db)
  {
    SameRefs(cfg, s);
    match e
    case CreateUpload(owner, size, mime, allowed) =>
      if CreateTx(cfg, s, owner, size, mime, allowed).Some? { CreateRefs(cfg, s, owner, size, mime, allowed); }
    case Finalize(u, owner, puts, crash, verdict) => FinalizeRefs(cfg, s, u, owner, puts, crash, verdict);
    case Abort(u, owner, crash) =>
      if AbortTx(s, u, owner, crash).db != s.db { EndRefs(cfg, s, u, ABORTED); }
    case TimeOut(u, crash) =>
      if TimeOutTx(s, u, crash).db != s.db { EndRefs(cfg, s, u, TIMED_OUT); }
    case _ => RequestRefs(cfg, s, e);
  }

  lemma FileEventRefs(cfg: Config, s: Sys, e: Event)
    requires Inv(cfg, s) && Assumed(s, e) && Safety.FileEvent(e)
    ensures RefStep(s.db, Apply(cfg, s, e).db)
  {
    SameRefs(cfg, s);
    match e
    case Bulk(owner, ids, action) =>
      if BulkTx(cfg, s.db, owner, ids, action).Some? { BulkRefs(cfg, s, owner, ids, action); }
    case Edit(f, owner, seen) => if EditTx(s.db, f, owner, seen).Some? { EditRefs(cfg, s, f, owner, seen); }
    case Override(f, state, newOwner) =>
      if OverrideTx(cfg, s.db, f, state, newOwner).Some? { OverrideRefs(cfg, s, f, state, newOwner); }
    case EndFile(f, why) => EndFileRefs(cfg, s, f, why);
    case Replace(owner, f, expected, source, visible, id, now) =>
      if ReplaceTx(cfg, s.db, owner, f, expected, source, visible, id, now).Some? {
        ReplaceRefs(cfg, s, owner, f, expected, source, visible, id, now);
      }
    case Prune(f, now) =>
      if PruneTx(cfg, s.db, f, now).Some? { PruneRefs(cfg, s, f, now); }
  }

  lemma StepRefs(cfg: Config, s: Sys, e: Event)
    requires Inv(cfg, s) && Assumed(s, e) && !e.FinishPurge?
    ensures RefStep(s.db, Apply(cfg, s, e).db)
  {
    if Safety.UploadEvent(e) {
      UploadEventRefs(cfg, s, e);
    } else if Safety.FileEvent(e) {
      FileEventRefs(cfg, s, e);
    } else if e.Scan? {
      ScanRefs(cfg, s, e.o, e.clean);
    } else if e.SweepSession? || e.SweepRow? || e.SweepKey? {
      SweepRefs(cfg, s, e);
    } else {
      JobRefs(cfg, s, e);
    }
  }
}
