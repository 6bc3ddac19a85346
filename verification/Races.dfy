/**
 What happens when something comes between two halves that are not one transaction, or are one whose
 reads take no locks: between the checks and the write of a bulk action, and between the purge of an
 object and the end of its job.
 */
module Races {
  import opened Base
  import opened ObjectStore
  import opened Catalog
  import opened Transactions
  import opened Runs
  import opened Integrity
  import opened Safety
  import opened References
  import opened Purging
  import opened Quota
  import Completion
  import Versions

  // A write whose checks were made on an earlier state. Bulk actions, the source of a replace and the purge's
  // look at the references are read without locks (apps/api/src/files.ts, apps/api/src/cloud.ts).

  /** The write of a bulk restore or delete, on whatever the row has become since it was read. */
  function LateWrite(db: Db, f: nat, state: FileState): Db
    requires f < |db.files|
  {
    SetFile(db, f, db.files[f].(state := state))
  }

  /** The write of a bulk copy of a file on object o. */
  function LateCopy(db: Db, o: nat, owner: nat, mime: string): Db {
    db.(files := db.files + [FileRow(owner, o, AVAILABLE, 1, mime)])
  }

  /**
   A late restore or delete keeps the bytes of all live files exactly when the bytes of this one are still
   there, as they are as long as no other step has ended the file in between.
   */
  lemma LateWriteBytesExactly(cfg: Config, s: Sys, f: nat, state: FileState)
    requires Inv(cfg, s) && f < |s.db.files| && s.db.files[f].state != PROCESSING && state in {AVAILABLE, DELETED}
    ensures var o := s.db.files[f].obj;
      && o < |s.db.objects|
      && (BytesKept(LateWrite(s.db, f, state), s.store) <==> o in s.store.objects && s.db.objects[o].state != PURGED)
      && (Live(s.db.files[f]) ==> BytesKept(LateWrite(s.db, f, state), s.store))
  {
    var after := LateWrite(s.db, f, state);
    assert FileOk(s.db.uploads, f, s.db.files[f]);
    assert Charged(after.files[f]);
  }

  lemma LateCopyBytesExactly(cfg: Config, s: Sys, o: nat, owner: nat, mime: string)
    requires Inv(cfg, s) && o < |s.db.objects|
    ensures BytesKept(LateCopy(s.db, o, owner, mime), s.store) <==>
      o in s.store.objects && s.db.objects[o].state != PURGED
  {
    var after := LateCopy(s.db, o, owner, mime);
    assert Charged(after.files[|s.db.files|]);
  }

  /** The same for a replace that switches a file to content it read earlier (apps/api/src/cloud.ts, replace). */
  lemma LateSwitchBytesExactly(cfg: Config, s: Sys, f: nat, content: Content, id: nat, now: int)
    requires Inv(cfg, s) && f < |s.db.files| && s.db.files[f].state == AVAILABLE
    ensures BytesKept(Switched(s.db, f, content, id, now), s.store) <==>
      BytesPresent(s.db.objects, s.store, content.obj)
  {
    var after := Switched(s.db, f, content, id, now);
    assert Charged(s.db.files[f]) && Charged(after.files[f]) && after.files[f].obj == content.obj;
  }

  /** The second half of the purge, on whatever has come to refer to the object since it was found unneeded. */
  function LateRemoval(s: Sys, o: nat): Sys
    requires o < |s.db.objects|
  {
    Sys(SetObject(s.db, o, s.db.objects[o].(state := PURGED)), RemoveObject(s.store, o))
  }

  /** A late removal does no harm exactly when the object is still unneeded at that moment. */
  lemma LateRemovalBytesExactly(cfg: Config, s: Sys, o: nat)
    requires Inv(cfg, s) && o < |s.db.objects| && s.db.objects[o].state != PROCESSING
    ensures BytesKept(LateRemoval(s, o).db, LateRemoval(s, o).store) <==> !Referenced(s.db, o)
  {
    var after := LateRemoval(s, o);
    if f :| 0 <= f < |s.db.files| && s.db.files[f].obj == o && Live(s.db.files[f]) {
      assert FileOk(s.db.uploads, f, s.db.files[f]);
      assert UploadRowsOk(s.db.objects, s.db.files, o, s.db.uploads[o]);
      assert Charged(after.db.files[f]) && after.db.files[f].obj == o;
    } else if v :| 0 <= v < |s.db.versions| && s.db.versions[v].obj == o {
      assert after.db.versions[v].obj == o;
    } else {
      forall f | 0 <= f < |after.db.files| && Charged(after.db.files[f])
        ensures BytesPresent(after.db.objects, after.store, after.db.files[f].obj)
      {
        assert s.db.files[f].obj != o;
      }
    }
  }

  /** No object without a reference has gained one. */
  ghost predicate NoneRevived(a: Db, b: Db) {
    forall o {:trigger Referenced(b, o)} :: Referenced(b, o) ==> Referenced(a, o)
  }

  /** It keeps what is unreferenced unreferenced exactly when the object of its file still has a reference. */
  lemma LateWriteRefsExactly(db: Db, f: nat, state: FileState)
    requires f < |db.files| && state in {AVAILABLE, DELETED}
    ensures NoneRevived(db, LateWrite(db, f, state)) <==> Referenced(db, db.files[f].obj)
  {
    var after, o := LateWrite(db, f, state), db.files[f].obj;
    assert after.files[f].obj == o && Live(after.files[f]);
    assert Referenced(after, o);
    if Referenced(db, o) {
      forall x | Referenced(after, x)
        ensures Referenced(db, x)
      {
        if g :| 0 <= g < |after.files| && after.files[g].obj == x && Live(after.files[g]) {
          if g != f {
            assert db.files[g].obj == x && Live(db.files[g]);
          }
        } else {
          var v :| 0 <= v < |after.versions| && after.versions[v].obj == x;
          assert db.versions[v].obj == x;
        }
      }
    }
  }

  /** And it keeps every account within its quota exactly when the file is charged already or there is room. */
  lemma LateWriteQuotaExactly(cfg: Config, db: Db, f: nat, state: FileState)
    requires WithinQuota(cfg, db) && f < |db.files| && state in {AVAILABLE, DELETED}
    ensures WithinQuota(cfg, LateWrite(db, f, state)) <==>
      var row := db.files[f];
      Charged(row) || Balance(db, row.owner) + ExpectedSize(db.objects, row.obj) <= cfg.policy(row.owner).storageBytes
  {
    var after, owner := LateWrite(db, f, state), db.files[f].owner;
    LateWriteCharges(db, f, state, owner);
    assert Balance(db, owner) <= cfg.policy(owner).storageBytes;
    if Balance(after, owner) <= cfg.policy(owner).storageBytes {
      forall who: nat
        ensures Balance(after, who) <= cfg.policy(who).storageBytes
      {
        LateWriteCharges(db, f, state, who);
        assert Balance(db, who) <= cfg.policy(who).storageBytes;
      }
    }
  }

  lemma LateWriteCharges(db: Db, f: nat, state: FileState, who: nat)
    requires f < |db.files| && state in {AVAILABLE, DELETED}
    ensures var row := db.files[f];
      Balance(LateWrite(db, f, state), who) ==
        Balance(db, who) + (if who == row.owner && !Charged(row) then ExpectedSize(db.objects, row.obj) else 0)
  {
    var after := LateWrite(db, f, state);
    SumDiffersAt(FileCharges(db, who), FileCharges(after, who), f);
    assert VersionCharges(after, after.versions, who) == VersionCharges(db, db.versions, who);
    assert UploadCharges(after, who) == UploadCharges(db, who);
  }

  // Between a purge and the end of its job: no job before the upload has ended.

  /** No object of an unfinished upload was ever queued for purging. */
  ghost predicate QueuedAfterUpload(db: Db) {
    forall u {:trigger db.uploads[u]} :: 0 <= u < |db.uploads| && u < |db.objects| && Active(db.uploads[u]) ==>
      db.objects[u].purge == NoJob
  }

  /** What a step first queues belongs to an upload that is over. */
  ghost predicate QueuesFinished(a: Db, b: seq<ObjectRow>) {
    && |a.objects| <= |b|
    && forall o {:trigger b[o]} :: 0 <= o < |a.objects| && o < |a.uploads| && Active(a.uploads[o]) ==>
         a.objects[o].purge == NoJob ==> b[o].purge == NoJob
  }

  lemma BulkItemQueues(cfg: Config, s: Sys, owner: nat, f: nat, action: BulkAction)
    requires Inv(cfg, s) && BulkItem(cfg, s.db, owner, f, action).Some?
    ensures QueuesFinished(s.db, BulkItem(cfg, s.db, owner, f, action).value.objects)
  {
    assert FileOk(s.db.uploads, f, s.db.files[f]);
  }

  lemma {:induction false} BulkQueues(cfg: Config, s: Sys, owner: nat, ids: seq<nat>, action: BulkAction)
    requires Inv(cfg, s) && BulkTx(cfg, s.db, owner, ids, action).Some?
    ensures QueuesFinished(s.db, BulkTx(cfg, s.db, owner, ids, action).value.objects)
    decreases |ids|
  {
    if |ids| > 0 {
      var next := BulkItem(cfg, s.db, owner, ids[0], action).value;
      BulkItemQueues(cfg, s, owner, ids[0], action);
      BulkItemKeeps(cfg, s, owner, ids[0], action);
      assert next.uploads == s.db.uploads;
      BulkQueues(cfg, s.(db := next), owner, ids[1..], action);
    }
  }

  lemma OverrideQueuesFinished(cfg: Config, s: Sys, f: nat, state: Option<FileState>, owner: Option<nat>)
    requires Inv(cfg, s) && OverrideTx(cfg, s.db, f, state, owner).Some?
    ensures QueuesFinished(s.db, OverrideTx(cfg, s.db, f, state, owner).value.objects)
  {
    OverrideRows(cfg, s.db, f, state, owner);
    assert FileOk(s.db.uploads, f, s.db.files[f]);
  }

  lemma EndFileQueues(cfg: Config, s: Sys, f: nat, why: EndReason)
    requires Inv(cfg, s)
    ensures QueuesFinished(s.db, EndFileTx(s.db, f, why).objects)
  {
    if f < |s.db.files| {
      assert FileOk(s.db.uploads, f, s.db.files[f]);
    }
  }

  lemma PruneQueues(cfg: Config, s: Sys, f: nat, now: int)
    requires Inv(cfg, s) && PruneTx(cfg, s.db, f, now).Some?
    ensures QueuesFinished(s.db, PruneTx(cfg, s.db, f, now).value.objects)
  {
    var r := RetentionFor(cfg, s.db.files[f], now);
    forall o | 0 <= o < |s.db.objects| && DropsObject(s.db.versions, f, r, o)
      ensures o < |s.db.uploads| && !Active(s.db.uploads[o])
    {
      var i :| 0 <= i < |s.db.versions| && s.db.versions[i].obj == o;
      assert VersionOk(s.db.uploads, s.db.files, s.db.versions[i]);
    }
  }

  lemma ReplaceQueues(cfg: Config, s: Sys, owner: nat, f: nat, expected: nat, source: Source, visible: bool,
                      id: nat, now: int)
    requires Inv(cfg, s) && ReplaceTx(cfg, s.db, owner, f, expected, source, visible, id, now).Some?
    ensures QueuesFinished(s.db, ReplaceTx(cfg, s.db, owner, f, expected, source, visible, id, now).value.objects)
  {
    var after := ReplaceTx(cfg, s.db, owner, f, expected, source, visible, id, now).value;
    if after != s.db {
      Versions.ReplaceShape(cfg, s.db, owner, f, expected, source, visible, id, now);
      Versions.SourceIsSafe(cfg, s, owner, f, source, visible);
      var content := SourceContent(s.db, owner, f, source, visible).value;
      Versions.SwitchKeeps(cfg, s, f, content, id, now);
      PruneQueues(cfg, s.(db := Switched(s.db, f, content, id, now)), f, now);
    }
  }

  lemma FileEventQueues(cfg: Config, s: Sys, e: Event)
    requires Inv(cfg, s) && FileEvent(e)
    ensures QueuesFinished(s.db, Apply(cfg, s, e).db.objects)
  {
    match e
    case Bulk(owner, ids, action) =>
      if BulkTx(cfg, s.db, owner, ids, action).Some? { BulkQueues(cfg, s, owner, ids, action); }
    case Override(f, state, newOwner) =>
      if OverrideTx(cfg, s.db, f, state, newOwner).Some? { OverrideQueuesFinished(cfg, s, f, state, newOwner); }
    case EndFile(f, why) => EndFileQueues(cfg, s, f, why);
    case Replace(owner, f, expected, source, visible, id, now) =>
      if ReplaceTx(cfg, s.db, owner, f, expected, source, visible, id, now).Some? {
        ReplaceQueues(cfg, s, owner, f, expected, source, visible, id, now);
      }
    case Prune(f, now) => if PruneTx(cfg, s.db, f, now).Some? { PruneQueues(cfg, s, f, now); }
    case _ =>
  }

  lemma UploadEventQueues(cfg: Config, s: Sys, e: Event)
    requires UploadEvent(e)
    ensures var b := Apply(cfg, s, e).db.objects;
      && QueuesFinished(s.db, b)
      && forall o :: |s.db.objects| <= o < |b| ==> b[o].purge == NoJob
  {
    if e.Finalize? && Apply(cfg, s, e).db != s.db {
      var row, size := Completion.FinalizeIsCompletion(cfg, s, e.u, e.owner, e.puts, e.crash, e.verdict);
    }
  }

  lemma WorkerEventQueues(cfg: Config, s: Sys, e: Event)
    requires !UploadEvent(e) && !FileEvent(e)
    ensures QueuesFinished(s.db, Apply(cfg, s, e).db.objects)
  {
  }

  lemma StepQueues(cfg: Config, s: Sys, e: Event)
    requires Inv(cfg, s)
    ensures QueuesFinished(s.db, Apply(cfg, s, e).db.objects)
  {
    if UploadEvent(e) {
      UploadEventQueues(cfg, s, e);
    } else if FileEvent(e) {
      FileEventQueues(cfg, s, e);
    } else {
      WorkerEventQueues(cfg, s, e);
    }
  }

  lemma StepKeepsQueued(cfg: Config, s: Sys, e: Event)
    requires Inv(cfg, s) && Assumed(s, e) && QueuedAfterUpload(s.db)
    ensures QueuedAfterUpload(Apply(cfg, s, e).db)
  {
    var after := Apply(cfg, s, e).db;
    StepQueues(cfg, s, e);
    StepKeeps(cfg, s, e);
    StepRespectsUploads(cfg, s, e);
    forall u | 0 <= u < |after.uploads| && u < |after.objects| && Active(after.uploads[u])
      ensures after.objects[u].purge == NoJob
    {
      if u < |s.db.uploads| {
        assert UploadStep(s.db.uploads[u], after.uploads[u]) && UploadOk(cfg, s.db.uploads[u]);
      } else {
        NewRowsQueueNothing(cfg, s, e, u);
      }
    }
  }

  lemma NewRowsQueueNothing(cfg: Config, s: Sys, e: Event, o: nat)
    requires Inv(cfg, s) && |s.db.uploads| <= o < |Apply(cfg, s, e).db.objects|
    ensures UploadEvent(e) && Apply(cfg, s, e).db.objects[o].purge == NoJob
  {
    if UploadEvent(e) {
      UploadEventQueues(cfg, s, e);
    } else if FileEvent(e) {
      FileEventSpares(cfg, s, e);
    }
  }

  lemma {:induction false} RunKeepsQueued(cfg: Config, s: Sys, es: seq<Event>)
    requires Inv(cfg, s) && AllAssumed(cfg, s, es) && QueuedAfterUpload(s.db)
    ensures QueuedAfterUpload(Run(cfg, s, es).db)
  {
    if |es| > 0 {
      var n := |es| - 1;
      AssumedBefore(cfg, s, es);
      RunKeepsQueued(cfg, s, es[..n]);
      RunKeeps(cfg, s, es[..n]);
      StepKeepsQueued(cfg, Run(cfg, s, es[..n]), es[n]);
    }
  }

  /** What a run takes for granted it does without its last step, and of its last step. */
  lemma {:induction false} AssumedBefore(cfg: Config, s: Sys, es: seq<Event>)
    requires AllAssumed(cfg, s, es) && |es| > 0
    ensures var n := |es| - 1; AllAssumed(cfg, s, es[..n]) && Assumed(Run(cfg, s, es[..n]), es[n])
  {
    var n := |es| - 1;
    forall i | 0 <= i < n
      ensures Assumed(Run(cfg, s, es[..n][..i]), es[..n][i])
    {
      assert es[..n][..i] == es[..i];
    }
  }

  /** In a reachable system no object of an unfinished upload has a purge job. */
  lemma QueuedAlwaysAfterUpload(cfg: Config, s: Sys)
    requires Reachable(cfg, s)
    ensures QueuedAfterUpload(s.db)
  {
    var free, es :| AllAssumed(cfg, EmptySystem(free), es) && s == Run(cfg, EmptySystem(free), es);
    RunKeepsQueued(cfg, EmptySystem(free), es);
  }

  // What other steps do to an object whose upload has completed.

  /** A file step adds no object, stops no job and marks no object as purged. */
  ghost predicate SparesObjects(a: seq<ObjectRow>, b: seq<ObjectRow>) {
    |a| == |b| && forall o {:trigger b[o]} :: 0 <= o < |a| ==>
      (a[o].purge == JobRunning ==> b[o].purge == JobRunning) && (b[o].state == PURGED ==> a[o].state == PURGED)
  }

  lemma {:induction false} BulkSpares(cfg: Config, db: Db, owner: nat, ids: seq<nat>, action: BulkAction)
    requires BulkTx(cfg, db, owner, ids, action).Some?
    ensures SparesObjects(db.objects, BulkTx(cfg, db, owner, ids, action).value.objects)
    decreases |ids|
  {
    if |ids| > 0 {
      var next := BulkItem(cfg, db, owner, ids[0], action).value;
      assert SparesObjects(db.objects, next.objects);
      BulkSpares(cfg, next, owner, ids[1..], action);
    }
  }

  lemma ReplaceSpares(cfg: Config, db: Db, owner: nat, f: nat, expected: nat, source: Source, visible: bool,
                      id: nat, now: int)
    requires ReplaceTx(cfg, db, owner, f, expected, source, visible, id, now).Some?
    ensures SparesObjects(db.objects, ReplaceTx(cfg, db, owner, f, expected, source, visible, id, now).value.objects)
  {
    if ReplaceTx(cfg, db, owner, f, expected, source, visible, id, now).value != db {
      Versions.ReplaceShape(cfg, db, owner, f, expected, source, visible, id, now);
    }
  }

  lemma OverrideSpares(cfg: Config, db: Db, f: nat, state: Option<FileState>, owner: Option<nat>)
    requires OverrideTx(cfg, db, f, state, owner).Some?
    ensures SparesObjects(db.objects, OverrideTx(cfg, db, f, state, owner).value.objects)
  {
  }

  lemma FileEventSpares(cfg: Config, s: Sys, e: Event)
    requires FileEvent(e)
    ensures SparesObjects(s.db.objects, Apply(cfg, s, e).db.objects)
  {
    match e
    case Bulk(owner, ids, action) =>
      if BulkTx(cfg, s.db, owner, ids, action).Some? { BulkSpares(cfg, s.db, owner, ids, action); }
    case Replace(owner, f, expected, source, visible, id, now) =>
      if ReplaceTx(cfg, s.db, owner, f, expected, source, visible, id, now).Some? {
        ReplaceSpares(cfg, s.db, owner, f, expected, source, visible, id, now);
      }
    case Override(f, state, newOwner) =>
      if OverrideTx(cfg, s.db, f, state, newOwner).Some? { OverrideSpares(cfg, s.db, f, state, newOwner); }
    case _ =>
  }

  /** The worker's own steps for the purge job of object o. */
  predicate JobStep(e: Event, o: nat) {
    e == ClaimPurge(o) || (e.RunPurge? && e.o == o) || (e.FinishPurge? && e.o == o) || e.RestartWorker?
  }

  /** Object o is stored by a completed upload, not marked as purged, and its purge job is running. */
  predicate Held(db: Db, o: nat) {
    && o < |db.objects| && o < |db.uploads| && db.uploads[o].state == COMPLETE
    && db.objects[o].purge == JobRunning && db.objects[o].state != PURGED
  }

  lemma FinalizeHolds(cfg: Config, s: Sys, e: Event, o: nat)
    requires Inv(cfg, s) && Held(s.db, o) && e.Finalize?
    ensures var b := FinalizeTx(cfg, s, e.u, e.owner, e.puts, e.crash, e.verdict).0.db.objects;
      o < |b| && b[o] == s.db.objects[o]
  {
    if FinalizeTx(cfg, s, e.u, e.owner, e.puts, e.crash, e.verdict).0.db != s.db {
      var row, size := Completion.FinalizeIsCompletion(cfg, s, e.u, e.owner, e.puts, e.crash, e.verdict);
      assert UploadRowsOk(s.db.objects, s.db.files, e.u, s.db.uploads[e.u]);
    }
  }

  lemma UploadEventHolds(cfg: Config, s: Sys, e: Event, o: nat)
    requires Inv(cfg, s) && Held(s.db, o) && UploadEvent(e)
    ensures o < |Apply(cfg, s, e).db.objects| && Apply(cfg, s, e).db.objects[o] == s.db.objects[o]
  {
    if e.Finalize? {
      FinalizeHolds(cfg, s, e, o);
    } else if e.Abort? || e.TimeOut? {
      assert e.u < |s.db.uploads| ==> UploadRowsOk(s.db.objects, s.db.files, e.u, s.db.uploads[e.u]);
    }
  }

  lemma WorkerEventHolds(cfg: Config, s: Sys, e: Event, o: nat)
    requires Held(s.db, o) && !UploadEvent(e) && !FileEvent(e) && !JobStep(e, o)
    ensures var b := Apply(cfg, s, e).db.objects;
      o < |b| && b[o].purge == JobRunning && b[o].state != PURGED
  {
  }

  lemma StepHolds(cfg: Config, s: Sys, e: Event, o: nat)
    requires Inv(cfg, s) && Assumed(s, e) && Held(s.db, o) && !JobStep(e, o)
    ensures Held(Apply(cfg, s, e).db, o)
  {
    StepRespectsUploads(cfg, s, e);
    assert UploadStep(s.db.uploads[o], Apply(cfg, s, e).db.uploads[o]);
    if UploadEvent(e) {
      UploadEventHolds(cfg, s, e, o);
    } else if FileEvent(e) {
      FileEventSpares(cfg, s, e);
    } else {
      WorkerEventHolds(cfg, s, e, o);
    }
  }

  /** The worker does nothing else for the job of object o. */
  ghost predicate JobRests(es: seq<Event>, o: nat) {
    forall e :: e in es ==> !JobStep(e, o)
  }

  lemma {:induction false} RunHolds(cfg: Config, s: Sys, es: seq<Event>, o: nat)
    requires Inv(cfg, s) && AllAssumed(cfg, s, es) && JobRests(es, o) && Held(s.db, o)
    ensures Held(Run(cfg, s, es).db, o)
  {
    if |es| > 0 {
      var n := |es| - 1;
      AssumedBefore(cfg, s, es);
      RunHolds(cfg, s, es[..n], o);
      RunKeeps(cfg, s, es[..n]);
      assert es[n] in es;
      StepHolds(cfg, Run(cfg, s, es[..n]), es[n], o);
    }
  }

  lemma StepKeepsPurged(cfg: Config, s: Sys, e: Event, o: nat)
    requires Inv(cfg, s) && Assumed(s, e) && o < |s.db.objects| && s.db.objects[o].state == PURGED
    ensures o < |Apply(cfg, s, e).db.objects| && Apply(cfg, s, e).db.objects[o].state == PURGED
  {
    if !e.FinishPurge? {
      StepRefs(cfg, s, e);
    }
  }

  lemma {:induction false} PurgedForGood(cfg: Config, s: Sys, es: seq<Event>, o: nat)
    requires Inv(cfg, s) && AllAssumed(cfg, s, es)
    requires o < |s.db.objects| && s.db.objects[o].state == PURGED
    ensures o < |Run(cfg, s, es).db.objects| && Run(cfg, s, es).db.objects[o].state == PURGED
  {
    if |es| > 0 {
      var n := |es| - 1;
      AssumedBefore(cfg, s, es);
      PurgedForGood(cfg, s, es[..n], o);
      RunKeeps(cfg, s, es[..n]);
      StepKeepsPurged(cfg, Run(cfg, s, es[..n]), es[n], o);
    }
  }

  // The whole job.

  /** Bytes may be left, nothing refers to them, and no job will remove them. */
  ghost predicate Forgotten(db: Db, o: nat) {
    o < |db.objects| && db.objects[o].state != PURGED && !Referenced(db, o) && !JobActive(db.objects[o])
  }

  /** What a running job finds referenced is the object of a completed upload. */
  lemma NeededIsHeld(cfg: Config, s: Sys, o: nat)
    requires Inv(cfg, s) && QueuedAfterUpload(s.db) && o < |s.db.objects|
    requires s.db.objects[o].purge == JobRunning && Referenced(s.db, o)
    ensures Held(s.db, o)
  {
    ReferencedIsUnpurged(cfg, s, o);
    assert UploadOk(cfg, s.db.uploads[o]) && UploadRowsOk(s.db.objects, s.db.files, o, s.db.uploads[o]);
  }

  lemma FinishForgets(s: Sys, o: nat)
    requires Held(s.db, o)
    ensures Forgotten(FinishTx(s.db, o, true), o) <==> !Referenced(s.db, o)
  {
    FinishKeepsRefs(s, o, true, o);
  }

  /**
   The exact condition over the whole job, whatever steps come between its purge and its end: marking it
   as completed forgets the object if and only if it was still needed at the purge and is not at the end.
   */
  lemma {:induction false} ForgottenExactly(cfg: Config, s: Sys, es: seq<Event>, o: nat)
    requires Reachable(cfg, s) && o < |s.db.objects| && s.db.objects[o].purge == JobRunning
    requires AllAssumed(cfg, PurgeTx(s, o, false), es) && JobRests(es, o)
    ensures var last := Run(cfg, PurgeTx(s, o, false), es);
      Forgotten(FinishTx(last.db, o, true), o) <==> Referenced(s.db, o) && !Referenced(last.db, o)
  {
    var purged := PurgeTx(s, o, false);
    ReachableInv(cfg, s);
    RunPurgeKeeps(cfg, s, o, false);
    if Referenced(s.db, o) {
      QueuedAlwaysAfterUpload(cfg, s);
      NeededIsHeld(cfg, s, o);
      RunHolds(cfg, purged, es, o);
      FinishForgets(Run(cfg, purged, es), o);
    } else {
      PurgedForGood(cfg, purged, es, o);
    }
  }
}
