/** Scanning: what a scanner has not seen is never available. */
module Quarantine {
  import opened Base
  import opened Catalog
  import opened Transactions
  import opened Runs
  import opened Integrity
  import opened Safety
  import opened Effects
  import Completion
  import Versions

  /** A moderator's override to AVAILABLE of a file on the object. */
  predicate Lifts(s: Sys, e: Event, o: nat) {
    e.Override? && e.state == Some(AVAILABLE) && e.f < |s.db.files| && s.db.files[e.f].obj == o
  }

  /** A completion that says the scanner need not see the object. */
  predicate Waives(e: Event, o: nat) {
    e.Finalize? && e.u == o && !e.verdict.quarantine
  }

  /** No object row has become available. */
  ghost predicate NoneReleased(a: seq<ObjectRow>, b: seq<ObjectRow>) {
    |a| == |b| && forall o {:trigger b[o]} :: 0 <= o < |a| ==> b[o].state == AVAILABLE ==> a[o].state == AVAILABLE
  }

  lemma {:induction false} BulkReleasesNone(cfg: Config, db: Db, owner: nat, ids: seq<nat>, action: BulkAction)
    requires BulkTx(cfg, db, owner, ids, action).Some?
    ensures NoneReleased(db.objects, BulkTx(cfg, db, owner, ids, action).value.objects)
    decreases |ids|
  {
    if |ids| > 0 {
      var next := BulkItem(cfg, db, owner, ids[0], action).value;
      assert NoneReleased(db.objects, next.objects);
      BulkReleasesNone(cfg, next, owner, ids[1..], action);
    }
  }

  lemma ReplaceReleasesNone(cfg: Config, db: Db, owner: nat, f: nat, expected: nat, source: Source, visible: bool,
                            id: nat, now: int)
    requires ReplaceTx(cfg, db, owner, f, expected, source, visible, id, now).Some?
    ensures NoneReleased(db.objects, ReplaceTx(cfg, db, owner, f, expected, source, visible, id, now).value.objects)
  {
    if ReplaceTx(cfg, db, owner, f, expected, source, visible, id, now).value != db {
      Versions.ReplaceShape(cfg, db, owner, f, expected, source, visible, id, now);
    }
  }

  lemma FileReleases(cfg: Config, s: Sys, e: Event, o: nat)
    requires FileEvent(e) && o < |Apply(cfg, s, e).db.objects| && !Lifts(s, e, o)
    requires Apply(cfg, s, e).db.objects[o].state == AVAILABLE
    ensures o < |s.db.objects| && s.db.objects[o].state == AVAILABLE
  {
    match e
    case Bulk(owner, ids, action) =>
      if BulkTx(cfg, s.db, owner, ids, action).Some? { BulkReleasesNone(cfg, s.db, owner, ids, action); }
    case Replace(owner, f, expected, source, visible, id, now) =>
      if ReplaceTx(cfg, s.db, owner, f, expected, source, visible, id, now).Some? {
        ReplaceReleasesNone(cfg, s.db, owner, f, expected, source, visible, id, now);
      }
    case Override(f, state, newOwner) =>
      if OverrideTx(cfg, s.db, f, state, newOwner).Some? { OverrideRows(cfg, s.db, f, state, newOwner); }
    case _ =>
  }

  lemma FinalizeReleases(cfg: Config, s: Sys, e: Event, o: nat)
    requires Inv(cfg, s) && e.Finalize? && !Waives(e, o)
    requires var b := FinalizeTx(cfg, s, e.u, e.owner, e.puts, e.crash, e.verdict).0.db.objects;
      o < |b| && b[o].state == AVAILABLE
    ensures o < |s.db.objects| && s.db.objects[o].state == AVAILABLE
  {
    CompletionExactly(cfg, s, e.u, e.owner, e.puts, e.crash, e.verdict);
    if e.u < |s.db.uploads| {
      assert UploadRowsOk(s.db.objects, s.db.files, e.u, s.db.uploads[e.u]);
    }
  }

  /** An object becomes available only by a clean scan, by a waived completion of its own upload or by a moderator. */
  lemma ReleasedExactlyBy(cfg: Config, s: Sys, e: Event, o: nat)
    requires Inv(cfg, s) && o < |Apply(cfg, s, e).db.objects| && Apply(cfg, s, e).db.objects[o].state == AVAILABLE
    requires o < |s.db.objects| ==> s.db.objects[o].state != AVAILABLE
    ensures e == Scan(o, true) || Waives(e, o) || Lifts(s, e, o)
  {
    if e.Finalize? {
      if !Waives(e, o) { FinalizeReleases(cfg, s, e, o); }
    } else if FileEvent(e) {
      if !Lifts(s, e, o) { FileReleases(cfg, s, e, o); }
    }
  }

  /** Along any run: what is available at the end was scanned clean, lifted by a moderator, or never to be scanned. */
  lemma {:induction false} AvailableWasReleased(cfg: Config, s: Sys, es: seq<Event>, o: nat) returns (k: nat)
    requires Inv(cfg, s) && AllAssumed(cfg, s, es)
    requires o < |s.db.objects| ==> s.db.objects[o].state != AVAILABLE
    requires o < |Run(cfg, s, es).db.objects| && Run(cfg, s, es).db.objects[o].state == AVAILABLE
    ensures k < |es| && (es[k] == Scan(o, true) || Waives(es[k], o) || Lifts(Run(cfg, s, es[..k]), es[k], o))
  {
    var n := |es| - 1;
    var before := Run(cfg, s, es[..n]);
    PrefixKeeps(cfg, s, es, n);
    if o < |before.db.objects| && before.db.objects[o].state == AVAILABLE {
      forall i | 0 <= i < n
        ensures Assumed(Run(cfg, s, es[..n][..i]), es[..n][i])
      {
        assert es[..n][..i] == es[..i];
      }
      k := AvailableWasReleased(cfg, s, es[..n], o);
      assert es[..n][..k] == es[..k];
    } else {
      ReleasedExactlyBy(cfg, before, es[n], o);
      k := n;
    }
  }

  // Files.

  /** No file is available on an object that still waits for the scanner. */
  ghost predicate NothingUnscanned(db: Db) {
    forall f {:trigger db.files[f]} :: 0 <= f < |db.files| && db.files[f].state == AVAILABLE ==>
      db.files[f].obj < |db.objects| && db.objects[db.files[f].obj].state != QUARANTINED
  }

  /** Files and objects after a step that quarantines nothing. */
  ghost predicate StaysScanned(a: Db, b: Db) {
    && |a.objects| <= |b.objects|
    && (forall o {:trigger b.objects[o]} :: 0 <= o < |a.objects| ==>
          b.objects[o].state == QUARANTINED ==> a.objects[o].state == QUARANTINED)
    && (forall f {:trigger b.files[f]} :: 0 <= f < |b.files| && b.files[f].state == AVAILABLE ==>
          || (f < |a.files| && a.files[f].state == AVAILABLE && b.files[f].obj == a.files[f].obj)
          || (b.files[f].obj < |a.objects| && a.objects[b.files[f].obj].state in {AVAILABLE, BLOCKED})
          || exists g :: 0 <= g < |a.files| && a.files[g].state == AVAILABLE && a.files[g].obj == b.files[f].obj)
  }

  lemma StaysScannedKeeps(a: Db, b: Db)
    requires NothingUnscanned(a) && StaysScanned(a, b)
    ensures NothingUnscanned(b)
  {
    forall f | 0 <= f < |b.files| && b.files[f].state == AVAILABLE
      ensures b.files[f].obj < |b.objects| && b.objects[b.files[f].obj].state != QUARANTINED
    {
      if f < |a.files| && a.files[f].state == AVAILABLE && b.files[f].obj == a.files[f].obj {
        assert a.files[f].obj < |a.objects|;
      } else if !(b.files[f].obj < |a.objects| && a.objects[b.files[f].obj].state in {AVAILABLE, BLOCKED}) {
        var g :| 0 <= g < |a.files| && a.files[g].state == AVAILABLE && a.files[g].obj == b.files[f].obj;
        assert a.files[g].obj < |a.objects|;
      }
    }
  }

  lemma {:induction false} BulkScanned(cfg: Config, db: Db, owner: nat, ids: seq<nat>, action: BulkAction)
    requires NothingUnscanned(db) && BulkTx(cfg, db, owner, ids, action).Some?
    ensures NothingUnscanned(BulkTx(cfg, db, owner, ids, action).value)
    decreases |ids|
  {
    if |ids| > 0 {
      var next := BulkItem(cfg, db, owner, ids[0], action).value;
      StaysScannedKeeps(db, next);
      BulkScanned(cfg, next, owner, ids[1..], action);
    }
  }

  lemma PruneScanned(cfg: Config, db: Db, f: nat, now: int)
    requires NothingUnscanned(db) && PruneTx(cfg, db, f, now).Some?
    ensures NothingUnscanned(PruneTx(cfg, db, f, now).value)
  {
    StaysScannedKeeps(db, PruneTx(cfg, db, f, now).value);
  }

  lemma ReplaceScanned(cfg: Config, db: Db, owner: nat, f: nat, expected: nat, source: Source, visible: bool,
                       id: nat, now: int)
    requires NothingUnscanned(db) && ReplaceTx(cfg, db, owner, f, expected, source, visible, id, now).Some?
    ensures NothingUnscanned(ReplaceTx(cfg, db, owner, f, expected, source, visible, id, now).value)
  {
    if ReplaceTx(cfg, db, owner, f, expected, source, visible, id, now).value != db {
      Versions.ReplaceShape(cfg, db, owner, f, expected, source, visible, id, now);
      var mid := Switched(db, f, SourceContent(db, owner, f, source, visible).value, id, now);
      StaysScannedKeeps(db, mid);
      PruneScanned(cfg, mid, f, now);
    }
  }

  lemma OverrideScanned(cfg: Config, db: Db, f: nat, state: Option<FileState>, owner: Option<nat>)
    requires NothingUnscanned(db) && OverrideTx(cfg, db, f, state, owner).Some?
    ensures NothingUnscanned(OverrideTx(cfg, db, f, state, owner).value)
  {
    OverrideRows(cfg, db, f, state, owner);
    StaysScannedKeeps(db, OverrideTx(cfg, db, f, state, owner).value);
  }

  lemma EditScanned(db: Db, f: nat, owner: nat, seen: Option<nat>, why: EndReason)
    requires NothingUnscanned(db)
    ensures EditTx(db, f, owner, seen).Some? ==> NothingUnscanned(EditTx(db, f, owner, seen).value)
    ensures NothingUnscanned(EndFileTx(db, f, why))
  {
    if EditTx(db, f, owner, seen).Some? {
      StaysScannedKeeps(db, EditTx(db, f, owner, seen).value);
    }
    StaysScannedKeeps(db, EndFileTx(db, f, why));
  }

  lemma FileEventScanned(cfg: Config, s: Sys, e: Event)
    requires FileEvent(e) && NothingUnscanned(s.db)
    ensures NothingUnscanned(Apply(cfg, s, e).db)
  {
    match e
    case Bulk(owner, ids, action) =>
      if BulkTx(cfg, s.db, owner, ids, action).Some? { BulkScanned(cfg, s.db, owner, ids, action); }
    case Replace(owner, f, expected, source, visible, id, now) =>
      if ReplaceTx(cfg, s.db, owner, f, expected, source, visible, id, now).Some? {
        ReplaceScanned(cfg, s.db, owner, f, expected, source, visible, id, now);
      }
    case Override(f, state, newOwner) =>
      if OverrideTx(cfg, s.db, f, state, newOwner).Some? { OverrideScanned(cfg, s.db, f, state, newOwner); }
    case Prune(f, now) => if PruneTx(cfg, s.db, f, now).Some? { PruneScanned(cfg, s.db, f, now); }
    case Edit(f, owner, seen) => EditScanned(s.db, f, owner, seen, FileExpired);
    case EndFile(f, why) => EditScanned(s.db, f, 0, None, why);
  }

  lemma FinalizeScanned(cfg: Config, s: Sys, e: Event)
    requires Inv(cfg, s) && e.Finalize? && NothingUnscanned(s.db)
    ensures NothingUnscanned(FinalizeTx(cfg, s, e.u, e.owner, e.puts, e.crash, e.verdict).0.db)
  {
    var b := FinalizeTx(cfg, s, e.u, e.owner, e.puts, e.crash, e.verdict).0.db;
    CompletionExactly(cfg, s, e.u, e.owner, e.puts, e.crash, e.verdict);
    if b != s.db {
      assert UploadRowsOk(s.db.objects, s.db.files, e.u, s.db.uploads[e.u]);
      forall f | 0 <= f < |b.files| && b.files[f].state == AVAILABLE
        ensures b.files[f].obj < |b.objects| && b.objects[b.files[f].obj].state != QUARANTINED
      {
        assert FileOk(s.db.uploads, f, s.db.files[f]);
      }
    }
  }

  lemma EndScanned(cfg: Config, s: Sys, e: Event)
    requires Inv(cfg, s) && (e.Abort? || e.TimeOut?) && NothingUnscanned(s.db)
    ensures NothingUnscanned(Apply(cfg, s, e).db)
  {
    if e.Abort? {
      AbortExactly(cfg, s, e.u, e.owner, e.crash);
    } else {
      TimeOutExactly(cfg, s, e.u, e.crash);
    }
    var b := Apply(cfg, s, e).db;
    if b != s.db {
      assert UploadRowsOk(s.db.objects, s.db.files, e.u, s.db.uploads[e.u]);
      StaysScannedKeeps(s.db, b);
    }
  }

  lemma RequestScanned(cfg: Config, s: Sys, e: Event)
    requires UploadEvent(e) && !e.Finalize? && !e.Abort? && !e.TimeOut? && NothingUnscanned(s.db)
    ensures NothingUnscanned(Apply(cfg, s, e).db)
  {
    StaysScannedKeeps(s.db, Apply(cfg, s, e).db);
  }

  lemma WorkerEventScanned(cfg: Config, s: Sys, e: Event)
    requires !UploadEvent(e) && !FileEvent(e) && NothingUnscanned(s.db)
    ensures NothingUnscanned(Apply(cfg, s, e).db)
  {
  }

  lemma StepScanned(cfg: Config, s: Sys, e: Event)
    requires Inv(cfg, s) && NothingUnscanned(s.db)
    ensures NothingUnscanned(Apply(cfg, s, e).db)
  {
    if e.Finalize? {
      FinalizeScanned(cfg, s, e);
    } else if e.Abort? || e.TimeOut? {
      EndScanned(cfg, s, e);
    } else if UploadEvent(e) {
      RequestScanned(cfg, s, e);
    } else if FileEvent(e) {
      FileEventScanned(cfg, s, e);
    } else {
      WorkerEventScanned(cfg, s, e);
    }
  }

  lemma {:induction false} RunScanned(cfg: Config, s: Sys, es: seq<Event>)
    requires Inv(cfg, s) && AllAssumed(cfg, s, es) && NothingUnscanned(s.db)
    ensures NothingUnscanned(Run(cfg, s, es).db)
  {
    if |es| > 0 {
      var n := |es| - 1;
      forall i | 0 <= i < n
        ensures Assumed(Run(cfg, s, es[..n][..i]), es[..n][i])
      {
        assert es[..n][..i] == es[..i];
      }
      RunScanned(cfg, s, es[..n]);
      RunKeeps(cfg, s, es[..n]);
      StepScanned(cfg, Run(cfg, s, es[..n]), es[n]);
    }
  }

  /** In every reachable state, whatever was copied, restored, replaced or lifted: nothing unscanned is available. */
  lemma UnscannedIsNeverAvailable(cfg: Config, s: Sys, f: nat)
    requires Reachable(cfg, s) && f < |s.db.files| && s.db.files[f].state == AVAILABLE
    ensures s.db.files[f].obj < |s.db.objects|
    ensures s.db.objects[s.db.files[f].obj].state !in {PROCESSING, QUARANTINED, PURGED}
  {
    var free, es :| AllAssumed(cfg, EmptySystem(free), es) && s == Run(cfg, EmptySystem(free), es);
    RunScanned(cfg, EmptySystem(free), es);
    ReachableInv(cfg, s);
    var o := s.db.files[f].obj;
    assert FileOk(s.db.uploads, f, s.db.files[f]);
    assert UploadRowsOk(s.db.objects, s.db.files, o, s.db.uploads[o]);
  }
}
