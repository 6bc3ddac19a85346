/** Storage quotas: no step takes an account's used plus reserved bytes over its entitlement. */
module Quota {
  import opened Base
  import opened ObjectStore
  import opened Catalog
  import opened Transactions
  import opened Runs
  import opened Integrity
  import opened Safety
  import Completion
  import Versions

  ghost predicate WithinQuota(cfg: Config, db: Db) {
    forall owner {:trigger Balance(db, owner)} :: Balance(db, owner) <= cfg.policy(owner).storageBytes
  }

  // Sums over tables.

  /** Row by row no charge grows, so no balance does. */
  lemma ChargesShrink(a: Db, b: Db, owner: nat)
    requires |a.files| == |b.files| && |a.versions| == |b.versions| && |a.uploads| == |b.uploads|
    requires forall f :: 0 <= f < |a.files| ==> FileCharge(b, b.files[f], owner) <= FileCharge(a, a.files[f], owner)
    requires forall v :: 0 <= v < |a.versions| ==>
      VersionCharge(b, b.versions[v], owner) <= VersionCharge(a, a.versions[v], owner)
    requires forall u :: 0 <= u < |a.uploads| ==> UploadCharge(b.uploads[u], owner) <= UploadCharge(a.uploads[u], owner)
    ensures Balance(b, owner) <= Balance(a, owner)
  {
    SumMonotone(FileCharges(b, owner), FileCharges(a, owner));
    SumMonotone(VersionCharges(b, b.versions, owner), VersionCharges(a, a.versions, owner));
    SumMonotone(UploadCharges(b, owner), UploadCharges(a, owner));
  }

  predicate SameSizes(a: seq<ObjectRow>, b: seq<ObjectRow>) {
    |a| == |b| && forall o :: 0 <= o < |a| ==> a[o].expected == b[o].expected
  }

  predicate UploadSettles(a: UploadRow, b: UploadRow) {
    b.owner == a.owner && b.size == a.size && (Counted(b) ==> Counted(a))
  }

  predicate FileSettles(a: FileRow, b: FileRow) {
    b.owner == a.owner && b.obj == a.obj && (Charged(b) ==> Charged(a))
  }

  /** Steps that neither add a row, nor move a file to another owner or object, nor revive a charge. */
  lemma SettlingKeeps(cfg: Config, a: Db, b: Db)
    requires WithinQuota(cfg, a)
    requires b.versions == a.versions && |b.files| == |a.files| && |b.uploads| == |a.uploads|
    requires SameSizes(a.objects, b.objects)
    requires forall f :: 0 <= f < |a.files| ==> FileSettles(a.files[f], b.files[f])
    requires forall u :: 0 <= u < |a.uploads| ==> UploadSettles(a.uploads[u], b.uploads[u])
    ensures WithinQuota(cfg, b)
  {
    forall owner: nat
      ensures Balance(b, owner) <= cfg.policy(owner).storageBytes
    {
      forall f | 0 <= f < |a.files|
        ensures FileCharge(b, b.files[f], owner) <= FileCharge(a, a.files[f], owner)
      {
        assert FileSettles(a.files[f], b.files[f]);
      }
      forall u | 0 <= u < |a.uploads|
        ensures UploadCharge(b.uploads[u], owner) <= UploadCharge(a.uploads[u], owner)
      {
        assert UploadSettles(a.uploads[u], b.uploads[u]);
      }
      ChargesShrink(a, b, owner);
      assert Balance(a, owner) <= cfg.policy(owner).storageBytes;
    }
  }

  /** A new upload adds its size to the reservations of its owner and nothing else. */
  lemma CreateReserves(cfg: Config, s: Sys, owner: nat, size: nat, mime: string, allowed: bool, who: nat)
    requires Inv(cfg, s) && CreateTx(cfg, s, owner, size, mime, allowed).Some?
    ensures var db := CreateTx(cfg, s, owner, size, mime, allowed).value;
      && UsedBytes(db, who) == UsedBytes(s.db, who)
      && ReservedBytes(db, who) == ReservedBytes(s.db, who) + (if who == owner then size else 0)
  {
    var db := CreateTx(cfg, s, owner, size, mime, allowed).value;
    CreateCharges(cfg, s, owner, size, mime, allowed, who);
    var last := if who == owner then size else 0;
    SumAppend(FileCharges(s.db, who), 0);
    SumAppend(UploadCharges(s.db, who), last);
  }

  /** Row by row. */
  lemma CreateCharges(cfg: Config, s: Sys, owner: nat, size: nat, mime: string, allowed: bool, who: nat)
    requires Inv(cfg, s) && CreateTx(cfg, s, owner, size, mime, allowed).Some?
    ensures var db := CreateTx(cfg, s, owner, size, mime, allowed).value;
      && FileCharges(db, who) == FileCharges(s.db, who) + [0]
      && VersionCharges(db, db.versions, who) == VersionCharges(s.db, s.db.versions, who)
      && UploadCharges(db, who) == UploadCharges(s.db, who) + [if who == owner then size else 0]
  {
    var db := CreateTx(cfg, s, owner, size, mime, allowed).value;
    forall f | 0 <= f < |s.db.files|
      ensures s.db.files[f].obj < |s.db.objects|
    {
      assert FileOk(s.db.uploads, f, s.db.files[f]);
    }
    forall v | 0 <= v < |s.db.versions|
      ensures VersionCharge(db, db.versions[v], who) == VersionCharge(s.db, s.db.versions[v], who)
    {
      assert VersionOk(s.db.uploads, s.db.files, s.db.versions[v]);
    }
  }

  lemma CreateKeepsQuota(cfg: Config, s: Sys, owner: nat, size: nat, mime: string, allowed: bool)
    requires Inv(cfg, s) && WithinQuota(cfg, s.db) && CreateTx(cfg, s, owner, size, mime, allowed).Some?
    ensures WithinQuota(cfg, CreateTx(cfg, s, owner, size, mime, allowed).value)
  {
    var db := CreateTx(cfg, s, owner, size, mime, allowed).value;
    forall who: nat
      ensures Balance(db, who) <= cfg.policy(who).storageBytes
    {
      CreateReserves(cfg, s, owner, size, mime, allowed, who);
      assert Balance(s.db, who) <= cfg.policy(who).storageBytes;
    }
  }

  /** A copy charges the object's expected size to its owner once more. */
  lemma CopyCharges(db: Db, row: FileRow, who: nat)
    requires forall v :: 0 <= v < |db.versions| ==> db.versions[v].file < |db.files|
    ensures var after := db.(files := db.files + [row]);
      Balance(after, who) == Balance(db, who) + FileCharge(db, row, who)
  {
    var after := db.(files := db.files + [row]);
    assert FileCharges(after, who) == FileCharges(db, who) + [FileCharge(db, row, who)];
    SumAppend(FileCharges(db, who), FileCharge(db, row, who));
    assert VersionCharges(after, after.versions, who) == VersionCharges(db, db.versions, who);
    assert UploadCharges(after, who) == UploadCharges(db, who);
  }

  lemma BulkItemKeepsQuota(cfg: Config, s: Sys, owner: nat, f: nat, action: BulkAction)
    requires Inv(cfg, s) && WithinQuota(cfg, s.db) && BulkItem(cfg, s.db, owner, f, action).Some?
    ensures WithinQuota(cfg, BulkItem(cfg, s.db, owner, f, action).value)
  {
    var db := BulkItem(cfg, s.db, owner, f, action).value;
    if action == Copy {
      var row := FileRow(owner, s.db.files[f].obj, AVAILABLE, 1, s.db.files[f].mime);
      forall v | 0 <= v < |s.db.versions|
        ensures s.db.versions[v].file < |s.db.files|
      {
        assert VersionOk(s.db.uploads, s.db.files, s.db.versions[v]);
      }
      forall who: nat
        ensures Balance(db, who) <= cfg.policy(who).storageBytes
      {
        CopyCharges(s.db, row, who);
        assert Balance(s.db, who) <= cfg.policy(who).storageBytes;
      }
    } else {
      SettlingKeeps(cfg, s.db, db);
    }
  }

  lemma {:induction false} BulkKeepsQuota(cfg: Config, s: Sys, owner: nat, ids: seq<nat>, action: BulkAction)
    requires Inv(cfg, s) && WithinQuota(cfg, s.db) && BulkTx(cfg, s.db, owner, ids, action).Some?
    ensures WithinQuota(cfg, BulkTx(cfg, s.db, owner, ids, action).value)
    decreases |ids|
  {
    if |ids| > 0 {
      BulkItemKeepsQuota(cfg, s, owner, ids[0], action);
      BulkItemKeeps(cfg, s, owner, ids[0], action);
      BulkKeepsQuota(cfg, s.(db := BulkItem(cfg, s.db, owner, ids[0], action).value), owner, ids[1..], action);
    }
  }

  // Completing and ending.

  /** Completing moves exactly the upload's size from reserved to used. */
  lemma CompletionMoves(cfg: Config, s: Sys, u: nat, row: UploadRow, size: nat, v: Verdict, who: nat)
    requires Inv(cfg, s) && u < |s.db.uploads| && RowsExist(s.db, row)
    requires s.db.uploads[u].state in {UPLOADING, FAILED} && s.db.uploads[u].session.Some?
    requires row == s.db.uploads[u].(parts := row.parts)
    ensures var db := CompletedDb(s.db, u, row, size, v);
      var moved := if who == row.owner then row.size else 0;
      && UsedBytes(db, who) == UsedBytes(s.db, who) + moved
      && ReservedBytes(db, who) == ReservedBytes(s.db, who) - moved
  {
    var db := CompletedDb(s.db, u, row, size, v);
    assert UploadRowsOk(s.db.objects, s.db.files, u, s.db.uploads[u]);
    CompletedCharges(s.db, u, row, size, v, who);
    CompletedPair(s, u, row, size, v, who);
    SumDiffersAt(FileCharges(s.db, who), FileCharges(db, who), row.file);
    SumDiffersAt(UploadCharges(s.db, who), UploadCharges(db, who), u);
  }

  lemma CompletedPair(s: Sys, u: nat, row: UploadRow, size: nat, v: Verdict, who: nat)
    requires u < |s.db.uploads| && RowsExist(s.db, row) && UploadRowsOk(s.db.objects, s.db.files, u, s.db.uploads[u])
    requires s.db.uploads[u].state in {UPLOADING, FAILED} && s.db.uploads[u].error != INIT_FAILED
    requires row == s.db.uploads[u].(parts := row.parts)
    ensures var db := CompletedDb(s.db, u, row, size, v);
      var charge := if who == row.owner then row.size else 0;
      && FileCharges(s.db, who)[row.file] == 0 && FileCharges(db, who)[row.file] == charge
      && UploadCharges(s.db, who)[u] == charge && UploadCharges(db, who)[u] == 0
  {
  }

  /** Completing an upload changes one file's charge and one upload's. */
  lemma CompletedCharges(db: Db, u: nat, row: UploadRow, size: nat, v: Verdict, who: nat)
    requires u < |db.uploads| && RowsExist(db, row)
    ensures var after := CompletedDb(db, u, row, size, v);
      && VersionCharges(after, after.versions, who) == VersionCharges(db, db.versions, who)
      && (forall f :: 0 <= f < |db.files| && f != row.file ==> FileCharges(after, who)[f] == FileCharges(db, who)[f])
      && (forall x :: 0 <= x < |db.uploads| && x != u ==> UploadCharges(after, who)[x] == UploadCharges(db, who)[x])
  {
  }

  lemma FinalizeKeepsQuota(cfg: Config, s: Sys, u: nat, owner: nat, puts: seq<Put>, crash: bool, v: Verdict)
    requires Inv(cfg, s) && WithinQuota(cfg, s.db)
    ensures WithinQuota(cfg, FinalizeTx(cfg, s, u, owner, puts, crash, v).0.db)
  {
    var db := FinalizeTx(cfg, s, u, owner, puts, crash, v).0.db;
    if db != s.db {
      var row, size := Completion.FinalizeIsCompletion(cfg, s, u, owner, puts, crash, v);
      assert UploadRowsOk(s.db.objects, s.db.files, u, s.db.uploads[u]);
      if u in s.store.objects {
        assert ObjectOk(cfg, s.db.uploads, u, s.store.objects[u]);
      }
      forall who: nat
        ensures Balance(db, who) <= cfg.policy(who).storageBytes
      {
        CompletionMoves(cfg, s, u, row, size, v, who);
        assert Balance(s.db, who) <= cfg.policy(who).storageBytes;
      }
    }
  }

  /** Aborting or timing out releases exactly the reservation, if there was one, and frees nothing else. */
  lemma EndingReleases(cfg: Config, s: Sys, u: nat, state: UploadState, who: nat)
    requires Inv(cfg, s) && u < |s.db.uploads| && RowsExist(s.db, s.db.uploads[u])
    requires s.db.uploads[u].state != COMPLETE && state in {ABORTED, TIMED_OUT}
    ensures var db := EndedDb(s.db, u, state);
      && UsedBytes(db, who) == UsedBytes(s.db, who)
      && ReservedBytes(db, who) == ReservedBytes(s.db, who) - UploadCharge(s.db.uploads[u], who)
  {
    var db := EndedDb(s.db, u, state);
    var row := s.db.uploads[u];
    assert UploadRowsOk(s.db.objects, s.db.files, u, row);
    assert FileOk(s.db.uploads, row.file, s.db.files[row.file]);
    assert FileCharges(db, who) == FileCharges(s.db, who);
    assert VersionCharges(db, db.versions, who) == VersionCharges(s.db, s.db.versions, who);
    SumDiffersAt(UploadCharges(s.db, who), UploadCharges(db, who), u);
  }

  lemma EndKeepsQuota(cfg: Config, s: Sys, u: nat, state: UploadState)
    requires Inv(cfg, s) && WithinQuota(cfg, s.db) && u < |s.db.uploads| && RowsExist(s.db, s.db.uploads[u])
    requires s.db.uploads[u].state != COMPLETE && state in {ABORTED, TIMED_OUT}
    ensures WithinQuota(cfg, EndedDb(s.db, u, state))
  {
    forall who: nat
      ensures Balance(EndedDb(s.db, u, state), who) <= cfg.policy(who).storageBytes
    {
      EndingReleases(cfg, s, u, state, who);
      assert Balance(s.db, who) <= cfg.policy(who).storageBytes;
    }
  }

  // Versions.

  lemma {:induction false} SurvivorsCostLess(db: Db, versions: seq<VersionRow>, among: seq<VersionRow>, f: nat,
                                             r: Retention, who: nat)
    ensures Sum(VersionCharges(db, Survivors(versions, among, f, r), who)) <= Sum(VersionCharges(db, among, who))
  {
    if |among| > 0 {
      var n := |among| - 1;
      SurvivorsCostLess(db, versions, among[..n], f, r, who);
      var before, all := Survivors(versions, among[..n], f, r), Survivors(versions, among, f, r);
      assert VersionCharges(db, among, who)[..n] == VersionCharges(db, among[..n], who);
      if all != before {
        assert VersionCharges(db, all, who) == VersionCharges(db, before, who) + [VersionCharge(db, among[n], who)];
        SumAppend(VersionCharges(db, before, who), VersionCharge(db, among[n], who));
      }
    }
  }

  lemma PruneShrinks(cfg: Config, db: Db, f: nat, now: int, who: nat)
    requires PruneTx(cfg, db, f, now).Some?
    ensures Balance(PruneTx(cfg, db, f, now).value, who) <= Balance(db, who)
  {
    var after := PruneTx(cfg, db, f, now).value;
    assert FileCharges(after, who) == FileCharges(db, who);
    assert UploadCharges(after, who) == UploadCharges(db, who);
    assert VersionCharges(after, after.versions, who) == VersionCharges(db, after.versions, who);
    SurvivorsCostLess(db, db.versions, db.versions, f, RetentionFor(cfg, db.files[f], now), who);
  }

  /** Switching content changes nobody's balance but the owner's. */
  lemma SwitchChargesOwner(db: Db, f: nat, content: Content, id: nat, now: int, who: nat)
    requires f < |db.files| && who != db.files[f].owner
    ensures Balance(Switched(db, f, content, id, now), who) == Balance(db, who)
  {
    var after := Switched(db, f, content, id, now);
    assert FileCharges(after, who) == FileCharges(db, who);
    assert UploadCharges(after, who) == UploadCharges(db, who);
    assert VersionCharges(after, after.versions, who) == VersionCharges(db, db.versions, who) + [0];
    SumAppend(VersionCharges(db, db.versions, who), 0);
  }

  lemma ReplaceKeepsQuota(cfg: Config, db: Db, owner: nat, f: nat, expected: nat, source: Source, visible: bool,
                          id: nat, now: int)
    requires WithinQuota(cfg, db)
    requires ReplaceTx(cfg, db, owner, f, expected, source, visible, id, now).Some?
    ensures WithinQuota(cfg, ReplaceTx(cfg, db, owner, f, expected, source, visible, id, now).value)
  {
    var after := ReplaceTx(cfg, db, owner, f, expected, source, visible, id, now).value;
    if after != db {
      Versions.ReplaceShape(cfg, db, owner, f, expected, source, visible, id, now);
      var content := SourceContent(db, owner, f, source, visible).value;
      forall who: nat
        ensures Balance(after, who) <= cfg.policy(who).storageBytes
      {
        if who != owner {
          SwitchChargesOwner(db, f, content, id, now, who);
          PruneShrinks(cfg, Switched(db, f, content, id, now), f, now, who);
          assert Balance(db, who) <= cfg.policy(who).storageBytes;
        }
      }
    }
  }

  // Reassignment.

  /** The account a file moves to is charged for the file and for its whole history. */
  lemma ReassignmentCharges(cfg: Config, s: Sys, f: nat, state: Option<FileState>, owner: Option<nat>, who: nat)
    requires Inv(cfg, s) && OverrideTx(cfg, s.db, f, state, owner).Some? && f < |s.db.files|
    requires var after := OverrideTx(cfg, s.db, f, state, owner).value;
      f < |after.files| && who == after.files[f].owner && who != s.db.files[f].owner
    ensures var after := OverrideTx(cfg, s.db, f, state, owner).value;
      Balance(after, who) ==
        Balance(s.db, who) + FileCharge(after, after.files[f], who) + Sum(HistoryCharges(s.db, f))
  {
    var after := OverrideTx(cfg, s.db, f, state, owner).value;
    OverrideRows(cfg, s.db, f, state, owner);
    SumDiffersAt(FileCharges(s.db, who), FileCharges(after, who), f);
    assert UploadCharges(after, who) == UploadCharges(s.db, who);
    SumPointwise(VersionCharges(s.db, s.db.versions, who), HistoryCharges(s.db, f),
                 VersionCharges(after, after.versions, who));
  }

  lemma OthersPayNoMore(cfg: Config, s: Sys, f: nat, state: Option<FileState>, owner: Option<nat>, who: nat)
    requires Inv(cfg, s) && Assumed(s, Override(f, state, owner))
    requires OverrideTx(cfg, s.db, f, state, owner).Some? && f < |s.db.files|
    requires var after := OverrideTx(cfg, s.db, f, state, owner).value;
      f < |after.files| && (who != after.files[f].owner || who == s.db.files[f].owner)
    ensures Balance(OverrideTx(cfg, s.db, f, state, owner).value, who) <= Balance(s.db, who)
  {
    var after := OverrideTx(cfg, s.db, f, state, owner).value;
    OverrideRows(cfg, s.db, f, state, owner);
    OverrideStep(cfg, s, f, state, owner);
    assert FileStep(s.db.files[f], after.files[f]);
    ChargesShrink(s.db, after, who);
  }

  /** A file that changes owner takes its own bytes and its whole history along; nobody else pays. */
  lemma OverrideMoves(cfg: Config, s: Sys, f: nat, state: Option<FileState>, owner: Option<nat>, who: nat)
    requires Inv(cfg, s) && Assumed(s, Override(f, state, owner))
    requires OverrideTx(cfg, s.db, f, state, owner).Some?
    ensures var after := OverrideTx(cfg, s.db, f, state, owner).value;
      && f < |s.db.files| && f < |after.files|
      && (if who == after.files[f].owner && who != s.db.files[f].owner
          then Balance(after, who) == Balance(s.db, who) + FileCharge(after, after.files[f], who)
                                      + Sum(HistoryCharges(s.db, f))
          else Balance(after, who) <= Balance(s.db, who))
  {
    var after := OverrideTx(cfg, s.db, f, state, owner).value;
    OverrideRows(cfg, s.db, f, state, owner);
    if who == after.files[f].owner && who != s.db.files[f].owner {
      ReassignmentCharges(cfg, s, f, state, owner, who);
    } else {
      OthersPayNoMore(cfg, s, f, state, owner, who);
    }
  }

  /** What the reassignment checks bounds what the new owner is charged. */
  lemma OverrideChecksCharge(cfg: Config, s: Sys, f: nat, state: Option<FileState>, owner: nat)
    requires Inv(cfg, s) && Assumed(s, Override(f, state, Some(owner)))
    requires OverrideTx(cfg, s.db, f, state, Some(owner)).Some?
    requires f < |s.db.files| && owner != s.db.files[f].owner
    ensures var after := OverrideTx(cfg, s.db, f, state, Some(owner)).value;
      && f < |after.files|
      && Balance(s.db, owner) + FileCharge(after, after.files[f], owner) + Sum(HistoryCharges(s.db, f))
         <= cfg.policy(owner).storageBytes
  {
    var o := s.db.files[f].obj;
    OverrideRows(cfg, s.db, f, state, Some(owner));
    OverrideStep(cfg, s, f, state, Some(owner));
    assert FileOk(s.db.uploads, f, s.db.files[f]);
    assert UploadRowsOk(s.db.objects, s.db.files, o, s.db.uploads[o]);
    var after := OverrideTx(cfg, s.db, f, state, Some(owner)).value;
    assert FileStep(s.db.files[f], after.files[f]);
    assert FileCharge(after, after.files[f], owner) <= SizeOf(s.db.objects[o]);
  }

  lemma OverrideKeepsQuota(cfg: Config, s: Sys, f: nat, state: Option<FileState>, owner: Option<nat>)
    requires Inv(cfg, s) && WithinQuota(cfg, s.db) && Assumed(s, Override(f, state, owner))
    requires OverrideTx(cfg, s.db, f, state, owner).Some?
    ensures WithinQuota(cfg, OverrideTx(cfg, s.db, f, state, owner).value)
  {
    var after := OverrideTx(cfg, s.db, f, state, owner).value;
    OverrideRows(cfg, s.db, f, state, owner);
    forall who: nat
      ensures Balance(after, who) <= cfg.policy(who).storageBytes
    {
      OverrideMoves(cfg, s, f, state, owner, who);
      assert Balance(s.db, who) <= cfg.policy(who).storageBytes;
      if who == after.files[f].owner && who != s.db.files[f].owner {
        OverrideChecksCharge(cfg, s, f, state, who);
      }
    }
  }

  // Whole runs.

  lemma RequestSettles(cfg: Config, s: Sys, e: Event)
    requires Inv(cfg, s) && Assumed(s, e) && WithinQuota(cfg, s.db)
    requires e.InitUpload? || e.Sign? || e.PutPartBytes? || e.Ack? || e.Status? || e.RecordFailure?
    ensures WithinQuota(cfg, Apply(cfg, s, e).db)
  {
    SettlingKeeps(cfg, s.db, Apply(cfg, s, e).db);
  }

  lemma JobSettles(cfg: Config, s: Sys, e: Event)
    requires WithinQuota(cfg, s.db)
    requires e.ClaimPurge? || e.RunPurge? || e.FinishPurge? || e.RestartWorker?
    ensures WithinQuota(cfg, Apply(cfg, s, e).db)
  {
    SettlingKeeps(cfg, s.db, Apply(cfg, s, e).db);
  }

  lemma SweepSettles(cfg: Config, s: Sys, e: Event)
    requires WithinQuota(cfg, s.db)
    requires e.Scan? || e.SweepKey? || e.SweepSession? || e.SweepRow?
    ensures WithinQuota(cfg, Apply(cfg, s, e).db)
  {
    SettlingKeeps(cfg, s.db, Apply(cfg, s, e).db);
  }

  lemma EditSettles(cfg: Config, s: Sys, e: Event)
    requires WithinQuota(cfg, s.db) && (e.Edit? || e.EndFile?)
    ensures WithinQuota(cfg, Apply(cfg, s, e).db)
  {
    SettlingKeeps(cfg, s.db, Apply(cfg, s, e).db);
  }

  lemma PruneKeepsQuota(cfg: Config, db: Db, f: nat, now: int)
    requires WithinQuota(cfg, db) && PruneTx(cfg, db, f, now).Some?
    ensures WithinQuota(cfg, PruneTx(cfg, db, f, now).value)
  {
    forall who: nat
      ensures Balance(PruneTx(cfg, db, f, now).value, who) <= cfg.policy(who).storageBytes
    {
      PruneShrinks(cfg, db, f, now, who);
      assert Balance(db, who) <= cfg.policy(who).storageBytes;
    }
  }

  lemma UploadEventKeepsQuota(cfg: Config, s: Sys, e: Event)
    requires Inv(cfg, s) && Assumed(s, e) && WithinQuota(cfg, s.db) && UploadEvent(e)
    ensures WithinQuota(cfg, Apply(cfg, s, e).db)
  {
    match e
    case CreateUpload(owner, size, mime, allowed) =>
      if CreateTx(cfg, s, owner, size, mime, allowed).Some? {
        CreateKeepsQuota(cfg, s, owner, size, mime, allowed);
      }
    case Finalize(u, owner, puts, crash, verdict) => FinalizeKeepsQuota(cfg, s, u, owner, puts, crash, verdict);
    case Abort(u, owner, crash) =>
      if AbortTx(s, u, owner, crash).db != s.db { EndKeepsQuota(cfg, s, u, ABORTED); }
    case TimeOut(u, crash) =>
      if TimeOutTx(s, u, crash).db != s.db { EndKeepsQuota(cfg, s, u, TIMED_OUT); }
    case _ => RequestSettles(cfg, s, e);
  }

  lemma FileEventKeepsQuota(cfg: Config, s: Sys, e: Event)
    requires Inv(cfg, s) && Assumed(s, e) && WithinQuota(cfg, s.db) && FileEvent(e)
    ensures WithinQuota(cfg, Apply(cfg, s, e).db)
  {
    match e
    case Bulk(owner, ids, action) =>
      if BulkTx(cfg, s.db, owner, ids, action).Some? { BulkKeepsQuota(cfg, s, owner, ids, action); }
    case Override(f, state, newOwner) =>
      if OverrideTx(cfg, s.db, f, state, newOwner).Some? { OverrideKeepsQuota(cfg, s, f, state, newOwner); }
    case Replace(owner, f, expected, source, visible, id, now) =>
      if ReplaceTx(cfg, s.db, owner, f, expected, source, visible, id, now).Some? {
        ReplaceKeepsQuota(cfg, s.db, owner, f, expected, source, visible, id, now);
      }
    case Prune(f, now) => if PruneTx(cfg, s.db, f, now).Some? { PruneKeepsQuota(cfg, s.db, f, now); }
    case _ => EditSettles(cfg, s, e);
  }

  lemma StepKeepsQuota(cfg: Config, s: Sys, e: Event)
    requires Inv(cfg, s) && Assumed(s, e) && WithinQuota(cfg, s.db)
    ensures WithinQuota(cfg, Apply(cfg, s, e).db)
  {
    if UploadEvent(e) {
      UploadEventKeepsQuota(cfg, s, e);
    } else if FileEvent(e) {
      FileEventKeepsQuota(cfg, s, e);
    } else if e.Scan? || e.SweepKey? || e.SweepSession? || e.SweepRow? {
      SweepSettles(cfg, s, e);
    } else {
      JobSettles(cfg, s, e);
    }
  }

  lemma {:induction false} RunKeepsQuota(cfg: Config, s: Sys, es: seq<Event>)
    requires Inv(cfg, s) && AllAssumed(cfg, s, es) && WithinQuota(cfg, s.db)
    ensures WithinQuota(cfg, Run(cfg, s, es).db)
  {
    if |es| > 0 {
      var n := |es| - 1;
      forall i | 0 <= i < n
        ensures Assumed(Run(cfg, s, es[..n][..i]), es[..n][i])
      {
        assert es[..n][..i] == es[..i];
      }
      RunKeepsQuota(cfg, s, es[..n]);
      RunKeeps(cfg, s, es[..n]);
      StepKeepsQuota(cfg, Run(cfg, s, es[..n]), es[n]);
    }
  }

  /** In every reachable state every account is within its storage entitlement. */
  lemma QuotaAlwaysHolds(cfg: Config, s: Sys, owner: nat)
    requires Reachable(cfg, s)
    ensures UsedBytes(s.db, owner) + ReservedBytes(s.db, owner) <= cfg.policy(owner).storageBytes
  {
    var free, es :| AllAssumed(cfg, EmptySystem(free), es) && s == Run(cfg, EmptySystem(free), es);
    RunKeepsQuota(cfg, EmptySystem(free), es);
    assert Balance(s.db, owner) <= cfg.policy(owner).storageBytes;
  }

  // Why the two assumptions are needed.

  ghost predicate Revives(cfg: Config, s: Sys, f: nat, state: FileState) {
    && f < |s.db.files| && s.db.files[f].state == EXPIRED && state in {AVAILABLE, BLOCKED, DELETED}
    && OverrideTx(cfg, s.db, f, Some(state), None).Some?
  }

  lemma RevivalCharges(cfg: Config, db: Db, f: nat, state: FileState, who: nat)
    requires f < |db.files| && db.files[f].state == EXPIRED && state in {AVAILABLE, BLOCKED, DELETED}
    requires OverrideTx(cfg, db, f, Some(state), None).Some?
    ensures Balance(OverrideTx(cfg, db, f, Some(state), None).value, who) ==
      Balance(db, who) + (if who == db.files[f].owner then ExpectedSize(db.objects, db.files[f].obj) else 0)
  {
    var after := OverrideTx(cfg, db, f, Some(state), None).value;
    OverrideRows(cfg, db, f, Some(state), None);
    SumDiffersAt(FileCharges(db, who), FileCharges(after, who), f);
    assert VersionCharges(after, after.versions, who) == VersionCharges(db, db.versions, who);
    assert UploadCharges(after, who) == UploadCharges(db, who);
  }

  /** Bringing an expired file back checks no quota: the owner stays within it exactly when the charge fits. */
  lemma RevivalQuotaExactly(cfg: Config, s: Sys, f: nat, state: FileState)
    requires WithinQuota(cfg, s.db) && Revives(cfg, s, f, state)
    ensures WithinQuota(cfg, OverrideTx(cfg, s.db, f, Some(state), None).value) <==>
      var owner := s.db.files[f].owner;
      Balance(s.db, owner) + ExpectedSize(s.db.objects, s.db.files[f].obj) <= cfg.policy(owner).storageBytes
  {
    var after := OverrideTx(cfg, s.db, f, Some(state), None).value;
    var owner := s.db.files[f].owner;
    RevivalCharges(cfg, s.db, f, state, owner);
    if Balance(after, owner) <= cfg.policy(owner).storageBytes {
      forall who: nat
        ensures Balance(after, who) <= cfg.policy(who).storageBytes
      {
        RevivalCharges(cfg, s.db, f, state, who);
        assert Balance(s.db, who) <= cfg.policy(who).storageBytes;
      }
    }
  }

  /**
   Nor does it look for the bytes: the promise to keep them holds on exactly when they are still there and
   the object's row does not say otherwise. An override to BLOCKED rewrites that row, whatever it said.
   */
  lemma RevivalBytesExactly(cfg: Config, s: Sys, f: nat, state: FileState)
    requires Inv(cfg, s) && Revives(cfg, s, f, state)
    ensures var o := s.db.files[f].obj;
      BytesKept(OverrideTx(cfg, s.db, f, Some(state), None).value, s.store) <==>
        o in s.store.objects && o < |s.db.objects| && (state == BLOCKED || s.db.objects[o].state != PURGED)
  {
    var after := OverrideTx(cfg, s.db, f, Some(state), None).value;
    OverrideRows(cfg, s.db, f, Some(state), None);
    RevivedObject(cfg, s.db, f, state);
    assert Charged(after.files[f]);
  }

  lemma RevivedObject(cfg: Config, db: Db, f: nat, state: FileState)
    requires f < |db.files| && OverrideTx(cfg, db, f, Some(state), None).Some?
    ensures var o := db.files[f].obj;
      && o < |db.objects|
      && OverrideTx(cfg, db, f, Some(state), None).value.objects[o].state ==
           if state == BLOCKED then BLOCKED
           else if state == AVAILABLE then AVAILABLE
           else db.objects[o].state
  {
  }

  /**
   The second half of a create request does not look at the row again. It keeps the invariant exactly
   when the upload was not aborted or timed out in between, or when the process dies before writing.
   */
  lemma LateInitKeepsExactly(cfg: Config, s: Sys, u: nat, outcome: InitOutcome)
    requires Inv(cfg, s) && u < |s.db.uploads|
    requires s.db.uploads[u].session.None? && s.db.uploads[u].error != INIT_FAILED
    ensures Inv(cfg, InitTx(s, u, outcome)) <==> outcome == CrashAfterCreate || !Ended(s.db.uploads[u])
  {
    assert UploadOk(cfg, s.db.uploads[u]);
    assert UploadRowsOk(s.db.objects, s.db.files, u, s.db.uploads[u]);
    if Ended(s.db.uploads[u]) {
      if outcome == CrashAfterCreate {
        NewSessionFrame(cfg, s.db.uploads, s.store, s.db.uploads[u].obj);
      } else {
        var after := InitTx(s, u, outcome);
        assert !UploadRowsOk(after.db.objects, after.db.files, u, after.db.uploads[u]);
      }
    } else {
      InitKeeps(cfg, s, u, outcome);
    }
  }

  /**
   What an account notices: a late second half brings the reservation of an ended upload back without
   asking for room. The quota survives exactly when there is room, or nothing is recorded.
   */
  lemma LateInitQuotaExactly(cfg: Config, s: Sys, u: nat, outcome: InitOutcome)
    requires Inv(cfg, s) && WithinQuota(cfg, s.db) && u < |s.db.uploads| && s.db.uploads[u].session.None?
    ensures var row := s.db.uploads[u];
      WithinQuota(cfg, InitTx(s, u, outcome).db) <==>
        || outcome != Recorded || !Ended(row) || row.error == INIT_FAILED
        || Balance(s.db, row.owner) + row.size <= cfg.policy(row.owner).storageBytes
  {
    var row := s.db.uploads[u];
    var after := InitTx(s, u, outcome).db;
    assert UploadOk(cfg, row);
    forall who: nat
      ensures Balance(after, who) ==
        Balance(s.db, who) + UploadCharge(after.uploads[u], who) - UploadCharge(row, who)
      ensures Balance(s.db, who) <= cfg.policy(who).storageBytes
    {
      InitCharges(s, u, outcome, who);
    }
    assert Balance(after, row.owner) <= cfg.policy(row.owner).storageBytes ==>
      forall who: nat :: Balance(after, who) <= cfg.policy(who).storageBytes;
  }

  lemma InitCharges(s: Sys, u: nat, outcome: InitOutcome, who: nat)
    requires u < |s.db.uploads|
    ensures var after := InitTx(s, u, outcome).db;
      Balance(after, who) ==
        Balance(s.db, who) + UploadCharge(after.uploads[u], who) - UploadCharge(s.db.uploads[u], who)
  {
    var after := InitTx(s, u, outcome).db;
    assert FileCharges(after, who) == FileCharges(s.db, who);
    assert VersionCharges(after, after.versions, who) == VersionCharges(s.db, s.db.versions, who);
    SumDiffersAt(UploadCharges(s.db, who), UploadCharges(after, who), u);
  }
}
