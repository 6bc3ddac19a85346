/** Admission of uploads: what is admitted, and the limits that therefore hold in every reachable state. */
module Limits {
  import opened Base
  import opened Planning
  import opened Catalog
  import opened Transactions
  import opened Runs
  import opened Integrity
  import opened Safety
  import opened Quota
  import Completion
  import Delivery

  /** The tables with one more upload: a new object, its file and the upload, with nothing sent yet. */
  function WithUpload(cfg: Config, db: Db, owner: nat, size: nat, mime: string): Db {
    Db(db.objects + [ObjectRow(size, None, "", PROCESSING, NoJob)],
       db.files + [FileRow(owner, |db.objects|, PROCESSING, 1, mime)],
       db.uploads + [UploadRow(owner, |db.files|, |db.objects|, size, PartSize(size, cfg.partMiB), CREATED, NoError,
                               None, seq(10000, _ => None), 0)],
       db.versions)
  }

  /** The bounds an account's uploads are under. */
  predicate UploadsBounded(cfg: Config, db: Db, owner: nat) {
    && IncompleteUploads(db.uploads, owner) <= cfg.policy(owner).concurrentUploads
    && IncompleteUploads(db.uploads, owner) <= cfg.incompleteUploadLimit
    && ReservedBytes(db, owner) <= cfg.incompleteReserved
    && forall u :: 0 <= u < |db.uploads| && db.uploads[u].owner == owner && Counted(db.uploads[u]) ==>
         db.uploads[u].size <= cfg.policy(owner).fileBytes
  }

  lemma {:induction false} IncompleteMore(uploads: seq<UploadRow>, u: UploadRow, owner: nat)
    ensures IncompleteUploads(uploads + [u], owner) ==
      IncompleteUploads(uploads, owner) + (if u.owner == owner && Counted(u) then 1 else 0)
  {
    assert (uploads + [u])[..|uploads|] == uploads;
  }

  lemma {:induction false} ReservationsMore(cfg: Config, db: Db, owner: nat, size: nat, mime: string)
    ensures var db' := WithUpload(cfg, db, owner, size, mime);
      && Sum(Reservations(db'.uploads)) == Sum(Reservations(db.uploads)) + size
      && ReservedBytes(db', owner) == ReservedBytes(db, owner) + size
      && IncompleteUploads(db'.uploads, owner) == IncompleteUploads(db.uploads, owner) + 1
  {
    var db' := WithUpload(cfg, db, owner, size, mime);
    assert Reservations(db'.uploads) == Reservations(db.uploads) + [size];
    SumAppend(Reservations(db.uploads), size);
    assert UploadCharges(db', owner) == UploadCharges(db, owner) + [size];
    SumAppend(UploadCharges(db, owner), size);
    IncompleteMore(db.uploads, db'.uploads[|db.uploads|], owner);
  }

  /**
   Admission refuses exactly what would break a limit: an upload is created if and only if it is not empty, its
   period allowance holds, and with its rows the account is within its bounds and its storage and the disk,
   once every reservation is written, above both floors.
   */
  lemma AdmissionExactly(cfg: Config, s: Sys, owner: nat, size: nat, mime: string, allowed: bool)
    requires Inv(cfg, s) && UploadsBounded(cfg, s.db, owner)
    ensures var db' := WithUpload(cfg, s.db, owner, size, mime);
      CreateTx(cfg, s, owner, size, mime, allowed) ==
        if && size > 0 && allowed && UploadsBounded(cfg, db', owner)
           && Balance(db', owner) <= cfg.policy(owner).storageBytes
           && s.store.free - Sum(Reservations(db'.uploads)) >= cfg.minimumFree
           && s.store.free - Sum(Reservations(db'.uploads)) >= cfg.criticalFree
        then Some(db') else None
  {
    var db' := WithUpload(cfg, s.db, owner, size, mime);
    ReservationsMore(cfg, s.db, owner, size, mime);
    BalanceMore(cfg, s, owner, size, mime);
    var row := db'.uploads[|s.db.uploads|];
    assert row.owner == owner && Counted(row) && row.size == size;
    assert NewUpload(cfg, s.db, owner, size) == row;
  }

  lemma BalanceMore(cfg: Config, s: Sys, owner: nat, size: nat, mime: string)
    requires Inv(cfg, s)
    ensures Balance(WithUpload(cfg, s.db, owner, size, mime), owner) == Balance(s.db, owner) + size
  {
    var db' := WithUpload(cfg, s.db, owner, size, mime);
    forall f | 0 <= f < |s.db.files|
      ensures s.db.files[f].obj < |s.db.objects|
    {
      assert FileOk(s.db.uploads, f, s.db.files[f]);
    }
    assert FileCharges(db', owner) == FileCharges(s.db, owner) + [0];
    SumAppend(FileCharges(s.db, owner), 0);
    forall v | 0 <= v < |s.db.versions|
      ensures VersionCharge(db', db'.versions[v], owner) == VersionCharge(s.db, s.db.versions[v], owner)
    {
      assert VersionOk(s.db.uploads, s.db.files, s.db.versions[v]);
    }
    assert VersionCharges(db', db'.versions, owner) == VersionCharges(s.db, s.db.versions, owner);
    ReservationsMore(cfg, s.db, owner, size, mime);
  }

  // The bounds hold in every run.

  ghost predicate AllBounded(cfg: Config, db: Db) {
    forall owner {:trigger UploadsBounded(cfg, db, owner)} :: UploadsBounded(cfg, db, owner)
  }

  /** The rows settle: no upload starts to count again. */
  ghost predicate RowsSettle(a: seq<UploadRow>, b: seq<UploadRow>) {
    |a| == |b| && forall u {:trigger b[u]} :: 0 <= u < |a| ==> UploadSettles(a[u], b[u])
  }

  lemma {:induction false} FewerIncomplete(a: seq<UploadRow>, b: seq<UploadRow>, owner: nat)
    requires RowsSettle(a, b)
    ensures IncompleteUploads(b, owner) <= IncompleteUploads(a, owner)
  {
    if |a| > 0 {
      var n := |a| - 1;
      assert UploadSettles(a[n], b[n]);
      FewerIncomplete(a[..n], b[..n], owner);
    }
  }

  lemma SettledIsBounded(cfg: Config, a: Db, b: Db)
    requires AllBounded(cfg, a) && RowsSettle(a.uploads, b.uploads)
    ensures AllBounded(cfg, b)
  {
    forall owner: nat
      ensures UploadsBounded(cfg, b, owner)
    {
      assert UploadsBounded(cfg, a, owner);
      FewerIncomplete(a.uploads, b.uploads, owner);
      forall u | 0 <= u < |a.uploads|
        ensures UploadCharges(b, owner)[u] <= UploadCharges(a, owner)[u]
      {
        assert UploadSettles(a.uploads[u], b.uploads[u]);
      }
      SumMonotone(UploadCharges(b, owner), UploadCharges(a, owner));
    }
  }

  /** A row whose session could not be opened keeps saying so. */
  lemma ErrorStays(cfg: Config, s: Sys, e: Event, u: nat)
    requires Inv(cfg, s) && Assumed(s, e) && u < |s.db.uploads| && s.db.uploads[u].error == INIT_FAILED
    ensures u < |Apply(cfg, s, e).db.uploads| && Apply(cfg, s, e).db.uploads[u].error == INIT_FAILED
  {
    assert UploadOk(cfg, s.db.uploads[u]);
    if !TouchesUploads(e) {
      OtherStepsTouchNoUpload(cfg, s, e);
    } else if e.Finalize? {
      FinalizeSparesError(cfg, s, e, u);
    }
  }

  lemma ObjectsHaveSessions(cfg: Config, s: Sys)
    requires Inv(cfg, s)
    ensures forall k :: k in s.store.objects ==> k < |s.db.uploads| && s.db.uploads[k].session.Some?
  {
    forall k | k in s.store.objects
      ensures k < |s.db.uploads| && s.db.uploads[k].session.Some?
    {
      assert ObjectOk(cfg, s.db.uploads, k, s.store.objects[k]);
    }
  }

  lemma FinalizeSparesError(cfg: Config, s: Sys, e: Event, u: nat)
    requires Inv(cfg, s) && e.Finalize? && u < |s.db.uploads| && s.db.uploads[u].error == INIT_FAILED
    ensures u < |Apply(cfg, s, e).db.uploads| && Apply(cfg, s, e).db.uploads[u].error == INIT_FAILED
  {
    if Apply(cfg, s, e).db != s.db {
      var row, size := Completion.FinalizeIsCompletion(cfg, s, e.u, e.owner, e.puts, e.crash, e.verdict);
      assert UploadOk(cfg, s.db.uploads[u]) && UploadRowsOk(s.db.objects, s.db.files, e.u, s.db.uploads[e.u]);
      ObjectsHaveSessions(cfg, s);
    }
  }

  lemma StepSettles(cfg: Config, s: Sys, e: Event)
    requires Inv(cfg, s) && Assumed(s, e) && !e.CreateUpload?
    ensures RowsSettle(s.db.uploads, Apply(cfg, s, e).db.uploads)
  {
    var after := Apply(cfg, s, e).db.uploads;
    StepKeeps(cfg, s, e);
    StepRespectsUploads(cfg, s, e);
    Delivery.OnlyCreatingAddsUploads(cfg, s, e);
    forall u | 0 <= u < |after|
      ensures UploadSettles(s.db.uploads[u], after[u])
    {
      assert UploadOk(cfg, s.db.uploads[u]) && UploadOk(cfg, after[u]) && UploadStep(s.db.uploads[u], after[u]);
      if s.db.uploads[u].error == INIT_FAILED {
        ErrorStays(cfg, s, e, u);
      }
    }
  }

  lemma CreateIsBounded(cfg: Config, s: Sys, owner: nat, size: nat, mime: string, allowed: bool)
    requires Inv(cfg, s) && AllBounded(cfg, s.db)
    ensures AllBounded(cfg, Commit(s, CreateTx(cfg, s, owner, size, mime, allowed)).db)
  {
    var r := CreateTx(cfg, s, owner, size, mime, allowed);
    if r.Some? {
      forall who: nat
        ensures UploadsBounded(cfg, r.value, who)
      {
        assert UploadsBounded(cfg, s.db, who);
        AdmissionExactly(cfg, s, who, size, mime, allowed);
        if who == owner {
          assert r.value == WithUpload(cfg, s.db, owner, size, mime);
        } else {
          IncompleteMore(s.db.uploads, r.value.uploads[|s.db.uploads|], who);
          CreateReserves(cfg, s, owner, size, mime, allowed, who);
        }
      }
    }
  }

  lemma StepIsBounded(cfg: Config, s: Sys, e: Event)
    requires Inv(cfg, s) && Assumed(s, e) && AllBounded(cfg, s.db)
    ensures AllBounded(cfg, Apply(cfg, s, e).db)
  {
    if e.CreateUpload? {
      CreateIsBounded(cfg, s, e.owner, e.size, e.mime, e.allowed);
    } else {
      StepSettles(cfg, s, e);
      SettledIsBounded(cfg, s.db, Apply(cfg, s, e).db);
    }
  }

  lemma {:induction false} RunIsBounded(cfg: Config, s: Sys, es: seq<Event>)
    requires Inv(cfg, s) && AllAssumed(cfg, s, es) && AllBounded(cfg, s.db)
    ensures AllBounded(cfg, Run(cfg, s, es).db)
  {
    if |es| > 0 {
      var n := |es| - 1;
      forall i | 0 <= i < n
        ensures Assumed(Run(cfg, s, es[..n][..i]), es[..n][i])
      {
        assert es[..n][..i] == es[..i];
      }
      RunIsBounded(cfg, s, es[..n]);
      RunKeeps(cfg, s, es[..n]);
      StepIsBounded(cfg, Run(cfg, s, es[..n]), es[n]);
    }
  }

  /** In every reachable state every account is within its limits on running uploads, reservations and file size. */
  lemma LimitsAlwaysHold(cfg: Config, s: Sys, owner: nat)
    requires Reachable(cfg, s)
    ensures UploadsBounded(cfg, s.db, owner)
  {
    var free, es :| AllAssumed(cfg, EmptySystem(free), es) && s == Run(cfg, EmptySystem(free), es);
    RunIsBounded(cfg, EmptySystem(free), es);
    assert UploadsBounded(cfg, s.db, owner);
  }
}
