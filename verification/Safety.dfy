/** What holds in every state any run can reach: end-to-end integrity and crash-safe completion. */
module Safety {
  import opened Base
  import opened Planning
  import opened ObjectStore
  import opened Catalog
  import opened Transactions
  import opened Runs
  import opened Integrity
  import Completion
  import Versions

  predicate FileEvent(e: Event) {
    e.Bulk? || e.Edit? || e.Override? || e.EndFile? || e.Replace? || e.Prune?
  }

  predicate UploadEvent(e: Event) {
    e.CreateUpload? || e.InitUpload? || e.Sign? || e.PutPartBytes? || e.Ack? || e.Status? || e.Finalize?
      || e.RecordFailure? || e.Abort? || e.TimeOut?
  }

  lemma UploadEventKeeps(cfg: Config, s: Sys, e: Event)
    requires Inv(cfg, s) && Assumed(s, e) && UploadEvent(e)
    ensures Inv(cfg, Apply(cfg, s, e))
  {
    match e
    case CreateUpload(owner, size, mime, allowed) => CreateKeeps(cfg, s, owner, size, mime, allowed);
    case InitUpload(u, outcome) => if u < |s.db.uploads| { InitKeeps(cfg, s, u, outcome); }
    case Sign(u, owner, requests, active) => SignKeeps(cfg, s, u, owner, requests, active);
    case PutPartBytes(put) => PutKeeps(cfg, s, put);
    case Ack(u, owner, number, etag) => AckKeeps(cfg, s, u, owner, number, etag);
    case Status(u, owner) => StatusKeeps(cfg, s, u, owner);
    case Finalize(u, owner, puts, crash, verdict) => Completion.FinalizeKeeps(cfg, s, u, owner, puts, crash, verdict);
    case RecordFailure(u, code) => RecordFailureKeeps(cfg, s, u, code);
    case Abort(u, owner, crash) => AbortKeeps(cfg, s, u, owner, crash);
    case TimeOut(u, crash) => TimeOutKeeps(cfg, s, u, crash);
  }

  lemma FileEventKeeps(cfg: Config, s: Sys, e: Event)
    requires Inv(cfg, s) && Assumed(s, e) && FileEvent(e)
    ensures Inv(cfg, Apply(cfg, s, e))
  {
    match e
    case Bulk(owner, ids, action) => BulkKeeps(cfg, s, owner, ids, action);
    case Edit(f, owner, seen) => EditKeeps(cfg, s, f, owner, seen);
    case Override(f, state, newOwner) => OverrideKeeps(cfg, s, f, state, newOwner);
    case EndFile(f, why) => EndFileKeeps(cfg, s, f, why);
    case Replace(owner, f, expected, source, visible, id, now) =>
      if ReplaceTx(cfg, s.db, owner, f, expected, source, visible, id, now).Some? {
        Versions.ReplaceKeeps(cfg, s, owner, f, expected, source, visible, id, now);
      }
    case Prune(f, now) => Versions.PruneKeeps(cfg, s, f, now);
  }

  lemma WorkerEventKeeps(cfg: Config, s: Sys, e: Event)
    requires Inv(cfg, s) && !UploadEvent(e) && !FileEvent(e)
    ensures Inv(cfg, Apply(cfg, s, e))
  {
    match e
    case ClaimPurge(o) => JobsKeep(cfg, s, o, true);
    case RunPurge(o, crash) => RunPurgeKeeps(cfg, s, o, crash);
    case FinishPurge(o, ok) => JobsKeep(cfg, s, o, ok);
    case RestartWorker => JobsKeep(cfg, s, 0, true);
    case Scan(o, clean) => ScanKeeps(cfg, s, o, clean);
    case SweepKey(key, aged, crash) => SweepKeyKeeps(cfg, s, key, aged, crash);
    case SweepSession(session, aged) => SweepSessionKeeps(cfg, s, session, aged);
    case SweepRow(o) => SweepRowKeeps(cfg, s, o);
  }

  lemma StepKeeps(cfg: Config, s: Sys, e: Event)
    requires Inv(cfg, s) && Assumed(s, e)
    ensures Inv(cfg, Apply(cfg, s, e))
  {
    if UploadEvent(e) {
      UploadEventKeeps(cfg, s, e);
    } else if FileEvent(e) {
      FileEventKeeps(cfg, s, e);
    } else {
      WorkerEventKeeps(cfg, s, e);
    }
  }

  /** The invariant holds after every run, from any state in which it holds. */
  lemma {:induction false} RunKeeps(cfg: Config, s: Sys, es: seq<Event>)
    requires Inv(cfg, s) && AllAssumed(cfg, s, es)
    ensures Inv(cfg, Run(cfg, s, es))
  {
    if |es| > 0 {
      var n := |es| - 1;
      forall i | 0 <= i < n
        ensures Assumed(Run(cfg, s, es[..n][..i]), es[..n][i])
      {
        assert es[..n][..i] == es[..i];
      }
      RunKeeps(cfg, s, es[..n]);
      StepKeeps(cfg, Run(cfg, s, es[..n]), es[n]);
    }
  }

  ghost predicate Reachable(cfg: Config, s: Sys) {
    exists free, es :: AllAssumed(cfg, EmptySystem(free), es) && s == Run(cfg, EmptySystem(free), es)
  }

  lemma ReachableInv(cfg: Config, s: Sys)
    requires Reachable(cfg, s)
    ensures Inv(cfg, s)
  {
    var free, es :| AllAssumed(cfg, EmptySystem(free), es) && s == Run(cfg, EmptySystem(free), es);
    RunKeeps(cfg, EmptySystem(free), es);
  }

  // End-to-end integrity.

  /** What a client signs: for every part, the checksum of that slice of the file it holds. */
  ghost predicate SignedFrom(cfg: Config, row: UploadRow, original: Bytes) {
    && row.chunk > 0 && |original| == row.size
    && forall n :: 1 <= n <= PartCount(row.size, row.chunk) && HasPart(row, n) ==>
         row.parts[n - 1].value.checksum == cfg.hash(PartSlice(original, row.chunk, n))
  }

  ghost predicate CollisionFree(hash: Bytes -> int) {
    forall a, b {:trigger hash(a), hash(b)} :: hash(a) == hash(b) ==> a == b
  }

  /** Every byte lies in exactly one planned slice; this one. */
  lemma SliceOfByte(size: nat, chunk: nat, i: nat) returns (n: int)
    requires chunk > 0 && i < size
    ensures 1 <= n <= PartCount(size, chunk)
    ensures 0 <= (n - 1) * chunk <= i < Min(n * chunk, size)
  {
    n := i / chunk + 1;
    assert (n - 1) * chunk <= i < n * chunk by {
      assert i == chunk * (i / chunk) + i % chunk;
    }
    var c := PartCount(size, chunk);
    CancelFactor(n - 1, c, chunk);
  }

  /** Two byte strings whose planned slices agree are equal. */
  lemma SlicesDetermine(a: Bytes, b: Bytes, chunk: nat)
    requires chunk > 0 && |a| == |b|
    requires forall n :: 1 <= n <= PartCount(|a|, chunk) ==> PartSlice(a, chunk, n) == PartSlice(b, chunk, n)
    ensures a == b
  {
    forall i | 0 <= i < |a|
      ensures a[i] == b[i]
    {
      var n := SliceOfByte(|a|, chunk, i);
      var start := (n - 1) * chunk;
      assert PartSlice(a, chunk, n)[i - start] == a[i];
      assert PartSlice(b, chunk, n)[i - start] == b[i];
    }
  }

  /**
   A file the owner can list as stored has bytes, and they are the planned parts of its upload in
   order, each with the checksum the database recorded when that part was first signed.
   */
  lemma StoredFilesAreAssembled(cfg: Config, s: Sys, f: nat)
    requires Reachable(cfg, s) && f < |s.db.files| && Charged(s.db.files[f])
    ensures var o := s.db.files[f].obj;
      && o < |s.db.uploads| && s.db.uploads[o].state == COMPLETE && o in s.store.objects
      && Assembled(cfg, s.db.uploads[o], s.store.objects[o])
  {
    ReachableInv(cfg, s);
    var o := s.db.files[f].obj;
    assert FileOk(s.db.uploads, f, s.db.files[f]);
    assert UploadRowsOk(s.db.objects, s.db.files, o, s.db.uploads[o]);
    assert ObjectOk(cfg, s.db.uploads, o, s.store.objects[o]);
  }

  /** With a collision-free hash the stored bytes are the client's file, byte for byte. */
  lemma StoredFileIsOriginal(cfg: Config, s: Sys, f: nat, original: Bytes)
    requires Reachable(cfg, s) && f < |s.db.files| && Charged(s.db.files[f])
    requires CollisionFree(cfg.hash)
    requires s.db.files[f].obj < |s.db.uploads| && SignedFrom(cfg, s.db.uploads[s.db.files[f].obj], original)
    ensures s.db.files[f].obj in s.store.objects && s.store.objects[s.db.files[f].obj] == original
  {
    StoredFilesAreAssembled(cfg, s, f);
    var row := s.db.uploads[s.db.files[f].obj];
    var content := s.store.objects[s.db.files[f].obj];
    forall n | 1 <= n <= PartCount(|content|, row.chunk)
      ensures PartSlice(content, row.chunk, n) == PartSlice(original, row.chunk, n)
    {
      assert HasPart(row, n);
    }
    SlicesDetermine(content, original, row.chunk);
  }

  // What no step ever does to an upload row.

  /** Recorded checksums, sizes and roles are final; completed and ended uploads stay what they are. */
  ghost predicate UploadStep(a: UploadRow, b: UploadRow) {
    && KeepsParts(a, b)
    && b.size == a.size && b.chunk == a.chunk && b.owner == a.owner && b.file == a.file && b.obj == a.obj
    && (a.session.Some? ==> b.session == a.session)
    && (a.state == COMPLETE ==> b.state == COMPLETE && b.shares == a.shares)
    && (a.state == TIMED_OUT ==> b.state == TIMED_OUT)
    && (a.state == ABORTED ==> Ended(b))
  }

  ghost predicate UploadsStep(a: seq<UploadRow>, b: seq<UploadRow>) {
    |a| <= |b| && forall u {:trigger b[u]} :: 0 <= u < |a| ==> UploadStep(a[u], b[u])
  }

  lemma {:induction false} BulkTouchesNoUpload(cfg: Config, db: Db, owner: nat, ids: seq<nat>, action: BulkAction)
    requires BulkTx(cfg, db, owner, ids, action).Some?
    ensures BulkTx(cfg, db, owner, ids, action).value.uploads == db.uploads
    decreases |ids|
  {
    if |ids| > 0 {
      BulkTouchesNoUpload(cfg, BulkItem(cfg, db, owner, ids[0], action).value, owner, ids[1..], action);
    }
  }

  lemma ReplaceTouchesNoUpload(cfg: Config, db: Db, owner: nat, f: nat, expected: nat, source: Source, visible: bool,
                               id: nat, now: int)
    requires ReplaceTx(cfg, db, owner, f, expected, source, visible, id, now).Some?
    ensures ReplaceTx(cfg, db, owner, f, expected, source, visible, id, now).value.uploads == db.uploads
  {
    var after := ReplaceTx(cfg, db, owner, f, expected, source, visible, id, now).value;
    if after != db {
      Versions.ReplaceShape(cfg, db, owner, f, expected, source, visible, id, now);
    }
  }

  lemma FinalizeUploadStep(cfg: Config, s: Sys, u: nat, owner: nat, puts: seq<Put>, crash: bool, v: Verdict)
    requires UploadsOk(cfg, s.db.uploads)
    ensures UploadsStep(s.db.uploads, FinalizeTx(cfg, s, u, owner, puts, crash, v).0.db.uploads)
  {
    if FinalizeTx(cfg, s, u, owner, puts, crash, v).0.db != s.db {
      var row, size := Completion.FinalizeIsCompletion(cfg, s, u, owner, puts, crash, v);
      CompletedUploadStep(s.db, u, row, size, v);
    }
  }

  lemma CompletedUploadStep(db: Db, u: nat, row: UploadRow, size: nat, v: Verdict)
    requires u < |db.uploads| && RowsExist(db, row) && db.uploads[u].state in {UPLOADING, FINALIZING, FAILED}
    requires row == db.uploads[u].(parts := row.parts) && Completion.SameParts(db.uploads[u].parts, row.parts)
    ensures UploadsStep(db.uploads, CompletedDb(db, u, row, size, v).uploads)
  {
  }

  predicate TouchesUploads(e: Event) {
    e.CreateUpload? || e.InitUpload? || e.Sign? || e.Ack? || e.Status? || e.Finalize? || e.RecordFailure?
      || e.Abort? || e.TimeOut?
  }

  /** File, version, job and store steps leave the upload rows alone. */
  lemma OtherStepsTouchNoUpload(cfg: Config, s: Sys, e: Event)
    requires !TouchesUploads(e)
    ensures Apply(cfg, s, e).db.uploads == s.db.uploads
  {
    match e
    case Bulk(owner, ids, action) =>
      if BulkTx(cfg, s.db, owner, ids, action).Some? {
        BulkTouchesNoUpload(cfg, s.db, owner, ids, action);
      }
    case Replace(owner, f, expected, source, visible, id, now) =>
      if ReplaceTx(cfg, s.db, owner, f, expected, source, visible, id, now).Some? {
        ReplaceTouchesNoUpload(cfg, s.db, owner, f, expected, source, visible, id, now);
      }
    case _ =>
  }

  lemma SignUploadStep(cfg: Config, s: Sys, u: nat, owner: nat, ps: seq<SignRequest>, active: bool)
    requires UploadsOk(cfg, s.db.uploads)
    requires SignTx(cfg, s, u, owner, ps, active).Some?
    ensures UploadsStep(s.db.uploads, SignTx(cfg, s, u, owner, ps, active).value.db.uploads)
  {
    SignedParts(s.db.uploads[u], ps);
  }

  lemma AckUploadStep(db: Db, u: nat, owner: nat, number: int, etag: string)
    requires AckTx(db, u, owner, number, etag).Some?
    ensures UploadsStep(db.uploads, AckTx(db, u, owner, number, etag).value.uploads)
  {
  }

  lemma StatusUploadStep(cfg: Config, s: Sys, u: nat, owner: nat)
    requires StatusTx(cfg, s, u, owner).Some?
    ensures UploadsStep(s.db.uploads, StatusTx(cfg, s, u, owner).value.uploads)
  {
    var db := StatusTx(cfg, s, u, owner).value;
    if db != s.db {
      Completion.ReconcileSameParts(s.db.uploads[u], ListParts(s.store, cfg.hash, s.db.uploads[u].session.value).value);
    }
  }

  lemma EndUploadStep(s: Sys, u: nat, owner: nat, crash: bool)
    ensures UploadsStep(s.db.uploads, AbortTx(s, u, owner, crash).db.uploads)
    ensures UploadsStep(s.db.uploads, TimeOutTx(s, u, crash).db.uploads)
  {
  }

  lemma CreateUploadStep(cfg: Config, s: Sys, owner: nat, size: nat, mime: string, allowed: bool)
    requires CreateTx(cfg, s, owner, size, mime, allowed).Some?
    ensures UploadsStep(s.db.uploads, CreateTx(cfg, s, owner, size, mime, allowed).value.uploads)
  {
  }

  lemma SmallUploadStep(cfg: Config, s: Sys, e: Event)
    requires Assumed(s, e) && (e.InitUpload? || e.RecordFailure?)
    ensures UploadsStep(s.db.uploads, Apply(cfg, s, e).db.uploads)
  {
  }

  lemma PartUploadStep(cfg: Config, s: Sys, e: Event)
    requires UploadsOk(cfg, s.db.uploads) && (e.Sign? || e.Ack? || e.Status?)
    ensures UploadsStep(s.db.uploads, Apply(cfg, s, e).db.uploads)
  {
    match e
    case Sign(u, owner, requests, active) =>
      if SignTx(cfg, s, u, owner, requests, active).Some? { SignUploadStep(cfg, s, u, owner, requests, active); }
    case Ack(u, owner, number, etag) =>
      if AckTx(s.db, u, owner, number, etag).Some? { AckUploadStep(s.db, u, owner, number, etag); }
    case Status(u, owner) =>
      if StatusTx(cfg, s, u, owner).Some? { StatusUploadStep(cfg, s, u, owner); }
  }

  lemma StepRespectsUploads(cfg: Config, s: Sys, e: Event)
    requires UploadsOk(cfg, s.db.uploads) && Assumed(s, e)
    ensures UploadsStep(s.db.uploads, Apply(cfg, s, e).db.uploads)
  {
    match e
    case Finalize(u, owner, puts, crash, verdict) => FinalizeUploadStep(cfg, s, u, owner, puts, crash, verdict);
    case Abort(u, owner, crash) => EndUploadStep(s, u, owner, crash);
    case TimeOut(u, crash) => EndUploadStep(s, u, 0, crash);
    case CreateUpload(owner, size, mime, allowed) =>
      if CreateTx(cfg, s, owner, size, mime, allowed).Some? { CreateUploadStep(cfg, s, owner, size, mime, allowed); }
    case _ =>
      if !TouchesUploads(e) {
        OtherStepsTouchNoUpload(cfg, s, e);
      } else if e.Sign? || e.Ack? || e.Status? {
        PartUploadStep(cfg, s, e);
      } else {
        SmallUploadStep(cfg, s, e);
      }
  }

  lemma UploadsStepTransitive(a: seq<UploadRow>, b: seq<UploadRow>, c: seq<UploadRow>)
    requires UploadsStep(a, b) && UploadsStep(b, c)
    ensures UploadsStep(a, c)
  {
    forall u | 0 <= u < |a|
      ensures UploadStep(a[u], c[u])
    {
      assert UploadStep(a[u], b[u]) && UploadStep(b[u], c[u]);
    }
  }

  lemma {:induction false} NextRespectsUploads(cfg: Config, s: Sys, es: seq<Event>, i: nat)
    requires Inv(cfg, s) && AllAssumed(cfg, s, es) && i < |es|
    ensures UploadsStep(Run(cfg, s, es[..i]).db.uploads, Run(cfg, s, es[..i + 1]).db.uploads)
  {
    PrefixKeeps(cfg, s, es, i);
    RunNext(cfg, s, es, i);
    StepRespectsUploads(cfg, Run(cfg, s, es[..i]), es[i]);
  }

  lemma {:induction false} RunNext(cfg: Config, s: Sys, es: seq<Event>, i: nat)
    requires i < |es|
    ensures Run(cfg, s, es[..i + 1]) == Apply(cfg, Run(cfg, s, es[..i]), es[i])
  {
    assert es[..i + 1][..i] == es[..i];
  }

  /** Any two moments of a run: rows only appear, and each row only steps forward. */
  lemma {:induction false} RunRespectsUploads(cfg: Config, s: Sys, es: seq<Event>, i: nat, j: nat)
    requires Inv(cfg, s) && AllAssumed(cfg, s, es) && i <= j <= |es|
    ensures UploadsStep(Run(cfg, s, es[..i]).db.uploads, Run(cfg, s, es[..j]).db.uploads)
    decreases j
  {
    if i < j {
      RunRespectsUploads(cfg, s, es, i, j - 1);
      NextRespectsUploads(cfg, s, es, j - 1);
      UploadsStepTransitive(Run(cfg, s, es[..i]).db.uploads, Run(cfg, s, es[..j - 1]).db.uploads,
                            Run(cfg, s, es[..j]).db.uploads);
    }
  }

  lemma {:induction false} PrefixKeeps(cfg: Config, s: Sys, es: seq<Event>, i: nat)
    requires Inv(cfg, s) && AllAssumed(cfg, s, es) && i <= |es|
    ensures Inv(cfg, Run(cfg, s, es[..i]))
  {
    forall k | 0 <= k < i
      ensures Assumed(Run(cfg, s, es[..i][..k]), es[..i][k])
    {
      assert es[..i][..k] == es[..k];
    }
    RunKeeps(cfg, s, es[..i]);
  }

  /** The checksum under which a part was first signed is the one it has ever after. */
  lemma {:induction false} FirstChecksumIsFinal(cfg: Config, s: Sys, es: seq<Event>, i: nat, j: nat, u: nat, n: int)
    requires Inv(cfg, s) && AllAssumed(cfg, s, es) && i <= j <= |es|
    requires u < |Run(cfg, s, es[..i]).db.uploads| && HasPart(Run(cfg, s, es[..i]).db.uploads[u], n)
    ensures u < |Run(cfg, s, es[..j]).db.uploads| && HasPart(Run(cfg, s, es[..j]).db.uploads[u], n)
    ensures Run(cfg, s, es[..j]).db.uploads[u].parts[n - 1].value.checksum ==
            Run(cfg, s, es[..i]).db.uploads[u].parts[n - 1].value.checksum
  {
    RunRespectsUploads(cfg, s, es, i, j);
    var a, b := Run(cfg, s, es[..i]).db.uploads[u], Run(cfg, s, es[..j]).db.uploads[u];
    assert UploadStep(a, b);
  }

  // Completion.

  /** FINALIZING is never committed, and no upload ever creates a second share. */
  lemma CommittedStates(cfg: Config, s: Sys, u: nat)
    requires Reachable(cfg, s) && u < |s.db.uploads|
    ensures s.db.uploads[u].state != FINALIZING
    ensures s.db.uploads[u].shares <= 1
    ensures s.db.uploads[u].shares == 1 ==> s.db.uploads[u].state == COMPLETE
  {
    ReachableInv(cfg, s);
  }

  /** An upload goes to COMPLETE in at most one step of a run, and what has ended never completes. */
  lemma {:induction false} CompletesAtMostOnce(cfg: Config, s: Sys, es: seq<Event>, i: nat, j: nat, u: nat)
    requires Inv(cfg, s) && AllAssumed(cfg, s, es) && i < j <= |es|
    requires u < |Run(cfg, s, es[..i]).db.uploads|
    requires Run(cfg, s, es[..i]).db.uploads[u].state in {COMPLETE, ABORTED, TIMED_OUT}
    ensures u < |Run(cfg, s, es[..j]).db.uploads|
    ensures var before, after := Run(cfg, s, es[..i]).db.uploads[u], Run(cfg, s, es[..j]).db.uploads[u];
      && (before.state == COMPLETE <==> after.state == COMPLETE)
      && after.shares == before.shares
      && after.file == before.file
      && (Ended(before) <==> Ended(after))
  {
    RunRespectsUploads(cfg, s, es, i, j);
    PrefixKeeps(cfg, s, es, i);
    PrefixKeeps(cfg, s, es, j);
    assert UploadStep(Run(cfg, s, es[..i]).db.uploads[u], Run(cfg, s, es[..j]).db.uploads[u]);
  }

  /** A second completion of the same upload changes nothing at all: it activates its file at most once. */
  lemma {:induction false} ActivatesAtMostOnce(cfg: Config, s: Sys, es: seq<Event>, i: nat, j: nat)
    requires Inv(cfg, s) && AllAssumed(cfg, s, es) && i < j < |es|
    requires es[i].Finalize? && es[j].Finalize? && es[i].u == es[j].u
    requires Run(cfg, s, es[..i + 1]).db != Run(cfg, s, es[..i]).db
    ensures Run(cfg, s, es[..j + 1]) == Run(cfg, s, es[..j])
  {
    var before, e := Run(cfg, s, es[..i]), es[i];
    RunNext(cfg, s, es, i);
    RunNext(cfg, s, es, j);
    var row, size := Completion.FinalizeIsCompletion(cfg, before, e.u, e.owner, e.puts, e.crash, e.verdict);
    RunRespectsUploads(cfg, s, es, i + 1, j);
    assert UploadStep(Run(cfg, s, es[..i + 1]).db.uploads[e.u], Run(cfg, s, es[..j]).db.uploads[e.u]);
  }

  /**
   ABORTED and EXPIRED are not quite terminal, and this says exactly when they are left, whatever step is
   taken. The second half of a create request writes the row blindly; and the worker's stale-upload
   transaction spares only completed uploads, so it turns an upload aborted after its selection into a
   timed-out one.
   */
  lemma EndedIsLeftExactly(cfg: Config, s: Sys, u: nat, e: Event)
    requires Inv(cfg, s) && u < |s.db.uploads| && Ended(s.db.uploads[u])
    ensures u < |Apply(cfg, s, e).db.uploads|
    ensures var was, row := s.db.uploads[u], Apply(cfg, s, e).db.uploads[u];
      && (!Ended(row) <==> LateInit(e, u))
      && (Ended(row) && row.state != was.state <==> was.state == ABORTED && e == TimeOut(u, false))
  {
    assert UploadRowsOk(s.db.objects, s.db.files, u, s.db.uploads[u]);
    if !TouchesUploads(e) {
      OtherStepsTouchNoUpload(cfg, s, e);
    } else if e.Finalize? {
      FinalizeTouchesOne(cfg, s, e.u, e.owner, e.puts, e.crash, e.verdict, u);
    } else if e.TimeOut? {
      TimeOutTouchesOne(cfg, s, e.u, e.crash, u);
    } else if !e.InitUpload? {
      RequestSparesEnded(cfg, s, e, u);
    }
  }

  /** The second half of the create request of upload u, writing its row. */
  predicate LateInit(e: Event, u: nat) {
    e.InitUpload? && e.u == u && e.outcome != CrashAfterCreate
  }

  lemma TimeOutTouchesOne(cfg: Config, s: Sys, u: nat, crash: bool, x: nat)
    requires Inv(cfg, s) && x < |s.db.uploads| && Ended(s.db.uploads[x])
    ensures x < |TimeOutTx(s, u, crash).db.uploads|
    ensures TimeOutTx(s, u, crash).db.uploads[x].state ==
      if x == u && !crash then TIMED_OUT else s.db.uploads[x].state
  {
    assert UploadRowsOk(s.db.objects, s.db.files, x, s.db.uploads[x]);
  }

  lemma RequestSparesEnded(cfg: Config, s: Sys, e: Event, u: nat)
    requires TouchesUploads(e) && !e.Finalize? && !e.TimeOut? && !e.InitUpload?
    requires u < |s.db.uploads| && Ended(s.db.uploads[u])
    ensures u < |Apply(cfg, s, e).db.uploads| && Apply(cfg, s, e).db.uploads[u].state == s.db.uploads[u].state
  {
  }

  lemma FinalizeTouchesOne(cfg: Config, s: Sys, u: nat, owner: nat, puts: seq<Put>, crash: bool, v: Verdict, x: nat)
    requires x < |s.db.uploads| && (x != u || s.db.uploads[x].state in {ABORTED, TIMED_OUT, CREATED})
    ensures x < |FinalizeTx(cfg, s, u, owner, puts, crash, v).0.db.uploads|
    ensures FinalizeTx(cfg, s, u, owner, puts, crash, v).0.db.uploads[x] == s.db.uploads[x]
  {
    if FinalizeTx(cfg, s, u, owner, puts, crash, v).0.db != s.db {
      var row, size := Completion.FinalizeIsCompletion(cfg, s, u, owner, puts, crash, v);
    }
  }

  /** Whatever a completion attempt does to the store, an attempt that does not finish leaves the database alone. */
  lemma UnfinishedRollsBack(cfg: Config, s: Sys, u: nat, owner: nat, puts: seq<Put>, crash: bool, v: Verdict)
    requires FinalizeTx(cfg, s, u, owner, puts, crash, v).1.Refused?
    ensures FinalizeTx(cfg, s, u, owner, puts, crash, v).0.db == s.db
  {
  }

  /**
   The store completed but the row rolled back: any later attempt finishes through the existing
   object, without touching the store, and makes the file and its bytes visible together.
   */
  lemma RetrySucceeds(cfg: Config, s: Sys, u: nat, puts: seq<Put>, v: Verdict)
    requires Inv(cfg, s) && u < |s.db.uploads| && u in s.store.objects
    requires s.db.uploads[u].state in {UPLOADING, FAILED}
    ensures var (s', r) := FinalizeTx(cfg, s, u, s.db.uploads[u].owner, puts, false, v);
      && r == Finished(s.db.uploads[u].file)
      && s'.store == s.store
      && s'.db.uploads[u].state == COMPLETE
      && Charged(s'.db.files[s.db.uploads[u].file])
  {
    var row := s.db.uploads[u];
    assert UploadRowsOk(s.db.objects, s.db.files, u, row);
    assert ObjectOk(cfg, s.db.uploads, u, s.store.objects[u]);
  }

  /** A crash between the store's completion and the commit always leaves a state from which retrying succeeds. */
  lemma CrashLeavesRetryable(cfg: Config, s: Sys, u: nat, owner: nat, puts: seq<Put>, v: Verdict)
    requires Inv(cfg, s) && FinalizeTx(cfg, s, u, owner, puts, true, v).1 == Refused(ProcessDied)
    ensures var s' := FinalizeTx(cfg, s, u, owner, puts, true, v).0;
      && Inv(cfg, s') && s'.db == s.db
      && u < |s'.db.uploads| && u in s'.store.objects
      && s'.db.uploads[u].state in {UPLOADING, FAILED}
      && FinalizeTx(cfg, s', u, owner, [], false, v).1 == Finished(s.db.uploads[u].file)
  {
    var s' := FinalizeTx(cfg, s, u, owner, puts, true, v).0;
    Completion.FinalizeKeeps(cfg, s, u, owner, puts, true, v);
    UnfinishedRollsBack(cfg, s, u, owner, puts, true, v);
    assert UploadRowsOk(s.db.objects, s.db.files, u, s.db.uploads[u]);
    DiedAfterCompletion(cfg, s, u, owner, puts, v);
    RetrySucceeds(cfg, s', u, [], v);
  }

  lemma DiedAfterCompletion(cfg: Config, s: Sys, u: nat, owner: nat, puts: seq<Put>, v: Verdict)
    requires FinalizeTx(cfg, s, u, owner, puts, true, v).1 == Refused(ProcessDied)
    ensures u < |s.db.uploads| && s.db.uploads[u].owner == owner
    ensures s.db.uploads[u].obj in FinalizeTx(cfg, s, u, owner, puts, true, v).0.store.objects
    ensures s.db.uploads[u].state in {UPLOADING, FINALIZING, FAILED}
  {
  }

  /**
   A refusal the completion route records was about an upload with a session, and sessions stay recorded:
   the separate update that follows never meets a row without one, whatever came in between.
   */
  lemma {:induction false} FailureIsRecorded(cfg: Config, s: Sys, es: seq<Event>, i: nat, j: nat, code: ErrorCode)
    requires Inv(cfg, s) && AllAssumed(cfg, s, es) && i < j <= |es| && es[i].Finalize?
    requires var e := es[i];
      FinalizeTx(cfg, Run(cfg, s, es[..i]), e.u, e.owner, e.puts, e.crash, e.verdict).1 in
        {Refused(PartIntegrity), Refused(Incomplete), Refused(SizeDiffers)}
    requires code in {INCOMPLETE_UPLOAD, PART_INTEGRITY, OBJECT_INTEGRITY}
    ensures var u, db := es[i].u, Run(cfg, s, es[..j]).db;
      && u < |db.uploads| && db.uploads[u].owner == es[i].owner
      && RecordFailureTx(db, u, code) ==
           if db.uploads[u].state == COMPLETE then db else SetUpload(db, u, db.uploads[u].(error := code))
  {
    var e, before := es[i], Run(cfg, s, es[..i]);
    PrefixKeeps(cfg, s, es, i);
    Completion.RecordedRefusalHasSession(cfg, before, e.u, e.owner, e.puts, e.crash, e.verdict);
    RunRespectsUploads(cfg, s, es, i, j);
    assert UploadStep(before.db.uploads[e.u], Run(cfg, s, es[..j]).db.uploads[e.u]);
  }
}
