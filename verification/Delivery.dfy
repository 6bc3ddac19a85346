/**
 From the client's file to the stored object: the client signs slices of its file
 (apps/web/src/upload/engine.ts, part), and what ends up stored is that file.
 */
module Delivery {
  import opened Base
  import opened Planning
  import opened ObjectStore
  import opened Catalog
  import opened Transactions
  import opened Runs
  import opened Integrity
  import opened Safety
  import Completion

  /** The slice of part n as the client cuts it, with the byte where it starts and the byte where it ends. */
  function ClientSlice(file: Bytes, chunk: nat, n: nat): Bytes
    requires chunk > 0 && 1 <= n <= PartCount(|file|, chunk)
  {
    PartLengths(|file|, chunk, n);
    file[(n - 1) * chunk..Min(|file|, n * chunk)]
  }

  /** Every checksum the owner's request wants signed for upload u is that of the client's slice. */
  ghost predicate SignsFile(cfg: Config, e: Event, u: nat, owner: nat, file: Bytes) {
    e.Sign? && e.u == u && e.owner == owner ==>
      var chunk := PartSize(|file|, cfg.partMiB);
      chunk > 0 && forall p :: p in e.requests && 1 <= p.number <= PartCount(|file|, chunk) ==>
        p.checksum == cfg.hash(ClientSlice(file, chunk, p.number))
  }

  /** The owner's client always signs slices of its file for upload u; other accounts may ask for anything. */
  ghost predicate ClientSigns(cfg: Config, es: seq<Event>, u: nat, owner: nat, file: Bytes) {
    forall e :: e in es ==> SignsFile(cfg, e, u, owner, file)
  }

  predicate SamePlan(a: UploadRow, b: UploadRow) {
    a.size == b.size && a.chunk == b.chunk && Completion.SameParts(a.parts, b.parts)
  }

  ghost predicate UploadsKeepParts(a: seq<UploadRow>, b: seq<UploadRow>, except: Option<nat>) {
    |a| <= |b| && forall u {:trigger b[u]} :: 0 <= u < |a| && except != Some(u) ==> SamePlan(a[u], b[u])
  }

  lemma FinalizeKeepsParts(cfg: Config, s: Sys, u: nat, owner: nat, puts: seq<Put>, crash: bool, v: Verdict)
    ensures UploadsKeepParts(s.db.uploads, FinalizeTx(cfg, s, u, owner, puts, crash, v).0.db.uploads, None)
  {
    if FinalizeTx(cfg, s, u, owner, puts, crash, v).0.db != s.db {
      var row, size := Completion.FinalizeIsCompletion(cfg, s, u, owner, puts, crash, v);
    }
  }

  lemma SmallStepsKeepParts(cfg: Config, s: Sys, e: Event)
    requires e.CreateUpload? || e.InitUpload? || e.Ack? || e.Status? || e.RecordFailure?
    ensures UploadsKeepParts(s.db.uploads, Apply(cfg, s, e).db.uploads, None)
  {
  }

  lemma SignTouchesOne(cfg: Config, s: Sys, e: Event)
    requires e.Sign?
    ensures UploadsKeepParts(s.db.uploads, Apply(cfg, s, e).db.uploads, Some(e.u))
  {
  }

  lemma EndingKeepsParts(s: Sys, u: nat, owner: nat, crash: bool)
    ensures UploadsKeepParts(s.db.uploads, AbortTx(s, u, owner, crash).db.uploads, None)
    ensures UploadsKeepParts(s.db.uploads, TimeOutTx(s, u, crash).db.uploads, None)
  {
  }

  /** Only signing records parts. */
  lemma OnlySigningAddsParts(cfg: Config, s: Sys, e: Event)
    ensures UploadsKeepParts(s.db.uploads, Apply(cfg, s, e).db.uploads, if e.Sign? then Some(e.u) else None)
  {
    match e
    case Finalize(u, owner, puts, crash, verdict) => FinalizeKeepsParts(cfg, s, u, owner, puts, crash, verdict);
    case Abort(u, owner, crash) => EndingKeepsParts(s, u, owner, crash);
    case TimeOut(u, crash) => EndingKeepsParts(s, u, 0, crash);
    case Sign(_, _, _, _) => SignTouchesOne(cfg, s, e);
    case _ =>
      if TouchesUploads(e) {
        SmallStepsKeepParts(cfg, s, e);
      } else {
        OtherStepsTouchNoUpload(cfg, s, e);
      }
  }

  /** A signed part was signed before or is in the request with its checksum. */
  lemma {:induction false} SignedPartsAsked(row: UploadRow, ps: seq<SignRequest>, i: nat)
    requires row.chunk > 0 && i < |row.parts| && SignParts(row, ps).Some?
    ensures var after := SignParts(row, ps).value;
      && |after.parts| == |row.parts|
      && (after.parts[i].Some? ==>
            || (row.parts[i].Some? && row.parts[i].value.checksum == after.parts[i].value.checksum)
            || (exists p :: p in ps && p.number == i + 1 && p.checksum == after.parts[i].value.checksum))
  {
    if |ps| > 0 {
      var n := |ps| - 1;
      SignedPartsAsked(row, ps[..n], i);
      assert ps[n] in ps;
      assert forall p :: p in ps[..n] ==> p in ps;
    }
  }

  lemma {:induction false} SignedRowKeepsFile(cfg: Config, row: UploadRow, ps: seq<SignRequest>, file: Bytes)
    requires SignedFrom(cfg, row, file) && SignParts(row, ps).Some?
    requires forall p :: p in ps && 1 <= p.number <= PartCount(|file|, row.chunk) ==>
      p.checksum == cfg.hash(ClientSlice(file, row.chunk, p.number))
    ensures SignedFrom(cfg, SignParts(row, ps).value, file)
  {
    var signed := SignParts(row, ps).value;
    forall n | 1 <= n <= PartCount(row.size, row.chunk) && HasPart(signed, n)
      ensures signed.parts[n - 1].value.checksum == cfg.hash(PartSlice(file, row.chunk, n))
    {
      SignedPartsLength(row, ps);
      SignedPartsAsked(row, ps, n - 1);
      assert ClientSlice(file, row.chunk, n) == PartSlice(file, row.chunk, n);
      assert row.parts[n - 1].Some? ==> HasPart(row, n);
    }
  }

  lemma {:induction false} SignedPartsLength(row: UploadRow, ps: seq<SignRequest>)
    requires row.chunk > 0 && SignParts(row, ps).Some?
    ensures |SignParts(row, ps).value.parts| == |row.parts|
  {
    if |ps| > 0 {
      SignedPartsLength(row, ps[..|ps| - 1]);
    }
  }

  lemma SigningKeepsFile(cfg: Config, s: Sys, u: nat, owner: nat, ps: seq<SignRequest>, active: bool, file: Bytes)
    requires u < |s.db.uploads| && UploadOk(cfg, s.db.uploads[u]) && SignTx(cfg, s, u, owner, ps, active).Some?
    requires SignsFile(cfg, Event.Sign(u, owner, ps, active), u, owner, file)
    requires |file| == s.db.uploads[u].size && SignedFrom(cfg, s.db.uploads[u], file)
    ensures var after := SignTx(cfg, s, u, owner, ps, active).value.db.uploads;
      u < |after| && SignedFrom(cfg, after[u], file)
  {
    SignedRowKeepsFile(cfg, s.db.uploads[u], ps, file);
  }

  lemma StepKeepsFile(cfg: Config, s: Sys, e: Event, u: nat, file: Bytes)
    requires Inv(cfg, s) && u < |s.db.uploads| && SignsFile(cfg, e, u, s.db.uploads[u].owner, file)
    requires |file| == s.db.uploads[u].size && SignedFrom(cfg, s.db.uploads[u], file)
    ensures u < |Apply(cfg, s, e).db.uploads| && SignedFrom(cfg, Apply(cfg, s, e).db.uploads[u], file)
  {
    OnlySigningAddsParts(cfg, s, e);
    var after := Apply(cfg, s, e).db.uploads;
    if e.Sign? && e.u == u {
      if SignTx(cfg, s, u, e.owner, e.requests, e.active).Some? {
        SigningKeepsFile(cfg, s, u, e.owner, e.requests, e.active, file);
      }
    } else {
      assert SamePlan(s.db.uploads[u], after[u]);
      forall n | 1 <= n <= PartCount(|file|, after[u].chunk) && HasPart(after[u], n)
        ensures after[u].parts[n - 1].value.checksum == cfg.hash(PartSlice(file, after[u].chunk, n))
      {
        assert after[u].parts[n - 1].Some?;
        assert HasPart(s.db.uploads[u], n);
      }
    }
  }

  lemma FinalizeKeepsLength(cfg: Config, s: Sys, u: nat, owner: nat, puts: seq<Put>, crash: bool, v: Verdict)
    ensures |FinalizeTx(cfg, s, u, owner, puts, crash, v).0.db.uploads| == |s.db.uploads|
  {
    if FinalizeTx(cfg, s, u, owner, puts, crash, v).0.db != s.db {
      var row, size := Completion.FinalizeIsCompletion(cfg, s, u, owner, puts, crash, v);
    }
  }

  lemma OnlyCreatingAddsUploads(cfg: Config, s: Sys, e: Event)
    requires !e.CreateUpload?
    ensures |Apply(cfg, s, e).db.uploads| == |s.db.uploads|
  {
    if !TouchesUploads(e) {
      OtherStepsTouchNoUpload(cfg, s, e);
    } else if e.Finalize? {
      FinalizeKeepsLength(cfg, s, e.u, e.owner, e.puts, e.crash, e.verdict);
    }
  }

  /** A new upload has no part yet. */
  lemma NewUploadHasNoParts(cfg: Config, s: Sys, e: Event, u: nat, file: Bytes)
    requires |s.db.uploads| <= u < |Apply(cfg, s, e).db.uploads|
    requires |file| == Apply(cfg, s, e).db.uploads[u].size
    ensures SignedFrom(cfg, Apply(cfg, s, e).db.uploads[u], file)
  {
    if e.CreateUpload? {
      PlanFitsStorageLimit(e.size, cfg.partMiB);
    } else {
      OnlyCreatingAddsUploads(cfg, s, e);
    }
  }

  /** As long as the owner's signing requests for an upload are its client's, what is recorded is the client's file. */
  lemma {:induction false} RecordedPartsAreTheFiles(cfg: Config, s: Sys, es: seq<Event>, u: nat, owner: nat,
                                                    file: Bytes, k: nat)
    requires Inv(cfg, s) && AllAssumed(cfg, s, es) && k <= |es| && u >= |s.db.uploads|
    requires ClientSigns(cfg, es, u, owner, file)
    requires u < |Run(cfg, s, es[..k]).db.uploads| && Run(cfg, s, es[..k]).db.uploads[u].size == |file|
    requires Run(cfg, s, es[..k]).db.uploads[u].owner == owner
    ensures SignedFrom(cfg, Run(cfg, s, es[..k]).db.uploads[u], file)
  {
    if k > 0 {
      var before := Run(cfg, s, es[..k - 1]);
      assert es[..k][..k - 1] == es[..k - 1] && es[..k][k - 1] == es[k - 1];
      PrefixKeeps(cfg, s, es, k - 1);
      if u < |before.db.uploads| {
        RunRespectsUploads(cfg, s, es, k - 1, k);
        assert UploadStep(before.db.uploads[u], Run(cfg, s, es[..k]).db.uploads[u]);
        RecordedPartsAreTheFiles(cfg, s, es, u, owner, file, k - 1);
        StepKeepsFile(cfg, before, es[k - 1], u, file);
      } else {
        NewUploadHasNoParts(cfg, before, es[k - 1], u, file);
      }
    }
  }

  predicate StoredOfLength(s: Sys, f: nat, size: nat) {
    && f < |s.db.files| && Charged(s.db.files[f])
    && s.db.files[f].obj < |s.db.uploads| && s.db.uploads[s.db.files[f].obj].size == size
  }

  /**
   End to end: for every interleaving of requests, retries, part uploads and crashes in which the owner's
   client signs its own slices, a stored file is, byte for byte, the file the client started from.
   */
  lemma {:induction false} StoredFileIsTheClients(cfg: Config, free: int, es: seq<Event>, f: nat, file: Bytes)
    requires AllAssumed(cfg, EmptySystem(free), es) && CollisionFree(cfg.hash)
    requires StoredOfLength(Run(cfg, EmptySystem(free), es), f, |file|)
    requires var s := Run(cfg, EmptySystem(free), es);
      ClientSigns(cfg, es, s.db.files[f].obj, s.db.uploads[s.db.files[f].obj].owner, file)
    ensures var s := Run(cfg, EmptySystem(free), es);
      s.db.files[f].obj in s.store.objects && s.store.objects[s.db.files[f].obj] == file
  {
    var s := Run(cfg, EmptySystem(free), es);
    var u := s.db.files[f].obj;
    assert es[..|es|] == es;
    RecordedPartsAreTheFiles(cfg, EmptySystem(free), es, u, s.db.uploads[u].owner, file, |es|);
    assert Reachable(cfg, s);
    StoredFileIsOriginal(cfg, s, f, file);
  }
}
