/** apps/api/src/uploads.ts, and reserve of apps/api/src/lib.ts. */
module UploadRoutes {
  import opened Base
  import opened Planning
  import opened ObjectStore
  import opened Catalog
  import opened Transactions
  import opened Runs
  import opened Backend

  datatype ReserveError = LowDisk | UploadConcurrency | ReservationLimit | FileQuota | StorageQuota | PeriodAllowance

  method ReserveSpace(b: System, owner: nat, size: nat, allowed: bool) returns (error: Option<ReserveError>)
    ensures error.None? <==> Reserve(b.cfg, b.State(), owner, size, allowed)
  {
    var quota := b.cfg.policy(owner);
    var reserved := Sum(Reservations(b.db.uploads));
    if b.store.free - reserved - size < Floor(b.cfg) { return Some(LowDisk); }
    if IncompleteUploads(b.db.uploads, owner) >= Min(quota.concurrentUploads, b.cfg.incompleteUploadLimit) {
      return Some(UploadConcurrency);
    }
    if ReservedBytes(b.db, owner) + size > b.cfg.incompleteReserved { return Some(ReservationLimit); }
    if size > quota.fileBytes { return Some(FileQuota); }
    if UsedBytes(b.db, owner) + ReservedBytes(b.db, owner) + size > quota.storageBytes { return Some(StorageQuota); }
    error := if allowed then None else Some(PeriodAllowance);
  }

  method PostUpload(b: System, owner: nat, size: nat, mime: string, allowed: bool) returns (id: Option<nat>)
    modifies b
    ensures b.State() == Commit(old(b.State()), CreateTx(b.cfg, old(b.State()), owner, size, mime, allowed))
    ensures id == if CreateTx(b.cfg, old(b.State()), owner, size, mime, allowed).Some?
                  then Some(|old(b.db).uploads|) else None
  {
    if size == 0 { return None; }
    var error := ReserveSpace(b, owner, size, allowed);
    if error.Some? { return None; }
    var obj, file, upload := |b.db.objects|, |b.db.files|, |b.db.uploads|;
    var bytes := PartSize(size, b.cfg.partMiB);
    b.db := b.db.(objects := b.db.objects + [ObjectRow(size, None, "", PROCESSING, NoJob)]);
    b.db := b.db.(files := b.db.files + [FileRow(owner, obj, PROCESSING, 1, mime)]);
    b.db := b.db.(uploads := b.db.uploads +
      [UploadRow(owner, file, obj, size, bytes, CREATED, NoError, None, seq(MAX_PARTS, _ => None), 0)]);
    id := Some(upload);
  }

  /** The second half of the request: open a store session and record it, or note that this failed. */
  method OpenSession(b: System, u: nat, outcome: InitOutcome)
    requires u < |b.db.uploads|
    requires b.db.uploads[u].state == CREATED && b.db.uploads[u].session.None?
    modifies b
    ensures b.State() == InitTx(old(b.State()), u, outcome)
  {
    var session: Option<nat> := None;
    if outcome != StoreRefused {
      session := Some(b.store.nextSession);
      b.store := CreateSession(b.store, b.db.uploads[u].obj);
    }
    if outcome == CrashAfterCreate { return; }
    if outcome == Recorded {
      b.db := SetUpload(b.db, u, b.db.uploads[u].(session := session));
      b.db := SetUpload(b.db, u, b.db.uploads[u].(state := UPLOADING));
    } else {
      b.db := SetUpload(b.db, u, b.db.uploads[u].(state := UploadState.FAILED, error := INIT_FAILED));
    }
  }

  method SignParts(b: System, u: nat, owner: nat, requests: seq<SignRequest>, active: bool)
      returns (urls: Option<seq<Url>>)
    modifies b
    ensures var r := SignTx(b.cfg, old(b.State()), u, owner, requests, active);
      urls.Some? == r.Some? && b.State() == if r.Some? then r.value else old(b.State())
    ensures urls.Some? ==>
      && u < |old(b.db.uploads)| && old(b.db.uploads)[u].session.Some? && old(b.db.uploads)[u].chunk > 0
      && |urls.value| == |requests|
      && forall k :: 0 <= k < |requests| ==>
           urls.value[k] == SignedUrl(old(b.db.uploads)[u], old(b.db.uploads)[u].session.value, requests[k])
  {
    if u >= |b.db.uploads| || b.db.uploads[u].owner != owner || b.store.free < Floor(b.cfg) { return None; }
    var row := b.db.uploads[u];
    if row.state !in {UPLOADING, UploadState.FAILED} || row.session.None? || !active || row.chunk == 0 { return None; }
    var session := row.session.value;
    var saved := b.db;
    var signed := [];
    for i := 0 to |requests|
      invariant |b.db.uploads| == |saved.uploads|
      invariant b.db.uploads == saved.uploads[u := b.db.uploads[u]] && b.db == saved.(uploads := b.db.uploads)
      invariant b.store == old(b.store)
      invariant Transactions.SignParts(row, requests[..i]) == Some(b.db.uploads[u])
      invariant signed == seq(i, k requires 0 <= k < i => SignedUrl(row, session, requests[k]))
    {
      var p := requests[i];
      var now := b.db.uploads[u];
      assert requests[..i + 1][..i] == requests[..i];
      FailurePersists(row, requests, i + 1);
      var size := ExpectedPartBytes(now.size, now.chunk, p.number);
      if size.None? || p.number > |now.parts| {
        b.db := saved;
        return None;
      }
      if HasPart(now, p.number) {
        if now.parts[p.number - 1].value.checksum != p.checksum {
          b.db := saved;
          return None;
        }
      } else {
        var part := PartRow(size.value, p.checksum, None);
        b.db := SetUpload(b.db, u, now.(parts := now.parts[p.number - 1 := Some(part)]));
      }
      signed := signed + [Url(session, p.number, size.value, p.checksum)];
    }
    assert requests[..|requests|] == requests;
    b.db := SetUpload(b.db, u, b.db.uploads[u].(state := UPLOADING));
    b.store := b.store.(urls := b.store.urls + set url | url in signed);
    SignedList(row, session, requests, signed);
    urls := Some(signed);
  }

  /** A request list that fails at some part fails as a whole. */
  lemma {:induction false} FailurePersists(row: UploadRow, requests: seq<SignRequest>, k: nat)
    requires row.chunk > 0 && k <= |requests|
    ensures Transactions.SignParts(row, requests[..k]).None? ==> Transactions.SignParts(row, requests).None?
    decreases |requests|
  {
    if k == |requests| {
      assert requests[..k] == requests;
    } else {
      var n := |requests| - 1;
      assert requests[..n][..k] == requests[..k];
      FailurePersists(row, requests[..n], k);
    }
  }

  lemma SignedList(row: UploadRow, session: nat, requests: seq<SignRequest>, signed: seq<Url>)
    requires row.chunk > 0
    requires signed == seq(|requests|, k requires 0 <= k < |requests| => SignedUrl(row, session, requests[k]))
    ensures (set url | url in signed) == SignedUrls(row, session, requests)
  {
    forall url | url in SignedUrls(row, session, requests)
      ensures url in signed
    {
      var p :| p in requests && url == SignedUrl(row, session, p);
      var k :| 0 <= k < |requests| && requests[k] == p;
      assert signed[k] == url;
    }
  }

  method AckPart(b: System, u: nat, owner: nat, number: int, etag: string)
    modifies b
    ensures b.State() == Commit(old(b.State()), AckTx(old(b.db), u, owner, number, etag))
  {
    if u >= |b.db.uploads| || b.db.uploads[u].owner != owner || etag == "" { return; }
    var row := b.db.uploads[u];
    if 1 <= number <= |row.parts| && row.parts[number - 1].Some? {
      var part := row.parts[number - 1].value;
      b.db := SetUpload(b.db, u, row.(parts := row.parts[number - 1 := Some(part.(etag := Some(etag)))]));
    }
  }

  /** The loop over the store's listing: every listed part must be one that was signed, and lends it its etag. */
  method ReconcileListing(row: UploadRow, listing: seq<Listed>) returns (result: Option<UploadRow>)
    ensures result == Reconcile(row, listing)
  {
    var now := row;
    for i := 0 to |listing|
      invariant ListingOk(row, listing[..i])
      invariant now == row.(parts := ReconciledParts(row.parts, listing[..i]))
    {
      var p := listing[i];
      assert listing[..i + 1][..i] == listing[..i];
      if !HasPart(row, p.part.number) { return None; }
      var expected := row.parts[p.part.number - 1].value;
      if p.part.size != expected.expected { return None; }
      if p.checksum.Some? && p.checksum.value != expected.checksum { return None; }
      var k := p.part.number - 1;
      now := now.(parts := now.parts[k := Some(now.parts[k].value.(etag := Some(p.part.etag)))]);
      assert now.parts == ReconciledParts(row.parts, listing[..i + 1]);
    }
    assert listing[..|listing|] == listing;
    result := Some(now);
  }

  method GetUpload(b: System, u: nat, owner: nat)
    modifies b
    ensures b.State() == Commit(old(b.State()), StatusTx(b.cfg, old(b.State()), u, owner))
  {
    if u >= |b.db.uploads| || b.db.uploads[u].owner != owner { return; }
    var row := b.db.uploads[u];
    if row.session.None? || row.state !in {UPLOADING, UploadState.FAILED, FINALIZING} { return; }
    var listing := ListParts(b.store, b.cfg.hash, row.session.value);
    if listing.None? { return; }
    var reconciled := ReconcileListing(row, listing.value);
    if reconciled.Some? {
      b.db := SetUpload(b.db, u, reconciled.value);
    }
  }

  /** The rows of a completed upload, written one after the other. */
  method MarkComplete(b: System, u: nat, size: nat, verdict: Verdict)
    requires u < |b.db.uploads| && RowsExist(b.db, b.db.uploads[u])
    modifies b`db
    ensures b.db == CompletedDb(old(b.db), u, old(b.db.uploads[u]), size, verdict)
  {
    var row := b.db.uploads[u];
    var state := if verdict.quarantine then QUARANTINED else AVAILABLE;
    b.db := SetObject(b.db, row.obj, b.db.objects[row.obj].(size := Some(size), mime := verdict.mime, state := state));
    b.db := SetFile(b.db, row.file, b.db.files[row.file].(state := state));
    b.db := SetUpload(b.db, u, b.db.uploads[u].(state := COMPLETE, error := NoError));
    if verdict.share {
      b.db := SetUpload(b.db, u, b.db.uploads[u].(shares := b.db.uploads[u].shares + 1));
    }
  }

  /** Reconcile, check the parts twice, and complete the session. On a refusal the rows are rolled back. */
  method AssembleObject(b: System, u: nat, session: nat, listing: seq<Listed>, puts: seq<Put>)
      returns (refusal: Option<Refusal>, row: UploadRow)
    requires u < |b.db.uploads| && RowsExist(b.db, b.db.uploads[u])
    modifies b
    ensures refusal.Some? ==> b.db == old(b.db)
    ensures refusal.None? ==> b.db == SetUpload(old(b.db), u, row.(state := FINALIZING))
    ensures refusal.None? ==> RowsExist(old(b.db), row) && row == old(b.db.uploads[u]).(parts := row.parts)
    ensures forall crash, verdict ::
      CompleteListed(b.cfg, old(b.State()), u, old(b.db.uploads[u]), session, listing, puts, crash, verdict) ==
      var after := Sys(old(b.db), b.store);
      if refusal.Some? then (after, Refused(refusal.value)) else Activate(after, u, row, crash, verdict)
  {
    var saved := b.db;
    row := b.db.uploads[u];
    var reconciled := ReconcileListing(row, listing);
    if reconciled.None? { return Some(PartIntegrity), row; }
    row := reconciled.value;
    b.db := SetUpload(b.db, u, row);
    if row.chunk == 0 || !AssertParts(row.size, row.chunk, PartsOf(listing)) {
      b.db := saved;
      return Some(Incomplete), row;
    }
    var manifest := Manifest(row.parts, |row.parts|);
    if !AssertParts(row.size, row.chunk, ManifestParts(manifest)) {
      b.db := saved;
      return Some(ManifestRejected), row;
    }
    b.db := SetUpload(b.db, u, row.(state := FINALIZING));
    b.store := PutParts(b.store, b.cfg.hash, puts);
    var completed := Complete(b.store, b.cfg.hash, session, manifest);
    if completed.None? {
      b.db := saved;
      return Some(StoreError), row;
    }
    b.store := completed.value;
    refusal := None;
  }

  /** Head, size check and the final rows. `saved` is what a failure falls back to. */
  method ActivateUpload(b: System, saved: Db, u: nat, row: UploadRow, crash: bool, verdict: Verdict)
      returns (result: FinalizeResult)
    requires u < |saved.uploads| == |b.db.uploads| && RowsExist(saved, row)
    requires b.db == SetUpload(saved, u, b.db.uploads[u])
    requires b.db.uploads[u] == row.(state := b.db.uploads[u].state)
    modifies b`db
    ensures (b.State(), result) == Activate(Sys(saved, b.store), u, row, crash, verdict)
  {
    if row.obj !in b.store.objects {
      b.db := saved;
      return Refused(StoreError);
    }
    var size := |b.store.objects[row.obj]|;
    if size != row.size {
      b.db := saved;
      return Refused(SizeDiffers);
    }
    if crash {
      b.db := saved;
      return Refused(ProcessDied);
    }
    ghost var final := CompletedDb(b.db, u, b.db.uploads[u], size, verdict);
    assert final.uploads == CompletedDb(saved, u, row, size, verdict).uploads;
    MarkComplete(b, u, size, verdict);
    result := Finished(row.file);
  }

  method CompleteUpload(b: System, u: nat, owner: nat, puts: seq<Put>, crash: bool, verdict: Verdict)
      returns (result: FinalizeResult)
    modifies b
    ensures (b.State(), result) == FinalizeTx(b.cfg, old(b.State()), u, owner, puts, crash, verdict)
  {
    if u >= |b.db.uploads| || b.db.uploads[u].owner != owner || !RowsExist(b.db, b.db.uploads[u]) {
      return Refused(NotFound);
    }
    var saved := b.db;
    var row := b.db.uploads[u];
    if row.state == COMPLETE { return Finished(row.file); }
    if row.state !in {UPLOADING, FINALIZING, UploadState.FAILED} { return Refused(WrongState); }
    if row.obj !in b.store.objects {
      if row.session.None? { return Refused(StoreError); }
      var listing := ListParts(b.store, b.cfg.hash, row.session.value);
      if listing.None? { return Refused(StoreError); }
      var refusal;
      refusal, row := AssembleObject(b, u, row.session.value, listing.value, puts);
      if refusal.Some? { return Refused(refusal.value); }
    }
    result := ActivateUpload(b, saved, u, row, crash, verdict);
  }

  method NoteFailure(b: System, u: nat, code: ErrorCode)
    modifies b
    ensures b.State() == old(b.State()).(db := RecordFailureTx(old(b.db), u, code))
  {
    if code !in {INCOMPLETE_UPLOAD, PART_INTEGRITY, OBJECT_INTEGRITY} { return; }
    if u < |b.db.uploads| && b.db.uploads[u].state != COMPLETE && b.db.uploads[u].session.Some? {
      b.db := SetUpload(b.db, u, b.db.uploads[u].(error := code));
    }
  }

  /** Closing the session, then the three rows; `crash` strikes in between. */
  method EndUpload(b: System, u: nat, state: UploadState, crash: bool)
    requires u < |b.db.uploads| && RowsExist(b.db, b.db.uploads[u])
    modifies b
    ensures b.store == AbortStore(old(b.store), old(b.db.uploads[u].session))
    ensures b.db == if crash then old(b.db) else EndedDb(old(b.db), u, state)
  {
    var row := b.db.uploads[u];
    if row.session.Some? {
      b.store := AbortSession(b.store, row.session.value);
    }
    if crash { return; }
    b.db := SetUpload(b.db, u, row.(state := state));
    b.db := SetFile(b.db, row.file, b.db.files[row.file].(state := PURGED));
    b.db := SetObject(b.db, row.obj, b.db.objects[row.obj].(state := PURGED));
  }

  method AbortUpload(b: System, u: nat, owner: nat, crash: bool)
    modifies b
    ensures b.State() == AbortTx(old(b.State()), u, owner, crash)
  {
    if u >= |b.db.uploads| || b.db.uploads[u].owner != owner || !RowsExist(b.db, b.db.uploads[u]) { return; }
    if b.db.uploads[u].state in {COMPLETE, FINALIZING} { return; }
    if b.db.uploads[u].state in {ABORTED, TIMED_OUT} { return; }
    EndUpload(b, u, ABORTED, crash);
  }
}
