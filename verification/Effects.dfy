/**
 What each request and each step of the worker answers and changes, in the words of the tables: when it is
 served, what the rows are afterwards, and that nothing else has changed.
 */
module Effects {
  import opened Base
  import opened Planning
  import opened ObjectStore
  import opened Catalog
  import opened Transactions
  import opened Runs
  import opened Integrity
  import opened Safety
  import opened Quota
  import Completion

  /** Apart from one file, one object and one upload the tables are the same. */
  ghost predicate OthersSame(a: Db, b: Db, file: Option<nat>, obj: Option<nat>, upload: Option<nat>) {
    && |b.files| == |a.files| && |b.objects| == |a.objects| && |b.uploads| == |a.uploads| && b.versions == a.versions
    && (forall f {:trigger b.files[f]} :: 0 <= f < |a.files| && file != Some(f) ==> b.files[f] == a.files[f])
    && (forall o {:trigger b.objects[o]} :: 0 <= o < |a.objects| && obj != Some(o) ==> b.objects[o] == a.objects[o])
    && (forall u {:trigger b.uploads[u]} :: 0 <= u < |a.uploads| && upload != Some(u) ==> b.uploads[u] == a.uploads[u])
  }

  // Completing.

  /** The rows of an upload that has just completed. */
  ghost predicate Completed(a: Db, b: Db, u: nat, v: Verdict) {
    && u < |a.uploads| && RowsExist(a, a.uploads[u])
    && OthersSame(a, b, Some(a.uploads[u].file), Some(a.uploads[u].obj), Some(u))
    && var was, row := a.uploads[u], b.uploads[u];
       var state := if v.quarantine then QUARANTINED else AVAILABLE;
       && row == was.(state := COMPLETE, error := NoError, parts := row.parts, shares := row.shares)
       && row.shares == was.shares + (if v.share then 1 else 0)
       && b.files[was.file] == a.files[was.file].(state := state, revision := a.files[was.file].revision + 1)
       && b.objects[was.obj] == a.objects[was.obj].(size := Some(was.size), mime := v.mime, state := state)
  }

  lemma CompletedRows(db: Db, u: nat, row: UploadRow, size: nat, v: Verdict)
    requires u < |db.uploads| && RowsExist(db, row) && row == db.uploads[u].(parts := row.parts) && size == row.size
    ensures Completed(db, CompletedDb(db, u, row, size, v), u, v)
  {
  }

  lemma FinalizeAnswers(cfg: Config, s: Sys, u: nat, owner: nat, puts: seq<Put>, crash: bool, v: Verdict)
    ensures var (s', r) := FinalizeTx(cfg, s, u, owner, puts, crash, v);
      && (r.Finished? ==> u < |s.db.uploads| && s.db.uploads[u].owner == owner && r.file == s.db.uploads[u].file)
      && (r.Finished? && s.db.uploads[u].state == COMPLETE ==> s' == s)
      && (r.Finished? && s.db.uploads[u].state != COMPLETE ==>
            !crash && |s'.db.uploads| == |s.db.uploads| && s'.db.uploads[u].state == COMPLETE)
      && (r.Refused? ==> s'.db == s.db)
  {
    if u < |s.db.uploads| && RowsExist(s.db, s.db.uploads[u]) {
      var row := s.db.uploads[u];
      ActivateAnswers(s, u, row, crash, v);
      if row.session.Some? && ListParts(s.store, cfg.hash, row.session.value).Some? {
        ListedAnswers(cfg, s, u, row, ListParts(s.store, cfg.hash, row.session.value).value, puts, crash, v);
      }
    }
  }

  lemma ActivateAnswers(s: Sys, u: nat, row: UploadRow, crash: bool, v: Verdict)
    requires u < |s.db.uploads| && RowsExist(s.db, row)
    ensures var (s', r) := Activate(s, u, row, crash, v);
      && (r.Finished? ==>
            && !crash && |s'.db.uploads| == |s.db.uploads| && s'.db.uploads[u].state == COMPLETE && r.file == row.file)
      && (r.Refused? ==> s'.db == s.db)
  {
  }

  lemma ListedAnswers(cfg: Config, s: Sys, u: nat, row: UploadRow, listing: seq<Listed>, puts: seq<Put>, crash: bool,
                      v: Verdict)
    requires u < |s.db.uploads| && RowsExist(s.db, row) && row.session.Some?
    ensures var (s', r) := CompleteListed(cfg, s, u, row, row.session.value, listing, puts, crash, v);
      && (r.Finished? ==>
            && !crash && |s'.db.uploads| == |s.db.uploads| && s'.db.uploads[u].state == COMPLETE && r.file == row.file)
      && (r.Refused? ==> s'.db == s.db)
  {
    var reconciled := Reconcile(row, listing);
    if reconciled.Some? {
      var done := Complete(PutParts(s.store, cfg.hash, puts), cfg.hash, row.session.value,
                           Manifest(reconciled.value.parts, |reconciled.value.parts|));
      if done.Some? {
        ActivateAnswers(Sys(s.db, done.value), u, reconciled.value, crash, v);
      }
    }
  }

  /** An attempt changes the rows exactly when it is answered with success and the upload was not complete before. */
  lemma CompletionExactly(cfg: Config, s: Sys, u: nat, owner: nat, puts: seq<Put>, crash: bool, v: Verdict)
    requires Inv(cfg, s)
    ensures var (s', r) := FinalizeTx(cfg, s, u, owner, puts, crash, v);
      && (r.Finished? ==> u < |s.db.uploads| && s.db.uploads[u].owner == owner && r.file == s.db.uploads[u].file)
      && (if r.Finished? && s.db.uploads[u].state != COMPLETE then !crash && Completed(s.db, s'.db, u, v)
          else s'.db == s.db)
  {
    FinalizeAnswers(cfg, s, u, owner, puts, crash, v);
    if FinalizeTx(cfg, s, u, owner, puts, crash, v).0.db != s.db {
      FinalizeCompletes(cfg, s, u, owner, puts, crash, v);
    }
  }

  lemma FinalizeCompletes(cfg: Config, s: Sys, u: nat, owner: nat, puts: seq<Put>, crash: bool, v: Verdict)
    requires Inv(cfg, s) && FinalizeTx(cfg, s, u, owner, puts, crash, v).0.db != s.db
    ensures Completed(s.db, FinalizeTx(cfg, s, u, owner, puts, crash, v).0.db, u, v)
  {
    var s' := FinalizeTx(cfg, s, u, owner, puts, crash, v).0;
    var row, size := Completion.FinalizeIsCompletion(cfg, s, u, owner, puts, crash, v);
    Completion.FinalizeKeeps(cfg, s, u, owner, puts, crash, v);
    assert UploadRowsOk(s'.db.objects, s'.db.files, u, s'.db.uploads[u]);
    CompletedRows(s.db, u, row, size, v);
  }

  /**
   The refusals of a completion, whatever state the tables are in: an upload that is not the caller's, one that
   has not begun or has ended, and an object of another size. A completed one is answered again.
   */
  lemma RefusalsExactly(cfg: Config, s: Sys, u: nat, owner: nat, puts: seq<Put>, crash: bool, v: Verdict)
    ensures var (s', r) := FinalizeTx(cfg, s, u, owner, puts, crash, v);
      var own := u < |s.db.uploads| && s.db.uploads[u].owner == owner && RowsExist(s.db, s.db.uploads[u]);
      && (r == Refused(NotFound) <==> !own)
      && (own && s.db.uploads[u].state == COMPLETE ==> (s', r) == (s, Finished(s.db.uploads[u].file)))
      && (r == Refused(WrongState) <==> own && s.db.uploads[u].state in {CREATED, ABORTED, TIMED_OUT})
      && (r.Refused? ==> s'.db == s.db)
      && (r in {Refused(NotFound), Refused(WrongState)} ==> s' == s)
  {
  }

  /** An object that is there decides: the upload is complete if it is as long as the file, and refused if not. */
  lemma ExistingObjectDecides(cfg: Config, s: Sys, u: nat, owner: nat, puts: seq<Put>, crash: bool, v: Verdict)
    requires u < |s.db.uploads| && s.db.uploads[u].owner == owner && RowsExist(s.db, s.db.uploads[u])
    requires s.db.uploads[u].state in {UPLOADING, FINALIZING, FAILED} && s.db.uploads[u].obj in s.store.objects
    ensures var (s', r) := FinalizeTx(cfg, s, u, owner, puts, crash, v);
      var row := s.db.uploads[u];
      && s'.store == s.store
      && r == (if |s.store.objects[row.obj]| != row.size then Refused(SizeDiffers)
               else if crash then Refused(ProcessDied) else Finished(row.file))
      && (r.Finished? ==> Completed(s.db, s'.db, u, v))
  {
    var row := s.db.uploads[u];
    if |s.store.objects[row.obj]| == row.size && !crash {
      CompletedRows(s.db, u, row, row.size, v);
    }
  }

  /** The parts that reach the store between the listing and the completion call, and what the call makes of them. */
  ghost predicate Assembles(cfg: Config, s: Sys, u: nat, row: UploadRow, puts: seq<Put>, s': Sys, r: FinalizeResult,
                            crash: bool)
    requires row.session.Some?
  {
    var before := PutParts(s.store, cfg.hash, puts);
    match Complete(before, cfg.hash, row.session.value, Manifest(row.parts, |row.parts|))
    case None => s' == Sys(s.db, before) && r == Refused(StoreError)
    case Some(after) =>
      && s'.store == after
      && r == (if row.obj !in after.objects then Refused(StoreError)
               else if |after.objects[row.obj]| != row.size then Refused(SizeDiffers)
               else if crash then Refused(ProcessDied) else Finished(row.file))
  }

  /**
   Without an object the session decides: its listing has to agree with the signed parts, be the whole plan and
   leave the recorded parts the whole plan. Only then is the store asked to put the parts together.
   */
  lemma SessionDecides(cfg: Config, s: Sys, u: nat, owner: nat, puts: seq<Put>, crash: bool, v: Verdict)
    requires u < |s.db.uploads| && s.db.uploads[u].owner == owner && RowsExist(s.db, s.db.uploads[u])
    requires s.db.uploads[u].state in {UPLOADING, FINALIZING, FAILED} && s.db.uploads[u].obj !in s.store.objects
    requires s.db.uploads[u].chunk > 0
    ensures var (s', r) := FinalizeTx(cfg, s, u, owner, puts, crash, v);
      var row := s.db.uploads[u];
      if row.session.None? || row.session.value !in s.store.sessions then (s', r) == (s, Refused(StoreError))
      else
        var parts := s.store.sessions[row.session.value].parts;
        var listing := Listing(parts, cfg.hash, |parts|);
        if Reconcile(row, listing).None? then (s', r) == (s, Refused(PartIntegrity))
        else
          var row' := Reconcile(row, listing).value;
          if !AssertParts(row.size, row.chunk, PartsOf(listing)) then (s', r) == (s, Refused(Incomplete))
          else if !AssertParts(row.size, row.chunk, ManifestParts(Manifest(row'.parts, |row'.parts|)))
          then (s', r) == (s, Refused(ManifestRejected))
          else Assembles(cfg, s, u, row', puts, s', r, crash)
  {
  }

  /** The separate error update writes one of three codes, for an upload that has a session and is not complete. */
  lemma RecordFailureExactly(cfg: Config, s: Sys, u: nat, code: ErrorCode)
    ensures Apply(cfg, s, RecordFailure(u, code)) ==
      if && u < |s.db.uploads| && s.db.uploads[u].session.Some? && s.db.uploads[u].state != COMPLETE
         && (code == INCOMPLETE_UPLOAD || code == PART_INTEGRITY || code == OBJECT_INTEGRITY)
      then s.(db := s.db.(uploads := s.db.uploads[u := s.db.uploads[u].(error := code)])) else s
  {
  }

  // Giving up.

  /** Nobody else's, no completed or finalizing and no ended upload is aborted, whatever state the tables are in. */
  lemma AbortRefusedExactly(cfg: Config, s: Sys, u: nat, owner: nat, crash: bool)
    requires u < |s.db.uploads| ==>
      s.db.uploads[u].owner != owner || s.db.uploads[u].state in {COMPLETE, FINALIZING, ABORTED, TIMED_OUT}
    ensures Apply(cfg, s, Abort(u, owner, crash)) == s
  {
  }

  /** An unfinished upload keeps its size reserved, unless its session could not be opened. */
  predicate Reserves(row: UploadRow) {
    row.state in {CREATED, UPLOADING, FAILED} && row.error != INIT_FAILED
  }

  /** The rows of an upload that has just ended: nothing live is left of it, and its reservation is free. */
  ghost predicate EndedRows(a: Db, b: Db, u: nat, state: UploadState) {
    && u < |a.uploads| && RowsExist(a, a.uploads[u])
    && OthersSame(a, b, Some(a.uploads[u].file), Some(a.uploads[u].obj), Some(u))
    && var row := a.uploads[u];
       && b.uploads[u] == row.(state := state)
       && b.files[row.file] == a.files[row.file].(state := PURGED, revision := a.files[row.file].revision + 1)
       && b.objects[row.obj] == a.objects[row.obj].(state := PURGED)
       && (forall who :: UsedBytes(b, who) == UsedBytes(a, who))
       && (forall who :: ReservedBytes(b, who) ==
             ReservedBytes(a, who) - (if who == row.owner && Reserves(row) then row.size else 0))
  }

  /** The store without one session: its parts are gone, everything else is as it was. */
  ghost predicate SessionClosed(a: Store, b: Store, session: Option<nat>) {
    && b.objects == a.objects && b.urls == a.urls && b.nextSession == a.nextSession
    && (forall id: nat :: id in b.sessions <==> id in a.sessions && session != Some(id))
    && (forall id: nat :: id in b.sessions ==> b.sessions[id] == a.sessions[id])
    && b.free == a.free + (if session.Some? && session.value in a.sessions
                           then SessionBytes(a.sessions[session.value]) else 0)
  }

  lemma EndedExactly(cfg: Config, s: Sys, u: nat, state: UploadState)
    requires Inv(cfg, s) && u < |s.db.uploads| && RowsExist(s.db, s.db.uploads[u])
    requires s.db.uploads[u].state != COMPLETE && state in {ABORTED, TIMED_OUT}
    ensures EndedRows(s.db, EndedDb(s.db, u, state), u, state)
  {
    forall who: nat
      ensures UsedBytes(EndedDb(s.db, u, state), who) == UsedBytes(s.db, who)
      ensures ReservedBytes(EndedDb(s.db, u, state), who) ==
        ReservedBytes(s.db, who) - (if who == s.db.uploads[u].owner && Reserves(s.db.uploads[u])
                                    then s.db.uploads[u].size else 0)
    {
      EndingReleases(cfg, s, u, state, who);
    }
  }

  /**
   An abort changes anything exactly for the owner of an upload that has neither completed nor ended: it closes
   the session and ends the three rows. A crash after the store call leaves the rows.
   */
  lemma AbortExactly(cfg: Config, s: Sys, u: nat, owner: nat, crash: bool)
    requires Inv(cfg, s)
    ensures var s' := Apply(cfg, s, Abort(u, owner, crash));
      if u < |s.db.uploads| && s.db.uploads[u].owner == owner && s.db.uploads[u].state in {CREATED, UPLOADING, FAILED}
      then
        && SessionClosed(s.store, s'.store, s.db.uploads[u].session)
        && (if crash then s'.db == s.db else EndedRows(s.db, s'.db, u, ABORTED))
      else s' == s
  {
    if u < |s.db.uploads| {
      assert UploadOk(cfg, s.db.uploads[u]);
      assert UploadRowsOk(s.db.objects, s.db.files, u, s.db.uploads[u]);
      if s.db.uploads[u].state in {CREATED, UPLOADING, FAILED} {
        EndedExactly(cfg, s, u, ABORTED);
      }
    }
  }

  /** The stale-upload transaction does the same to every upload that has not completed, whatever its owner. */
  lemma TimeOutExactly(cfg: Config, s: Sys, u: nat, crash: bool)
    requires Inv(cfg, s)
    ensures var s' := Apply(cfg, s, TimeOut(u, crash));
      if u < |s.db.uploads| && s.db.uploads[u].state != COMPLETE
      then
        && SessionClosed(s.store, s'.store, s.db.uploads[u].session)
        && (if crash then s'.db == s.db else EndedRows(s.db, s'.db, u, TIMED_OUT))
      else s' == s
  {
    if u < |s.db.uploads| {
      assert UploadRowsOk(s.db.objects, s.db.files, u, s.db.uploads[u]);
      if s.db.uploads[u].state != COMPLETE {
        EndedExactly(cfg, s, u, TIMED_OUT);
      }
    }
  }

  // Opening a session.

  /** A new, empty session for the object. */
  ghost predicate SessionAdded(a: Store, b: Store, id: nat, key: nat) {
    && id !in a.sessions && b == a.(sessions := b.sessions, nextSession := b.nextSession)
    && b.sessions.Keys == a.sessions.Keys + {id}
    && (forall x :: x in a.sessions ==> b.sessions[x] == a.sessions[x])
    && b.sessions[id].key == key && |b.sessions[id].parts| == 10000
    && forall i :: 0 <= i < 10000 ==> b.sessions[id].parts[i].None?
  }

  /**
   The second half of a create request: a recorded session is open and empty and the upload may begin; a
   failure frees the reservation; a crash leaves the row as it was.
   */
  lemma InitExactly(cfg: Config, s: Sys, u: nat, outcome: InitOutcome)
    requires Inv(cfg, s) && u < |s.db.uploads|
    requires s.db.uploads[u].state == CREATED && s.db.uploads[u].session.None?
    ensures var s' := Apply(cfg, s, InitUpload(u, outcome));
      var was, row, id := s.db.uploads[u], s'.db.uploads[u], s.store.nextSession;
      && OthersSame(s.db, s'.db, None, None, Some(u))
      && (if outcome == StoreRefused then s'.store == s.store else SessionAdded(s.store, s'.store, id, was.obj))
      && (outcome == Recorded ==> row == was.(state := UPLOADING, session := Some(id)))
      && (outcome == CrashAfterCreate ==> row == was)
      && (outcome in {StoreRefused, RecordFailed} ==>
            row == was.(state := UploadState.FAILED, error := INIT_FAILED))
      && (forall who :: ReservedBytes(s'.db, who) == ReservedBytes(s.db, who) -
            (if who == was.owner && outcome in {StoreRefused, RecordFailed} then was.size else 0))
  {
    assert UploadOk(cfg, s.db.uploads[u]);
    SessionIsFresh(cfg, s);
    forall who: nat
      ensures ReservedBytes(InitTx(s, u, outcome).db, who) == ReservedBytes(s.db, who) -
        (if who == s.db.uploads[u].owner && outcome in {StoreRefused, RecordFailed} then s.db.uploads[u].size else 0)
    {
      InitReserves(s, u, outcome, who);
    }
  }

  lemma InitReserves(s: Sys, u: nat, outcome: InitOutcome, who: nat)
    requires u < |s.db.uploads| && Counted(s.db.uploads[u])
    ensures ReservedBytes(InitTx(s, u, outcome).db, who) == ReservedBytes(s.db, who) -
      (if who == s.db.uploads[u].owner && outcome in {StoreRefused, RecordFailed} then s.db.uploads[u].size else 0)
  {
    SumDiffersAt(UploadCharges(s.db, who), UploadCharges(InitTx(s, u, outcome).db, who), u);
  }

  lemma SessionIsFresh(cfg: Config, s: Sys)
    requires Inv(cfg, s)
    ensures s.store.nextSession !in s.store.sessions
  {
    forall id | id in s.store.sessions
      ensures id < s.store.nextSession
    {
      assert SessionOk(cfg, s.db.uploads, id, s.store.sessions[id]);
    }
  }

  // Parts.

  /** What a signing request may ask: numbers of the plan, and one checksum for each, the recorded one if any. */
  predicate Signable(row: UploadRow, ps: seq<SignRequest>)
    requires row.chunk > 0
  {
    && (forall i :: 0 <= i < |ps| ==>
          && 1 <= ps[i].number <= PartCount(row.size, row.chunk)
          && (HasPart(row, ps[i].number) ==> row.parts[ps[i].number - 1].value.checksum == ps[i].checksum))
    && (forall i, j :: 0 <= i < j < |ps| && ps[i].number == ps[j].number ==> ps[i].checksum == ps[j].checksum)
  }

  predicate Asks(ps: seq<SignRequest>, n: int) {
    exists i :: 0 <= i < |ps| && ps[i].number == n
  }

  /** A part that was recorded is as it was; one that was asked for is recorded at its planned length. */
  ghost predicate SignedRow(was: UploadRow, row: UploadRow, ps: seq<SignRequest>)
    requires was.chunk > 0
  {
    && row == was.(parts := row.parts) && |row.parts| == |was.parts|
    && (forall n {:trigger HasPart(row, n)} :: HasPart(row, n) <==> HasPart(was, n) || Asks(ps, n))
    && (forall n {:trigger HasPart(was, n)} :: HasPart(was, n) ==> row.parts[n - 1] == was.parts[n - 1])
    && (forall i :: 0 <= i < |ps| && !HasPart(was, ps[i].number) ==>
          && HasPart(row, ps[i].number)
          && row.parts[ps[i].number - 1].value.checksum == ps[i].checksum
          && row.parts[ps[i].number - 1].value.etag.None?
          && ExpectedPartBytes(was.size, was.chunk, ps[i].number) == Some(row.parts[ps[i].number - 1].value.expected))
  }

  lemma AsksMore(ps: seq<SignRequest>, p: SignRequest, n: int)
    ensures Asks(ps + [p], n) <==> Asks(ps, n) || n == p.number
  {
    var more := ps + [p];
    assert more[|ps|] == p;
    if i :| 0 <= i < |ps| && ps[i].number == n {
      assert more[i].number == n;
    }
  }

  lemma SignableMore(was: UploadRow, row: UploadRow, ps: seq<SignRequest>, p: SignRequest)
    requires was.chunk > 0 && |was.parts| == MAX_PARTS && PartCount(was.size, was.chunk) <= MAX_PARTS
    requires Signable(was, ps) && SignedRow(was, row, ps)
    ensures SignPart(row, p).Some? <==> Signable(was, ps + [p])
  {
    var more := ps + [p];
    assert more[|ps|] == p && forall i :: 0 <= i < |ps| ==> more[i] == ps[i];
    if HasPart(row, p.number) && !HasPart(was, p.number) {
      var i :| 0 <= i < |ps| && ps[i].number == p.number;
      assert more[i].number == more[|ps|].number;
    }
  }

  lemma SignOneMore(was: UploadRow, row: UploadRow, ps: seq<SignRequest>, p: SignRequest)
    requires was.chunk > 0 && |was.parts| == MAX_PARTS
    requires SignedRow(was, row, ps) && SignPart(row, p).Some?
    ensures SignedRow(was, SignPart(row, p).value, ps + [p])
  {
    var more, row' := ps + [p], SignPart(row, p).value;
    assert more[|ps|] == p && forall i :: 0 <= i < |ps| ==> more[i] == ps[i];
    forall n
      ensures HasPart(row', n) <==> HasPart(was, n) || Asks(more, n)
    {
      AsksMore(ps, p, n);
      assert HasPart(row, n) <==> HasPart(was, n) || Asks(ps, n);
    }
  }

  lemma {:induction false} SignPartsExactly(row: UploadRow, ps: seq<SignRequest>)
    requires row.chunk > 0 && |row.parts| == MAX_PARTS && PartCount(row.size, row.chunk) <= MAX_PARTS
    ensures SignParts(row, ps).Some? <==> Signable(row, ps)
    ensures SignParts(row, ps).Some? ==> SignedRow(row, SignParts(row, ps).value, ps)
  {
    if |ps| > 0 {
      var before, last := ps[..|ps| - 1], ps[|ps| - 1];
      assert ps == before + [last];
      SignPartsExactly(row, before);
      if SignParts(row, before).Some? {
        SignableMore(row, SignParts(row, before).value, before, last);
        if SignParts(row, ps).Some? {
          SignOneMore(row, SignParts(row, before).value, before, last);
        }
      }
    }
  }

  /** The URLs a request is answered with: one for each part it asked for, at its planned length. */
  ghost predicate UrlsAdded(a: Store, b: Store, row: UploadRow, session: nat, ps: seq<SignRequest>)
    requires row.chunk > 0
  {
    && b == a.(urls := b.urls) && a.urls <= b.urls
    && (forall i :: 0 <= i < |ps| && ExpectedPartBytes(row.size, row.chunk, ps[i].number).Some? ==>
          Url(session, ps[i].number, ExpectedPartBytes(row.size, row.chunk, ps[i].number).value, ps[i].checksum)
            in b.urls)
    && (forall url :: url in b.urls && url !in a.urls ==>
          exists i :: 0 <= i < |ps| && url == SignedUrl(row, session, ps[i]))
  }

  /** Who may sign parts of an upload: its owner, while it runs, its session is open and the disk is not critical. */
  predicate MaySign(cfg: Config, s: Sys, u: nat, owner: nat, active: bool) {
    && u < |s.db.uploads| && s.db.uploads[u].owner == owner && s.db.uploads[u].state in {UPLOADING, FAILED}
    && s.db.uploads[u].session.Some? && active
    && s.store.free >= cfg.minimumFree && s.store.free >= cfg.criticalFree
  }

  lemma SignExactly(cfg: Config, s: Sys, u: nat, owner: nat, ps: seq<SignRequest>, active: bool)
    requires Inv(cfg, s)
    ensures var r := SignTx(cfg, s, u, owner, ps, active);
      && (u < |s.db.uploads| ==> s.db.uploads[u].chunk > 0)
      && (r.Some? <==> MaySign(cfg, s, u, owner, active) && Signable(s.db.uploads[u], ps))
      && (r.Some? ==>
            && OthersSame(s.db, r.value.db, None, None, Some(u))
            && r.value.db.uploads[u].state == UPLOADING
            && SignedRow(s.db.uploads[u].(state := UPLOADING), r.value.db.uploads[u], ps)
            && UrlsAdded(s.store, r.value.store, s.db.uploads[u], s.db.uploads[u].session.value, ps))
  {
    if u < |s.db.uploads| {
      var row := s.db.uploads[u];
      assert UploadOk(cfg, row);
      PlanFitsStorageLimit(row.size, cfg.partMiB);
      SignPartsExactly(row, ps);
      var r := SignTx(cfg, s, u, owner, ps, active);
      if r.Some? {
        SignedStore(s.store, row, row.session.value, ps);
        assert r.value.db.uploads[u] == SignParts(row, ps).value.(state := UPLOADING);
        SignedLater(row, SignParts(row, ps).value, ps);
      }
    }
  }

  lemma SignedLater(was: UploadRow, row: UploadRow, ps: seq<SignRequest>)
    requires was.chunk > 0 && SignedRow(was, row, ps)
    ensures SignedRow(was.(state := UPLOADING), row.(state := UPLOADING), ps)
  {
    var a, b := was.(state := UPLOADING), row.(state := UPLOADING);
    forall n
      ensures HasPart(b, n) <==> HasPart(a, n) || Asks(ps, n)
      ensures HasPart(a, n) ==> b.parts[n - 1] == a.parts[n - 1]
    {
      assert HasPart(row, n) <==> HasPart(was, n) || Asks(ps, n);
    }
  }

  lemma SignedStore(st: Store, row: UploadRow, session: nat, ps: seq<SignRequest>)
    requires row.chunk > 0
    ensures UrlsAdded(st, st.(urls := st.urls + SignedUrls(row, session, ps)), row, session, ps)
  {
    var after := st.(urls := st.urls + SignedUrls(row, session, ps));
    forall i | 0 <= i < |ps|
      ensures SignedUrl(row, session, ps[i]) in after.urls
    {
      assert ps[i] in ps;
    }
    forall url | url in after.urls && url !in st.urls
      ensures exists i :: 0 <= i < |ps| && url == SignedUrl(row, session, ps[i])
    {
      var p :| p in ps && url == SignedUrl(row, session, p);
      var i :| 0 <= i < |ps| && ps[i] == p;
    }
  }

  /** The last etag a listing has for a part. */
  predicate LastEtag(listing: seq<Listed>, n: int, etag: string) {
    exists i :: 0 <= i < |listing| && listing[i].part.number == n && listing[i].part.etag == etag
                && forall j :: i < j < |listing| ==> listing[j].part.number != n
  }

  lemma LastEtagMore(listing: seq<Listed>, last: Listed, n: int, etag: string)
    ensures LastEtag(listing + [last], n, etag) <==>
      if last.part.number == n then last.part.etag == etag else LastEtag(listing, n, etag)
  {
    var more := listing + [last];
    assert more[|listing|] == last && forall i :: 0 <= i < |listing| ==> more[i] == listing[i];
    if LastEtag(listing, n, etag) && last.part.number != n {
      var i :| 0 <= i < |listing| && listing[i].part.number == n && listing[i].part.etag == etag
        && forall j :: i < j < |listing| ==> listing[j].part.number != n;
      assert more[i].part.number == n;
    }
  }

  lemma {:induction false} EtagExactly(listing: seq<Listed>, n: int, otherwise: Option<string>)
    ensures if exists i :: 0 <= i < |listing| && listing[i].part.number == n
      then EtagFrom(listing, n, otherwise).Some? && LastEtag(listing, n, EtagFrom(listing, n, otherwise).value)
      else EtagFrom(listing, n, otherwise) == otherwise
  {
    if |listing| > 0 {
      var before, last := listing[..|listing| - 1], listing[|listing| - 1];
      assert listing == before + [last];
      EtagExactly(before, n, otherwise);
      if EtagFrom(listing, n, otherwise).Some? {
        LastEtagMore(before, last, n, EtagFrom(listing, n, otherwise).value);
      }
      if i :| 0 <= i < |listing| && listing[i].part.number == n && last.part.number != n {
        assert before[i].part.number == n;
      }
      if i :| 0 <= i < |before| && before[i].part.number == n {
        assert listing[i].part.number == n;
      }
    }
  }

  /**
   A listing is refused exactly for a part that was never signed, or whose length or reported checksum is not
   the signed one; otherwise each listed part gets the last etag listed for it and the others keep theirs.
   */
  lemma ReconcileExactly(row: UploadRow, listing: seq<Listed>)
    ensures var r := Reconcile(row, listing);
      && (r.Some? <==>
            forall i :: 0 <= i < |listing| ==>
              var part := listing[i].part;
              && 1 <= part.number <= |row.parts| && row.parts[part.number - 1].Some?
              && part.size == row.parts[part.number - 1].value.expected
              && listing[i].checksum in {None, Some(row.parts[part.number - 1].value.checksum)})
      && (r.Some? ==>
            && r.value == row.(parts := r.value.parts) && |r.value.parts| == |row.parts|
            && forall k :: 0 <= k < |row.parts| ==>
                 && r.value.parts[k].Some? == row.parts[k].Some?
                 && (row.parts[k].Some? ==>
                       && r.value.parts[k].value == row.parts[k].value.(etag := r.value.parts[k].value.etag)
                       && (if exists i :: 0 <= i < |listing| && listing[i].part.number == k + 1
                           then r.value.parts[k].value.etag.Some?
                                && LastEtag(listing, k + 1, r.value.parts[k].value.etag.value)
                           else r.value.parts[k].value.etag == row.parts[k].value.etag)))
  {
    if Reconcile(row, listing).Some? {
      forall k | 0 <= k < |row.parts| && row.parts[k].Some?
        ensures var etag := Reconcile(row, listing).value.parts[k].value.etag;
          if exists i :: 0 <= i < |listing| && listing[i].part.number == k + 1
          then etag.Some? && LastEtag(listing, k + 1, etag.value) else etag == row.parts[k].value.etag
      {
        EtagExactly(listing, k + 1, row.parts[k].value.etag);
      }
    }
  }

  /** An acknowledgement by the owner writes the etag of a part that was signed, and nothing else. */
  lemma AckExactly(cfg: Config, s: Sys, u: nat, owner: nat, number: int, etag: string)
    ensures var s' := Apply(cfg, s, Ack(u, owner, number, etag));
      if u < |s.db.uploads| && s.db.uploads[u].owner == owner && etag != "" && HasPart(s.db.uploads[u], number)
      then
        && s'.store == s.store && OthersSame(s.db, s'.db, None, None, Some(u))
        && var was, row := s.db.uploads[u], s'.db.uploads[u];
           && row == was.(parts := row.parts) && |row.parts| == |was.parts|
           && (forall i :: 0 <= i < |was.parts| && i != number - 1 ==> row.parts[i] == was.parts[i])
           && row.parts[number - 1] == Some(was.parts[number - 1].value.(etag := Some(etag)))
      else s' == s
  {
  }

  /** After a status request every recorded part the store holds has the store's etag; nothing else changes. */
  lemma StatusExactly(cfg: Config, s: Sys, u: nat, owner: nat)
    requires Inv(cfg, s)
    ensures var s' := Apply(cfg, s, Status(u, owner));
      if && u < |s.db.uploads| && s.db.uploads[u].owner == owner && s.db.uploads[u].state in {UPLOADING, FAILED}
         && s.db.uploads[u].session.Some? && s.db.uploads[u].session.value in s.store.sessions
      then
        && s'.store == s.store && OthersSame(s.db, s'.db, None, None, Some(u))
        && var was, row := s.db.uploads[u], s'.db.uploads[u];
           var stored := s.store.sessions[was.session.value].parts;
           && row == was.(parts := row.parts) && |row.parts| == |was.parts| == |stored|
           && forall i :: 0 <= i < |was.parts| ==>
                row.parts[i] == if was.parts[i].Some? && stored[i].Some?
                                then Some(was.parts[i].value.(etag := Some(stored[i].value.etag))) else was.parts[i]
      else s' == s
  {
    if u < |s.db.uploads| {
      assert UploadOk(cfg, s.db.uploads[u]);
      if Completion.Backed(cfg, s, u) {
        StatusEtags(cfg, s, u);
      }
    }
  }

  /** A status request also reconciles an upload that a crash left finalizing, if the store's listing agrees. */
  lemma StatusReconciles(cfg: Config, s: Sys, u: nat, owner: nat)
    requires u < |s.db.uploads| && s.db.uploads[u].owner == owner && s.db.uploads[u].session.Some?
    requires s.db.uploads[u].state in {UPLOADING, FINALIZING, FAILED}
    requires s.db.uploads[u].session.value in s.store.sessions
    ensures var row, parts := s.db.uploads[u], s.store.sessions[s.db.uploads[u].session.value].parts;
      Apply(cfg, s, Status(u, owner)) ==
        match Reconcile(row, Listing(parts, cfg.hash, |parts|))
        case None => s
        case Some(row') => s.(db := s.db.(uploads := s.db.uploads[u := row']))
  {
  }

  lemma StatusEtags(cfg: Config, s: Sys, u: nat)
    requires Completion.Backed(cfg, s, u)
    ensures var row := s.db.uploads[u];
      var stored := s.store.sessions[row.session.value].parts;
      var r := Reconcile(row, ListParts(s.store, cfg.hash, row.session.value).value);
      && r.Some? && |stored| == |row.parts| && |r.value.parts| == |row.parts| && r.value == row.(parts := r.value.parts)
      && forall i :: 0 <= i < |row.parts| ==>
           r.value.parts[i] == if row.parts[i].Some? && stored[i].Some?
                               then Some(row.parts[i].value.(etag := Some(stored[i].value.etag))) else row.parts[i]
  {
    var row := s.db.uploads[u];
    var session := s.store.sessions[row.session.value];
    Completion.ListingAccepted(cfg, s, u);
    assert UploadOk(cfg, row) && SessionOk(cfg, s.db.uploads, row.session.value, session);
    forall i | 0 <= i < |row.parts| && row.parts[i].Some?
      ensures EtagFrom(Listing(session.parts, cfg.hash, |session.parts|), i + 1, row.parts[i].value.etag) ==
        if session.parts[i].Some? then Some(session.parts[i].value.etag) else row.parts[i].value.etag
    {
      Completion.EtagOfListed(session.parts, cfg.hash, |session.parts|, i + 1, row.parts[i].value.etag);
    }
  }
}
