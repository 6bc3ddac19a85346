/**
 Runs that show what the assumptions on runs are for: a run that forgets an object, and admitted runs
 after which one step the code accepts breaks a promise. All of them work on one-byte files.
 */
module Witnesses {
  import opened Base
  import opened Planning
  import opened ObjectStore
  import opened Catalog
  import opened Transactions
  import opened Runs
  import opened Integrity
  import opened Safety
  import opened References
  import opened Quota
  import opened Races
  import Completion

  /** A site where every account may store `storage` bytes, in files of one byte. */
  function SmallSite(hash: Bytes -> int, storage: nat): Config {
    Config(hash, _ => Policy(storage, 1, 1, 0, 0), 8, 0, 0, 1, storage, false, 0, 0)
  }

  /** What admission asks of the settings for one upload of one byte. */
  predicate Admits(cfg: Config) {
    && Floor(cfg) == 0 && cfg.incompleteUploadLimit == 1 && cfg.incompleteReserved >= 1
    && cfg.policy(0).concurrentUploads == 1 && cfg.policy(0).fileBytes == 1 && cfg.policy(0).storageBytes >= 1
  }

  const ONE_BYTE: Event := CreateUpload(0, 1, "", true)

  /** Nothing is charged and nothing is reserved. */
  predicate Idle(db: Db) {
    && db.versions == []
    && (forall f :: 0 <= f < |db.files| ==> !Charged(db.files[f]))
    && (forall u :: 0 <= u < |db.uploads| ==> !Counted(db.uploads[u]))
  }

  lemma {:induction false} SumOfZeros(xs: seq<int>)
    requires forall i :: 0 <= i < |xs| ==> xs[i] == 0
    ensures Sum(xs) == 0
  {
    if |xs| > 0 {
      SumOfZeros(xs[..|xs| - 1]);
    }
  }

  lemma {:induction false} NoneIncomplete(uploads: seq<UploadRow>, owner: nat)
    requires forall u :: 0 <= u < |uploads| ==> !Counted(uploads[u])
    ensures IncompleteUploads(uploads, owner) == 0
  {
    if |uploads| > 0 {
      NoneIncomplete(uploads[..|uploads| - 1], owner);
    }
  }

  /** An idle account may create one upload of one byte, and then has one byte reserved. */
  lemma IdleCreates(cfg: Config, s: Sys)
    requires Inv(cfg, s) && Idle(s.db) && s.store.free >= 1 && Admits(cfg)
    ensures CreateTx(cfg, s, 0, 1, "", true).Some?
    ensures Balance(Apply(cfg, s, ONE_BYTE).db, 0) == 1
  {
    SumOfZeros(FileCharges(s.db, 0));
    SumOfZeros(VersionCharges(s.db, s.db.versions, 0));
    SumOfZeros(UploadCharges(s.db, 0));
    SumOfZeros(Reservations(s.db.uploads));
    NoneIncomplete(s.db.uploads, 0);
    CreateReserves(cfg, s, 0, 1, "", true, 0);
  }

  // One stored file.

  /** The only file of the system is stored, and no purge job was ever enqueued for it. */
  predicate OneStored(s: Sys) {
    && |s.db.files| == |s.db.objects| == |s.db.uploads| == 1 && s.db.versions == []
    && s.db.files[0].owner == s.db.files[0].obj == 0 && s.db.files[0].state == AVAILABLE
    && s.db.objects[0].state == AVAILABLE && s.db.objects[0].purge == NoJob && s.db.objects[0].expected == 1
    && s.db.uploads[0].state == COMPLETE
    && s.store.free >= 1
  }

  /** A stored part waits for its completion. */
  predicate OnePart(s: Sys) {
    && |s.db.files| == |s.db.objects| == |s.db.uploads| == 1 && s.db.versions == []
    && s.db.files[0].owner == s.db.files[0].obj == 0
    && s.db.objects[0].purge == NoJob && s.db.objects[0].expected == 1
    && s.db.uploads[0].owner == s.db.uploads[0].file == s.db.uploads[0].obj == 0
    && s.db.uploads[0].size == 1 && s.db.uploads[0].state == UPLOADING
    && s.db.uploads[0].session == Some(0) && 0 in s.store.sessions
    && s.db.uploads[0].chunk > 0
    && Completion.StoredUpTo(s.store.sessions[0].parts, PartCount(1, s.db.uploads[0].chunk))
    && s.store.objects == map[] && s.store.free >= 2
  }

  function PartOfByte(hash: Bytes -> int): Put {
    Put(Url(0, 1, 1, hash([0])), [0], "etag", false)
  }

  lemma OnePlanned(chunk: nat)
    requires chunk > 0
    ensures PartCount(1, chunk) == 1 && ExpectedPartBytes(1, chunk, 1) == Some(1)
  {
    CeilDivUnique(1, chunk, 1);
  }

  predicate ByteRow(row: UploadRow) {
    && row.owner == row.file == row.obj == 0 && row.size == 1 && row.chunk > 0
    && |row.parts| == MAX_PARTS && row.parts[0].None? && row.error == NoError
  }

  /** The only upload: one byte, planned as one part, with no part recorded. */
  predicate OneUpload(s: Sys, state: UploadState, session: Option<nat>) {
    && |s.db.files| == |s.db.objects| == |s.db.uploads| == 1 && s.db.versions == []
    && s.db.files[0].owner == s.db.files[0].obj == 0
    && s.db.objects[0].purge == NoJob && s.db.objects[0].expected == 1
    && ByteRow(s.db.uploads[0]) && s.db.uploads[0].state == state && s.db.uploads[0].session == session
    && s.store.objects == map[] && s.store.free == 3
  }

  lemma ByteCreated(cfg: Config)
    requires Admits(cfg)
    ensures var s := Apply(cfg, EmptySystem(3), ONE_BYTE);
      OneUpload(s, CREATED, None) && s.store == EmptySystem(3).store
  {
    EmptyKeeps(cfg, 3);
    IdleCreates(cfg, EmptySystem(3));
    FirstRows(cfg, EmptySystem(3));
  }

  lemma FirstRows(cfg: Config, s: Sys)
    requires s.db == Db([], [], [], []) && s.store.objects == map[] && s.store.free == 3
    requires CreateTx(cfg, s, 0, 1, "", true).Some?
    ensures OneUpload(s.(db := CreateTx(cfg, s, 0, 1, "", true).value), CREATED, None)
  {
    NewRow(cfg, s.db);
    CreatedRows(cfg, s);
  }

  lemma CreatedRows(cfg: Config, s: Sys)
    requires CreateTx(cfg, s, 0, 1, "", true).Some?
    ensures CreateTx(cfg, s, 0, 1, "", true).value == s.db.(
      objects := s.db.objects + [NewObject(1)],
      files := s.db.files + [FileRow(0, |s.db.objects|, PROCESSING, 1, "")],
      uploads := s.db.uploads + [NewUpload(cfg, s.db, 0, 1)])
  {
  }

  lemma NewRow(cfg: Config, db: Db)
    requires db.files == [] && db.objects == []
    ensures ByteRow(NewUpload(cfg, db, 0, 1))
  {
    PlanFitsStorageLimit(1, cfg.partMiB);
  }

  lemma EmptyKeeps(cfg: Config, free: int)
    ensures Inv(cfg, EmptySystem(free))
  {
  }

  predicate EmptySession(st: Store) {
    && 0 in st.sessions && st.sessions[0].key == 0 && |st.sessions[0].parts| == MAX_PARTS
    && forall i :: 0 <= i < MAX_PARTS ==> st.sessions[0].parts[i].None?
  }

  lemma SessionOpened(s: Sys)
    requires OneUpload(s, CREATED, None) && s.store == EmptySystem(3).store
    ensures var s' := InitTx(s, 0, Recorded);
      OneUpload(s', UPLOADING, Some(0)) && EmptySession(s'.store) && s'.store.urls == {}
  {
  }

  lemma {:induction false} ByteSigned(cfg: Config, s: Sys)
    requires OneUpload(s, UPLOADING, Some(0)) && EmptySession(s.store) && s.store.urls == {} && Floor(cfg) == 0
    ensures var r := SignTx(cfg, s, 0, 0, [SignRequest(1, cfg.hash([0]))], true);
      && r.Some?
      && r.value.db == s.db.(uploads := r.value.db.uploads) && |r.value.db.uploads| == 1
      && r.value.db.uploads[0] == s.db.uploads[0].(parts := r.value.db.uploads[0].parts)
      && r.value.store == s.store.(urls := {PartOfByte(cfg.hash).url})
  {
    var row, p := s.db.uploads[0], SignRequest(1, cfg.hash([0]));
    OnePlanned(row.chunk);
    assert [p][..0] == [];
    assert SignParts(row, []) == Some(row);
    assert SignParts(row, [p]) == SignPart(row, p);
    assert SignedUrl(row, 0, p) == PartOfByte(cfg.hash).url;
    assert SignedUrls(row, 0, [p]) == {SignedUrl(row, 0, p)};
  }

  lemma ByteSent(cfg: Config, s: Sys)
    requires EmptySession(s.store) && s.store.urls == {PartOfByte(cfg.hash).url}
    requires s.store.objects == map[] && s.store.free == 3
    ensures var st := PutPart(s.store, cfg.hash, PartOfByte(cfg.hash));
      && 0 in st.sessions && Completion.StoredUpTo(st.sessions[0].parts, 1)
      && st.objects == map[] && st.free == 2
  {
  }

  function SignByte(hash: Bytes -> int): Event {
    Sign(0, 0, [SignRequest(1, hash([0]))], true)
  }

  /** After the first half of a create request. */
  lemma UploadWaits(cfg: Config) returns (es: seq<Event>)
    requires Admits(cfg)
    ensures AllAssumed(cfg, EmptySystem(3), es)
    ensures var s := Run(cfg, EmptySystem(3), es); OneUpload(s, CREATED, None) && s.store == EmptySystem(3).store
  {
    es := [];
    ByteCreated(cfg);
    RunExtends(cfg, EmptySystem(3), es, ONE_BYTE);
    es := es + [ONE_BYTE];
  }

  /** After both halves of a create request. */
  lemma SessionWaits(cfg: Config) returns (es: seq<Event>)
    requires Admits(cfg)
    ensures AllAssumed(cfg, EmptySystem(3), es)
    ensures var s := Run(cfg, EmptySystem(3), es);
      OneUpload(s, UPLOADING, Some(0)) && EmptySession(s.store) && s.store.urls == {}
  {
    es := UploadWaits(cfg);
    SessionOpened(Run(cfg, EmptySystem(3), es));
    RunExtends(cfg, EmptySystem(3), es, InitUpload(0, Recorded));
    es := es + [InitUpload(0, Recorded)];
  }

  /** After a create request with both halves, a signed part and its upload. */
  lemma PartWaits(hash: Bytes -> int, storage: nat) returns (es: seq<Event>)
    requires storage > 0
    ensures var cfg := SmallSite(hash, storage);
      && AllAssumed(cfg, EmptySystem(3), es) && Inv(cfg, Run(cfg, EmptySystem(3), es))
      && OnePart(Run(cfg, EmptySystem(3), es))
  {
    var cfg, s0 := SmallSite(hash, storage), EmptySystem(3);
    es := SessionWaits(cfg);
    ByteSigned(cfg, Run(cfg, s0, es));
    OnePlanned(Run(cfg, s0, es).db.uploads[0].chunk);
    RunExtends(cfg, s0, es, SignByte(hash));
    es := es + [SignByte(hash)];
    ByteSent(cfg, Run(cfg, s0, es));
    RunExtends(cfg, s0, es, PutPartBytes(PartOfByte(hash)));
    es := es + [PutPartBytes(PartOfByte(hash))];
    EmptyKeeps(cfg, 3);
    RunKeeps(cfg, s0, es);
  }

  /** A file of one byte can be stored: no assumption on the hash is needed for that. */
  lemma FileStored(hash: Bytes -> int, storage: nat) returns (es: seq<Event>)
    requires storage > 0
    ensures var cfg := SmallSite(hash, storage);
      && AllAssumed(cfg, EmptySystem(3), es) && Inv(cfg, Run(cfg, EmptySystem(3), es))
      && OneStored(Run(cfg, EmptySystem(3), es))
  {
    var cfg := SmallSite(hash, storage);
    var s0, v := EmptySystem(3), Verdict(false, "", false);
    es := PartWaits(hash, storage);
    var s := Run(cfg, s0, es);
    Completion.FirstCompletionExactly(cfg, s, 0, v);
    StoresByte(cfg, s, v);
    RunExtends(cfg, s0, es, Finalize(0, 0, [], false, v));
    es := es + [Finalize(0, 0, [], false, v)];
    EmptyKeeps(cfg, 3);
    RunKeeps(cfg, s0, es);
  }

  lemma StoresByte(cfg: Config, s: Sys, v: Verdict)
    requires Inv(cfg, s) && OnePart(s) && !v.quarantine
    requires FinalizeTx(cfg, s, 0, 0, [], false, v).1.Finished?
    ensures OneStored(FinalizeTx(cfg, s, 0, 0, [], false, v).0)
  {
    var s' := FinalizeTx(cfg, s, 0, 0, [], false, v).0;
    var row, size := Completion.FinalizeIsCompletion(cfg, s, 0, 0, [], false, v);
    LeavesRoom(cfg, s, v);
  }

  /** Completing gives back what the session held and takes the object's byte. */
  lemma LeavesRoom(cfg: Config, s: Sys, v: Verdict)
    requires Inv(cfg, s) && OnePart(s)
    requires FinalizeTx(cfg, s, 0, 0, [], false, v).1.Finished?
    ensures FinalizeTx(cfg, s, 0, 0, [], false, v).0.store.free >= 1
    ensures FinalizeTx(cfg, s, 0, 0, [], false, v).0.db != s.db
  {
    var s' := FinalizeTx(cfg, s, 0, 0, [], false, v).0;
    assert PutParts(s.store, cfg.hash, []) == s.store;
    SumNonNegative(SlotLengths(s.store.sessions[0].parts));
  }

  // A forgotten object.

  /** Two files of account 0 on the only object, and the state of its purge job. */
  predicate Copies(db: Db, first: FileState, second: FileState, job: JobStatus) {
    && |db.files| == 2 && |db.objects| == 1 && db.versions == []
    && db.files[0].owner == db.files[0].obj == 0 && db.files[0].state == first
    && db.files[1].owner == db.files[1].obj == 0 && db.files[1].state == second
    && db.objects[0].state == AVAILABLE && db.objects[0].purge == job
  }

  lemma {:induction false} BulkOfOne(cfg: Config, db: Db, f: nat, action: BulkAction)
    ensures BulkTx(cfg, db, 0, [f], action) == BulkItem(cfg, db, 0, f, action)
  {
    assert [f][1..] == [];
  }

  lemma ByteCopied(cfg: Config, s: Sys)
    requires OneStored(s) && cfg.policy(0).storageBytes >= 2
    ensures Copies(Apply(cfg, s, Bulk(0, [0], Copy)).db, AVAILABLE, AVAILABLE, NoJob)
  {
    BulkOfOne(cfg, s.db, 0, Copy);
    SumDiffersAt([0], FileCharges(s.db, 0), 0);
    SumOfZeros([0]);
    SumOfZeros(VersionCharges(s.db, s.db.versions, 0));
    SumOfZeros(UploadCharges(s.db, 0));
  }

  /** Purging one copy queues the object; the other copy still needs it. */
  lemma FirstCopyPurged(cfg: Config, s: Sys)
    requires Copies(s.db, AVAILABLE, AVAILABLE, NoJob)
    ensures var trashed := Apply(cfg, s, Bulk(0, [0], Delete));
      Copies(Apply(cfg, trashed, Bulk(0, [0], BulkAction.Purge)).db, PURGED, AVAILABLE, JobPending)
  {
    BulkOfOne(cfg, s.db, 0, Delete);
    BulkOfOne(cfg, Apply(cfg, s, Bulk(0, [0], Delete)).db, 0, BulkAction.Purge);
  }

  /** The job runs and finds the object needed. */
  lemma JobFindsCopy(cfg: Config, s: Sys)
    requires Copies(s.db, PURGED, AVAILABLE, JobPending)
    ensures var claimed := Apply(cfg, s, ClaimPurge(0));
      Copies(Apply(cfg, claimed, RunPurge(0, false)).db, PURGED, AVAILABLE, JobRunning)
  {
    var claimed := ClaimTx(s.db, 0);
    assert claimed.files[1].obj == 0 && Live(claimed.files[1]);
    assert Referenced(claimed, 0);
  }

  /** Before the job is marked as completed the other copy goes too, and enqueueing does nothing. */
  lemma SecondCopyPurged(cfg: Config, s: Sys)
    requires Copies(s.db, PURGED, AVAILABLE, JobRunning)
    ensures var trashed := Apply(cfg, s, Bulk(0, [1], Delete));
      Copies(Apply(cfg, trashed, Bulk(0, [1], BulkAction.Purge)).db, PURGED, PURGED, JobRunning)
  {
    BulkOfOne(cfg, s.db, 1, Delete);
    BulkOfOne(cfg, Apply(cfg, s, Bulk(0, [1], Delete)).db, 1, BulkAction.Purge);
  }

  lemma BothGone(db: Db)
    requires Copies(db, PURGED, PURGED, JobRunning)
    ensures !NoLeak(FinishTx(db, 0, true))
  {
    var done := FinishTx(db, 0, true);
    assert done.files == db.files;
    assert !Referenced(done, 0);
    assert done.objects[0].state == AVAILABLE && !JobActive(done.objects[0]);
  }

  /** Two further steps of an admitted run. */
  lemma {:induction false} RunsTwoMore(cfg: Config, s: Sys, es: seq<Event>, e: Event, e': Event)
    requires AllAssumed(cfg, s, es) && !e.InitUpload? && !e.Override? && !e'.InitUpload? && !e'.Override?
    ensures AllAssumed(cfg, s, es + [e] + [e'])
    ensures Run(cfg, s, es + [e] + [e']) == Apply(cfg, Apply(cfg, Run(cfg, s, es), e), e')
  {
    RunExtends(cfg, s, es, e);
    RunExtends(cfg, s, es + [e], e');
  }

  /** What comes between storing a file and forgetting its object. */
  function ForgettingSteps(): seq<Event> {
    [Bulk(0, [0], Copy)] +
    [Bulk(0, [0], Delete)] + [Bulk(0, [0], BulkAction.Purge)] +
    [ClaimPurge(0)] + [RunPurge(0, false)] +
    [Bulk(0, [1], Delete)] + [Bulk(0, [1], BulkAction.Purge)] +
    [FinishPurge(0, true)]
  }

  /** The run up to the moment the second copy is about to go, the purge job having run already. */
  lemma JobRunsEarly(hash: Bytes -> int, stored: seq<Event>) returns (es: seq<Event>)
    requires AllAssumed(SmallSite(hash, 2), EmptySystem(3), stored)
    requires OneStored(Run(SmallSite(hash, 2), EmptySystem(3), stored))
    ensures AllAssumed(SmallSite(hash, 2), EmptySystem(3), es)
    ensures Copies(Run(SmallSite(hash, 2), EmptySystem(3), es).db, PURGED, AVAILABLE, JobRunning)
    ensures es == stored + [Bulk(0, [0], Copy)] + [Bulk(0, [0], Delete)] + [Bulk(0, [0], BulkAction.Purge)]
                  + [ClaimPurge(0)] + [RunPurge(0, false)]
  {
    var cfg, s0 := SmallSite(hash, 2), EmptySystem(3);
    ByteCopied(cfg, Run(cfg, s0, stored));
    RunExtends(cfg, s0, stored, Bulk(0, [0], Copy));
    es := stored + [Bulk(0, [0], Copy)];
    FirstCopyPurged(cfg, Run(cfg, s0, es));
    RunsTwoMore(cfg, s0, es, Bulk(0, [0], Delete), Bulk(0, [0], BulkAction.Purge));
    es := es + [Bulk(0, [0], Delete)] + [Bulk(0, [0], BulkAction.Purge)];
    JobFindsCopy(cfg, Run(cfg, s0, es));
    RunsTwoMore(cfg, s0, es, ClaimPurge(0), RunPurge(0, false));
    es := es + [ClaimPurge(0)] + [RunPurge(0, false)];
  }

  /**
   A run from the empty system that forgets an object: a stored file is copied, the first copy is purged,
   the job runs and finds the second copy, the second copy is purged, and only then is the job marked as
   completed. The bytes stay, nothing refers to them and no job will ever remove them.
   */
  lemma ForgettingRun(hash: Bytes -> int) returns (stored: seq<Event>)
    ensures AllAssumed(SmallSite(hash, 2), EmptySystem(3), stored + ForgettingSteps())
    ensures OneStored(Run(SmallSite(hash, 2), EmptySystem(3), stored))
    ensures !NoLeak(Run(SmallSite(hash, 2), EmptySystem(3), stored + ForgettingSteps()).db)
  {
    var cfg, s0 := SmallSite(hash, 2), EmptySystem(3);
    stored := FileStored(hash, 2);
    var es := JobRunsEarly(hash, stored);
    JobEndsLate(cfg, es);
    assert es + [Bulk(0, [1], Delete)] + [Bulk(0, [1], BulkAction.Purge)] + [FinishPurge(0, true)] ==
      stored + ForgettingSteps();
  }

  lemma {:induction false} JobEndsLate(cfg: Config, es: seq<Event>)
    requires AllAssumed(cfg, EmptySystem(3), es)
    requires Copies(Run(cfg, EmptySystem(3), es).db, PURGED, AVAILABLE, JobRunning)
    ensures var all := es + [Bulk(0, [1], Delete)] + [Bulk(0, [1], BulkAction.Purge)] + [FinishPurge(0, true)];
      AllAssumed(cfg, EmptySystem(3), all) && !NoLeak(Run(cfg, EmptySystem(3), all).db)
  {
    var more := es + [Bulk(0, [1], Delete)] + [Bulk(0, [1], BulkAction.Purge)];
    SecondCopyPurged(cfg, Run(cfg, EmptySystem(3), es));
    RunsTwoMore(cfg, EmptySystem(3), es, Bulk(0, [1], Delete), Bulk(0, [1], BulkAction.Purge));
    BothGone(Run(cfg, EmptySystem(3), more).db);
    RunExtends(cfg, EmptySystem(3), more, FinishPurge(0, true));
  }

  // Promises the assumptions protect.

  /** The only account's first upload is aborted before its session was recorded; a second one waits. */
  predicate Replaced(s: Sys) {
    && |s.db.uploads| == 2
    && s.db.uploads[0].state == ABORTED && s.db.uploads[0].session.None? && s.db.uploads[0].error == NoError
    && s.db.uploads[0].owner == 0 && s.db.uploads[0].size == 1
  }

  /** An account may create a second upload once its first one is aborted. */
  lemma AbortThenCreate(cfg: Config, s: Sys)
    requires Inv(cfg, s) && OneUpload(s, CREATED, None) && Admits(cfg)
    ensures var s' := Apply(cfg, Apply(cfg, s, Abort(0, 0, false)), ONE_BYTE); Replaced(s') && Balance(s'.db, 0) == 1
  {
    AbortKeeps(cfg, s, 0, 0, false);
    var aborted := Apply(cfg, s, Abort(0, 0, false));
    assert aborted.db.uploads == [s.db.uploads[0].(state := ABORTED)];
    IdleCreates(cfg, aborted);
  }

  lemma AbortedAndReplaced(hash: Bytes -> int) returns (es: seq<Event>)
    ensures var cfg := SmallSite(hash, 1);
      var s := Run(cfg, EmptySystem(3), es);
      AllAssumed(cfg, EmptySystem(3), es) && Replaced(s) && Balance(s.db, 0) == 1
  {
    var cfg, s0 := SmallSite(hash, 1), EmptySystem(3);
    es := UploadWaits(cfg);
    EmptyKeeps(cfg, 3);
    RunKeeps(cfg, s0, es);
    AbortThenCreate(cfg, Run(cfg, s0, es));
    RunsTwoMore(cfg, s0, es, Abort(0, 0, false), ONE_BYTE);
    es := es + [Abort(0, 0, false)] + [ONE_BYTE];
  }

  /**
   An upload is aborted while its session is being opened, and the freed byte is promised to another
   upload. The late second half revives the aborted one: the account is over its quota.
   */
  lemma LateInitRun(hash: Bytes -> int) returns (es: seq<Event>)
    ensures var cfg := SmallSite(hash, 1);
      var s := Run(cfg, EmptySystem(3), es);
      && AllAssumed(cfg, EmptySystem(3), es) && WithinQuota(cfg, s.db)
      && |s.db.uploads| == 2 && s.db.uploads[0].state == ABORTED
      && InitTx(s, 0, Recorded).db.uploads[0].state == UPLOADING
      && !WithinQuota(cfg, InitTx(s, 0, Recorded).db)
  {
    es := AbortedAndReplaced(hash);
    AdmittedRunKeeps(SmallSite(hash, 1), es);
    LateInitQuotaExactly(SmallSite(hash, 1), Run(SmallSite(hash, 1), EmptySystem(3), es), 0, Recorded);
  }

  lemma {:induction false} AdmittedRunKeeps(cfg: Config, es: seq<Event>)
    requires AllAssumed(cfg, EmptySystem(3), es)
    ensures Inv(cfg, Run(cfg, EmptySystem(3), es)) && WithinQuota(cfg, Run(cfg, EmptySystem(3), es).db)
  {
    EmptyKeeps(cfg, 3);
    EmptyWithin(cfg, 3);
    RunKeeps(cfg, EmptySystem(3), es);
    RunKeepsQuota(cfg, EmptySystem(3), es);
  }

  lemma EmptyWithin(cfg: Config, free: int)
    ensures WithinQuota(cfg, EmptySystem(free).db)
  {
    forall who: nat
      ensures Balance(EmptySystem(free).db, who) == 0
    {
    }
  }

  /** A stored file that has expired; its purge job waits. */
  predicate Lapsed(s: Sys, job: JobStatus) {
    && |s.db.files| >= 1 && |s.db.objects| >= 1
    && s.db.files[0].owner == s.db.files[0].obj == 0 && s.db.files[0].state == EXPIRED
    && s.db.objects[0].purge == job && s.db.objects[0].expected == 1
  }

  /** With the first file expired the account may fill its quota again. */
  lemma LapseThenCreate(cfg: Config, s: Sys)
    requires Inv(cfg, s) && OneStored(s) && Admits(cfg)
    ensures var s' := Apply(cfg, Apply(cfg, s, EndFile(0, FileExpired)), ONE_BYTE);
      Lapsed(s', JobPending) && s'.db.objects[0].state == AVAILABLE && Balance(s'.db, 0) == 1
  {
    EndFileKeeps(cfg, s, 0, FileExpired);
    var lapsed := Apply(cfg, s, EndFile(0, FileExpired));
    assert lapsed.db.uploads == s.db.uploads && lapsed.db.files[0].state == EXPIRED;
    IdleCreates(cfg, lapsed);
  }

  lemma LapsedAndReplaced(hash: Bytes -> int) returns (es: seq<Event>)
    ensures var cfg := SmallSite(hash, 1);
      var s := Run(cfg, EmptySystem(3), es);
      && AllAssumed(cfg, EmptySystem(3), es) && Lapsed(s, JobPending)
      && s.db.objects[0].state == AVAILABLE && Balance(s.db, 0) == 1
  {
    var cfg := SmallSite(hash, 1);
    es := FileStored(hash, 1);
    LapseThenCreate(cfg, Run(cfg, EmptySystem(3), es));
    RunsTwoMore(cfg, EmptySystem(3), es, EndFile(0, FileExpired), ONE_BYTE);
    es := es + [EndFile(0, FileExpired)] + [ONE_BYTE];
  }

  /** A file expires, its account fills the quota again, and a moderator brings the file back. */
  lemma RevivalRun(hash: Bytes -> int) returns (es: seq<Event>)
    ensures var cfg := SmallSite(hash, 1);
      var s := Run(cfg, EmptySystem(3), es);
      && AllAssumed(cfg, EmptySystem(3), es) && WithinQuota(cfg, s.db)
      && Revives(cfg, s, 0, AVAILABLE)
      && !WithinQuota(cfg, OverrideTx(cfg, s.db, 0, Some(AVAILABLE), None).value)
  {
    es := LapsedAndReplaced(hash);
    AdmittedRunKeeps(SmallSite(hash, 1), es);
    RevivalQuotaExactly(SmallSite(hash, 1), Run(SmallSite(hash, 1), EmptySystem(3), es), 0, AVAILABLE);
  }

  lemma LapsedIsRemoved(cfg: Config, s: Sys)
    requires OneStored(s)
    ensures var lapsed := Apply(cfg, s, EndFile(0, FileExpired));
      var s' := Apply(cfg, Apply(cfg, lapsed, ClaimPurge(0)), RunPurge(0, false));
      Lapsed(s', JobRunning) && s'.db.objects[0].state == PURGED && 0 !in s'.store.objects
  {
    var lapsed := ClaimTx(EndFileTx(s.db, 0, FileExpired), 0);
    assert lapsed.versions == [] && |lapsed.files| == 1 && lapsed.files[0].state == EXPIRED;
    assert !Referenced(lapsed, 0);
  }

  /** A file expires, its bytes are removed, and a moderator makes it a blocked or deleted file without bytes. */
  lemma HollowRevivalRun(hash: Bytes -> int, state: FileState) returns (es: seq<Event>)
    requires state in {BLOCKED, DELETED}
    ensures var cfg := SmallSite(hash, 1);
      var s := Run(cfg, EmptySystem(3), es);
      && AllAssumed(cfg, EmptySystem(3), es) && BytesKept(s.db, s.store)
      && Revives(cfg, s, 0, state)
      && !BytesKept(OverrideTx(cfg, s.db, 0, Some(state), None).value, s.store)
  {
    var cfg := SmallSite(hash, 1);
    es := FileStored(hash, 1);
    LapsedIsRemoved(cfg, Run(cfg, EmptySystem(3), es));
    RunExtends(cfg, EmptySystem(3), es, EndFile(0, FileExpired));
    es := es + [EndFile(0, FileExpired)];
    RunsTwoMore(cfg, EmptySystem(3), es, ClaimPurge(0), RunPurge(0, false));
    es := es + [ClaimPurge(0)] + [RunPurge(0, false)];
    AdmittedRunKeeps(cfg, es);
    RevivalBytesExactly(cfg, Run(cfg, EmptySystem(3), es), 0, state);
  }

  // A write that comes too late.

  /** What the worker does about a file in the trash. */
  function TrashSteps(): seq<Event> {
    [EndFile(0, TrashExpired)] + [ClaimPurge(0)] + [RunPurge(0, false)]
  }

  /** The trash cleanup ends the file and the purge job removes its bytes. */
  lemma TrashIsRemoved(cfg: Config, s: Sys)
    requires |s.db.files| == |s.db.objects| == 1 && s.db.versions == []
    requires s.db.files[0].owner == s.db.files[0].obj == 0 && s.db.files[0].state == DELETED
    ensures var ended := Apply(cfg, s, EndFile(0, TrashExpired));
      var s' := Apply(cfg, Apply(cfg, ended, ClaimPurge(0)), RunPurge(0, false));
      && |s'.db.files| == 1 && s'.db.files[0].obj == 0 && s'.db.files[0].state == PURGED
      && 0 !in s'.store.objects
  {
    var ended := ClaimTx(EndFileTx(s.db, 0, TrashExpired), 0);
    assert ended.versions == [] && |ended.files| == 1 && ended.files[0].state == PURGED;
    assert !Referenced(ended, 0);
  }

  lemma ByteTrashed(cfg: Config, s: Sys)
    requires OneStored(s)
    ensures var s' := Apply(cfg, s, Bulk(0, [0], Delete));
      && |s'.db.files| == |s'.db.objects| == 1 && s'.db.versions == []
      && s'.db.files[0].owner == s'.db.files[0].obj == 0 && s'.db.files[0].state == DELETED
      && BulkItem(cfg, s'.db, 0, 0, Restore).Some?
  {
    BulkOfOne(cfg, s.db, 0, Delete);
  }

  /**
   A restore reads a file in the trash; the trash cleanup ends the file and the purge job removes its
   bytes; then the restore writes. The file is live and has no bytes.
   */
  lemma LateRestoreRun(hash: Bytes -> int) returns (es: seq<Event>)
    ensures var cfg := SmallSite(hash, 1);
      var read := Run(cfg, EmptySystem(3), es);
      var s := Run(cfg, EmptySystem(3), es + TrashSteps());
      && AllAssumed(cfg, EmptySystem(3), es + TrashSteps())
      && BulkItem(cfg, read.db, 0, 0, Restore).Some?
      && |s.db.files| == 1 && BytesKept(s.db, s.store)
      && !BytesKept(LateWrite(s.db, 0, AVAILABLE), s.store)
  {
    var cfg := SmallSite(hash, 1);
    es := FileStored(hash, 1);
    ByteTrashed(cfg, Run(cfg, EmptySystem(3), es));
    RunExtends(cfg, EmptySystem(3), es, Bulk(0, [0], Delete));
    es := es + [Bulk(0, [0], Delete)];
    var later := TrashRun(cfg, es);
    AdmittedRunKeeps(cfg, later);
    LateWriteBytesExactly(cfg, Run(cfg, EmptySystem(3), later), 0, AVAILABLE);
  }

  lemma TrashRun(cfg: Config, es: seq<Event>) returns (later: seq<Event>)
    requires AllAssumed(cfg, EmptySystem(3), es)
    requires var s := Run(cfg, EmptySystem(3), es);
      && |s.db.files| == |s.db.objects| == 1 && s.db.versions == []
      && s.db.files[0].owner == s.db.files[0].obj == 0 && s.db.files[0].state == DELETED
    ensures later == es + TrashSteps() && AllAssumed(cfg, EmptySystem(3), later)
    ensures var s := Run(cfg, EmptySystem(3), later);
      |s.db.files| == 1 && s.db.files[0].obj == 0 && s.db.files[0].state == PURGED && 0 !in s.store.objects
  {
    TrashIsRemoved(cfg, Run(cfg, EmptySystem(3), es));
    RunExtends(cfg, EmptySystem(3), es, EndFile(0, TrashExpired));
    later := es + [EndFile(0, TrashExpired)];
    RunsTwoMore(cfg, EmptySystem(3), later, ClaimPurge(0), RunPurge(0, false));
    later := later + [ClaimPurge(0)] + [RunPurge(0, false)];
    assert later == es + TrashSteps();
  }
}
