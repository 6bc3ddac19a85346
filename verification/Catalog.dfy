/**
 The metadata database: the rows the upload, file, version and purge code works on, and the
 accounting view over them (migrations 001 and 003). Rows of file_objects, files and uploads are
 never deleted, so a row's id is its position; `Option` stands for a nullable column.
 */
module Catalog {
  import opened Base

  datatype FileState = PROCESSING | AVAILABLE | QUARANTINED | BLOCKED | DELETED | EXPIRED | PURGED

  /** COMPLETE and TIMED_OUT are the upload states the source also calls AVAILABLE and EXPIRED. */
  datatype UploadState = CREATED | UPLOADING | FINALIZING | COMPLETE | FAILED | ABORTED | TIMED_OUT

  datatype ErrorCode = NoError | INIT_FAILED | INCOMPLETE_UPLOAD | PART_INTEGRITY | OBJECT_INTEGRITY

  /** Status of the background job (purge, object), if one was ever enqueued. */
  datatype JobStatus = NoJob | JobPending | JobRunning | JobFailed | JobCompleted

  datatype ObjectRow = ObjectRow(expected: nat, size: Option<nat>, mime: string, state: FileState, purge: JobStatus)

  datatype FileRow = FileRow(owner: nat, obj: nat, state: FileState, revision: nat, mime: string)

  datatype PartRow = PartRow(expected: int, checksum: int, etag: Option<string>)

  /** `parts` holds the rows of upload_parts: slot n - 1 is part number n, with 1 <= n <= 10000 (CHECK). */
  datatype UploadRow = UploadRow(
    owner: nat, file: nat, obj: nat, size: nat, chunk: nat,
    state: UploadState, error: ErrorCode,
    session: Option<nat>,
    parts: seq<Option<PartRow>>,
    shares: nat)

  datatype VersionRow = VersionRow(id: nat, file: nat, obj: nat, revision: nat, mime: string, created: int)

  datatype Db = Db(
    objects: seq<ObjectRow>, files: seq<FileRow>, uploads: seq<UploadRow>, versions: seq<VersionRow>)

  /** The effective entitlements of an account. */
  datatype Policy = Policy(
    storageBytes: nat, fileBytes: nat, concurrentUploads: nat, versionCount: nat, versionDays: nat)

  /** Site settings, fixed during a run. `hash` is SHA-256 as the store computes it. */
  datatype Config = Config(
    hash: Bytes -> int,
    policy: nat -> Policy,
    partMiB: nat,
    minimumFree: nat, criticalFree: nat,
    incompleteUploadLimit: nat, incompleteReserved: nat,
    versioningEnabled: bool, maxVersionCount: nat, maxVersionDays: nat)

  const DAY: nat := 86400000

  function Floor(cfg: Config): int {
    Max(cfg.minimumFree, cfg.criticalFree)
  }

  predicate Live(f: FileRow) {
    f.state != PURGED && f.state != EXPIRED
  }

  predicate Charged(f: FileRow) {
    f.state != PROCESSING && f.state != PURGED && f.state != EXPIRED
  }

  /** Unfinished uploads that hold a reservation. */
  predicate Counted(u: UploadRow) {
    u.state in {CREATED, UPLOADING, FINALIZING, FAILED} && u.error != INIT_FAILED
  }

  predicate Referenced(db: Db, o: nat) {
    || (exists f :: 0 <= f < |db.files| && db.files[f].obj == o && Live(db.files[f]))
    || (exists v :: 0 <= v < |db.versions| && db.versions[v].obj == o)
  }

  function ExpectedSize(objects: seq<ObjectRow>, o: nat): nat {
    if o < |objects| then objects[o].expected else 0
  }

  function OwnerOf(files: seq<FileRow>, f: nat): Option<nat> {
    if f < |files| then Some(files[f].owner) else None
  }

  function FileCharge(db: Db, f: FileRow, owner: nat): nat {
    if f.owner == owner && Charged(f) then ExpectedSize(db.objects, f.obj) else 0
  }

  function VersionCharge(db: Db, v: VersionRow, owner: nat): nat {
    if OwnerOf(db.files, v.file) == Some(owner) then ExpectedSize(db.objects, v.obj) else 0
  }

  function UploadCharge(u: UploadRow, owner: nat): nat {
    if u.owner == owner && Counted(u) then u.size else 0
  }

  function FileCharges(db: Db, owner: nat): (r: seq<int>)
    ensures |r| == |db.files|
  {
    seq(|db.files|, i requires 0 <= i < |db.files| => FileCharge(db, db.files[i], owner))
  }

  function VersionCharges(db: Db, versions: seq<VersionRow>, owner: nat): (r: seq<int>)
    ensures |r| == |versions|
  {
    seq(|versions|, i requires 0 <= i < |versions| => VersionCharge(db, versions[i], owner))
  }

  function UploadCharges(db: Db, owner: nat): (r: seq<int>)
    ensures |r| == |db.uploads|
  {
    seq(|db.uploads|, i requires 0 <= i < |db.uploads| => UploadCharge(db.uploads[i], owner))
  }

  function UsedBytes(db: Db, owner: nat): int {
    Sum(FileCharges(db, owner)) + Sum(VersionCharges(db, db.versions, owner))
  }

  function ReservedBytes(db: Db, owner: nat): int {
    Sum(UploadCharges(db, owner))
  }

  /** The row of account_storage_usage that every quota decision reads. */
  function Balance(db: Db, owner: nat): int {
    UsedBytes(db, owner) + ReservedBytes(db, owner)
  }

  function IncompleteUploads(uploads: seq<UploadRow>, owner: nat): nat {
    if |uploads| == 0 then 0
    else
      IncompleteUploads(uploads[..|uploads| - 1], owner) +
      (if uploads[|uploads| - 1].owner == owner && Counted(uploads[|uploads| - 1]) then 1 else 0)
  }

  function Reservations(uploads: seq<UploadRow>): (r: seq<int>)
    ensures |r| == |uploads|
  {
    seq(|uploads|, i requires 0 <= i < |uploads| => if Counted(uploads[i]) then uploads[i].size else 0)
  }

  /** Bytes held by the stored versions of one file. */
  function HistoryCharges(db: Db, f: nat): (r: seq<int>)
    ensures |r| == |db.versions|
  {
    seq(|db.versions|, i requires 0 <= i < |db.versions| =>
      if db.versions[i].file == f then ExpectedSize(db.objects, db.versions[i].obj) else 0)
  }

  // Row updates. Every UPDATE of files bumps the revision (trigger of migration 003).

  function SetFile(db: Db, f: nat, row: FileRow): Db
    requires f < |db.files|
  {
    db.(files := db.files[f := row.(revision := db.files[f].revision + 1)])
  }

  function SetUpload(db: Db, u: nat, row: UploadRow): Db
    requires u < |db.uploads|
  {
    db.(uploads := db.uploads[u := row])
  }

  function SetObject(db: Db, o: nat, row: ObjectRow): Db
    requires o < |db.objects|
  {
    db.(objects := db.objects[o := row])
  }

  function EnqueueStatus(j: JobStatus): JobStatus {
    match j
    case NoJob => JobPending
    case JobFailed => JobPending
    case JobCompleted => JobPending
    case JobPending => JobPending
    case JobRunning => JobRunning
  }

  /** enqueue('purge', o): revives a finished job, leaves a pending or running one alone. */
  function Enqueue(db: Db, o: nat): Db
    requires o < |db.objects|
  {
    SetObject(db, o, db.objects[o].(purge := EnqueueStatus(db.objects[o].purge)))
  }
}
