/**
 What each database transaction of the API and the worker does, as functions on the database and
 the store. `None` is a transaction that throws: its database changes are rolled back. Store calls
 are never rolled back, so a transaction that crashes between a store call and its commit leaves the
 store changed and the database as it was.
 */
module Transactions {
  import opened Base
  import opened Planning
  import opened ObjectStore
  import opened Catalog

  datatype Sys = Sys(db: Db, store: Store)

  // Creating an upload (apps/api/src/lib.ts, reserve; apps/api/src/uploads.ts, POST /api/uploads).

  /** `allowed` stands for the checks on time windows: daily and monthly allowance, cooldown, expiry. */
  predicate Reserve(cfg: Config, s: Sys, owner: nat, size: nat, allowed: bool) {
    var q := cfg.policy(owner);
    && s.store.free - Sum(Reservations(s.db.uploads)) - size >= Floor(cfg)
    && IncompleteUploads(s.db.uploads, owner) < Min(q.concurrentUploads, cfg.incompleteUploadLimit)
    && ReservedBytes(s.db, owner) + size <= cfg.incompleteReserved
    && size <= q.fileBytes
    && Balance(s.db, owner) + size <= q.storageBytes
    && allowed
  }

  function NewObject(size: nat): ObjectRow {
    ObjectRow(size, None, "", PROCESSING, NoJob)
  }

  function NewUpload(cfg: Config, db: Db, owner: nat, size: nat): UploadRow {
    UploadRow(owner, |db.files|, |db.objects|, size, PartSize(size, cfg.partMiB), CREATED, NoError, None,
              seq(MAX_PARTS, _ => None), 0)
  }

  function CreateTx(cfg: Config, s: Sys, owner: nat, size: nat, mime: string, allowed: bool): Option<Db> {
    if size == 0 || !Reserve(cfg, s, owner, size, allowed) then None
    else
      Some(s.db.(
        objects := s.db.objects + [NewObject(size)],
        files := s.db.files + [FileRow(owner, |s.db.objects|, PROCESSING, 1, mime)],
        uploads := s.db.uploads + [NewUpload(cfg, s.db, owner, size)]))
  }

  /** How the second half of the request ends: opening the store session and recording it. */
  datatype InitOutcome = Recorded | StoreRefused | RecordFailed | CrashAfterCreate

  function InitTx(s: Sys, u: nat, outcome: InitOutcome): Sys
    requires u < |s.db.uploads|
  {
    var row := s.db.uploads[u];
    match outcome
    case Recorded =>
      Sys(SetUpload(s.db, u, row.(session := Some(s.store.nextSession), state := UPLOADING)),
          CreateSession(s.store, row.obj))
    case StoreRefused =>
      s.(db := SetUpload(s.db, u, row.(state := UploadState.FAILED, error := INIT_FAILED)))
    case RecordFailed =>
      Sys(SetUpload(s.db, u, row.(state := UploadState.FAILED, error := INIT_FAILED)),
          CreateSession(s.store, row.obj))
    case CrashAfterCreate =>
      s.(store := CreateSession(s.store, row.obj))
  }

  // Signing part URLs.

  datatype SignRequest = SignRequest(number: int, checksum: int)

  predicate HasPart(row: UploadRow, n: int) {
    1 <= n <= |row.parts| && row.parts[n - 1].Some?
  }

  /** One turn of the signing loop: the first checksum recorded for a part is the only one ever signed. */
  function SignPart(row: UploadRow, p: SignRequest): Option<UploadRow>
    requires row.chunk > 0
  {
    match ExpectedPartBytes(row.size, row.chunk, p.number)
    case None => None
    case Some(size) =>
      if p.number > |row.parts| then None
      else if HasPart(row, p.number) then
        if row.parts[p.number - 1].value.checksum != p.checksum then None else Some(row)
      else Some(row.(parts := row.parts[p.number - 1 := Some(PartRow(size, p.checksum, None))]))
  }

  function SignParts(row: UploadRow, ps: seq<SignRequest>): (r: Option<UploadRow>)
    requires row.chunk > 0
    ensures r.Some? ==> r.value == row.(parts := r.value.parts)
  {
    if |ps| == 0 then Some(row)
    else
      match SignParts(row, ps[..|ps| - 1])
      case None => None
      case Some(before) => SignPart(before, ps[|ps| - 1])
  }

  function SignedUrl(row: UploadRow, session: nat, p: SignRequest): Url
    requires row.chunk > 0
  {
    var size := ExpectedPartBytes(row.size, row.chunk, p.number);
    Url(session, p.number, if size.Some? then size.value else 0, p.checksum)
  }

  function SignedUrls(row: UploadRow, session: nat, ps: seq<SignRequest>): set<Url>
    requires row.chunk > 0
  {
    set p | p in ps :: SignedUrl(row, session, p)
  }

  function SignTx(cfg: Config, s: Sys, u: nat, owner: nat, ps: seq<SignRequest>, active: bool): Option<Sys> {
    if u >= |s.db.uploads| || s.db.uploads[u].owner != owner then None
    else
      var row := s.db.uploads[u];
      if || s.store.free < Floor(cfg)
         || (row.state != UPLOADING && row.state != FAILED)
         || row.session.None? || !active || row.chunk == 0
      then None
      else
        match SignParts(row, ps)
        case None => None
        case Some(signed) =>
          Some(Sys(SetUpload(s.db, u, signed.(state := UPLOADING)),
                   s.store.(urls := s.store.urls + SignedUrls(row, row.session.value, ps))))
  }

  /** An acknowledgement overwrites the recorded etag with whatever the client sends. */
  function AckTx(db: Db, u: nat, owner: nat, number: int, etag: string): Option<Db> {
    if u >= |db.uploads| || db.uploads[u].owner != owner || etag == "" then None
    else
      var row := db.uploads[u];
      if !HasPart(row, number) then Some(db)
      else
        Some(SetUpload(db, u, row.(
          parts := row.parts[number - 1 := Some(row.parts[number - 1].value.(etag := Some(etag)))])))
  }

  // Reconciling with the store's listing.

  predicate ListedPartOk(row: UploadRow, p: Listed) {
    && HasPart(row, p.part.number)
    && p.part.size == row.parts[p.part.number - 1].value.expected
    && (p.checksum.Some? ==> p.checksum.value == row.parts[p.part.number - 1].value.checksum)
  }

  predicate ListingOk(row: UploadRow, listing: seq<Listed>) {
    forall i :: 0 <= i < |listing| ==> ListedPartOk(row, listing[i])
  }

  /** The etag a part row ends up with: the last one listed for its number, else the one it had. */
  function EtagFrom(listing: seq<Listed>, number: int, otherwise: Option<string>): Option<string> {
    if |listing| == 0 then otherwise
    else
      var last := listing[|listing| - 1].part;
      if last.number == number then Some(last.etag) else EtagFrom(listing[..|listing| - 1], number, otherwise)
  }

  function ReconciledParts(parts: seq<Option<PartRow>>, listing: seq<Listed>): (r: seq<Option<PartRow>>)
    ensures |r| == |parts|
  {
    seq(|parts|, i requires 0 <= i < |parts| =>
      if parts[i].None? then None
      else Some(parts[i].value.(etag := EtagFrom(listing, i + 1, parts[i].value.etag))))
  }

  /** `None` is PART_INTEGRITY: the store holds a part the database never signed, or a different one. */
  function Reconcile(row: UploadRow, listing: seq<Listed>): Option<UploadRow> {
    if ListingOk(row, listing) then Some(row.(parts := ReconciledParts(row.parts, listing))) else None
  }

  function PartsOf(listing: seq<Listed>): (r: seq<StoragePart>)
    ensures |r| == |listing|
  {
    seq(|listing|, i requires 0 <= i < |listing| => listing[i].part)
  }

  function ManifestParts(manifest: seq<ManifestEntry>): (r: seq<StoragePart>)
    ensures |r| == |manifest|
  {
    seq(|manifest|, i requires 0 <= i < |manifest| => manifest[i].part)
  }

  function RecordedEntry(n: int, p: PartRow): ManifestEntry {
    ManifestEntry(StoragePart(n, p.expected, if p.etag.Some? then p.etag.value else ""), p.checksum)
  }

  /** SELECT ... FROM upload_parts ORDER BY part_number, for numbers up to n. */
  function Manifest(parts: seq<Option<PartRow>>, n: nat): seq<ManifestEntry>
    requires n <= |parts|
  {
    if n == 0 then []
    else
      Manifest(parts, n - 1) +
      (if parts[n - 1].Some? then [RecordedEntry(n, parts[n - 1].value)] else [])
  }

  function StatusTx(cfg: Config, s: Sys, u: nat, owner: nat): Option<Db> {
    if u >= |s.db.uploads| || s.db.uploads[u].owner != owner then None
    else
      var row := s.db.uploads[u];
      if row.session.None? || row.state !in {UPLOADING, FAILED, FINALIZING} then Some(s.db)
      else
        match ListParts(s.store, cfg.hash, row.session.value)
        case None => None
        case Some(listing) =>
          match Reconcile(row, listing)
          case None => None
          case Some(row') => Some(SetUpload(s.db, u, row'))
  }

  // Completing an upload.

  datatype Refusal =
    | NotFound | WrongState | StoreError | PartIntegrity | Incomplete | ManifestRejected | SizeDiffers | ProcessDied

  datatype FinalizeResult = Finished(file: nat) | Refused(reason: Refusal)

  /** What the scanner setting, the MIME sniffer and the share allowance decide during a completion. */
  datatype Verdict = Verdict(quarantine: bool, mime: string, share: bool)

  predicate RowsExist(db: Db, row: UploadRow) {
    row.obj < |db.objects| && row.file < |db.files|
  }

  function CompletedDb(db: Db, u: nat, row: UploadRow, size: nat, v: Verdict): Db
    requires u < |db.uploads| && RowsExist(db, row)
  {
    var state := if v.quarantine then QUARANTINED else AVAILABLE;
    var d1 := SetObject(db, row.obj, db.objects[row.obj].(size := Some(size), mime := v.mime, state := state));
    var d2 := SetFile(d1, row.file, d1.files[row.file].(state := state));
    SetUpload(d2, u, row.(state := COMPLETE, error := NoError, shares := row.shares + if v.share then 1 else 0))
  }

  /** The part of a completion after the object is known to exist. */
  function Activate(s: Sys, u: nat, row: UploadRow, crash: bool, v: Verdict): (Sys, FinalizeResult)
    requires u < |s.db.uploads| && RowsExist(s.db, row)
  {
    if row.obj !in s.store.objects then (s, Refused(StoreError))
    else
      var size := |s.store.objects[row.obj]|;
      if size != row.size then (s, Refused(SizeDiffers))
      else if crash then (s, Refused(ProcessDied))
      else (s.(db := CompletedDb(s.db, u, row, size, v)), Finished(row.file))
  }

  /**
   `puts` are the part uploads that reach the store between the listing and the completion call;
   `crash` kills the process after the last store call and before the commit.
   */
  function FinalizeTx(cfg: Config, s: Sys, u: nat, owner: nat, puts: seq<Put>, crash: bool, v: Verdict)
    : (Sys, FinalizeResult)
  {
    if u >= |s.db.uploads| || s.db.uploads[u].owner != owner || !RowsExist(s.db, s.db.uploads[u])
    then (s, Refused(NotFound))
    else
      var row := s.db.uploads[u];
      if row.state == COMPLETE then (s, Finished(row.file))
      else if row.state !in {UPLOADING, FINALIZING, FAILED} then (s, Refused(WrongState))
      else if row.obj in s.store.objects then Activate(s, u, row, crash, v)
      else if row.session.None? then (s, Refused(StoreError))
      else
        match ListParts(s.store, cfg.hash, row.session.value)
        case None => (s, Refused(StoreError))
        case Some(listing) => CompleteListed(cfg, s, u, row, row.session.value, listing, puts, crash, v)
  }

  function CompleteListed(cfg: Config, s: Sys, u: nat, row: UploadRow, session: nat, listing: seq<Listed>,
                          puts: seq<Put>, crash: bool, v: Verdict): (Sys, FinalizeResult)
    requires u < |s.db.uploads| && RowsExist(s.db, row)
  {
    match Reconcile(row, listing)
    case None => (s, Refused(PartIntegrity))
    case Some(row') =>
      var manifest := Manifest(row'.parts, |row'.parts|);
      if row.chunk == 0 || !AssertParts(row.size, row.chunk, PartsOf(listing)) then (s, Refused(Incomplete))
      else if !AssertParts(row.size, row.chunk, ManifestParts(manifest)) then (s, Refused(ManifestRejected))
      else
        var before := PutParts(s.store, cfg.hash, puts);
        match Complete(before, cfg.hash, session, manifest)
        case None => (s.(store := before), Refused(StoreError))
        case Some(after) => Activate(Sys(s.db, after), u, row', crash, v)
  }

  /** The separate update the completion route makes when it answers with one of three error codes. */
  function RecordFailureTx(db: Db, u: nat, code: ErrorCode): Db {
    if u < |db.uploads| && db.uploads[u].state != COMPLETE && db.uploads[u].session.Some?
       && code in {INCOMPLETE_UPLOAD, PART_INTEGRITY, OBJECT_INTEGRITY}
    then SetUpload(db, u, db.uploads[u].(error := code))
    else db
  }

  // Giving an upload up.

  function EndedDb(db: Db, u: nat, state: UploadState): Db
    requires u < |db.uploads| && RowsExist(db, db.uploads[u])
  {
    var row := db.uploads[u];
    var d1 := SetUpload(db, u, row.(state := state));
    var d2 := SetFile(d1, row.file, d1.files[row.file].(state := PURGED));
    SetObject(d2, row.obj, d2.objects[row.obj].(state := PURGED))
  }

  function AbortStore(st: Store, session: Option<nat>): Store {
    if session.Some? then AbortSession(st, session.value) else st
  }

  function AbortTx(s: Sys, u: nat, owner: nat, crash: bool): Sys {
    if u >= |s.db.uploads| || s.db.uploads[u].owner != owner || !RowsExist(s.db, s.db.uploads[u]) then s
    else
      var row := s.db.uploads[u];
      if row.state in {COMPLETE, FINALIZING, ABORTED, TIMED_OUT} then s
      else
        var store := AbortStore(s.store, row.session);
        if crash then s.(store := store) else Sys(EndedDb(s.db, u, ABORTED), store)
  }

  /**
   The worker's transaction for one upload found stale. Only a completed upload is spared: the row
   may have been aborted, or its object completed, since the worker selected it.
   */
  function TimeOutTx(s: Sys, u: nat, crash: bool): Sys {
    if u >= |s.db.uploads| || !RowsExist(s.db, s.db.uploads[u]) then s
    else
      var row := s.db.uploads[u];
      if row.state == COMPLETE then s
      else
        var store := AbortStore(s.store, row.session);
        if crash then s.(store := store) else Sys(EndedDb(s.db, u, TIMED_OUT), store)
  }

  // Files: bulk actions, edits, moderation, cleanup.

  datatype BulkAction = Delete | Restore | Move | Copy | Purge

  function BulkItem(cfg: Config, db: Db, owner: nat, f: nat, action: BulkAction): Option<Db> {
    if f >= |db.files| || db.files[f].owner != owner || db.files[f].obj >= |db.objects| then None
    else
      var row := db.files[f];
      match action
      case Delete =>
        if row.state !in {AVAILABLE, QUARANTINED, BLOCKED} then None
        else Some(SetFile(db, f, row.(state := DELETED)))
      case Restore =>
        if row.state != DELETED || db.objects[row.obj].state != AVAILABLE then None
        else Some(SetFile(db, f, row.(state := AVAILABLE)))
      case Move => Some(SetFile(db, f, row))
      case Copy =>
        if row.state != AVAILABLE
           || Balance(db, owner) + db.objects[row.obj].expected > cfg.policy(owner).storageBytes
        then None
        else Some(db.(files := db.files + [FileRow(owner, row.obj, AVAILABLE, 1, row.mime)]))
      case Purge =>
        if row.state != DELETED then None
        else Some(Enqueue(SetFile(db, f, row.(state := PURGED)), row.obj))
  }

  /** The loop over the selected ids, in one transaction. */
  function BulkTx(cfg: Config, db: Db, owner: nat, ids: seq<nat>, action: BulkAction): Option<Db>
    decreases |ids|
  {
    if |ids| == 0 then Some(db)
    else
      match BulkItem(cfg, db, owner, ids[0], action)
      case None => None
      case Some(db') => BulkTx(cfg, db', owner, ids[1..], action)
  }

  /** Renaming, marking or rescheduling a file, optionally guarded by the revision the caller saw. */
  function EditTx(db: Db, f: nat, owner: nat, expected: Option<nat>): Option<Db> {
    if f >= |db.files| || db.files[f].owner != owner then None
    else if expected.Some? && expected.value != db.files[f].revision then None
    else Some(SetFile(db, f, db.files[f]))
  }

  /** The moderator's override of state and owner. */
  function OverrideTx(cfg: Config, db: Db, f: nat, state: Option<FileState>, owner: Option<nat>): Option<Db> {
    if f >= |db.files| || db.files[f].obj >= |db.objects| then None
    else
      var row := db.files[f];
      var obj := db.objects[row.obj];
      var size := if obj.size.Some? then obj.size.value else 0;
      if || row.state in {PROCESSING, PURGED}
         || (state.Some? && state.value !in {AVAILABLE, BLOCKED, DELETED, EXPIRED})
         || (state == Some(AVAILABLE) && obj.state !in {AVAILABLE, BLOCKED})
      then None
      else if owner.Some? &&
        (|| size > cfg.policy(owner.value).fileBytes
         || Balance(db, owner.value)
              + (if owner.value == row.owner then 0 else size + Sum(HistoryCharges(db, f)))
            > cfg.policy(owner.value).storageBytes)
      then None
      else
        var d1 := SetFile(db, f, row.(
          state := if state.Some? then state.value else row.state,
          owner := if owner.Some? then owner.value else row.owner));
        var d2 :=
          if state == Some(BLOCKED) || (state == Some(AVAILABLE) && obj.state == BLOCKED)
          then SetObject(d1, row.obj, obj.(state := state.value)) else d1;
        Some(if state == Some(EXPIRED) then Enqueue(d2, row.obj) else d2)
  }

  /** Expiry, trash retention and deleted folders: the worker ends a file and enqueues its object. */
  datatype EndReason = FileExpired | TrashExpired | FolderExpired

  function EndFileTx(db: Db, f: nat, why: EndReason): Db {
    if f >= |db.files| || db.files[f].obj >= |db.objects| || db.files[f].state == PROCESSING then db
    else
      var row := db.files[f];
      match why
      case FileExpired => Enqueue(SetFile(db, f, row.(state := EXPIRED)), row.obj)
      case TrashExpired =>
        Enqueue(if row.state == DELETED then SetFile(db, f, row.(state := PURGED)) else db, row.obj)
      case FolderExpired => Enqueue(SetFile(db, f, row.(state := PURGED)), row.obj)
  }

  // Versions (apps/api/src/cloud.ts).

  predicate Newer(w: VersionRow, v: VersionRow) {
    w.file == v.file && (w.created > v.created || (w.created == v.created && w.id > v.id))
  }

  /** How many versions of the same file come before v in ORDER BY created_at DESC, id DESC. */
  function NewerCount(versions: seq<VersionRow>, v: VersionRow): nat {
    if |versions| == 0 then 0
    else
      NewerCount(versions[..|versions| - 1], v) + (if Newer(versions[|versions| - 1], v) then 1 else 0)
  }

  datatype Retention = Retention(count: nat, cutoff: int)

  function RetentionFor(cfg: Config, f: FileRow, now: int): Retention {
    var q := cfg.policy(f.owner);
    Retention(if Live(f) then Min(q.versionCount, cfg.maxVersionCount) else 0,
              now - Min(q.versionDays, cfg.maxVersionDays) * DAY)
  }

  predicate Kept(versions: seq<VersionRow>, v: VersionRow, f: nat, r: Retention) {
    v.file == f ==> NewerCount(versions, v) < r.count && v.created >= r.cutoff
  }

  /** The versions of `among` that survive; ranks are taken in `versions`. */
  function Survivors(versions: seq<VersionRow>, among: seq<VersionRow>, f: nat, r: Retention): seq<VersionRow> {
    if |among| == 0 then []
    else
      var last := among[|among| - 1];
      Survivors(versions, among[..|among| - 1], f, r) + (if Kept(versions, last, f, r) then [last] else [])
  }

  predicate DropsObject(versions: seq<VersionRow>, f: nat, r: Retention, o: nat) {
    exists i :: 0 <= i < |versions| && versions[i].obj == o && !Kept(versions, versions[i], f, r)
  }

  function EnqueueDropped(objects: seq<ObjectRow>, versions: seq<VersionRow>, f: nat, r: Retention)
    : (result: seq<ObjectRow>)
    ensures |result| == |objects|
  {
    seq(|objects|, o requires 0 <= o < |objects| =>
      if DropsObject(versions, f, r, o) then objects[o].(purge := EnqueueStatus(objects[o].purge))
      else objects[o])
  }

  function PruneTx(cfg: Config, db: Db, f: nat, now: int): Option<Db> {
    if f >= |db.files| then None
    else
      var r := RetentionFor(cfg, db.files[f], now);
      Some(db.(versions := Survivors(db.versions, db.versions, f, r),
               objects := EnqueueDropped(db.objects, db.versions, f, r)))
  }

  datatype Source = FromFile(file: nat) | FromVersion(version: nat)

  datatype Content = Content(obj: nat, mime: string)

  function FindVersion(versions: seq<VersionRow>, id: nat, f: nat): Option<VersionRow> {
    if |versions| == 0 then None
    else if versions[0].id == id && versions[0].file == f then Some(versions[0])
    else FindVersion(versions[1..], id, f)
  }

  /** `visible` is the rest of accessibleFile: active owner, not expired, no deleted ancestor folder. */
  function SourceContent(db: Db, owner: nat, f: nat, source: Source, visible: bool): Option<Content> {
    match source
    case FromFile(g) =>
      if && visible && g < |db.files| && db.files[g].owner == owner && db.files[g].state == AVAILABLE
         && db.files[g].obj < |db.objects| && db.objects[db.files[g].obj].state == AVAILABLE
      then Some(Content(db.files[g].obj, db.files[g].mime)) else None
    case FromVersion(id) =>
      var v := FindVersion(db.versions, id, f);
      if v.Some? && v.value.obj < |db.objects| && db.objects[v.value.obj].state == AVAILABLE
      then Some(Content(v.value.obj, v.value.mime)) else None
  }

  /** Storing the current content as a version and switching the file to the new content. */
  function Switched(db: Db, f: nat, content: Content, id: nat, now: int): Db
    requires f < |db.files|
  {
    var row := db.files[f];
    SetFile(db.(versions := db.versions + [VersionRow(id, f, row.obj, row.revision, row.mime, now)]),
            f, row.(obj := content.obj, mime := content.mime))
  }

  /** `id` is the random id of the new version row; `VersionClash` would be the UNIQUE(file_id,revision) error. */
  predicate VersionClash(db: Db, f: nat, id: nat)
    requires f < |db.files|
  {
    exists i :: 0 <= i < |db.versions| &&
      (db.versions[i].id == id || (db.versions[i].file == f && db.versions[i].revision == db.files[f].revision))
  }

  function ReplaceTx(cfg: Config, db: Db, owner: nat, f: nat, expected: nat, source: Source, visible: bool,
                     id: nat, now: int): Option<Db>
  {
    if f >= |db.files| || db.files[f].owner != owner || db.files[f].obj >= |db.objects| then None
    else
      var row := db.files[f];
      var q := cfg.policy(owner);
      if || row.revision != expected || row.state != AVAILABLE
         || !cfg.versioningEnabled || q.versionCount == 0 || q.versionDays == 0
      then None
      else
        match SourceContent(db, owner, f, source, visible)
        case None => None
        case Some(content) =>
          if content.obj == row.obj then Some(db)
          else if content.obj >= |db.objects| || SizeOf(db.objects[content.obj]) > q.fileBytes then None
          else if VersionClash(db, f, id) then None
          else
            match PruneTx(cfg, Switched(db, f, content, id, now), f, now)
            case None => None
            case Some(pruned) => if Balance(pruned, owner) > q.storageBytes then None else Some(pruned)
  }

  function SizeOf(o: ObjectRow): nat {
    if o.size.Some? then o.size.value else 0
  }

  // The worker's purge job, scanner and reconciliation with the store.

  /** The purge transaction; `crash` strikes between the removal of the bytes and the commit. */
  function PurgeTx(s: Sys, o: nat, crash: bool): Sys {
    if o >= |s.db.objects| || Referenced(s.db, o) then s
    else
      var store := RemoveObject(s.store, o);
      if crash then s.(store := store)
      else Sys(SetObject(s.db, o, s.db.objects[o].(state := PURGED)), store)
  }

  function ClaimTx(db: Db, o: nat): Db {
    if o < |db.objects| && db.objects[o].purge in {JobPending, JobFailed}
    then SetObject(db, o, db.objects[o].(purge := JobRunning)) else db
  }

  function FinishTx(db: Db, o: nat, ok: bool): Db {
    if o < |db.objects| && db.objects[o].purge == JobRunning
    then SetObject(db, o, db.objects[o].(purge := if ok then JobCompleted else JobFailed)) else db
  }

  /** A starting worker puts the jobs its predecessor left running back in the queue. */
  function RestartTx(db: Db): Db {
    db.(objects := seq(|db.objects|, o requires 0 <= o < |db.objects| =>
      if db.objects[o].purge == JobRunning then db.objects[o].(purge := JobPending) else db.objects[o]))
  }

  function ScanTx(db: Db, o: nat, clean: bool): Db {
    if o >= |db.objects| || db.objects[o].state in {PROCESSING, PURGED} then db
    else
      var state := if clean then AVAILABLE else BLOCKED;
      SetObject(db, o, db.objects[o].(state := state)).(
        files := seq(|db.files|, f requires 0 <= f < |db.files| =>
          if db.files[f].obj == o && db.files[f].state == QUARANTINED
          then db.files[f].(state := state, revision := db.files[f].revision + 1) else db.files[f]))
  }

  /** One listed key: an old key without a row is removed, a PURGED row is purged again. */
  function SweepKeyTx(s: Sys, key: nat, aged: bool, crash: bool): Sys {
    if key !in s.store.objects then s
    else if key >= |s.db.objects| then if aged then s.(store := RemoveObject(s.store, key)) else s
    else if s.db.objects[key].state == PURGED then PurgeTx(s, key, crash)
    else s
  }

  /** One listed multipart session: aborted when it is old and no upload records it. */
  function SweepSessionTx(s: Sys, session: nat, aged: bool): Sys {
    if aged && !(exists u :: 0 <= u < |s.db.uploads| && s.db.uploads[u].session == Some(session))
    then s.(store := AbortSession(s.store, session)) else s
  }

  /** One AVAILABLE object row whose bytes the store does not have is blocked. */
  function SweepRowTx(s: Sys, o: nat): Sys {
    if o < |s.db.objects| && s.db.objects[o].state == AVAILABLE && o !in s.store.objects
    then s.(db := SetObject(s.db, o, s.db.objects[o].(state := BLOCKED))) else s
  }
}
