/** The invariant of the upload, file and version tables and of the store, kept by every step. */
module Integrity {
  import opened Base
  import opened Planning
  import opened ObjectStore
  import opened Catalog
  import opened Transactions
  import opened Runs

  predicate Active(u: UploadRow) {
    u.state in {CREATED, UPLOADING, FAILED}
  }

  predicate Ended(u: UploadRow) {
    u.state in {ABORTED, TIMED_OUT}
  }

  ghost predicate PartRowsOk(u: UploadRow) {
    && |u.parts| == MAX_PARTS
    && u.chunk > 0
    && forall i :: 0 <= i < |u.parts| && u.parts[i].Some? ==>
         ExpectedPartBytes(u.size, u.chunk, i + 1) == Some(u.parts[i].value.expected)
  }

  /** What one upload row promises about itself. */
  ghost predicate UploadOk(cfg: Config, u: UploadRow) {
    && u.size > 0
    && u.chunk == PartSize(u.size, cfg.partMiB)
    && PartRowsOk(u)
    && u.state != FINALIZING
    && (u.session.None? ==> u.state == CREATED || (u.state == FAILED && u.error == INIT_FAILED) || Ended(u))
    && (u.error == INIT_FAILED ==> u.session.None? && (u.state == FAILED || Ended(u)))
    && (u.state == CREATED ==> u.session.None?)
    && (if u.state == COMPLETE then u.shares <= 1 else u.shares == 0)
  }

  /** An upload owns the object row of its own number and, until it completes, its file row. */
  ghost predicate UploadRowsOk(objects: seq<ObjectRow>, files: seq<FileRow>, u: nat, row: UploadRow) {
    && row.obj == u < |objects|
    && row.file < |files|
    && objects[u].expected == row.size
    && (Active(row) ==>
          && objects[u].state == PROCESSING
          && files[row.file].obj == u
          && files[row.file].state == PROCESSING
          && files[row.file].owner == row.owner)
    && (Ended(row) ==> objects[u].state == PURGED && files[row.file].obj == u && !Live(files[row.file]))
    && (row.state == COMPLETE ==> objects[u].state != PROCESSING && objects[u].size == Some(row.size))
  }

  ghost predicate FileOk(uploads: seq<UploadRow>, f: nat, file: FileRow) {
    && file.obj < |uploads|
    && (file.state == PROCESSING <==> Active(uploads[file.obj]))
    && (uploads[file.obj].state != COMPLETE ==> uploads[file.obj].file == f)
  }

  ghost predicate VersionOk(uploads: seq<UploadRow>, files: seq<FileRow>, v: VersionRow) {
    && v.file < |files|
    && v.obj < |uploads|
    && uploads[v.obj].state == COMPLETE
    && v.revision < files[v.file].revision
  }

  ghost predicate VersionsDistinct(versions: seq<VersionRow>) {
    forall i, j :: 0 <= i < j < |versions| ==>
      && versions[i].id != versions[j].id
      && (versions[i].file == versions[j].file ==> versions[i].revision != versions[j].revision)
  }

  ghost predicate UploadsOk(cfg: Config, uploads: seq<UploadRow>) {
    forall u :: 0 <= u < |uploads| ==> UploadOk(cfg, uploads[u])
  }

  ghost predicate RowsOk(objects: seq<ObjectRow>, files: seq<FileRow>, uploads: seq<UploadRow>) {
    forall u {:trigger UploadRowsOk(objects, files, u, uploads[u])} :: 0 <= u < |uploads| ==>
      UploadRowsOk(objects, files, u, uploads[u])
  }

  ghost predicate FilesOk(uploads: seq<UploadRow>, files: seq<FileRow>) {
    forall f {:trigger FileOk(uploads, f, files[f])} :: 0 <= f < |files| ==> FileOk(uploads, f, files[f])
  }

  ghost predicate VersionsOk(uploads: seq<UploadRow>, files: seq<FileRow>, versions: seq<VersionRow>) {
    forall v {:trigger VersionOk(uploads, files, versions[v])} :: 0 <= v < |versions| ==>
      VersionOk(uploads, files, versions[v])
  }

  ghost predicate Tables(cfg: Config, db: Db) {
    && |db.uploads| == |db.objects|
    && UploadsOk(cfg, db.uploads)
    && RowsOk(db.objects, db.files, db.uploads)
    && FilesOk(db.uploads, db.files)
    && VersionsOk(db.uploads, db.files, db.versions)
    && VersionsDistinct(db.versions)
  }

  /** The signed description of a part: the row a URL or a stored part answers to. */
  predicate Describes(row: UploadRow, number: int, length: int, checksum: int) {
    HasPart(row, number) && row.parts[number - 1].value.expected == length
      && row.parts[number - 1].value.checksum == checksum
  }

  ghost predicate UrlOk(uploads: seq<UploadRow>, st: Store, url: Url) {
    && url.session < st.nextSession
    && (url.session in st.sessions ==>
          var key := st.sessions[url.session].key;
          && key < |uploads|
          && uploads[key].session == Some(url.session)
          && Describes(uploads[key], url.number, url.length, url.checksum))
  }

  ghost predicate SlotOk(cfg: Config, row: UploadRow, number: int, p: StoredPart) {
    p.etag != "" && Describes(row, number, |p.content|, cfg.hash(p.content))
  }

  /** A session either backs the upload its key names, or was never recorded and holds nothing. */
  ghost predicate SessionOk(cfg: Config, uploads: seq<UploadRow>, id: nat, session: Session) {
    && |session.parts| == MAX_PARTS
    && session.key < |uploads|
    && (forall i :: 0 <= i < |session.parts| && session.parts[i].Some? ==>
          && uploads[session.key].session == Some(id)
          && SlotOk(cfg, uploads[session.key], i + 1, session.parts[i].value))
  }

  /** Part n of a finished object, cut out at its planned offset. */
  function PartSlice(content: Bytes, chunk: nat, n: int): Bytes
    requires chunk > 0 && 1 <= n <= PartCount(|content|, chunk)
  {
    PartLengths(|content|, chunk, n);
    content[(n - 1) * chunk..Min(n * chunk, |content|)]
  }

  /** The bytes are the planned parts in order, each with the checksum recorded for its number. */
  ghost predicate Assembled(cfg: Config, row: UploadRow, content: Bytes) {
    && row.chunk > 0
    && |content| == row.size
    && forall n :: 1 <= n <= PartCount(row.size, row.chunk) ==>
         HasPart(row, n) && cfg.hash(PartSlice(content, row.chunk, n)) == row.parts[n - 1].value.checksum
  }

  ghost predicate SessionBacksUpload(st: Store, u: nat, row: UploadRow) {
    row.session.Some? ==>
      && row.session.value < st.nextSession
      && (row.session.value in st.sessions ==> st.sessions[row.session.value].key == u)
  }

  ghost predicate ObjectOk(cfg: Config, uploads: seq<UploadRow>, key: nat, content: Bytes) {
    key < |uploads| && uploads[key].session.Some? && Assembled(cfg, uploads[key], content)
  }

  ghost predicate StoreOk(cfg: Config, uploads: seq<UploadRow>, st: Store) {
    && (forall url {:trigger UrlOk(uploads, st, url)} :: url in st.urls ==> UrlOk(uploads, st, url))
    && (forall id {:trigger SessionOk(cfg, uploads, id, st.sessions[id])} :: id in st.sessions ==>
          id < st.nextSession && SessionOk(cfg, uploads, id, st.sessions[id]))
    && (forall u {:trigger SessionBacksUpload(st, u, uploads[u])} :: 0 <= u < |uploads| ==>
          SessionBacksUpload(st, u, uploads[u]))
    && (forall key {:trigger ObjectOk(cfg, uploads, key, st.objects[key])} :: key in st.objects ==>
          ObjectOk(cfg, uploads, key, st.objects[key]))
  }

  predicate BytesPresent(objects: seq<ObjectRow>, st: Store, o: nat) {
    o in st.objects && o < |objects| && objects[o].state != PURGED
  }

  /** An object some live, finished file or some version points at still has its bytes. */
  ghost predicate BytesKept(db: Db, st: Store) {
    && (forall f {:trigger db.files[f]} :: 0 <= f < |db.files| && Charged(db.files[f]) ==>
          BytesPresent(db.objects, st, db.files[f].obj))
    && (forall v {:trigger db.versions[v]} :: 0 <= v < |db.versions| ==>
          BytesPresent(db.objects, st, db.versions[v].obj))
  }

  ghost predicate Inv(cfg: Config, s: Sys) {
    Tables(cfg, s.db) && StoreOk(cfg, s.db.uploads, s.store) && BytesKept(s.db, s.store)
  }

  // Frames: which part of the invariant a change of one row or of the store can touch.

  predicate SameRole(a: UploadRow, b: UploadRow) {
    && a.obj == b.obj && a.file == b.file && a.owner == b.owner && a.size == b.size && a.chunk == b.chunk
    && Active(a) == Active(b) && Ended(a) == Ended(b) && (a.state == COMPLETE <==> b.state == COMPLETE)
  }

  ghost predicate KeepsParts(a: UploadRow, b: UploadRow) {
    && |a.parts| == |b.parts|
    && forall i {:trigger b.parts[i]} :: 0 <= i < |a.parts| && a.parts[i].Some? ==>
         b.parts[i].Some? && b.parts[i].value.expected == a.parts[i].value.expected
         && b.parts[i].value.checksum == a.parts[i].value.checksum
  }

  lemma UploadRowFrame(cfg: Config, db: Db, u: nat, row: UploadRow)
    requires Tables(cfg, db) && u < |db.uploads|
    requires UploadOk(cfg, row) && SameRole(db.uploads[u], row)
    ensures Tables(cfg, SetUpload(db, u, row))
  {
    var uploads := SetUpload(db, u, row).uploads;
    forall x | 0 <= x < |uploads|
      ensures UploadRowsOk(db.objects, db.files, x, uploads[x])
    {
      assert UploadRowsOk(db.objects, db.files, x, db.uploads[x]);
    }
    forall f | 0 <= f < |db.files|
      ensures FileOk(uploads, f, db.files[f])
    {
      assert FileOk(db.uploads, f, db.files[f]);
    }
    forall v | 0 <= v < |db.versions|
      ensures VersionOk(uploads, db.files, db.versions[v])
    {
      assert VersionOk(db.uploads, db.files, db.versions[v]);
    }
  }

  /** A file row may change owner, state and revision; it never gains a charge it did not have. */
  predicate FileStep(a: FileRow, b: FileRow) {
    && b.obj == a.obj && b.revision >= a.revision
    && (a.state == PROCESSING <==> b.state == PROCESSING)
    && (a.state == PROCESSING ==> b.owner == a.owner)
    && (Charged(b) ==> Charged(a))
  }

  predicate ObjectStep(a: ObjectRow, b: ObjectRow) {
    && b.expected == a.expected && b.size == a.size
    && (a.state == PROCESSING <==> b.state == PROCESSING)
    && (a.state == PURGED <==> b.state == PURGED)
  }

  lemma RowsFrame(cfg: Config, s: Sys, db: Db)
    requires Inv(cfg, s)
    requires db.uploads == s.db.uploads && db.versions == s.db.versions
    requires |db.objects| == |s.db.objects| && |db.files| == |s.db.files|
    requires forall o :: 0 <= o < |db.objects| ==> ObjectStep(s.db.objects[o], db.objects[o])
    requires forall f :: 0 <= f < |db.files| ==> FileStep(s.db.files[f], db.files[f])
    ensures Inv(cfg, s.(db := db))
  {
    forall x | 0 <= x < |db.uploads|
      ensures UploadRowsOk(db.objects, db.files, x, db.uploads[x])
    {
      assert UploadRowsOk(s.db.objects, s.db.files, x, s.db.uploads[x]);
    }
    forall f | 0 <= f < |db.files|
      ensures FileOk(db.uploads, f, db.files[f])
    {
      assert FileOk(s.db.uploads, f, s.db.files[f]);
    }
    forall v | 0 <= v < |db.versions|
      ensures VersionOk(db.uploads, db.files, db.versions[v])
    {
      assert VersionOk(s.db.uploads, s.db.files, s.db.versions[v]);
    }
  }

  lemma StoreRowFrame(cfg: Config, uploads: seq<UploadRow>, st: Store, u: nat, row: UploadRow)
    requires StoreOk(cfg, uploads, st) && u < |uploads|
    requires uploads[u].size == row.size && uploads[u].chunk == row.chunk
    requires uploads[u].session == row.session && KeepsParts(uploads[u], row)
    ensures StoreOk(cfg, uploads[u := row], st)
  {
    assert |row.parts| == |uploads[u].parts|;
    var uploads' := uploads[u := row];
    forall url | url in st.urls
      ensures UrlOk(uploads', st, url)
    {
      assert UrlOk(uploads, st, url);
    }
    forall id | id in st.sessions
      ensures id < st.nextSession && SessionOk(cfg, uploads', id, st.sessions[id])
    {
      assert SessionOk(cfg, uploads, id, st.sessions[id]);
    }
    forall x | 0 <= x < |uploads'|
      ensures SessionBacksUpload(st, x, uploads'[x])
    {
      assert SessionBacksUpload(st, x, uploads[x]);
    }
    forall key | key in st.objects
      ensures ObjectOk(cfg, uploads', key, st.objects[key])
    {
      assert ObjectOk(cfg, uploads, key, st.objects[key]);
      if key == u {
        AssembledFrame(cfg, uploads[u], row, st.objects[u]);
      }
    }
  }

  lemma AssembledFrame(cfg: Config, was: UploadRow, row: UploadRow, content: Bytes)
    requires Assembled(cfg, was, content) && KeepsParts(was, row)
    requires row.size == was.size && row.chunk == was.chunk
    ensures Assembled(cfg, row, content)
  {
    forall n | 1 <= n <= PartCount(row.size, row.chunk)
      ensures HasPart(row, n) && cfg.hash(PartSlice(content, row.chunk, n)) == row.parts[n - 1].value.checksum
    {
      assert HasPart(was, n);
      assert row.parts[n - 1].Some?;
    }
  }

  lemma ForgetSessionFrame(cfg: Config, uploads: seq<UploadRow>, st: Store, session: nat)
    requires StoreOk(cfg, uploads, st)
    ensures StoreOk(cfg, uploads, AbortSession(st, session))
  {
    var st' := AbortSession(st, session);
    forall url | url in st'.urls
      ensures UrlOk(uploads, st', url)
    {
      assert UrlOk(uploads, st, url);
    }
    forall id | id in st'.sessions
      ensures id < st'.nextSession && SessionOk(cfg, uploads, id, st'.sessions[id])
    {
      assert SessionOk(cfg, uploads, id, st.sessions[id]);
    }
    forall x | 0 <= x < |uploads|
      ensures SessionBacksUpload(st', x, uploads[x])
    {
      assert SessionBacksUpload(st, x, uploads[x]);
    }
  }

  lemma RemoveObjectFrame(cfg: Config, uploads: seq<UploadRow>, st: Store, key: nat)
    requires StoreOk(cfg, uploads, st)
    ensures StoreOk(cfg, uploads, RemoveObject(st, key))
  {
    var st' := RemoveObject(st, key);
    forall url | url in st'.urls
      ensures UrlOk(uploads, st', url)
    {
      assert UrlOk(uploads, st, url);
    }
    forall x | 0 <= x < |uploads|
      ensures SessionBacksUpload(st', x, uploads[x])
    {
      assert SessionBacksUpload(st, x, uploads[x]);
    }
    forall k | k in st'.objects
      ensures ObjectOk(cfg, uploads, k, st'.objects[k])
    {
      assert ObjectOk(cfg, uploads, k, st.objects[k]);
    }
  }

  lemma NewSessionFrame(cfg: Config, uploads: seq<UploadRow>, st: Store, key: nat)
    requires StoreOk(cfg, uploads, st) && key < |uploads|
    ensures StoreOk(cfg, uploads, CreateSession(st, key))
  {
    var st' := CreateSession(st, key);
    forall url | url in st'.urls
      ensures UrlOk(uploads, st', url)
    {
      assert UrlOk(uploads, st, url);
    }
    forall id | id in st'.sessions
      ensures id < st'.nextSession && SessionOk(cfg, uploads, id, st'.sessions[id])
    {
      if id != st.nextSession {
        assert SessionOk(cfg, uploads, id, st.sessions[id]);
      }
    }
    forall x | 0 <= x < |uploads|
      ensures SessionBacksUpload(st', x, uploads[x])
    {
      assert SessionBacksUpload(st, x, uploads[x]);
    }
  }

  lemma PutFrame(cfg: Config, uploads: seq<UploadRow>, st: Store, put: Put)
    requires StoreOk(cfg, uploads, st)
    ensures StoreOk(cfg, uploads, PutPart(st, cfg.hash, put))
    ensures PutPart(st, cfg.hash, put).objects == st.objects
  {
    var st' := PutPart(st, cfg.hash, put);
    if Accepts(st, cfg.hash, put) {
      assert UrlOk(uploads, st, put.url);
      forall url | url in st'.urls
        ensures UrlOk(uploads, st', url)
      {
        assert UrlOk(uploads, st, url);
      }
      forall id | id in st'.sessions
        ensures id < st'.nextSession && SessionOk(cfg, uploads, id, st'.sessions[id])
      {
        assert SessionOk(cfg, uploads, id, st.sessions[id]);
      }
      forall x | 0 <= x < |uploads|
        ensures SessionBacksUpload(st', x, uploads[x])
      {
        assert SessionBacksUpload(st, x, uploads[x]);
      }
    }
  }

  lemma {:induction false} PutsFrame(cfg: Config, uploads: seq<UploadRow>, st: Store, puts: seq<Put>)
    requires StoreOk(cfg, uploads, st)
    ensures StoreOk(cfg, uploads, PutParts(st, cfg.hash, puts))
    ensures PutParts(st, cfg.hash, puts).objects == st.objects
  {
    if |puts| > 0 {
      PutsFrame(cfg, uploads, st, puts[..|puts| - 1]);
      PutFrame(cfg, uploads, PutParts(st, cfg.hash, puts[..|puts| - 1]), puts[|puts| - 1]);
    }
  }

  // One lemma per step.

  lemma CreateKeepsTables(cfg: Config, s: Sys, owner: nat, size: nat, mime: string, allowed: bool)
    requires Inv(cfg, s) && CreateTx(cfg, s, owner, size, mime, allowed).Some?
    ensures Tables(cfg, CreateTx(cfg, s, owner, size, mime, allowed).value)
  {
    PlanFitsStorageLimit(size, cfg.partMiB);
    var db, db' := s.db, CreateTx(cfg, s, owner, size, mime, allowed).value;
    forall x | 0 <= x < |db'.uploads|
      ensures UploadRowsOk(db'.objects, db'.files, x, db'.uploads[x])
    {
      if x < |db.uploads| {
        assert UploadRowsOk(db.objects, db.files, x, db.uploads[x]);
      }
    }
    forall f | 0 <= f < |db'.files|
      ensures FileOk(db'.uploads, f, db'.files[f])
    {
      if f < |db.files| {
        assert FileOk(db.uploads, f, db.files[f]);
      }
    }
    forall v | 0 <= v < |db'.versions|
      ensures VersionOk(db'.uploads, db'.files, db'.versions[v])
    {
      assert VersionOk(db.uploads, db.files, db.versions[v]);
    }
  }

  lemma CreateKeeps(cfg: Config, s: Sys, owner: nat, size: nat, mime: string, allowed: bool)
    requires Inv(cfg, s)
    ensures Inv(cfg, Commit(s, CreateTx(cfg, s, owner, size, mime, allowed)))
  {
    var r := CreateTx(cfg, s, owner, size, mime, allowed);
    if r.Some? {
      CreateKeepsTables(cfg, s, owner, size, mime, allowed);
      forall x | 0 <= x < |r.value.uploads|
        ensures SessionBacksUpload(s.store, x, r.value.uploads[x])
      {
        if x < |s.db.uploads| {
          assert SessionBacksUpload(s.store, x, s.db.uploads[x]);
        }
      }
      StoreGrows(cfg, s.db.uploads, r.value.uploads, s.store);
    }
  }

  lemma StoreGrows(cfg: Config, uploads: seq<UploadRow>, uploads': seq<UploadRow>, st: Store)
    requires StoreOk(cfg, uploads, st) && uploads <= uploads'
    requires forall x :: 0 <= x < |uploads'| ==> SessionBacksUpload(st, x, uploads'[x])
    ensures StoreOk(cfg, uploads', st)
  {
    forall url | url in st.urls
      ensures UrlOk(uploads', st, url)
    {
      assert UrlOk(uploads, st, url);
    }
    forall id | id in st.sessions
      ensures id < st.nextSession && SessionOk(cfg, uploads', id, st.sessions[id])
    {
      assert SessionOk(cfg, uploads, id, st.sessions[id]);
    }
    forall key | key in st.objects
      ensures ObjectOk(cfg, uploads', key, st.objects[key])
    {
      assert ObjectOk(cfg, uploads, key, st.objects[key]);
    }
  }

  lemma InitKeeps(cfg: Config, s: Sys, u: nat, outcome: InitOutcome)
    requires Inv(cfg, s) && u < |s.db.uploads|
    requires s.db.uploads[u].state == CREATED && s.db.uploads[u].session.None?
    ensures Inv(cfg, InitTx(s, u, outcome))
  {
    var row := s.db.uploads[u];
    assert UploadRowsOk(s.db.objects, s.db.files, u, row);
    NewSessionFrame(cfg, s.db.uploads, s.store, row.obj);
    var s' := InitTx(s, u, outcome);
    if outcome != CrashAfterCreate {
      UploadRowFrame(cfg, s.db, u, s'.db.uploads[u]);
      if outcome == Recorded {
        RecordSession(cfg, s.db.uploads, CreateSession(s.store, row.obj), u, s'.db.uploads[u], s.store.nextSession);
      } else {
        StoreRowFrame(cfg, s.db.uploads, s'.store, u, s'.db.uploads[u]);
      }
    }
  }

  /** Recording an empty session for an upload that had none. */
  lemma RecordSession(cfg: Config, uploads: seq<UploadRow>, st: Store, u: nat, row: UploadRow, id: nat)
    requires StoreOk(cfg, uploads, st) && u < |uploads| && uploads[u].session.None?
    requires id in st.sessions && st.sessions[id].key == u
    requires row == uploads[u].(session := Some(id), state := row.state)
    ensures StoreOk(cfg, uploads[u := row], st)
  {
    var uploads' := uploads[u := row];
    forall url | url in st.urls
      ensures UrlOk(uploads', st, url)
    {
      assert UrlOk(uploads, st, url);
    }
    forall x | x in st.sessions
      ensures x < st.nextSession && SessionOk(cfg, uploads', x, st.sessions[x])
    {
      assert SessionOk(cfg, uploads, x, st.sessions[x]);
    }
    forall x | 0 <= x < |uploads'|
      ensures SessionBacksUpload(st, x, uploads'[x])
    {
      assert SessionBacksUpload(st, x, uploads[x]);
      assert SessionOk(cfg, uploads, id, st.sessions[id]);
    }
    forall key | key in st.objects
      ensures ObjectOk(cfg, uploads', key, st.objects[key])
    {
      assert ObjectOk(cfg, uploads, key, st.objects[key]);
    }
  }

  /** Signing adds part rows, never changes one, and leaves a row for every URL it hands out. */
  lemma {:induction false} SignedParts(row: UploadRow, ps: seq<SignRequest>)
    requires PartRowsOk(row) && SignParts(row, ps).Some?
    ensures PartRowsOk(SignParts(row, ps).value)
    ensures KeepsParts(row, SignParts(row, ps).value)
    ensures forall i :: 0 <= i < |ps| ==>
      var url := SignedUrl(row, 0, ps[i]);
      Describes(SignParts(row, ps).value, url.number, url.length, url.checksum)
  {
    if |ps| > 0 {
      SignedParts(row, ps[..|ps| - 1]);
      var before := SignParts(row, ps[..|ps| - 1]).value;
      var after := SignParts(row, ps).value;
      assert KeepsParts(before, after);
      forall i | 0 <= i < |ps|
        ensures
          var url := SignedUrl(row, 0, ps[i]);
          Describes(after, url.number, url.length, url.checksum)
      {
        if i < |ps| - 1 {
          assert ps[..|ps| - 1][i] == ps[i];
        }
      }
    }
  }

  lemma SignKeeps(cfg: Config, s: Sys, u: nat, owner: nat, ps: seq<SignRequest>, active: bool)
    requires Inv(cfg, s)
    ensures SignTx(cfg, s, u, owner, ps, active).Some? ==> Inv(cfg, SignTx(cfg, s, u, owner, ps, active).value)
  {
    var r := SignTx(cfg, s, u, owner, ps, active);
    if r.Some? {
      var row := s.db.uploads[u];
      var row' := r.value.db.uploads[u];
      SignedParts(row, ps);
      UploadRowFrame(cfg, s.db, u, row');
      StoreRowFrame(cfg, s.db.uploads, s.store, u, row');
      var uploads, st, st' := r.value.db.uploads, s.store, r.value.store;
      forall url | url in st'.urls
        ensures UrlOk(uploads, st', url)
      {
        if url in st.urls {
          assert UrlOk(uploads, st, url);
        } else {
          assert SessionBacksUpload(st, u, uploads[u]);
          var i :| 0 <= i < |ps| && url == SignedUrl(row, row.session.value, ps[i]);
          assert SignedUrl(row, 0, ps[i]) == url.(session := 0);
        }
      }
      forall id | id in st'.sessions
        ensures id < st'.nextSession && SessionOk(cfg, uploads, id, st'.sessions[id])
      {
        assert SessionOk(cfg, uploads, id, st.sessions[id]);
      }
      forall x | 0 <= x < |uploads|
        ensures SessionBacksUpload(st', x, uploads[x])
      {
        assert SessionBacksUpload(st, x, uploads[x]);
      }
    }
  }

  lemma PutKeeps(cfg: Config, s: Sys, put: Put)
    requires Inv(cfg, s)
    ensures Inv(cfg, Apply(cfg, s, PutPartBytes(put)))
  {
    PutFrame(cfg, s.db.uploads, s.store, put);
  }

  lemma AckKeeps(cfg: Config, s: Sys, u: nat, owner: nat, number: int, etag: string)
    requires Inv(cfg, s)
    ensures Inv(cfg, Apply(cfg, s, Ack(u, owner, number, etag)))
  {
    var r := AckTx(s.db, u, owner, number, etag);
    if r.Some? && r.value != s.db {
      UploadRowFrame(cfg, s.db, u, r.value.uploads[u]);
      StoreRowFrame(cfg, s.db.uploads, s.store, u, r.value.uploads[u]);
    }
  }

  lemma StatusKeeps(cfg: Config, s: Sys, u: nat, owner: nat)
    requires Inv(cfg, s)
    ensures Inv(cfg, Apply(cfg, s, Status(u, owner)))
  {
    var r := StatusTx(cfg, s, u, owner);
    if r.Some? && r.value != s.db {
      UploadRowFrame(cfg, s.db, u, r.value.uploads[u]);
      StoreRowFrame(cfg, s.db.uploads, s.store, u, r.value.uploads[u]);
    }
  }

  lemma RecordFailureKeeps(cfg: Config, s: Sys, u: nat, code: ErrorCode)
    requires Inv(cfg, s)
    ensures Inv(cfg, Apply(cfg, s, RecordFailure(u, code)))
  {
    var db := RecordFailureTx(s.db, u, code);
    if db != s.db {
      UploadRowFrame(cfg, s.db, u, db.uploads[u]);
      StoreRowFrame(cfg, s.db.uploads, s.store, u, db.uploads[u]);
    }
  }

  lemma EndKeepsTables(cfg: Config, db: Db, u: nat, state: UploadState)
    requires Tables(cfg, db) && u < |db.uploads| && RowsExist(db, db.uploads[u])
    requires db.uploads[u].state != COMPLETE && state in {ABORTED, TIMED_OUT}
    ensures Tables(cfg, EndedDb(db, u, state))
  {
    var db' := EndedDb(db, u, state);
    assert UploadRowsOk(db.objects, db.files, u, db.uploads[u]);
    forall x | 0 <= x < |db'.uploads|
      ensures UploadRowsOk(db'.objects, db'.files, x, db'.uploads[x])
    {
      assert UploadRowsOk(db.objects, db.files, x, db.uploads[x]);
    }
    forall f | 0 <= f < |db'.files|
      ensures FileOk(db'.uploads, f, db'.files[f])
    {
      assert FileOk(db.uploads, f, db.files[f]);
    }
    forall v | 0 <= v < |db'.versions|
      ensures VersionOk(db'.uploads, db'.files, db'.versions[v])
    {
      assert VersionOk(db.uploads, db.files, db.versions[v]);
    }
  }

  /** Ending an upload that has not completed, whatever became of its session and object. */
  lemma EndKeeps(cfg: Config, s: Sys, u: nat, state: UploadState)
    requires Inv(cfg, s) && u < |s.db.uploads| && RowsExist(s.db, s.db.uploads[u])
    requires s.db.uploads[u].state != COMPLETE && state in {ABORTED, TIMED_OUT}
    ensures Inv(cfg, s.(db := EndedDb(s.db, u, state)))
  {
    var db, db' := s.db, EndedDb(s.db, u, state);
    EndKeepsTables(cfg, db, u, state);
    assert UploadRowsOk(db.objects, db.files, u, db.uploads[u]);
    StoreRowFrame(cfg, db.uploads, s.store, u, db'.uploads[u]);
    forall f | 0 <= f < |db'.files| && Charged(db'.files[f])
      ensures BytesPresent(db'.objects, s.store, db'.files[f].obj)
    {
      assert FileOk(db.uploads, f, db.files[f]);
    }
    forall v | 0 <= v < |db'.versions|
      ensures BytesPresent(db'.objects, s.store, db'.versions[v].obj)
    {
      assert VersionOk(db.uploads, db.files, db.versions[v]);
    }
  }

  lemma AbortKeeps(cfg: Config, s: Sys, u: nat, owner: nat, crash: bool)
    requires Inv(cfg, s)
    ensures Inv(cfg, Apply(cfg, s, Abort(u, owner, crash)))
  {
    if u < |s.db.uploads| && RowsExist(s.db, s.db.uploads[u]) && s.db.uploads[u].state != COMPLETE {
      var st := AbortStore(s.store, s.db.uploads[u].session);
      if s.db.uploads[u].session.Some? {
        ForgetSessionFrame(cfg, s.db.uploads, s.store, s.db.uploads[u].session.value);
      }
      EndKeeps(cfg, s.(store := st), u, ABORTED);
    }
  }

  lemma TimeOutKeeps(cfg: Config, s: Sys, u: nat, crash: bool)
    requires Inv(cfg, s)
    ensures Inv(cfg, Apply(cfg, s, TimeOut(u, crash)))
  {
    if u < |s.db.uploads| && RowsExist(s.db, s.db.uploads[u]) && s.db.uploads[u].state != COMPLETE {
      var st := AbortStore(s.store, s.db.uploads[u].session);
      if s.db.uploads[u].session.Some? {
        ForgetSessionFrame(cfg, s.db.uploads, s.store, s.db.uploads[u].session.value);
      }
      EndKeeps(cfg, s.(store := st), u, TIMED_OUT);
    }
  }

  lemma BulkItemKeeps(cfg: Config, s: Sys, owner: nat, f: nat, action: BulkAction)
    requires Inv(cfg, s)
    ensures var r := BulkItem(cfg, s.db, owner, f, action); r.Some? ==> Inv(cfg, s.(db := r.value))
  {
    var r := BulkItem(cfg, s.db, owner, f, action);
    if r.Some? {
      assert FileOk(s.db.uploads, f, s.db.files[f]);
      if action == Copy {
        CopyKeeps(cfg, s, f, FileRow(owner, s.db.files[f].obj, AVAILABLE, 1, s.db.files[f].mime));
      } else {
        RowsFrame(cfg, s, r.value);
      }
    }
  }

  lemma CopyKeeps(cfg: Config, s: Sys, f: nat, copy: FileRow)
    requires Inv(cfg, s) && f < |s.db.files| && Charged(s.db.files[f])
    requires copy.obj == s.db.files[f].obj && Charged(copy)
    ensures Inv(cfg, s.(db := s.db.(files := s.db.files + [copy])))
  {
    var db, files := s.db, s.db.files + [copy];
    assert FileOk(db.uploads, f, db.files[f]);
    assert UploadRowsOk(db.objects, db.files, db.files[f].obj, db.uploads[db.files[f].obj]);
    forall x | 0 <= x < |db.uploads|
      ensures UploadRowsOk(db.objects, files, x, db.uploads[x])
    {
      assert UploadRowsOk(db.objects, db.files, x, db.uploads[x]);
    }
    forall g | 0 <= g < |files|
      ensures FileOk(db.uploads, g, files[g])
    {
      if g < |db.files| {
        assert FileOk(db.uploads, g, db.files[g]);
      }
    }
    forall v | 0 <= v < |db.versions|
      ensures VersionOk(db.uploads, files, db.versions[v])
    {
      assert VersionOk(db.uploads, db.files, db.versions[v]);
    }
  }

  lemma {:induction false} BulkKeeps(cfg: Config, s: Sys, owner: nat, ids: seq<nat>, action: BulkAction)
    requires Inv(cfg, s)
    ensures Inv(cfg, Apply(cfg, s, Bulk(owner, ids, action)))
    decreases |ids|
  {
    if |ids| > 0 {
      BulkItemKeeps(cfg, s, owner, ids[0], action);
      var r := BulkItem(cfg, s.db, owner, ids[0], action);
      if r.Some? {
        BulkKeeps(cfg, s.(db := r.value), owner, ids[1..], action);
      }
    }
  }

  lemma EditKeeps(cfg: Config, s: Sys, f: nat, owner: nat, seen: Option<nat>)
    requires Inv(cfg, s)
    ensures Inv(cfg, Apply(cfg, s, Edit(f, owner, seen)))
  {
    RowsFrame(cfg, s, Apply(cfg, s, Edit(f, owner, seen)).db);
  }

  /** The two rows an override writes. */
  lemma OverrideRows(cfg: Config, db: Db, f: nat, state: Option<FileState>, owner: Option<nat>)
    requires OverrideTx(cfg, db, f, state, owner).Some?
    ensures var r := OverrideTx(cfg, db, f, state, owner).value;
      && f < |db.files| && db.files[f].obj < |db.objects| && db.files[f].state !in {PROCESSING, PURGED}
      && r.uploads == db.uploads && r.versions == db.versions
      && r.files == db.files[f := r.files[f]] && r.files[f].obj == db.files[f].obj
      && r.files[f].state == (if state.Some? then state.value else db.files[f].state)
      && r.files[f].owner == (if owner.Some? then owner.value else db.files[f].owner)
      && r.files[f].revision == db.files[f].revision + 1
      && r.files[f].state != PROCESSING
      && r.objects == db.objects[db.files[f].obj := r.objects[db.files[f].obj]]
      && r.objects[db.files[f].obj] == db.objects[db.files[f].obj].(
           state := r.objects[db.files[f].obj].state, purge := r.objects[db.files[f].obj].purge)
      && (r.objects[db.files[f].obj].state == db.objects[db.files[f].obj].state
          || r.objects[db.files[f].obj].state in {AVAILABLE, BLOCKED})
  {
  }

  lemma OverrideStep(cfg: Config, s: Sys, f: nat, state: Option<FileState>, owner: Option<nat>)
    requires Inv(cfg, s) && Assumed(s, Override(f, state, owner))
    requires OverrideTx(cfg, s.db, f, state, owner).Some?
    ensures var db := OverrideTx(cfg, s.db, f, state, owner).value;
      && db.uploads == s.db.uploads && db.versions == s.db.versions
      && |db.objects| == |s.db.objects| && |db.files| == |s.db.files|
      && (forall g :: 0 <= g < |db.files| ==> FileStep(s.db.files[g], db.files[g]))
      && (forall o :: 0 <= o < |db.objects| ==> ObjectStep(s.db.objects[o], db.objects[o]))
  {
    var row, db := s.db.files[f], OverrideTx(cfg, s.db, f, state, owner).value;
    OverrideRows(cfg, s.db, f, state, owner);
    OverrideBlocks(cfg, s.db, f, state, owner);
    assert FileOk(s.db.uploads, f, row);
    assert UploadRowsOk(s.db.objects, s.db.files, row.obj, s.db.uploads[row.obj]);
    assert FileStep(row, db.files[f]);
    assert ObjectStep(s.db.objects[row.obj], db.objects[row.obj]);
  }

  /** An override that changes the object's state is one to BLOCKED, or lifts a block. */
  lemma OverrideBlocks(cfg: Config, db: Db, f: nat, state: Option<FileState>, owner: Option<nat>)
    requires OverrideTx(cfg, db, f, state, owner).Some?
    ensures var o := db.files[f].obj;
      OverrideTx(cfg, db, f, state, owner).value.objects[o].state != db.objects[o].state ==>
        state == Some(BLOCKED) || db.objects[o].state == BLOCKED
  {
  }

  lemma OverrideKeeps(cfg: Config, s: Sys, f: nat, state: Option<FileState>, owner: Option<nat>)
    requires Inv(cfg, s) && Assumed(s, Override(f, state, owner))
    ensures Inv(cfg, Apply(cfg, s, Override(f, state, owner)))
  {
    var r := OverrideTx(cfg, s.db, f, state, owner);
    if r.Some? {
      OverrideStep(cfg, s, f, state, owner);
      RowsFrame(cfg, s, r.value);
    }
  }

  lemma EndFileKeeps(cfg: Config, s: Sys, f: nat, why: EndReason)
    requires Inv(cfg, s)
    ensures Inv(cfg, s.(db := EndFileTx(s.db, f, why)))
  {
    RowsFrame(cfg, s, EndFileTx(s.db, f, why));
  }

  lemma JobsKeep(cfg: Config, s: Sys, o: nat, ok: bool)
    requires Inv(cfg, s)
    ensures Inv(cfg, s.(db := ClaimTx(s.db, o)))
    ensures Inv(cfg, s.(db := FinishTx(s.db, o, ok)))
    ensures Inv(cfg, s.(db := RestartTx(s.db)))
  {
    RowsFrame(cfg, s, ClaimTx(s.db, o));
    RowsFrame(cfg, s, FinishTx(s.db, o, ok));
    RowsFrame(cfg, s, RestartTx(s.db));
  }

  lemma ScanKeeps(cfg: Config, s: Sys, o: nat, clean: bool)
    requires Inv(cfg, s)
    ensures Inv(cfg, s.(db := ScanTx(s.db, o, clean)))
  {
    RowsFrame(cfg, s, ScanTx(s.db, o, clean));
  }

  lemma SweepRowKeeps(cfg: Config, s: Sys, o: nat)
    requires Inv(cfg, s)
    ensures Inv(cfg, SweepRowTx(s, o))
  {
    RowsFrame(cfg, s, SweepRowTx(s, o).db);
  }

  lemma SweepSessionKeeps(cfg: Config, s: Sys, session: nat, aged: bool)
    requires Inv(cfg, s)
    ensures Inv(cfg, Apply(cfg, s, SweepSession(session, aged)))
  {
    ForgetSessionFrame(cfg, s.db.uploads, s.store, session);
  }

  /** Purging an unreferenced object, with or without the commit that should follow. */
  lemma RunPurgeKeeps(cfg: Config, s: Sys, o: nat, crash: bool)
    requires Inv(cfg, s)
    ensures Inv(cfg, PurgeTx(s, o, crash))
  {
    if o < |s.db.objects| && !Referenced(s.db, o) {
      RemoveObjectFrame(cfg, s.db.uploads, s.store, o);
      var db, db' := s.db, SetObject(s.db, o, s.db.objects[o].(state := PURGED));
      assert UploadRowsOk(db.objects, db.files, o, db.uploads[o]);
      forall x | 0 <= x < |db.uploads|
        ensures UploadRowsOk(db'.objects, db'.files, x, db'.uploads[x])
      {
        assert UploadRowsOk(db.objects, db.files, x, db.uploads[x]);
      }
    }
  }

  lemma SweepKeyKeeps(cfg: Config, s: Sys, key: nat, aged: bool, crash: bool)
    requires Inv(cfg, s)
    ensures Inv(cfg, SweepKeyTx(s, key, aged, crash))
  {
    if key in s.store.objects {
      assert ObjectOk(cfg, s.db.uploads, key, s.store.objects[key]);
      RunPurgeKeeps(cfg, s, key, crash);
    }
  }
}
