/** Completing an upload keeps the invariant, and produces exactly the signed parts in order. */
module Completion {
  import opened Base
  import opened Planning
  import opened ObjectStore
  import opened Catalog
  import opened Transactions
  import opened Runs
  import opened Integrity

  /** Every entry of a listing is a stored part; a stored part's etag is the one reconciling records. */
  lemma {:induction false} ListingSound(parts: seq<Option<StoredPart>>, hash: Bytes -> int, n: nat)
    requires n <= |parts|
    ensures forall i :: 0 <= i < |Listing(parts, hash, n)| ==>
      var p := Listing(parts, hash, n)[i].part;
      && 1 <= p.number <= n && parts[p.number - 1].Some?
      && Listing(parts, hash, n)[i] == ListedPart(hash, p.number, parts[p.number - 1].value)
  {
    if n > 0 {
      ListingSound(parts, hash, n - 1);
    }
  }

  lemma {:induction false} EtagOfListed(parts: seq<Option<StoredPart>>, hash: Bytes -> int, n: nat, k: int,
                                        otherwise: Option<string>)
    requires n <= |parts| && 1 <= k <= |parts|
    ensures EtagFrom(Listing(parts, hash, n), k, otherwise) ==
      if k <= n && parts[k - 1].Some? then Some(parts[k - 1].value.etag) else otherwise
  {
    if n > 0 {
      EtagOfListed(parts, hash, n - 1, k, otherwise);
      var l, before := Listing(parts, hash, n), Listing(parts, hash, n - 1);
      if parts[n - 1].Some? {
        assert l[..|l| - 1] == before;
      } else {
        assert l == before;
      }
    }
  }

  /** Rows 1..c and no others: the recorded manifest lists them in order. */
  lemma {:induction false} ManifestDense(parts: seq<Option<PartRow>>, n: nat, c: nat)
    requires n <= |parts|
    requires forall i :: 0 <= i < n ==> (parts[i].Some? <==> i < c)
    ensures |Manifest(parts, n)| == Min(n, c)
    ensures forall i :: 0 <= i < Min(n, c) ==> Manifest(parts, n)[i] == RecordedEntry(i + 1, parts[i].value)
  {
    if n > 0 {
      ManifestDense(parts, n - 1, c);
    }
  }

  /** The listing of a session that backs an upload always passes the integrity check. */
  lemma ListingAccepted(cfg: Config, s: Sys, u: nat)
    requires Inv(cfg, s) && u < |s.db.uploads| && s.db.uploads[u].session.Some?
    requires s.db.uploads[u].session.value in s.store.sessions
    ensures ListParts(s.store, cfg.hash, s.db.uploads[u].session.value).Some?
    ensures ListingOk(s.db.uploads[u], ListParts(s.store, cfg.hash, s.db.uploads[u].session.value).value)
  {
    var id := s.db.uploads[u].session.value;
    var session := s.store.sessions[id];
    assert SessionBacksUpload(s.store, u, s.db.uploads[u]);
    assert SessionOk(cfg, s.db.uploads, id, session);
    ListingSound(session.parts, cfg.hash, |session.parts|);
  }

  ghost predicate Planned(row: UploadRow, manifest: seq<ManifestEntry>) {
    && row.chunk > 0 && |row.parts| == MAX_PARTS
    && |manifest| == PartCount(row.size, row.chunk)
    && forall i :: 0 <= i < |manifest| ==>
         && HasPart(row, i + 1)
         && manifest[i] == RecordedEntry(i + 1, row.parts[i].value)
         && ExpectedPartBytes(row.size, row.chunk, i + 1) == Some(row.parts[i].value.expected)
  }

  ghost predicate Backed(cfg: Config, s: Sys, u: nat) {
    && Inv(cfg, s) && u < |s.db.uploads| && s.db.uploads[u].session.Some?
    && s.db.uploads[u].session.value in s.store.sessions
  }

  /** A listing of the planned shape means that exactly the planned parts are stored and signed. */
  lemma ListingFillsPlan(cfg: Config, s: Sys, u: nat)
    requires Backed(cfg, s, u)
    requires var row := s.db.uploads[u];
      AssertParts(row.size, row.chunk, PartsOf(ListParts(s.store, cfg.hash, row.session.value).value))
    ensures var row := s.db.uploads[u];
      var parts := s.store.sessions[row.session.value].parts;
      && |parts| == |row.parts|
      && forall i :: 0 <= i < |row.parts| ==>
           && (row.parts[i].Some? <==> i < PartCount(row.size, row.chunk))
           && (row.parts[i].Some? ==> parts[i].Some? && parts[i].value.etag != "")
  {
    var row := s.db.uploads[u];
    var id := row.session.value;
    var session := s.store.sessions[id];
    var listing := Listing(session.parts, cfg.hash, |session.parts|);
    ListingSound(session.parts, cfg.hash, |session.parts|);
    assert SessionBacksUpload(s.store, u, row);
    assert SessionOk(cfg, s.db.uploads, id, session);
    PartsMatchPointwise(row.size, row.chunk, PartsOf(listing), 0);
    forall i | 0 <= i < |row.parts|
      ensures row.parts[i].Some? <==> i < PartCount(row.size, row.chunk)
      ensures row.parts[i].Some? ==> session.parts[i].Some? && session.parts[i].value.etag != ""
    {
      if i < PartCount(row.size, row.chunk) {
        assert PartsOf(listing)[i].number == i + 1;
        assert SlotOk(cfg, row, i + 1, session.parts[i].value);
      }
    }
  }

  predicate HasEtag(row: UploadRow, n: int) {
    HasPart(row, n) && row.parts[n - 1].value.etag.Some? && row.parts[n - 1].value.etag.value != ""
  }

  /** A manifest of planned rows with their etags passes the check. */
  lemma PlannedPasses(row: UploadRow, manifest: seq<ManifestEntry>)
    requires Planned(row, manifest)
    requires forall n {:trigger HasEtag(row, n)} :: 1 <= n <= |manifest| ==> HasEtag(row, n)
    ensures AssertParts(row.size, row.chunk, ManifestParts(manifest))
  {
    forall i | 0 <= i < |manifest|
      ensures ManifestParts(manifest)[i].number == i + 1 && ManifestParts(manifest)[i].etag != ""
      ensures ExpectedPartBytes(row.size, row.chunk, i + 1) == Some(ManifestParts(manifest)[i].size)
    {
      assert HasEtag(row, i + 1);
      assert manifest[i] == RecordedEntry(i + 1, row.parts[i].value);
    }
    PartsMatchPointwise(row.size, row.chunk, ManifestParts(manifest), 0);
  }

  /** Exactly the planned parts are signed, and the store holds each of them with an etag. */
  predicate FullyStored(row: UploadRow, parts: seq<Option<StoredPart>>)
    requires row.chunk > 0
  {
    && |parts| == |row.parts|
    && forall i :: 0 <= i < |row.parts| ==>
         && (row.parts[i].Some? <==> i < PartCount(row.size, row.chunk))
         && (row.parts[i].Some? ==> parts[i].Some? && parts[i].value.etag != "")
  }

  lemma SamePartsKeep(row: UploadRow, row': UploadRow)
    requires PartRowsOk(row) && row' == row.(parts := row'.parts) && SameParts(row.parts, row'.parts)
    ensures PartRowsOk(row') && KeepsParts(row, row')
  {
  }

  /** Where exactly the parts 1..c of the plan are recorded, the manifest is the plan. */
  lemma DenseIsPlanned(row: UploadRow)
    requires PartRowsOk(row) && PartCount(row.size, row.chunk) <= MAX_PARTS
    requires forall i :: 0 <= i < |row.parts| ==> (row.parts[i].Some? <==> i < PartCount(row.size, row.chunk))
    ensures Planned(row, Manifest(row.parts, |row.parts|))
  {
    var c := PartCount(row.size, row.chunk);
    var manifest := Manifest(row.parts, |row.parts|);
    ManifestDense(row.parts, |row.parts|, c);
    assert |manifest| == c;
    forall i | 0 <= i < |manifest|
      ensures HasPart(row, i + 1) && manifest[i] == RecordedEntry(i + 1, row.parts[i].value)
      ensures ExpectedPartBytes(row.size, row.chunk, i + 1) == Some(row.parts[i].value.expected)
    {
      assert row.parts[i].Some?;
      assert manifest[i] == RecordedEntry(i + 1, row.parts[i].value);
    }
  }

  /** Reconciling with a listing of the planned shape fills in every etag of the plan. */
  lemma {:induction false} EtagsFilled(row: UploadRow, parts: seq<Option<StoredPart>>, hash: Bytes -> int, n: nat)
    requires row.chunk > 0 && FullyStored(row, parts) && 1 <= n <= PartCount(row.size, row.chunk) <= |row.parts|
    requires Reconcile(row, Listing(parts, hash, |parts|)).Some?
    ensures HasEtag(Reconcile(row, Listing(parts, hash, |parts|)).value, n)
  {
    assert row.parts[n - 1].Some?;
    EtagOfListed(parts, hash, |parts|, n, row.parts[n - 1].value.etag);
  }

  lemma {:induction false} ReconciledIsPlanned(row: UploadRow, parts: seq<Option<StoredPart>>, hash: Bytes -> int)
    requires PartRowsOk(row) && FullyStored(row, parts) && PartCount(row.size, row.chunk) <= MAX_PARTS
    requires Reconcile(row, Listing(parts, hash, |parts|)).Some?
    ensures var row' := Reconcile(row, Listing(parts, hash, |parts|)).value;
      && PartRowsOk(row') && KeepsParts(row, row')
      && Planned(row', Manifest(row'.parts, |row'.parts|))
      && forall n {:trigger HasEtag(row', n)} :: 1 <= n <= PartCount(row.size, row.chunk) ==> HasEtag(row', n)
  {
    var listing := Listing(parts, hash, |parts|);
    var row' := Reconcile(row, listing).value;
    ReconcileSameParts(row, listing);
    SamePartsKeep(row, row');
    DenseIsPlanned(row');
    forall n | 1 <= n <= PartCount(row.size, row.chunk)
      ensures HasEtag(row', n)
    {
      EtagsFilled(row, parts, hash, n);
    }
  }

  /** Once the listing has the planned shape, so has the recorded manifest: its check cannot fail. */
  lemma ManifestFollowsListing(cfg: Config, s: Sys, u: nat)
    requires Backed(cfg, s, u)
    requires var row := s.db.uploads[u];
      AssertParts(row.size, row.chunk, PartsOf(ListParts(s.store, cfg.hash, row.session.value).value))
    ensures var row := s.db.uploads[u];
      var row' := Reconcile(row, ListParts(s.store, cfg.hash, row.session.value).value);
      && row'.Some? && PartRowsOk(row'.value) && KeepsParts(row, row'.value)
      && Planned(row'.value, Manifest(row'.value.parts, |row'.value.parts|))
      && AssertParts(row.size, row.chunk, ManifestParts(Manifest(row'.value.parts, |row'.value.parts|)))
  {
    var row := s.db.uploads[u];
    var parts := s.store.sessions[row.session.value].parts;
    ListingAccepted(cfg, s, u);
    ListingFillsPlan(cfg, s, u);
    PlanFitsStorageLimit(row.size, cfg.partMiB);
    ReconciledIsPlanned(row, parts, cfg.hash);
    var row' := Reconcile(row, Listing(parts, cfg.hash, |parts|)).value;
    PlannedPasses(row', Manifest(row'.parts, |row'.parts|));
  }

  predicate Holds(row: UploadRow, parts: seq<Option<StoredPart>>, n: int) {
    1 <= n <= |parts| && parts[n - 1].Some? && HasPart(row, n)
      && |parts[n - 1].value.content| == row.parts[n - 1].value.expected
  }

  predicate PartAt(content: Bytes, start: int, part: Bytes) {
    0 <= start && start + |part| <= |content| && content[start..start + |part|] == part
  }

  lemma PartAtPrefix(content: Bytes, more: Bytes, start: int, part: Bytes)
    requires PartAt(content, start, part)
    ensures PartAt(content + more, start, part)
  {
    assert (content + more)[start..start + |part|] == content[start..start + |part|];
  }

  function Offset(row: UploadRow, n: int): int {
    (n - 1) * row.chunk
  }

  /** Joining stored parts of the planned lengths puts part n at offset (n - 1) * chunk. */
  lemma {:induction false} JoinPrefix(row: UploadRow, parts: seq<Option<StoredPart>>, hash: Bytes -> int,
                                      manifest: seq<ManifestEntry>, k: nat)
    requires Planned(row, manifest) && k <= |manifest|
    requires ManifestMatches(parts, hash, manifest)
    requires forall n :: 1 <= n <= |manifest| ==> Holds(row, parts, n)
    ensures ManifestMatches(parts, hash, manifest[..k])
    ensures |Join(parts, hash, manifest[..k])| == Min(k * row.chunk, row.size)
    ensures forall n :: 1 <= n <= k ==>
      Holds(row, parts, n) && PartAt(Join(parts, hash, manifest[..k]), Offset(row, n), parts[n - 1].value.content)
  {
    if k > 0 {
      JoinPrefix(row, parts, hash, manifest, k - 1);
      var m := manifest[..k];
      assert m[..k - 1] == manifest[..k - 1];
      var before, after := Join(parts, hash, manifest[..k - 1]), Join(parts, hash, m);
      assert after == before + parts[k - 1].value.content by {
        assert m[k - 1] == manifest[k - 1] == RecordedEntry(k, row.parts[k - 1].value);
      }
      JoinOffsets(row, k);
      assert HasPart(row, k - 1 + 1) && Holds(row, parts, k);
      PartAtEnd(before, parts[k - 1].value.content);
      forall n | 1 <= n <= k
        ensures Holds(row, parts, n) && PartAt(after, Offset(row, n), parts[n - 1].value.content)
      {
        if n < k {
          PartAtPrefix(before, parts[k - 1].value.content, Offset(row, n), parts[n - 1].value.content);
        }
      }
    }
  }

  lemma PartAtEnd(before: Bytes, part: Bytes)
    ensures PartAt(before + part, |before|, part)
  {
  }

  lemma JoinOffsets(row: UploadRow, k: nat)
    requires row.chunk > 0 && 1 <= k <= PartCount(row.size, row.chunk)
    ensures Offset(row, k) == Min((k - 1) * row.chunk, row.size)
    ensures ExpectedPartBytes(row.size, row.chunk, k).Some?
    ensures Offset(row, k) + ExpectedPartBytes(row.size, row.chunk, k).value == Min(k * row.chunk, row.size)
  {
    PartLengths(row.size, row.chunk, k);
  }

  /** A part that lies at its planned offset is the slice of its number. */
  lemma SliceIsPart(row: UploadRow, content: Bytes, n: int, part: Bytes)
    requires row.chunk > 0 && |content| == row.size && 1 <= n <= PartCount(row.size, row.chunk)
    requires ExpectedPartBytes(row.size, row.chunk, n) == Some(|part|) && PartAt(content, Offset(row, n), part)
    ensures PartSlice(content, row.chunk, n) == part
  {
    JoinOffsets(row, n);
  }

  lemma PlanCovers(size: nat, chunk: nat, c: nat)
    requires chunk > 0 && c == PartCount(size, chunk)
    ensures Min(c * chunk, size) == size
  {
    assert PartCount(size, chunk) * chunk >= size;
  }

  lemma JoinedPart(row: UploadRow, parts: seq<Option<StoredPart>>, hash: Bytes -> int, manifest: seq<ManifestEntry>,
                   n: int)
    requires Planned(row, manifest) && ManifestMatches(parts, hash, manifest)
    requires 1 <= n <= |manifest| && Holds(row, parts, n)
    ensures ExpectedPartBytes(row.size, row.chunk, n) == Some(|parts[n - 1].value.content|)
    ensures hash(parts[n - 1].value.content) == row.parts[n - 1].value.checksum
  {
    assert EntryMatches(parts, hash, manifest[n - 1]);
    assert manifest[n - 1] == RecordedEntry(n - 1 + 1, row.parts[n - 1].value);
  }

  /** Completing with a planned manifest assembles the planned parts, in order and with their checksums. */
  lemma {:induction false} JoinAssembles(cfg: Config, row: UploadRow, parts: seq<Option<StoredPart>>,
                                         manifest: seq<ManifestEntry>)
    requires Planned(row, manifest) && ManifestMatches(parts, cfg.hash, manifest)
    requires forall n :: 1 <= n <= |manifest| ==> Holds(row, parts, n)
    ensures Assembled(cfg, row, Join(parts, cfg.hash, manifest))
  {
    var content := Join(parts, cfg.hash, manifest);
    var c := |manifest|;
    JoinPrefix(row, parts, cfg.hash, manifest, c);
    PlanCovers(row.size, row.chunk, c);
    assert manifest[..c] == manifest;
    forall n | 1 <= n <= c
      ensures HasPart(row, n) && cfg.hash(PartSlice(content, row.chunk, n)) == row.parts[n - 1].value.checksum
    {
      assert Holds(row, parts, n);
      JoinedPart(row, parts, cfg.hash, manifest, n);
      SliceIsPart(row, content, n, parts[n - 1].value.content);
    }
  }

  lemma ManifestHeld(cfg: Config, uploads: seq<UploadRow>, st: Store, u: nat, manifest: seq<ManifestEntry>,
                     row: UploadRow)
    requires StoreOk(cfg, uploads, st) && u < |uploads| && uploads[u].session.Some?
    requires uploads[u].session.value in st.sessions
    requires Planned(row, manifest) && KeepsParts(uploads[u], row)
    requires ManifestMatches(st.sessions[uploads[u].session.value].parts, cfg.hash, manifest)
    ensures forall n :: 1 <= n <= |manifest| ==> Holds(row, st.sessions[uploads[u].session.value].parts, n)
  {
    var id := uploads[u].session.value;
    var session := st.sessions[id];
    assert SessionBacksUpload(st, u, uploads[u]);
    assert SessionOk(cfg, uploads, id, session);
    forall n | 1 <= n <= |manifest|
      ensures Holds(row, session.parts, n)
    {
      assert EntryMatches(session.parts, cfg.hash, manifest[n - 1]);
      assert SlotOk(cfg, uploads[u], n - 1 + 1, session.parts[n - 1].value);
      assert row.parts[n - 1].Some?;
    }
  }

  /** The store after a successful completion still answers to the database rows. */
  lemma CompleteFrame(cfg: Config, uploads: seq<UploadRow>, st: Store, u: nat, manifest: seq<ManifestEntry>,
                      row: UploadRow)
    requires StoreOk(cfg, uploads, st) && u < |uploads| && uploads[u].session.Some?
    requires row.size == uploads[u].size && row.chunk == uploads[u].chunk && Planned(row, manifest)
    requires KeepsParts(uploads[u], row) && |row.parts| == |uploads[u].parts|
    requires forall i :: 0 <= i < |row.parts| && row.parts[i].Some? ==> uploads[u].parts[i].Some?
    requires Complete(st, cfg.hash, uploads[u].session.value, manifest).Some?
    ensures var st' := Complete(st, cfg.hash, uploads[u].session.value, manifest).value;
      && StoreOk(cfg, uploads, st')
      && st'.objects.Keys == st.objects.Keys + {u}
  {
    var id := uploads[u].session.value;
    var session := st.sessions[id];
    var st' := Complete(st, cfg.hash, id, manifest).value;
    assert SessionBacksUpload(st, u, uploads[u]);
    assert SessionOk(cfg, uploads, id, session);
    ManifestHeld(cfg, uploads, st, u, manifest, row);
    JoinAssembles(cfg, row, session.parts, manifest);
    AssembledByOldRow(cfg, uploads[u], row, st'.objects[u]);
    forall url | url in st'.urls
      ensures UrlOk(uploads, st', url)
    {
      assert UrlOk(uploads, st, url);
    }
    forall x | x in st'.sessions
      ensures x < st'.nextSession && SessionOk(cfg, uploads, x, st'.sessions[x])
    {
      assert SessionOk(cfg, uploads, x, st.sessions[x]);
    }
    forall x | 0 <= x < |uploads|
      ensures SessionBacksUpload(st', x, uploads[x])
    {
      assert SessionBacksUpload(st, x, uploads[x]);
    }
    forall key | key in st'.objects
      ensures ObjectOk(cfg, uploads, key, st'.objects[key])
    {
      if key != u {
        assert ObjectOk(cfg, uploads, key, st.objects[key]);
      }
    }
  }

  lemma AssembledByOldRow(cfg: Config, was: UploadRow, row: UploadRow, content: Bytes)
    requires Assembled(cfg, row, content) && KeepsParts(was, row)
    requires row.size == was.size && row.chunk == was.chunk
    requires forall i :: 0 <= i < |row.parts| && row.parts[i].Some? ==> was.parts[i].Some?
    ensures Assembled(cfg, was, content)
  {
    forall n | 1 <= n <= PartCount(was.size, was.chunk)
      ensures HasPart(was, n) && cfg.hash(PartSlice(content, was.chunk, n)) == was.parts[n - 1].value.checksum
    {
      assert HasPart(row, n);
    }
  }

  lemma CompletedKeepsTables(cfg: Config, db: Db, u: nat, row: UploadRow, v: Verdict)
    requires Tables(cfg, db) && u < |db.uploads| && RowsExist(db, row)
    requires db.uploads[u].state in {UPLOADING, FAILED} && db.uploads[u].session.Some?
    requires row == db.uploads[u].(parts := row.parts) && PartRowsOk(row)
    ensures Tables(cfg, CompletedDb(db, u, row, row.size, v))
  {
    var db' := CompletedDb(db, u, row, row.size, v);
    assert UploadRowsOk(db.objects, db.files, u, db.uploads[u]);
    forall x | 0 <= x < |db'.uploads|
      ensures UploadRowsOk(db'.objects, db'.files, x, db'.uploads[x])
    {
      assert UploadRowsOk(db.objects, db.files, x, db.uploads[x]);
    }
    forall f | 0 <= f < |db'.files|
      ensures FileOk(db'.uploads, f, db'.files[f])
    {
      assert FileOk(db.uploads, f, db.files[f]);
    }
    forall x | 0 <= x < |db'.versions|
      ensures VersionOk(db'.uploads, db'.files, db'.versions[x])
    {
      assert VersionOk(db.uploads, db.files, db.versions[x]);
    }
  }

  lemma CompletedKeepsBytes(db: Db, st: Store, u: nat, row: UploadRow, v: Verdict)
    requires BytesKept(db, st) && u < |db.uploads| && RowsExist(db, row)
    requires row.obj in st.objects && db.files[row.file].obj == row.obj
    ensures BytesKept(CompletedDb(db, u, row, row.size, v), st)
  {
  }

  /** The same parts under the same checksums; etags may differ. */
  predicate SameParts(a: seq<Option<PartRow>>, b: seq<Option<PartRow>>) {
    |a| == |b| && forall i {:trigger b[i]} :: 0 <= i < |a| ==>
      && a[i].Some? == b[i].Some?
      && (a[i].Some? ==> b[i].value.checksum == a[i].value.checksum && b[i].value.expected == a[i].value.expected)
  }

  lemma ReconcileSameParts(row: UploadRow, listing: seq<Listed>)
    requires Reconcile(row, listing).Some?
    ensures var row' := Reconcile(row, listing).value;
      row' == row.(parts := row'.parts) && SameParts(row.parts, row'.parts)
  {
  }

  lemma ActivateIsCompletion(s: Sys, u: nat, row: UploadRow, crash: bool, v: Verdict) returns (size: nat)
    requires u < |s.db.uploads| && RowsExist(s.db, row) && Activate(s, u, row, crash, v).0.db != s.db
    ensures Activate(s, u, row, crash, v).0.db == CompletedDb(s.db, u, row, size, v)
  {
    size := |s.store.objects[row.obj]|;
  }

  lemma AssemblyIsCompletion(cfg: Config, s: Sys, u: nat, session: nat, listing: seq<Listed>, puts: seq<Put>,
                             crash: bool, v: Verdict) returns (row: UploadRow, size: nat)
    requires u < |s.db.uploads| && RowsExist(s.db, s.db.uploads[u])
    requires CompleteListed(cfg, s, u, s.db.uploads[u], session, listing, puts, crash, v).0.db != s.db
    ensures row == s.db.uploads[u].(parts := row.parts) && SameParts(s.db.uploads[u].parts, row.parts)
    ensures CompleteListed(cfg, s, u, s.db.uploads[u], session, listing, puts, crash, v).0.db ==
      CompletedDb(s.db, u, row, size, v)
  {
    ReconcileSameParts(s.db.uploads[u], listing);
    row := Reconcile(s.db.uploads[u], listing).value;
    var after := Complete(PutParts(s.store, cfg.hash, puts), cfg.hash, session, Manifest(row.parts, |row.parts|)).value;
    size := ActivateIsCompletion(Sys(s.db, after), u, row, crash, v);
  }

  /** A completion attempt changes the database only by completing its upload. */
  lemma FinalizeIsCompletion(cfg: Config, s: Sys, u: nat, owner: nat, puts: seq<Put>, crash: bool, v: Verdict)
      returns (row: UploadRow, size: nat)
    requires FinalizeTx(cfg, s, u, owner, puts, crash, v).0.db != s.db
    ensures u < |s.db.uploads| && RowsExist(s.db, row) && row.owner == owner
    ensures s.db.uploads[u].state in {UPLOADING, FINALIZING, FAILED}
    ensures s.db.uploads[u].session.Some? || s.db.uploads[u].obj in s.store.objects
    ensures row == s.db.uploads[u].(parts := row.parts) && SameParts(s.db.uploads[u].parts, row.parts)
    ensures FinalizeTx(cfg, s, u, owner, puts, crash, v).0.db == CompletedDb(s.db, u, row, size, v)
  {
    row := s.db.uploads[u];
    if row.obj in s.store.objects {
      size := ActivateIsCompletion(s, u, row, crash, v);
    } else {
      var listing := ListParts(s.store, cfg.hash, row.session.value).value;
      row, size := AssemblyIsCompletion(cfg, s, u, row.session.value, listing, puts, crash, v);
    }
  }

  lemma ActivateKeeps(cfg: Config, s: Sys, u: nat, row: UploadRow, crash: bool, v: Verdict)
    requires Inv(cfg, s) && u < |s.db.uploads| && RowsExist(s.db, row)
    requires s.db.uploads[u].state in {UPLOADING, FAILED} && u in s.store.objects
    requires row == s.db.uploads[u].(parts := row.parts)
    requires PartRowsOk(row) && KeepsParts(s.db.uploads[u], row)
    ensures Inv(cfg, Activate(s, u, row, crash, v).0)
  {
    var s' := Activate(s, u, row, crash, v).0;
    if s' != s {
      assert UploadRowsOk(s.db.objects, s.db.files, u, s.db.uploads[u]);
      assert ObjectOk(cfg, s.db.uploads, u, s.store.objects[u]);
      CompletedKeepsTables(cfg, s.db, u, row, v);
      CompletedKeepsBytes(s.db, s.store, u, row, v);
      StoreRowFrame(cfg, s.db.uploads, s.store, u, s'.db.uploads[u]);
    }
  }

  lemma FinalizeKeeps(cfg: Config, s: Sys, u: nat, owner: nat, puts: seq<Put>, crash: bool, v: Verdict)
    requires Inv(cfg, s)
    ensures Inv(cfg, Apply(cfg, s, Finalize(u, owner, puts, crash, v)))
  {
    if u < |s.db.uploads| && RowsExist(s.db, s.db.uploads[u]) && s.db.uploads[u].owner == owner {
      var row := s.db.uploads[u];
      assert UploadRowsOk(s.db.objects, s.db.files, u, row);
      if row.state in {UPLOADING, FAILED} {
        if u in s.store.objects {
          ActivateKeeps(cfg, s, u, row, crash, v);
        } else if row.session.Some? && row.session.value in s.store.sessions {
          CompleteListedKeeps(cfg, s, u, puts, crash, v);
        }
      }
    }
  }

  /** The three ways an attempt that has listed its parts can end. */
  lemma {:induction false} CompleteListedShape(cfg: Config, s: Sys, u: nat, row: UploadRow, session: nat,
                                               listing: seq<Listed>,
                            puts: seq<Put>, crash: bool, v: Verdict)
    requires u < |s.db.uploads| && RowsExist(s.db, row) && row.chunk > 0
    ensures var r := CompleteListed(cfg, s, u, row, session, listing, puts, crash, v).0;
      || r == s
      || r == s.(store := PutParts(s.store, cfg.hash, puts))
      || (&& Reconcile(row, listing).Some?
          && AssertParts(row.size, row.chunk, PartsOf(listing))
          && var row' := Reconcile(row, listing).value;
             var after := Complete(PutParts(s.store, cfg.hash, puts), cfg.hash, session,
                                   Manifest(row'.parts, |row'.parts|));
             after.Some? && r == Activate(Sys(s.db, after.value), u, row', crash, v).0)
  {
  }

  lemma CompleteListedKeeps(cfg: Config, s: Sys, u: nat, puts: seq<Put>, crash: bool, v: Verdict)
    requires Backed(cfg, s, u) && RowsExist(s.db, s.db.uploads[u])
    requires s.db.uploads[u].state in {UPLOADING, FAILED}
    ensures var row := s.db.uploads[u];
      var listing := ListParts(s.store, cfg.hash, row.session.value).value;
      Inv(cfg, CompleteListed(cfg, s, u, row, row.session.value, listing, puts, crash, v).0)
  {
    var row := s.db.uploads[u];
    var id := row.session.value;
    var listing := ListParts(s.store, cfg.hash, id).value;
    CompleteListedShape(cfg, s, u, row, id, listing, puts, crash, v);
    PutsFrame(cfg, s.db.uploads, s.store, puts);
    if AssertParts(row.size, row.chunk, PartsOf(listing)) {
      ManifestFollowsListing(cfg, s, u);
      var row' := Reconcile(row, listing).value;
      var manifest := Manifest(row'.parts, |row'.parts|);
      var completed := Complete(PutParts(s.store, cfg.hash, puts), cfg.hash, id, manifest);
      if completed.Some? {
        CompletedStoreKeeps(cfg, s, u, puts, row', manifest);
        ActivateKeeps(cfg, Sys(s.db, completed.value), u, row', crash, v);
      }
    }
  }

  lemma {:induction false} CompletedStoreKeeps(cfg: Config, s: Sys, u: nat, puts: seq<Put>, row: UploadRow,
                                               manifest: seq<ManifestEntry>)
    requires Backed(cfg, s, u)
    requires row == s.db.uploads[u].(parts := row.parts) && PartRowsOk(row) && KeepsParts(s.db.uploads[u], row)
    requires forall i :: 0 <= i < |row.parts| && row.parts[i].Some? ==> s.db.uploads[u].parts[i].Some?
    requires Planned(row, manifest)
    requires Complete(PutParts(s.store, cfg.hash, puts), cfg.hash, row.session.value, manifest).Some?
    ensures var after := Complete(PutParts(s.store, cfg.hash, puts), cfg.hash, row.session.value, manifest).value;
      Inv(cfg, Sys(s.db, after)) && u in after.objects
  {
    PutsFrame(cfg, s.db.uploads, s.store, puts);
    CompleteFrame(cfg, s.db.uploads, PutParts(s.store, cfg.hash, puts), u, manifest, row);
  }

  // When a first completion succeeds.

  /** The store holds the parts 1..c. */
  predicate StoredUpTo(parts: seq<Option<StoredPart>>, c: int) {
    c <= |parts| && forall i :: 0 <= i < c ==> parts[i].Some?
  }

  /** Parts 1..c and no others: the listing gives them in order. */
  lemma {:induction false} ListingDense(parts: seq<Option<StoredPart>>, hash: Bytes -> int, n: nat, c: nat)
    requires n <= |parts|
    requires forall i :: 0 <= i < n ==> (parts[i].Some? <==> i < c)
    ensures |Listing(parts, hash, n)| == Min(n, c)
    ensures forall i :: 0 <= i < Min(n, c) ==> Listing(parts, hash, n)[i] == ListedPart(hash, i + 1, parts[i].value)
  {
    if n > 0 {
      ListingDense(parts, hash, n - 1, c);
    }
  }

  /** The store never holds a part outside the plan, so holding all planned parts makes the listing the plan. */
  lemma {:induction false} StoredPartsPass(cfg: Config, s: Sys, u: nat)
    requires Backed(cfg, s, u)
    requires var row := s.db.uploads[u];
      row.chunk > 0 && StoredUpTo(s.store.sessions[row.session.value].parts, PartCount(row.size, row.chunk))
    ensures var row := s.db.uploads[u];
      AssertParts(row.size, row.chunk, PartsOf(ListParts(s.store, cfg.hash, row.session.value).value))
  {
    var row := s.db.uploads[u];
    var session := s.store.sessions[row.session.value];
    var c := PartCount(row.size, row.chunk);
    assert SessionBacksUpload(s.store, u, row);
    assert SessionOk(cfg, s.db.uploads, row.session.value, session);
    forall i | 0 <= i < |session.parts| && session.parts[i].Some?
      ensures i < c && session.parts[i].value.etag != ""
      ensures ExpectedPartBytes(row.size, row.chunk, i + 1) == Some(|session.parts[i].value.content|)
    {
      assert SlotOk(cfg, row, i + 1, session.parts[i].value);
    }
    ListingDense(session.parts, cfg.hash, |session.parts|, c);
    PartsMatchPointwise(row.size, row.chunk, PartsOf(ListParts(s.store, cfg.hash, row.session.value).value), 0);
  }

  /** What reconciling recorded is what the store holds: its completion call accepts the manifest. */
  lemma {:induction false} ManifestIsHeld(cfg: Config, s: Sys, u: nat, row: UploadRow)
    requires Backed(cfg, s, u)
    requires var listing := ListParts(s.store, cfg.hash, s.db.uploads[u].session.value).value;
      && s.db.uploads[u].chunk > 0
      && AssertParts(s.db.uploads[u].size, s.db.uploads[u].chunk, PartsOf(listing))
      && Reconcile(s.db.uploads[u], listing) == Some(row)
    requires Planned(row, Manifest(row.parts, |row.parts|)) && KeepsParts(s.db.uploads[u], row)
    ensures ManifestMatches(s.store.sessions[row.session.value].parts, cfg.hash, Manifest(row.parts, |row.parts|))
  {
    var was := s.db.uploads[u];
    var session := s.store.sessions[was.session.value];
    var manifest := Manifest(row.parts, |row.parts|);
    assert SessionBacksUpload(s.store, u, was);
    assert SessionOk(cfg, s.db.uploads, was.session.value, session);
    ListingFillsPlan(cfg, s, u);
    forall i | 0 <= i < |manifest|
      ensures manifest[i].part.number == i + 1 && EntryMatches(session.parts, cfg.hash, manifest[i])
    {
      assert HasPart(row, i + 1) && manifest[i] == RecordedEntry(i + 1, row.parts[i].value);
      assert was.parts[i].Some? && row.parts[i].value.checksum == was.parts[i].value.checksum;
      assert SlotOk(cfg, was, i + 1, session.parts[i].value);
      EtagOfListed(session.parts, cfg.hash, |session.parts|, i + 1, was.parts[i].value.etag);
    }
  }

  lemma {:induction false} StoredPartsAssemble(cfg: Config, s: Sys, u: nat, v: Verdict)
    requires Backed(cfg, s, u) && RowsExist(s.db, s.db.uploads[u])
    requires var row := s.db.uploads[u];
      row.chunk > 0 && StoredUpTo(s.store.sessions[row.session.value].parts, PartCount(row.size, row.chunk))
    ensures var row := s.db.uploads[u];
      var listing := ListParts(s.store, cfg.hash, row.session.value).value;
      CompleteListed(cfg, s, u, row, row.session.value, listing, [], false, v).1 == Finished(row.file)
  {
    var row := s.db.uploads[u];
    var id := row.session.value;
    var listing := ListParts(s.store, cfg.hash, id).value;
    StoredPartsPass(cfg, s, u);
    ManifestFollowsListing(cfg, s, u);
    var row' := Reconcile(row, listing).value;
    var manifest := Manifest(row'.parts, |row'.parts|);
    assert UploadRowsOk(s.db.objects, s.db.files, u, row);
    assert SessionBacksUpload(s.store, u, row);
    ManifestIsHeld(cfg, s, u, row');
    assert PutParts(s.store, cfg.hash, []) == s.store;
    CompleteFrame(cfg, s.db.uploads, s.store, u, manifest, row');
    var after := Complete(s.store, cfg.hash, id, manifest).value;
    assert ObjectOk(cfg, s.db.uploads, u, after.objects[u]);
  }

  /** A first completion finishes exactly when the store holds every planned part. */
  lemma {:induction false} FirstCompletionExactly(cfg: Config, s: Sys, u: nat, v: Verdict)
    requires Backed(cfg, s, u) && u !in s.store.objects && s.db.uploads[u].state in {UPLOADING, FAILED}
    ensures var row := s.db.uploads[u];
      && row.chunk > 0
      && (FinalizeTx(cfg, s, u, row.owner, [], false, v).1 == Finished(row.file) <==>
            StoredUpTo(s.store.sessions[row.session.value].parts, PartCount(row.size, row.chunk)))
  {
    var row := s.db.uploads[u];
    assert UploadRowsOk(s.db.objects, s.db.files, u, row);
    if StoredUpTo(s.store.sessions[row.session.value].parts, PartCount(row.size, row.chunk)) {
      StoredPartsAssemble(cfg, s, u, v);
    } else if FinalizeTx(cfg, s, u, row.owner, [], false, v).1.Finished? {
      PlanFitsStorageLimit(row.size, cfg.partMiB);
      ListingFillsPlan(cfg, s, u);
    }
  }

  /** The three refusals the completion route records concern an upload of the caller's that has a session. */
  lemma {:induction false} RecordedRefusalHasSession(cfg: Config, s: Sys, u: nat, owner: nat, puts: seq<Put>,
                                                     crash: bool, v: Verdict)
    requires Inv(cfg, s)
    requires FinalizeTx(cfg, s, u, owner, puts, crash, v).1 in
      {Refused(PartIntegrity), Refused(Incomplete), Refused(SizeDiffers)}
    ensures u < |s.db.uploads| && s.db.uploads[u].owner == owner && s.db.uploads[u].session.Some?
  {
    var row := s.db.uploads[u];
    assert UploadRowsOk(s.db.objects, s.db.files, u, row);
    if u in s.store.objects {
      assert ObjectOk(cfg, s.db.uploads, u, s.store.objects[u]);
    }
  }
}
