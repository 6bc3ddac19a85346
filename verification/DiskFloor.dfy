/** The disk reserve: no schedule of admitted uploads can fill the disk below the configured floor. */
module DiskFloor {
  import opened Base
  import opened Planning
  import opened ObjectStore
  import opened Catalog
  import opened Transactions
  import opened Runs
  import opened Integrity
  import opened Safety
  import Completion

  /** Bytes an admitted upload may still write: its size less what its session holds, or nothing once stored. */
  function Unsent(row: UploadRow, st: Store): int {
    if !Counted(row) || row.obj in st.objects then 0
    else if row.session.Some? && row.session.value in st.sessions
    then row.size - SessionBytes(st.sessions[row.session.value])
    else row.size
  }

  function UnsentBytes(uploads: seq<UploadRow>, st: Store): (r: seq<int>)
    ensures |r| == |uploads|
  {
    seq(|uploads|, i requires 0 <= i < |uploads| => Unsent(uploads[i], st))
  }

  function Headroom(s: Sys): int {
    s.store.free - Sum(UnsentBytes(s.db.uploads, s.store))
  }

  /** A session still open belongs to an upload still running, whose object does not exist yet. */
  ghost predicate OpenSessionsRun(s: Sys) {
    forall u {:trigger s.db.uploads[u]} :: 0 <= u < |s.db.uploads| ==>
      s.db.uploads[u].session.Some? && s.db.uploads[u].session.value in s.store.sessions ==>
        Active(s.db.uploads[u]) && u !in s.store.objects
  }

  ghost predicate DiskOk(cfg: Config, s: Sys) {
    Headroom(s) >= Floor(cfg) && OpenSessionsRun(s)
  }

  lemma SessionBytesNonNegative(session: Session)
    ensures 0 <= SessionBytes(session)
  {
    SumNonNegative(SlotLengths(session.parts));
  }

  lemma UnsentWithinReservations(uploads: seq<UploadRow>, st: Store)
    ensures Sum(UnsentBytes(uploads, st)) <= Sum(Reservations(uploads))
  {
    forall i | 0 <= i < |uploads|
      ensures UnsentBytes(uploads, st)[i] <= Reservations(uploads)[i]
    {
      if uploads[i].session.Some? && uploads[i].session.value in st.sessions {
        SessionBytesNonNegative(st.sessions[uploads[i].session.value]);
      }
    }
    SumMonotone(UnsentBytes(uploads, st), Reservations(uploads));
  }

  /** Bytes are only ever stored under the number of an upload that had a session. */
  lemma ObjectsHadSessions(cfg: Config, s: Sys)
    requires Inv(cfg, s)
    ensures forall k :: k in s.store.objects ==> k < |s.db.uploads| && s.db.uploads[k].session.Some?
  {
    forall k | k in s.store.objects
      ensures k < |s.db.uploads| && s.db.uploads[k].session.Some?
    {
      assert ObjectOk(cfg, s.db.uploads, k, s.store.objects[k]);
    }
  }

  lemma NewUploadUnsent(cfg: Config, s: Sys, owner: nat, size: nat)
    requires Inv(cfg, s)
    ensures Unsent(NewUpload(cfg, s.db, owner, size), s.store) == size
  {
    ObjectsHadSessions(cfg, s);
  }

  /** Admission compares the free space with whole sizes, which bound what is still unsent. */
  lemma CreateKeepsFloor(cfg: Config, s: Sys, owner: nat, size: nat, mime: string, allowed: bool)
    requires Inv(cfg, s) && DiskOk(cfg, s)
    ensures DiskOk(cfg, Commit(s, CreateTx(cfg, s, owner, size, mime, allowed)))
  {
    var r := CreateTx(cfg, s, owner, size, mime, allowed);
    if r.Some? {
      UnsentWithinReservations(s.db.uploads, s.store);
      NewUploadUnsent(cfg, s, owner, size);
      assert UnsentBytes(r.value.uploads, s.store) == UnsentBytes(s.db.uploads, s.store) + [size];
      SumAppend(UnsentBytes(s.db.uploads, s.store), size);
    }
  }

  /** One upload row and the store change; every other row has as much left to send as before. */
  lemma HeadroomChange(a: Sys, b: Sys, u: nat)
    requires |a.db.uploads| == |b.db.uploads| && u < |a.db.uploads|
    requires forall x :: 0 <= x < |a.db.uploads| && x != u ==>
      Unsent(b.db.uploads[x], b.store) == Unsent(a.db.uploads[x], a.store)
    ensures Headroom(b) - Headroom(a) ==
      b.store.free - a.store.free - Unsent(b.db.uploads[u], b.store) + Unsent(a.db.uploads[u], a.store)
  {
    SumDiffersAt(UnsentBytes(a.db.uploads, a.store), UnsentBytes(b.db.uploads, b.store), u);
  }

  /** The store changed only at the session recorded for u and at the object of u. */
  ghost predicate StoreLocal(a: Store, b: Store, u: nat, id: nat) {
    && (forall x :: x != id ==> (x in a.sessions <==> x in b.sessions))
    && (forall x :: x != id && x in a.sessions ==> b.sessions[x] == a.sessions[x])
    && (forall x :: x != u ==> (x in a.objects <==> x in b.objects))
  }

  lemma OthersUnchanged(cfg: Config, s: Sys, b: Store, u: nat, id: nat, x: nat)
    requires Inv(cfg, s) && StoreLocal(s.store, b, u, id)
    requires u < |s.db.uploads| && x < |s.db.uploads| && x != u
    requires id in s.store.sessions ==> s.store.sessions[id].key == u
    requires id !in s.store.sessions ==> id !in b.sessions || id >= s.store.nextSession
    ensures Unsent(s.db.uploads[x], b) == Unsent(s.db.uploads[x], s.store)
    ensures s.db.uploads[x].session.Some? && s.db.uploads[x].session.value in b.sessions ==>
      s.db.uploads[x].session.value in s.store.sessions
    ensures x in b.objects <==> x in s.store.objects
  {
    assert UploadRowsOk(s.db.objects, s.db.files, x, s.db.uploads[x]);
    assert SessionBacksUpload(s.store, x, s.db.uploads[x]);
  }

  lemma PutKeepsFloor(cfg: Config, s: Sys, put: Put)
    requires Inv(cfg, s) && DiskOk(cfg, s)
    ensures DiskOk(cfg, s.(store := PutPart(s.store, cfg.hash, put)))
  {
    var st := PutPart(s.store, cfg.hash, put);
    if Accepts(s.store, cfg.hash, put) {
      var id := put.url.session;
      assert UrlOk(s.db.uploads, s.store, put.url);
      var u := s.store.sessions[id].key;
      assert UploadRowsOk(s.db.objects, s.db.files, u, s.db.uploads[u]);
      forall x | 0 <= x < |s.db.uploads| && x != u
        ensures Unsent(s.db.uploads[x], st) == Unsent(s.db.uploads[x], s.store)
      {
        OthersUnchanged(cfg, s, st, u, id, x);
      }
      HeadroomChange(s, s.(store := st), u);
      var slot := put.url.number - 1;
      SumDiffersAt(SlotLengths(s.store.sessions[id].parts), SlotLengths(st.sessions[id].parts), slot);
    }
  }

  lemma {:induction false} PutsKeepFloor(cfg: Config, s: Sys, puts: seq<Put>)
    requires Inv(cfg, s) && DiskOk(cfg, s)
    ensures DiskOk(cfg, s.(store := PutParts(s.store, cfg.hash, puts)))
  {
    if |puts| == 0 {
      assert s.(store := s.store) == s;
    } else {
      var n := |puts| - 1;
      PutsKeepFloor(cfg, s, puts[..n]);
      PutsFrame(cfg, s.db.uploads, s.store, puts[..n]);
      PutKeepsFloor(cfg, s.(store := PutParts(s.store, cfg.hash, puts[..n])), puts[n]);
    }
  }

  /** Completing turns the session's parts into an object of exactly the upload's size. */
  lemma CompleteKeepsFloor(cfg: Config, s: Sys, u: nat, manifest: seq<ManifestEntry>)
    requires Inv(cfg, s) && DiskOk(cfg, s) && u < |s.db.uploads| && s.db.uploads[u].session.Some?
    requires Complete(s.store, cfg.hash, s.db.uploads[u].session.value, manifest).Some?
    requires var st := Complete(s.store, cfg.hash, s.db.uploads[u].session.value, manifest).value;
      StoreOk(cfg, s.db.uploads, st)
    ensures var st := Complete(s.store, cfg.hash, s.db.uploads[u].session.value, manifest).value;
      DiskOk(cfg, s.(store := st))
  {
    var row := s.db.uploads[u];
    var id := row.session.value;
    var st := Complete(s.store, cfg.hash, id, manifest).value;
    assert SessionBacksUpload(s.store, u, row);
    assert UploadRowsOk(s.db.objects, s.db.files, u, row);
    assert ObjectOk(cfg, s.db.uploads, u, st.objects[u]);
    forall x | 0 <= x < |s.db.uploads| && x != u
      ensures Unsent(s.db.uploads[x], st) == Unsent(s.db.uploads[x], s.store)
      ensures s.db.uploads[x].session.Some? && s.db.uploads[x].session.value in st.sessions ==>
        Active(s.db.uploads[x]) && x !in st.objects
    {
      OthersUnchanged(cfg, s, st, u, id, x);
    }
    HeadroomChange(s, s.(store := st), u);
  }

  lemma ForgetKeepsFloor(cfg: Config, s: Sys, u: nat)
    requires Inv(cfg, s) && DiskOk(cfg, s) && u < |s.db.uploads|
    ensures DiskOk(cfg, s.(store := AbortStore(s.store, s.db.uploads[u].session)))
  {
    var row := s.db.uploads[u];
    var st := AbortStore(s.store, row.session);
    if st == s.store {
      assert s.(store := st) == s;
    } else {
      var id := row.session.value;
      assert SessionBacksUpload(s.store, u, row);
      assert UploadRowsOk(s.db.objects, s.db.files, u, row);
      forall x | 0 <= x < |s.db.uploads| && x != u
        ensures Unsent(s.db.uploads[x], st) == Unsent(s.db.uploads[x], s.store)
        ensures s.db.uploads[x].session.Some? && s.db.uploads[x].session.value in st.sessions ==>
          Active(s.db.uploads[x]) && x !in st.objects
      {
        OthersUnchanged(cfg, s, st, u, id, x);
      }
      HeadroomChange(s, s.(store := st), u);
    }
  }

  /** A row that keeps or gives up its reservation, with its session closed if it is no longer running. */
  lemma RowKeepsFloor(cfg: Config, s: Sys, db: Db, u: nat, row: UploadRow)
    requires Inv(cfg, s) && DiskOk(cfg, s) && u < |s.db.uploads|
    requires db.uploads == s.db.uploads[u := row]
    requires row.obj == s.db.uploads[u].obj && row.size == s.db.uploads[u].size
    requires row.session == s.db.uploads[u].session
    requires Counted(row) ==> Counted(s.db.uploads[u])
    requires Counted(s.db.uploads[u]) && !Counted(row) ==> Unsent(s.db.uploads[u], s.store) >= 0
    requires !Active(row) && row.session.Some? ==> row.session.value !in s.store.sessions
    ensures DiskOk(cfg, s.(db := db))
  {
    HeadroomChange(s, s.(db := db), u);
    forall x | 0 <= x < |db.uploads|
      ensures db.uploads[x].session.Some? && db.uploads[x].session.value in s.store.sessions ==>
        Active(db.uploads[x]) && x !in s.store.objects
    {
      assert s.db.uploads[x].session == db.uploads[x].session;
    }
  }

  lemma AbortKeepsFloor(cfg: Config, s: Sys, u: nat, state: UploadState)
    requires Inv(cfg, s) && DiskOk(cfg, s) && u < |s.db.uploads| && RowsExist(s.db, s.db.uploads[u])
    requires s.db.uploads[u].state != COMPLETE && state in {ABORTED, TIMED_OUT}
    ensures DiskOk(cfg, Sys(EndedDb(s.db, u, state), AbortStore(s.store, s.db.uploads[u].session)))
  {
    var row := s.db.uploads[u];
    var a := s.(store := AbortStore(s.store, row.session));
    ForgetKeepsFloor(cfg, s, u);
    if row.session.Some? {
      ForgetSessionFrame(cfg, s.db.uploads, s.store, row.session.value);
    }
    RowKeepsFloor(cfg, a, EndedDb(s.db, u, state), u, row.(state := state));
  }

  lemma CompletedKeepsFloor(cfg: Config, s: Sys, u: nat, row: UploadRow, size: nat, v: Verdict)
    requires Inv(cfg, s) && DiskOk(cfg, s) && u < |s.db.uploads| && RowsExist(s.db, row)
    requires row == s.db.uploads[u].(parts := row.parts) && u in s.store.objects
    ensures DiskOk(cfg, s.(db := CompletedDb(s.db, u, row, size, v)))
  {
    var db := CompletedDb(s.db, u, row, size, v);
    assert UploadRowsOk(s.db.objects, s.db.files, u, s.db.uploads[u]);
    RowKeepsFloor(cfg, s, db, u, db.uploads[u]);
  }

  lemma ActivateKeepsFloor(cfg: Config, s: Sys, u: nat, row: UploadRow, crash: bool, v: Verdict)
    requires Inv(cfg, s) && DiskOk(cfg, s) && u < |s.db.uploads| && RowsExist(s.db, row)
    requires row == s.db.uploads[u].(parts := row.parts) && u in s.store.objects
    ensures DiskOk(cfg, Activate(s, u, row, crash, v).0)
  {
    assert UploadRowsOk(s.db.objects, s.db.files, u, s.db.uploads[u]);
    CompletedKeepsFloor(cfg, s, u, row, |s.store.objects[u]|, v);
  }

  lemma FinalizeKeepsFloor(cfg: Config, s: Sys, u: nat, owner: nat, puts: seq<Put>, crash: bool, v: Verdict)
    requires Inv(cfg, s) && DiskOk(cfg, s)
    ensures DiskOk(cfg, FinalizeTx(cfg, s, u, owner, puts, crash, v).0)
  {
    if u < |s.db.uploads| && RowsExist(s.db, s.db.uploads[u]) && s.db.uploads[u].state in {UPLOADING, FAILED} {
      var row := s.db.uploads[u];
      assert UploadRowsOk(s.db.objects, s.db.files, u, row);
      if u in s.store.objects {
        ActivateKeepsFloor(cfg, s, u, row, crash, v);
      } else if row.session.Some? && row.session.value in s.store.sessions {
        ListedKeepsFloor(cfg, s, u, puts, crash, v);
      }
    }
  }

  lemma ListedKeepsFloor(cfg: Config, s: Sys, u: nat, puts: seq<Put>, crash: bool, v: Verdict)
    requires Completion.Backed(cfg, s, u) && DiskOk(cfg, s) && RowsExist(s.db, s.db.uploads[u])
    requires s.db.uploads[u].state in {UPLOADING, FAILED}
    ensures var row := s.db.uploads[u];
      var listing := ListParts(s.store, cfg.hash, row.session.value).value;
      DiskOk(cfg, CompleteListed(cfg, s, u, row, row.session.value, listing, puts, crash, v).0)
  {
    var row := s.db.uploads[u];
    var id := row.session.value;
    var listing := ListParts(s.store, cfg.hash, id).value;
    Completion.CompleteListedShape(cfg, s, u, row, id, listing, puts, crash, v);
    PutsFrame(cfg, s.db.uploads, s.store, puts);
    PutsKeepFloor(cfg, s, puts);
    if AssertParts(row.size, row.chunk, PartsOf(listing)) {
      Completion.ManifestFollowsListing(cfg, s, u);
      var row' := Reconcile(row, listing).value;
      var manifest := Manifest(row'.parts, |row'.parts|);
      if Complete(PutParts(s.store, cfg.hash, puts), cfg.hash, id, manifest).Some? {
        AssembledKeepsFloor(cfg, s, u, puts, row', manifest, crash, v);
      }
    }
  }

  lemma {:induction false} AssembledKeepsFloor(cfg: Config, s: Sys, u: nat, puts: seq<Put>, row: UploadRow,
                                               manifest: seq<ManifestEntry>,
                            crash: bool, v: Verdict)
    requires Completion.Backed(cfg, s, u) && DiskOk(cfg, s) && RowsExist(s.db, row)
    requires row == s.db.uploads[u].(parts := row.parts) && PartRowsOk(row) && KeepsParts(s.db.uploads[u], row)
    requires forall i :: 0 <= i < |row.parts| && row.parts[i].Some? ==> s.db.uploads[u].parts[i].Some?
    requires Completion.Planned(row, manifest)
    requires Complete(PutParts(s.store, cfg.hash, puts), cfg.hash, row.session.value, manifest).Some?
    ensures var after := Complete(PutParts(s.store, cfg.hash, puts), cfg.hash, row.session.value, manifest).value;
      DiskOk(cfg, Activate(Sys(s.db, after), u, row, crash, v).0)
  {
    var before := s.(store := PutParts(s.store, cfg.hash, puts));
    PutsFrame(cfg, s.db.uploads, s.store, puts);
    PutsKeepFloor(cfg, s, puts);
    Completion.CompletedStoreKeeps(cfg, s, u, puts, row, manifest);
    CompleteKeepsFloor(cfg, before, u, manifest);
    var after := Complete(before.store, cfg.hash, row.session.value, manifest).value;
    ActivateKeepsFloor(cfg, Sys(s.db, after), u, row, crash, v);
  }

  /** Opening a session writes nothing; an upload that could not be opened gives its reservation up. */
  lemma InitKeepsFloor(cfg: Config, s: Sys, u: nat, outcome: InitOutcome)
    requires Inv(cfg, s) && DiskOk(cfg, s) && u < |s.db.uploads|
    requires s.db.uploads[u].state == CREATED && s.db.uploads[u].session.None?
    ensures DiskOk(cfg, InitTx(s, u, outcome))
  {
    var s' := InitTx(s, u, outcome);
    var row := s.db.uploads[u];
    assert UploadRowsOk(s.db.objects, s.db.files, u, row);
    ObjectsHadSessions(cfg, s);
    EmptySessionBytes(u);
    var id := s.store.nextSession;
    forall x | 0 <= x < |s.db.uploads| && x != u
      ensures Unsent(s'.db.uploads[x], s'.store) == Unsent(s.db.uploads[x], s.store)
      ensures s'.db.uploads[x].session.Some? && s'.db.uploads[x].session.value in s'.store.sessions ==>
        Active(s'.db.uploads[x]) && x !in s'.store.objects
    {
      assert UploadRowsOk(s.db.objects, s.db.files, x, s.db.uploads[x]);
      assert SessionBacksUpload(s.store, x, s.db.uploads[x]);
    }
    HeadroomChange(s, s', u);
  }

  lemma EmptySessionBytes(key: nat)
    ensures SessionBytes(Session(key, seq(MAX_PARTS, _ => None))) == 0
  {
    ZeroSum(SlotLengths(seq(MAX_PARTS, _ => None)));
  }

  lemma {:induction false} ZeroSum(xs: seq<int>)
    requires forall i :: 0 <= i < |xs| ==> xs[i] == 0
    ensures Sum(xs) == 0
  {
    if |xs| > 0 {
      ZeroSum(xs[..|xs| - 1]);
    }
  }

  lemma UnreferencedIsUncounted(cfg: Config, s: Sys, o: nat)
    requires Inv(cfg, s) && o < |s.db.uploads|
    ensures Counted(s.db.uploads[o]) ==> Referenced(s.db, o)
  {
    var row := s.db.uploads[o];
    assert UploadRowsOk(s.db.objects, s.db.files, o, row);
    if Counted(row) {
      assert Live(s.db.files[row.file]) && s.db.files[row.file].obj == o;
    }
  }

  /** Only objects of uploads that hold no reservation are ever removed. */
  lemma RemoveKeepsFloor(cfg: Config, s: Sys, o: nat)
    requires Inv(cfg, s) && DiskOk(cfg, s)
    requires o < |s.db.objects| && !Referenced(s.db, o)
    ensures DiskOk(cfg, s.(store := RemoveObject(s.store, o)))
  {
    var st := RemoveObject(s.store, o);
    UnreferencedIsUncounted(cfg, s, o);
    forall x | 0 <= x < |s.db.uploads|
      ensures Unsent(s.db.uploads[x], st) == Unsent(s.db.uploads[x], s.store)
    {
      assert UploadRowsOk(s.db.objects, s.db.files, x, s.db.uploads[x]);
    }
    HeadroomChange(s, s.(store := st), o);
  }

  lemma SweepSessionKeepsFloor(cfg: Config, s: Sys, session: nat, aged: bool)
    requires Inv(cfg, s) && DiskOk(cfg, s)
    ensures DiskOk(cfg, SweepSessionTx(s, session, aged))
  {
    var s' := SweepSessionTx(s, session, aged);
    if s' != s && session in s.store.sessions {
      assert SessionOk(cfg, s.db.uploads, session, s.store.sessions[session]);
      ZeroSum(SlotLengths(s.store.sessions[session].parts));
      assert UnsentBytes(s.db.uploads, s'.store) == UnsentBytes(s.db.uploads, s.store);
    }
  }

  /** Steps that change neither the store nor what any upload holds. */
  lemma SameRowsKeepFloor(cfg: Config, s: Sys, db: Db)
    requires DiskOk(cfg, s) && db.uploads == s.db.uploads
    ensures DiskOk(cfg, s.(db := db))
  {
    assert UnsentBytes(db.uploads, s.store) == UnsentBytes(s.db.uploads, s.store);
  }

  lemma SignKeepsFloor(cfg: Config, s: Sys, u: nat, owner: nat, ps: seq<SignRequest>, active: bool)
    requires Inv(cfg, s) && DiskOk(cfg, s) && SignTx(cfg, s, u, owner, ps, active).Some?
    ensures DiskOk(cfg, SignTx(cfg, s, u, owner, ps, active).value)
  {
    var s' := SignTx(cfg, s, u, owner, ps, active).value;
    RowKeepsFloor(cfg, s, s'.db, u, s'.db.uploads[u]);
    assert UnsentBytes(s'.db.uploads, s'.store) == UnsentBytes(s'.db.uploads, s.store);
  }

  lemma PurgeKeepsFloor(cfg: Config, s: Sys, o: nat, crash: bool)
    requires Inv(cfg, s) && DiskOk(cfg, s)
    ensures DiskOk(cfg, PurgeTx(s, o, crash))
  {
    if o < |s.db.objects| && !Referenced(s.db, o) {
      RemoveKeepsFloor(cfg, s, o);
      var removed := s.(store := RemoveObject(s.store, o));
      SameRowsKeepFloor(cfg, removed, SetObject(s.db, o, s.db.objects[o].(state := PURGED)));
    }
  }

  lemma SweepKeyKeepsFloor(cfg: Config, s: Sys, key: nat, aged: bool, crash: bool)
    requires Inv(cfg, s) && DiskOk(cfg, s)
    ensures DiskOk(cfg, SweepKeyTx(s, key, aged, crash))
  {
    if key in s.store.objects {
      assert ObjectOk(cfg, s.db.uploads, key, s.store.objects[key]);
      PurgeKeepsFloor(cfg, s, key, crash);
    }
  }

  /** Acknowledging, reconciling and recording a failure leave a running upload running. */
  lemma NoteKeepsFloor(cfg: Config, s: Sys, e: Event)
    requires Inv(cfg, s) && DiskOk(cfg, s) && (e.Ack? || e.Status? || e.RecordFailure?)
    ensures DiskOk(cfg, Apply(cfg, s, e))
  {
    var db := Apply(cfg, s, e).db;
    if db != s.db {
      RowKeepsFloor(cfg, s, db, e.u, db.uploads[e.u]);
    }
  }

  lemma UploadEventKeepsFloor(cfg: Config, s: Sys, e: Event)
    requires Inv(cfg, s) && DiskOk(cfg, s) && Assumed(s, e) && UploadEvent(e)
    ensures DiskOk(cfg, Apply(cfg, s, e))
  {
    match e
    case CreateUpload(owner, size, mime, allowed) => CreateKeepsFloor(cfg, s, owner, size, mime, allowed);
    case InitUpload(u, outcome) => if u < |s.db.uploads| { InitKeepsFloor(cfg, s, u, outcome); }
    case Sign(u, owner, requests, active) =>
      if SignTx(cfg, s, u, owner, requests, active).Some? { SignKeepsFloor(cfg, s, u, owner, requests, active); }
    case PutPartBytes(put) => PutKeepsFloor(cfg, s, put);
    case Finalize(u, owner, puts, crash, verdict) => FinalizeKeepsFloor(cfg, s, u, owner, puts, crash, verdict);
    case Abort(u, owner, crash) => EndingKeepsFloor(cfg, s, u, owner, crash);
    case TimeOut(u, crash) => EndingKeepsFloor(cfg, s, u, 0, crash);
    case _ => NoteKeepsFloor(cfg, s, e);
  }

  lemma StepKeepsFloor(cfg: Config, s: Sys, e: Event)
    requires Inv(cfg, s) && DiskOk(cfg, s) && Assumed(s, e)
    ensures DiskOk(cfg, Apply(cfg, s, e))
  {
    if UploadEvent(e) {
      UploadEventKeepsFloor(cfg, s, e);
    } else if e.RunPurge? {
      PurgeKeepsFloor(cfg, s, e.o, e.crash);
    } else if e.SweepKey? {
      SweepKeyKeepsFloor(cfg, s, e.key, e.aged, e.crash);
    } else if e.SweepSession? {
      SweepSessionKeepsFloor(cfg, s, e.session, e.aged);
    } else {
      OtherStepsTouchNoUpload(cfg, s, e);
      SameRowsKeepFloor(cfg, s, Apply(cfg, s, e).db);
    }
  }

  lemma EndingKeepsFloor(cfg: Config, s: Sys, u: nat, owner: nat, crash: bool)
    requires Inv(cfg, s) && DiskOk(cfg, s)
    ensures DiskOk(cfg, AbortTx(s, u, owner, crash)) && DiskOk(cfg, TimeOutTx(s, u, crash))
  {
    if u < |s.db.uploads| && RowsExist(s.db, s.db.uploads[u]) && s.db.uploads[u].state != COMPLETE {
      ForgetKeepsFloor(cfg, s, u);
      AbortKeepsFloor(cfg, s, u, ABORTED);
      AbortKeepsFloor(cfg, s, u, TIMED_OUT);
    }
  }

  lemma {:induction false} RunKeepsFloor(cfg: Config, s: Sys, es: seq<Event>)
    requires Inv(cfg, s) && DiskOk(cfg, s) && AllAssumed(cfg, s, es)
    ensures DiskOk(cfg, Run(cfg, s, es))
  {
    if |es| > 0 {
      var n := |es| - 1;
      forall i | 0 <= i < n
        ensures Assumed(Run(cfg, s, es[..n][..i]), es[..n][i])
      {
        assert es[..n][..i] == es[..i];
      }
      RunKeepsFloor(cfg, s, es[..n]);
      RunKeeps(cfg, s, es[..n]);
      StepKeepsFloor(cfg, Run(cfg, s, es[..n]), es[n]);
    }
  }

  /**
   However admitted uploads, retries, crashes and clean-up interleave, what the counted uploads may
   still send fits above the floor: a disk that starts above it never falls below it.
   */
  lemma {:induction false} FloorAlwaysHolds(cfg: Config, free: int, es: seq<Event>)
    requires free >= Floor(cfg) && AllAssumed(cfg, EmptySystem(free), es)
    ensures var s := Run(cfg, EmptySystem(free), es);
      s.store.free - Sum(UnsentBytes(s.db.uploads, s.store)) >= Floor(cfg) && s.store.free >= Floor(cfg)
  {
    var s := Run(cfg, EmptySystem(free), es);
    RunKeepsFloor(cfg, EmptySystem(free), es);
    RunKeeps(cfg, EmptySystem(free), es);
    UnsentNonNegative(cfg, s);
  }

  /** Nothing an upload's session holds exceeds what the upload announced. */
  lemma UnsentNonNegative(cfg: Config, s: Sys)
    requires Inv(cfg, s)
    ensures Sum(UnsentBytes(s.db.uploads, s.store)) >= 0
  {
    forall u | 0 <= u < |s.db.uploads|
      ensures 0 <= UnsentBytes(s.db.uploads, s.store)[u]
    {
      var row := s.db.uploads[u];
      if row.session.Some? && row.session.value in s.store.sessions {
        SessionFits(cfg, s, u);
      }
    }
    SumNonNegative(UnsentBytes(s.db.uploads, s.store));
  }

  lemma SessionFits(cfg: Config, s: Sys, u: nat)
    requires Completion.Backed(cfg, s, u)
    ensures SessionBytes(s.store.sessions[s.db.uploads[u].session.value]) <= s.db.uploads[u].size
  {
    var row := s.db.uploads[u];
    var session := s.store.sessions[row.session.value];
    assert SessionBacksUpload(s.store, u, row);
    assert SessionOk(cfg, s.db.uploads, row.session.value, session);
    forall n | 1 <= n <= |session.parts|
      ensures SlotLength(session.parts[n - 1]) == 0 ||
        ExpectedPartBytes(row.size, row.chunk, n) == Some(SlotLength(session.parts[n - 1]))
    {
      if session.parts[n - 1].Some? {
        assert SlotOk(cfg, row, n - 1 + 1, session.parts[n - 1].value);
      }
    }
    LengthsFit(row.size, row.chunk, session.parts, |session.parts|);
    assert SlotLengths(session.parts)[..|session.parts|] == SlotLengths(session.parts);
  }

  lemma {:induction false} LengthsFit(size: nat, chunk: nat, parts: seq<Option<StoredPart>>, k: nat)
    requires chunk > 0 && k <= |parts|
    requires forall n :: 1 <= n <= |parts| ==>
      SlotLength(parts[n - 1]) == 0 || ExpectedPartBytes(size, chunk, n) == Some(SlotLength(parts[n - 1]))
    ensures Sum(SlotLengths(parts)[..k]) <= Min(k * chunk, size)
  {
    if k > 0 {
      LengthsFit(size, chunk, parts, k - 1);
      var lengths := SlotLengths(parts);
      assert lengths[..k][..k - 1] == lengths[..k - 1];
      assert lengths[k - 1] == SlotLength(parts[k - 1]);
      if ExpectedPartBytes(size, chunk, k).Some? {
        PartLengths(size, chunk, k);
      }
    }
  }
}
