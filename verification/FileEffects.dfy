/** What the file handlers, the moderator, the scanner and a replace answer and change, in the words of the tables. */
module FileEffects {
  import opened Base
  import opened Planning
  import opened ObjectStore
  import opened Catalog
  import opened Transactions
  import opened Runs
  import opened Integrity
  import opened Quota
  import opened Effects
  import Versions

  // Bulk actions.

  predicate Distinct(ids: seq<nat>) {
    forall i, j :: 0 <= i < j < |ids| ==> ids[i] != ids[j]
  }

  /** When an action may be taken on one file; a copy also has to fit. */
  predicate MayTake(db: Db, owner: nat, f: nat, action: BulkAction) {
    && f < |db.files| && db.files[f].owner == owner && db.files[f].obj < |db.objects|
    && (action == Delete ==> db.files[f].state in {AVAILABLE, QUARANTINED, BLOCKED})
    && (action == Restore ==> db.files[f].state == DELETED && db.objects[db.files[f].obj].state == AVAILABLE)
    && (action == Copy ==> db.files[f].state == AVAILABLE)
    && (action == BulkAction.Purge ==> db.files[f].state == DELETED)
  }

  function StateAfter(action: BulkAction, state: FileState): FileState {
    match action
    case Delete => DELETED
    case Restore => AVAILABLE
    case Purge => PURGED
    case Move => state
    case Copy => state
  }

  /** Some listed file is on the object. */
  predicate OnObject(db: Db, ids: seq<nat>, o: nat) {
    exists i :: 0 <= i < |ids| && ids[i] < |db.files| && db.files[ids[i]].obj == o
  }

  /** The listed files have changed state, a permanent deletion has queued their objects, and that is all. */
  ghost predicate Taken(a: Db, b: Db, ids: seq<nat>, action: BulkAction) {
    && b.uploads == a.uploads && b.versions == a.versions && |b.files| == |a.files| && |b.objects| == |a.objects|
    && (forall f {:trigger b.files[f]} :: 0 <= f < |a.files| ==>
          b.files[f] == if f !in ids then a.files[f]
                        else a.files[f].(state := StateAfter(action, a.files[f].state),
                                         revision := a.files[f].revision + 1))
    && (forall o {:trigger b.objects[o]} :: 0 <= o < |a.objects| ==>
          b.objects[o] == if action == BulkAction.Purge && OnObject(a, ids, o)
                          then a.objects[o].(purge := EnqueueStatus(a.objects[o].purge)) else a.objects[o])
  }

  lemma TakenOne(cfg: Config, db: Db, owner: nat, f: nat, action: BulkAction)
    requires action != Copy
    ensures BulkItem(cfg, db, owner, f, action).Some? <==> MayTake(db, owner, f, action)
    ensures MayTake(db, owner, f, action) ==> Taken(db, BulkItem(cfg, db, owner, f, action).value, [f], action)
  {
    assert MayTake(db, owner, f, action) ==> [f][0] == f;
    assert forall g :: g in [f] <==> g == f;
    forall o
      ensures OnObject(db, [f], o) <==> f < |db.files| && db.files[f].obj == o
    {
      assert [f][0] == f;
    }
  }

  lemma EnqueueTwice(j: JobStatus)
    ensures EnqueueStatus(EnqueueStatus(j)) == EnqueueStatus(j)
  {
  }

  lemma OnObjectCons(db: Db, f: nat, rest: seq<nat>, o: nat)
    ensures OnObject(db, [f] + rest, o) <==> (f < |db.files| && db.files[f].obj == o) || OnObject(db, rest, o)
  {
    var ids := [f] + rest;
    assert ids[0] == f;
    if i :| 0 <= i < |rest| && rest[i] < |db.files| && db.files[rest[i]].obj == o {
      assert ids[i + 1] == rest[i];
    }
    if i :| 0 <= i < |ids| && ids[i] < |db.files| && db.files[ids[i]].obj == o {
      if i > 0 {
        assert rest[i - 1] == ids[i];
      }
    }
  }

  lemma TakenCons(a: Db, b: Db, c: Db, f: nat, rest: seq<nat>, action: BulkAction)
    requires Taken(a, b, [f], action) && Taken(b, c, rest, action) && f !in rest
    ensures Taken(a, c, [f] + rest, action)
  {
    forall o | 0 <= o < |a.objects|
      ensures c.objects[o] == if action == BulkAction.Purge && OnObject(a, [f] + rest, o)
                              then a.objects[o].(purge := EnqueueStatus(a.objects[o].purge)) else a.objects[o]
    {
      EnqueueTwice(a.objects[o].purge);
      OnObjectCons(a, f, rest, o);
      OnObjectCons(a, f, [], o);
      assert [f] + [] == [f];
      assert OnObject(b, rest, o) <==> OnObject(a, rest, o);
    }
  }

  lemma TakenLeavesRest(db: Db, next: Db, owner: nat, f: nat, rest: seq<nat>, action: BulkAction)
    requires action != Copy && Taken(db, next, [f], action) && MayTake(db, owner, f, action) && f !in rest
    ensures forall g :: g in rest ==> (MayTake(next, owner, g, action) <==> MayTake(db, owner, g, action))
    ensures forall g :: g in [f] + rest ==> g == f || g in rest
  {
  }

  /** A bulk action other than a copy is served exactly when it may be taken on every listed file. */
  lemma {:induction false} BulkExactly(cfg: Config, db: Db, owner: nat, ids: seq<nat>, action: BulkAction)
    requires action != Copy && Distinct(ids)
    ensures BulkTx(cfg, db, owner, ids, action).Some? <==> forall f :: f in ids ==> MayTake(db, owner, f, action)
    ensures BulkTx(cfg, db, owner, ids, action).Some? ==>
      Taken(db, BulkTx(cfg, db, owner, ids, action).value, ids, action)
    decreases |ids|
  {
    if |ids| > 0 {
      var f, rest := ids[0], ids[1..];
      assert ids == [f] + rest;
      TakenOne(cfg, db, owner, f, action);
      if MayTake(db, owner, f, action) {
        var next := BulkItem(cfg, db, owner, f, action).value;
        BulkExactly(cfg, next, owner, rest, action);
        TakenLeavesRest(db, next, owner, f, rest, action);
        if BulkTx(cfg, next, owner, rest, action).Some? {
          TakenCons(db, next, BulkTx(cfg, next, owner, rest, action).value, f, rest, action);
        }
      }
    }
  }

  function CopyBytes(db: Db, ids: seq<nat>): nat
  {
    if |ids| == 0 then 0
    else (if ids[0] < |db.files| then ExpectedSize(db.objects, db.files[ids[0]].obj) else 0) + CopyBytes(db, ids[1..])
  }

  /** One new file for each listed one: the same owner, object and type, available and at its first revision. */
  ghost predicate Copied(a: Db, b: Db, owner: nat, ids: seq<nat>) {
    && b == a.(files := b.files) && |b.files| == |a.files| + |ids| && b.files[..|a.files|] == a.files
    && forall i :: 0 <= i < |ids| ==>
         && ids[i] < |a.files|
         && b.files[|a.files| + i] == FileRow(owner, a.files[ids[i]].obj, AVAILABLE, 1, a.files[ids[i]].mime)
  }

  lemma {:induction false} SameCopyBytes(a: Db, b: Db, ids: seq<nat>)
    requires b.objects == a.objects && a.files <= b.files && forall f :: f in ids ==> f < |a.files|
    ensures CopyBytes(a, ids) == CopyBytes(b, ids)
  {
    if |ids| > 0 {
      assert ids[0] in ids && forall f :: f in ids[1..] ==> f in ids;
      SameCopyBytes(a, b, ids[1..]);
    }
  }

  lemma CopyOne(cfg: Config, db: Db, owner: nat, f: nat)
    requires forall v :: 0 <= v < |db.versions| ==> db.versions[v].file < |db.files|
    ensures var r := BulkItem(cfg, db, owner, f, Copy);
      && (r.Some? <==>
            && MayTake(db, owner, f, Copy)
            && Balance(db, owner) + ExpectedSize(db.objects, db.files[f].obj) <= cfg.policy(owner).storageBytes)
      && (r.Some? ==>
            && r.value == db.(files := db.files + [FileRow(owner, db.files[f].obj, AVAILABLE, 1, db.files[f].mime)])
            && Balance(r.value, owner) == Balance(db, owner) + ExpectedSize(db.objects, db.files[f].obj))
  {
    if MayTake(db, owner, f, Copy) {
      CopyCharges(db, FileRow(owner, db.files[f].obj, AVAILABLE, 1, db.files[f].mime), owner);
    }
  }

  /** The listed ids are those of files there are, or of none: a request cannot know the files it is about to make. */
  predicate Known(db: Db, ids: seq<nat>) {
    forall f :: f in ids ==> f < |db.files| || f >= |db.files| + |ids|
  }

  lemma CopiedCons(a: Db, b: Db, c: Db, owner: nat, f: nat, rest: seq<nat>)
    requires f < |a.files| && (forall g :: g in rest ==> g < |a.files|)
    requires b == a.(files := a.files + [FileRow(owner, a.files[f].obj, AVAILABLE, 1, a.files[f].mime)])
    requires Copied(b, c, owner, rest)
    ensures Copied(a, c, owner, [f] + rest)
  {
    assert c.files[..|a.files|] == c.files[..|b.files|][..|a.files|] == a.files;
    assert c.files[|a.files|] == c.files[..|b.files|][|a.files|];
    forall i | 0 <= i < |rest| + 1
      ensures ([f] + rest)[i] < |a.files|
      ensures var was := a.files[([f] + rest)[i]];
        c.files[|a.files| + i] == FileRow(owner, was.obj, AVAILABLE, 1, was.mime)
    {
      if i > 0 {
        assert rest[i - 1] in rest;
      }
    }
  }

  lemma {:induction false} CopyLeavesOthers(db: Db, next: Db, owner: nat, row: FileRow, ids: seq<nat>)
    requires next == db.(files := db.files + [row]) && Known(db, ids) && |ids| > 0
    ensures Known(next, ids[1..])
    ensures forall g :: g in ids[1..] ==> (MayTake(next, owner, g, Copy) <==> MayTake(db, owner, g, Copy))
    ensures (forall g :: g in ids[1..] ==> MayTake(db, owner, g, Copy)) ==>
      CopyBytes(next, ids[1..]) == CopyBytes(db, ids[1..])
  {
    assert forall g :: g in ids[1..] ==> g in ids;
    if forall g :: g in ids[1..] ==> MayTake(db, owner, g, Copy) {
      SameCopyBytes(db, next, ids[1..]);
    }
  }

  predicate CopiesFit(cfg: Config, db: Db, owner: nat, ids: seq<nat>) {
    |ids| > 0 ==> Balance(db, owner) + CopyBytes(db, ids) <= cfg.policy(owner).storageBytes
  }

  lemma VersionsStay(db: Db, next: Db)
    requires forall v :: 0 <= v < |db.versions| ==> db.versions[v].file < |db.files|
    requires next.versions == db.versions && |db.files| <= |next.files|
    ensures forall v :: 0 <= v < |next.versions| ==> next.versions[v].file < |next.files|
  {
  }

  /** A bulk copy is served exactly when every listed file may be copied and all copies together fit. */
  lemma {:induction false} BulkCopyExactly(cfg: Config, db: Db, owner: nat, ids: seq<nat>)
    requires Known(db, ids) && forall v :: 0 <= v < |db.versions| ==> db.versions[v].file < |db.files|
    ensures var r := BulkTx(cfg, db, owner, ids, Copy);
      && (r.Some? <==> (forall f :: f in ids ==> MayTake(db, owner, f, Copy)) && CopiesFit(cfg, db, owner, ids))
      && (r.Some? ==>
            Copied(db, r.value, owner, ids) && Balance(r.value, owner) == Balance(db, owner) + CopyBytes(db, ids))
    decreases |ids|
  {
    if |ids| > 0 {
      var f, rest := ids[0], ids[1..];
      assert ids == [f] + rest;
      CopyOne(cfg, db, owner, f);
      if BulkItem(cfg, db, owner, f, Copy).Some? {
        var next := BulkItem(cfg, db, owner, f, Copy).value;
        VersionsStay(db, next);
        CopyLeavesOthers(db, next, owner, FileRow(owner, db.files[f].obj, AVAILABLE, 1, db.files[f].mime), ids);
        BulkCopyExactly(cfg, next, owner, rest);
        CopyStep(cfg, db, next, owner, f, rest);
      }
    }
  }

  /** From the copies of the rest to the copies of all. */
  lemma {:induction false} CopyStep(cfg: Config, db: Db, next: Db, owner: nat, f: nat, rest: seq<nat>)
    requires MayTake(db, owner, f, Copy) && BulkItem(cfg, db, owner, f, Copy) == Some(next)
    requires next == db.(files := db.files + [FileRow(owner, db.files[f].obj, AVAILABLE, 1, db.files[f].mime)])
    requires Balance(next, owner) == Balance(db, owner) + ExpectedSize(db.objects, db.files[f].obj)
    requires Balance(next, owner) <= cfg.policy(owner).storageBytes
    requires forall g :: g in rest ==> (MayTake(next, owner, g, Copy) <==> MayTake(db, owner, g, Copy))
    requires (forall g :: g in rest ==> MayTake(db, owner, g, Copy)) ==> CopyBytes(next, rest) == CopyBytes(db, rest)
    requires var r := BulkTx(cfg, next, owner, rest, Copy);
      && (r.Some? <==> (forall g :: g in rest ==> MayTake(next, owner, g, Copy)) && CopiesFit(cfg, next, owner, rest))
      && (r.Some? ==>
            && Copied(next, r.value, owner, rest)
            && Balance(r.value, owner) == Balance(next, owner) + CopyBytes(next, rest))
    ensures var ids, r := [f] + rest, BulkTx(cfg, next, owner, rest, Copy);
      && (r.Some? <==> (forall g :: g in ids ==> MayTake(db, owner, g, Copy)) && CopiesFit(cfg, db, owner, ids))
      && (r.Some? ==>
            Copied(db, r.value, owner, ids) && Balance(r.value, owner) == Balance(db, owner) + CopyBytes(db, ids))
  {
    var ids := [f] + rest;
    assert ids[1..] == rest && ids[0] == f;
    assert forall g :: g in ids <==> g == f || g in rest;
    assert CopyBytes(db, ids) == ExpectedSize(db.objects, db.files[f].obj) + CopyBytes(db, rest);
    if BulkTx(cfg, next, owner, rest, Copy).Some? {
      CopiedCons(db, next, BulkTx(cfg, next, owner, rest, Copy).value, owner, f, rest);
    }
  }

  // Edits.

  /** An edit is served for the owner, with an expected revision only at that revision, and counts it up by one. */
  lemma EditExactly(db: Db, f: nat, owner: nat, seen: Option<nat>)
    ensures var r := EditTx(db, f, owner, seen);
      && (r.Some? <==>
            f < |db.files| && db.files[f].owner == owner && (seen.Some? ==> db.files[f].revision == seen.value))
      && (r.Some? ==>
            && OthersSame(db, r.value, Some(f), None, None)
            && r.value.files[f] == db.files[f].(revision := db.files[f].revision + 1))
  {
  }

  // The moderator.

  /** What a moderator may ask: a file that is there, a state that its object allows, an owner with room for it. */
  predicate MayOverride(cfg: Config, db: Db, f: nat, state: Option<FileState>, owner: Option<nat>)
    requires f < |db.files| && db.files[f].obj < |db.objects|
  {
    var row, obj := db.files[f], db.objects[db.files[f].obj];
    && row.state != PROCESSING && row.state != PURGED
    && (state.Some? ==> state.value in {AVAILABLE, BLOCKED, DELETED, EXPIRED})
    && (state == Some(AVAILABLE) ==> obj.state in {AVAILABLE, BLOCKED})
    && (owner.Some? ==>
          && (obj.size.Some? ==> obj.size.value <= cfg.policy(owner.value).fileBytes)
          && var added := if owner.value == row.owner then 0
                          else (if obj.size.Some? then obj.size.value else 0) + Sum(HistoryCharges(db, f));
             Balance(db, owner.value) + added <= cfg.policy(owner.value).storageBytes)
  }

  lemma OverrideExactly(cfg: Config, db: Db, f: nat, state: Option<FileState>, owner: Option<nat>)
    requires f < |db.files| && db.files[f].obj < |db.objects|
    ensures var r, row, obj := OverrideTx(cfg, db, f, state, owner), db.files[f], db.objects[db.files[f].obj];
      && (r.Some? <==> MayOverride(cfg, db, f, state, owner))
      && (r.Some? ==>
            && OthersSame(db, r.value, Some(f), Some(row.obj), None)
            && r.value.files[f] == row.(
                 state := if state.Some? then state.value else row.state,
                 owner := if owner.Some? then owner.value else row.owner, revision := row.revision + 1)
            && var after := r.value.objects[row.obj];
               && after == obj.(state := after.state, purge := after.purge)
               && after.state == (if state == Some(BLOCKED) then BLOCKED
                                  else if state == Some(AVAILABLE) then AVAILABLE else obj.state)
               && after.purge == (if state != Some(EXPIRED) then obj.purge
                                  else if obj.purge == JobRunning then JobRunning else JobPending))
  {
  }

  // The scanner.

  /** A verdict settles the object and every quarantined file on it, and leaves all others alone. */
  lemma ScanExactly(cfg: Config, s: Sys, o: nat, clean: bool)
    requires o < |s.db.objects| && s.db.objects[o].state !in {PROCESSING, PURGED}
    ensures var s' := Apply(cfg, s, Scan(o, clean));
      var state := if clean then AVAILABLE else BLOCKED;
      && s'.store == s.store && s'.db.uploads == s.db.uploads && s'.db.versions == s.db.versions
      && s'.db.objects == s.db.objects[o := s.db.objects[o].(state := state)] && |s'.db.files| == |s.db.files|
      && forall f :: 0 <= f < |s.db.files| ==>
           s'.db.files[f] == if s.db.files[f].obj != o || s.db.files[f].state != QUARANTINED then s.db.files[f]
                             else s.db.files[f].(state := state, revision := s.db.files[f].revision + 1)
  {
  }

  // The purge queue.

  /** What the worker writes about one job, and a restart about all of them. */
  lemma JobsExactly(cfg: Config, s: Sys, o: nat, ok: bool)
    requires o < |s.db.objects|
    ensures var was := s.db.objects[o];
      && Apply(cfg, s, ClaimPurge(o)) == s.(db := s.db.(objects := s.db.objects[o :=
           if was.purge == JobPending || was.purge == JobFailed then was.(purge := JobRunning) else was]))
      && Apply(cfg, s, FinishPurge(o, ok)) == s.(db := s.db.(objects := s.db.objects[o :=
           if was.purge != JobRunning then was
           else if ok then was.(purge := JobCompleted) else was.(purge := JobFailed)]))
  {
    assert s.db.objects[o := s.db.objects[o]] == s.db.objects;
  }

  /** A purge removes the bytes of an object nothing refers to and marks its row, unless it crashes in between. */
  lemma PurgeExactly(cfg: Config, s: Sys, o: nat, crash: bool)
    ensures var s' := Apply(cfg, s, RunPurge(o, crash));
      if o < |s.db.objects| && !Referenced(s.db, o)
      then
        && s'.store == Without(s.store, o)
        && s'.db == if crash then s.db else s.db.(objects := s.db.objects[o := s.db.objects[o].(state := PURGED)])
      else s' == s
  {
  }

  /** The store without one object, whose room is free again. */
  function Without(st: Store, key: nat): Store {
    st.(objects := map k | k in st.objects && k != key :: st.objects[k],
        free := st.free + if key in st.objects then |st.objects[key]| else 0)
  }

  /** A listed key without a row is removed once it is old; one whose row is purged is purged again; others stay. */
  lemma SweepKeyExactly(cfg: Config, s: Sys, key: nat, aged: bool, crash: bool)
    ensures Apply(cfg, s, SweepKey(key, aged, crash)) ==
      if key !in s.store.objects then s
      else if key < |s.db.objects| then
        if s.db.objects[key].state == PURGED then Apply(cfg, s, RunPurge(key, crash)) else s
      else if aged then s.(store := Without(s.store, key)) else s
  {
  }

  /** What each row costs: the WHERE clauses of the usage view. */
  lemma UsageExactly(db: Db, f: FileRow, v: VersionRow, u: UploadRow, who: nat)
    ensures FileCharge(db, f, who) ==
      if f.owner == who && f.obj < |db.objects| && f.state in {AVAILABLE, QUARANTINED, BLOCKED, DELETED}
      then db.objects[f.obj].expected else 0
    ensures VersionCharge(db, v, who) ==
      if v.file < |db.files| && db.files[v.file].owner == who && v.obj < |db.objects|
      then db.objects[v.obj].expected else 0
    ensures UploadCharge(u, who) ==
      if u.owner == who && u.state in {CREATED, UPLOADING, FINALIZING, FAILED} && u.error != INIT_FAILED
      then u.size else 0
  {
  }

  // The store.

  /** A part is taken through a signed URL only, at the signed length and checksum, and replaces one of its number. */
  lemma PutExactly(st: Store, hash: Bytes -> int, p: Put)
    requires forall id :: id in st.sessions ==> |st.sessions[id].parts| == MAX_PARTS
    ensures var taken := p.url in st.urls && p.url.session in st.sessions && 1 <= p.url.number <= 10000
                         && |p.content| == p.url.length && hash(p.content) == p.url.checksum && p.etag != "";
      PutPart(st, hash, p) ==
        if !taken then st
        else
          var session, slot := st.sessions[p.url.session], p.url.number - 1;
          var part := Some(StoredPart(p.content, p.etag, p.reported));
          st.(sessions := st.sessions[p.url.session := session.(parts := session.parts[slot := part])],
              free := st.free - |p.content| +
                if session.parts[slot].Some? then |session.parts[slot].value.content| else 0)
  {
  }

  /** A listing gives every stored part with its number, length and etag, and its checksum if the store reports it. */
  lemma ListedExactly(hash: Bytes -> int, number: int, p: StoredPart)
    ensures var l := ListedPart(hash, number, p);
      && l.part == StoragePart(number, |p.content|, p.etag)
      && (p.reported ==> l.checksum == Some(hash(p.content))) && (!p.reported ==> l.checksum == None)
  {
  }

  /** The parts asked for, in ascending order, are all there with their etags and checksums. */
  predicate AllThere(session: Session, hash: Bytes -> int, manifest: seq<ManifestEntry>) {
    && (forall i :: 0 <= i < |manifest| ==>
          var e := manifest[i];
          && 1 <= e.part.number <= |session.parts| && session.parts[e.part.number - 1].Some?
          && session.parts[e.part.number - 1].value.etag == e.part.etag
          && hash(session.parts[e.part.number - 1].value.content) == e.checksum)
    && (forall i, j :: 0 <= i < j < |manifest| ==> manifest[i].part.number < manifest[j].part.number)
  }

  /** A session is completed exactly then; its object replaces any under its key, and what it held is free again. */
  lemma CompleteExactly(st: Store, hash: Bytes -> int, session: nat, manifest: seq<ManifestEntry>)
    ensures Complete(st, hash, session, manifest).Some? <==>
      session in st.sessions && AllThere(st.sessions[session], hash, manifest)
    ensures Complete(st, hash, session, manifest).Some? ==>
      var s, after := st.sessions[session], Complete(st, hash, session, manifest).value;
      && s.key in after.objects && after.objects == st.objects[s.key := after.objects[s.key]]
      && after.sessions == st.sessions - {session} && after.urls == st.urls && after.nextSession == st.nextSession
      && after.free == st.free + SessionBytes(s) - |after.objects[s.key]| +
           if s.key in st.objects then |st.objects[s.key]| else 0
  {
  }

  // Replacing content.

  /** The content a replace asks for: an own accessible file's, or a stored version's of the file itself. */
  ghost predicate SourceOf(db: Db, owner: nat, f: nat, source: Source, visible: bool, c: Content) {
    && c.obj < |db.objects| && db.objects[c.obj].state == AVAILABLE
    && match source
       case FromFile(g) =>
         && visible && g < |db.files| && db.files[g].owner == owner && db.files[g].state == AVAILABLE
         && c == Content(db.files[g].obj, db.files[g].mime)
       case FromVersion(id) =>
         exists v :: v in db.versions && v.id == id && v.file == f && c == Content(v.obj, v.mime)
  }

  lemma SourceExactly(db: Db, owner: nat, f: nat, source: Source, visible: bool, c: Content)
    requires VersionsDistinct(db.versions)
    ensures SourceContent(db, owner, f, source, visible) == Some(c) <==> SourceOf(db, owner, f, source, visible, c)
  {
    if source.FromVersion? {
      Versions.FoundVersion(db.versions, source.version, f);
      if v :| v in db.versions && v.id == source.version && v.file == f && c == Content(v.obj, v.mime) {
        var w := FindVersion(db.versions, source.version, f).value;
        var i :| 0 <= i < |db.versions| && db.versions[i] == v;
        var j :| 0 <= j < |db.versions| && db.versions[j] == w;
        assert v == w;
      }
    }
  }

  /** When the content of a file may be replaced: by its owner, available, at the revision seen, with versions on. */
  predicate MayReplace(cfg: Config, db: Db, owner: nat, f: nat, expected: nat) {
    && f < |db.files| && db.files[f].owner == owner && db.files[f].obj < |db.objects|
    && db.files[f].state == AVAILABLE && db.files[f].revision == expected
    && cfg.versioningEnabled && cfg.policy(owner).versionCount > 0 && cfg.policy(owner).versionDays > 0
  }

  /** The rows once the old content has become a version and the file has the new one, before pruning. */
  ghost predicate SwitchedTo(a: Db, b: Db, f: nat, c: Content, id: nat, now: int) {
    && f < |a.files| && b == a.(files := b.files, versions := b.versions) && |b.files| == |a.files|
    && (forall g {:trigger b.files[g]} :: 0 <= g < |a.files| && g != f ==> b.files[g] == a.files[g])
    && b.files[f] == a.files[f].(obj := c.obj, mime := c.mime, revision := a.files[f].revision + 1)
    && |b.versions| == |a.versions| + 1 && b.versions[..|a.versions|] == a.versions
    && b.versions[|a.versions|] ==
         VersionRow(id, f, a.files[f].obj, a.files[f].revision, a.files[f].mime, now)
  }

  /**
   A replace is served exactly when the file may be replaced and the source is there, and, unless it is the
   same content, the content is within the file limit and the account within its quota afterwards. Then the
   file has the content asked for, its old one is a version, and the versions are pruned.
   */
  lemma ReplaceExactly(cfg: Config, s: Sys, owner: nat, f: nat, expected: nat, source: Source, visible: bool,
                       id: nat, now: int, c: Content)
    requires Inv(cfg, s) && SourceOf(s.db, owner, f, source, visible, c)
    requires forall v :: v in s.db.versions ==> v.id != id
    ensures var r := ReplaceTx(cfg, s.db, owner, f, expected, source, visible, id, now);
      && (r.Some? ==> MayReplace(cfg, s.db, owner, f, expected))
      && (MayReplace(cfg, s.db, owner, f, expected) && c.obj == s.db.files[f].obj ==> r == Some(s.db))
      && (MayReplace(cfg, s.db, owner, f, expected) && c.obj != s.db.files[f].obj ==>
            exists mid, after :: SwitchedTo(s.db, mid, f, c, id, now) && PruneTx(cfg, mid, f, now) == Some(after)
              && r == (if (var size := s.db.objects[c.obj].size;
                           size.Some? ==> size.value <= cfg.policy(owner).fileBytes)
                          && Balance(after, owner) <= cfg.policy(owner).storageBytes
                       then Some(after) else None))
  {
    SourceExactly(s.db, owner, f, source, visible, c);
    if MayReplace(cfg, s.db, owner, f, expected) && c.obj != s.db.files[f].obj {
      Versions.RevisionNeverClashes(cfg, s, f, id);
      var mid := Switched(s.db, f, c, id, now);
      SwitchedRows(s.db, f, c, id, now);
      ReplaceSwitches(cfg, s.db, owner, f, expected, source, visible, id, now, c);
      var after := PruneTx(cfg, mid, f, now).value;
      assert PruneTx(cfg, mid, f, now) == Some(after);
    }
  }

  lemma SwitchedRows(db: Db, f: nat, c: Content, id: nat, now: int)
    requires f < |db.files|
    ensures SwitchedTo(db, Switched(db, f, c, id, now), f, c, id, now)
  {
  }

  lemma ReplaceSwitches(cfg: Config, db: Db, owner: nat, f: nat, expected: nat, source: Source, visible: bool,
                        id: nat, now: int, c: Content)
    requires MayReplace(cfg, db, owner, f, expected) && SourceContent(db, owner, f, source, visible) == Some(c)
    requires c.obj < |db.objects| && c.obj != db.files[f].obj && !VersionClash(db, f, id)
    ensures PruneTx(cfg, Switched(db, f, c, id, now), f, now).Some?
    ensures var after := PruneTx(cfg, Switched(db, f, c, id, now), f, now).value;
      ReplaceTx(cfg, db, owner, f, expected, source, visible, id, now) ==
        if SizeOf(db.objects[c.obj]) <= cfg.policy(owner).fileBytes
           && Balance(after, owner) <= cfg.policy(owner).storageBytes
        then Some(after) else None
  {
  }

  /** Without a source nothing is replaced. */
  lemma NoSourceNoReplace(cfg: Config, db: Db, owner: nat, f: nat, expected: nat, source: Source, visible: bool,
                          id: nat, now: int)
    requires VersionsDistinct(db.versions) && forall c :: !SourceOf(db, owner, f, source, visible, c)
    ensures ReplaceTx(cfg, db, owner, f, expected, source, visible, id, now).None?
  {
    var c := SourceContent(db, owner, f, source, visible);
    if c.Some? {
      SourceExactly(db, owner, f, source, visible, c.value);
    }
  }

  // What the actions cost.

  /** Trash costs as much as anything else; what is deleted for good or expires costs nothing from then on. */
  lemma StateCosts(db: Db, f: nat, state: FileState, who: nat)
    requires f < |db.files| && db.files[f].state != PROCESSING && state != PROCESSING
    ensures var after := SetFile(db, f, db.files[f].(state := state));
      var size := if who == db.files[f].owner then ExpectedSize(db.objects, db.files[f].obj) else 0;
      var was, now := db.files[f].state in {PURGED, EXPIRED}, state in {PURGED, EXPIRED};
      && ReservedBytes(after, who) == ReservedBytes(db, who)
      && UsedBytes(after, who) == UsedBytes(db, who) + (if was && !now then size else if !was && now then -size else 0)
  {
    var after := SetFile(db, f, db.files[f].(state := state));
    SumDiffersAt(FileCharges(db, who), FileCharges(after, who), f);
    assert VersionCharges(after, after.versions, who) == VersionCharges(db, db.versions, who);
    assert UploadCharges(after, who) == UploadCharges(db, who);
  }

  /** Switching content costs the owner the new object on top of what the old one goes on costing as a version. */
  lemma SwitchCosts(db: Db, mid: Db, f: nat, c: Content, id: nat, now: int, who: nat)
    requires SwitchedTo(db, mid, f, c, id, now) && db.files[f].state == AVAILABLE
    requires forall v :: 0 <= v < |db.versions| ==> db.versions[v].file < |db.files|
    ensures Balance(mid, who) == Balance(db, who) +
      (if who == db.files[f].owner then ExpectedSize(db.objects, c.obj) else 0)
  {
    var v := VersionRow(id, f, db.files[f].obj, db.files[f].revision, db.files[f].mime, now);
    assert mid.versions == db.versions + [v];
    SumDiffersAt(FileCharges(db, who), FileCharges(mid, who), f);
    assert VersionCharges(mid, mid.versions, who) ==
      VersionCharges(db, db.versions, who) + [VersionCharge(mid, v, who)];
    SumAppend(VersionCharges(db, db.versions, who), VersionCharge(mid, v, who));
    assert UploadCharges(mid, who) == UploadCharges(db, who);
  }

  /** The id of a stored version is not used again, nor a revision of its file. */
  lemma ClashRefused(cfg: Config, db: Db, owner: nat, f: nat, expected: nat, source: Source, visible: bool,
                     id: nat, now: int, v: VersionRow)
    requires v in db.versions && (v.id == id || (v.file == f && v.revision == expected))
    ensures var r := ReplaceTx(cfg, db, owner, f, expected, source, visible, id, now); r == None || r == Some(db)
  {
    var i :| 0 <= i < |db.versions| && db.versions[i] == v;
  }
}
