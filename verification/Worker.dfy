/** apps/worker/src/index.ts: purge jobs, cleanup and reconciliation with the store. */
module Worker {
  import opened Base
  import opened ObjectStore
  import opened Catalog
  import opened Transactions
  import opened Runs
  import opened Backend
  import opened Rounds
  import Safety
  import UploadRoutes

  method PurgeObject(b: System, o: nat, crash: bool)
    modifies b
    ensures b.State() == PurgeTx(old(b.State()), o, crash)
  {
    if o >= |b.db.objects| { return; }
    if Referenced(b.db, o) { return; }
    b.store := RemoveObject(b.store, o);
    if crash { return; }
    b.db := SetObject(b.db, o, b.db.objects[o].(state := PURGED));
  }

  /** Recording how a job ended. */
  method FinishJob(b: System, o: nat, ok: bool)
    requires o < |b.db.objects| && b.db.objects[o].purge == JobRunning
    modifies b`db
    ensures b.db == FinishTx(old(b.db), o, ok)
  {
    b.db := SetObject(b.db, o, b.db.objects[o].(purge := if ok then JobCompleted else JobFailed));
  }

  /** One turn of the job loop for a purge job: claim it, run it, record how it ended. */
  method RunPurgeJob(b: System, o: nat, due: bool) returns (claimed: bool)
    modifies b
    ensures claimed <==> o < |old(b.db).objects| && Picked(old(b.db).objects[o].purge, due)
    ensures b.State() == PurgeJob(old(b.State()), o, due)
  {
    if o >= |b.db.objects| || !(b.db.objects[o].purge == JobPending || (b.db.objects[o].purge == JobFailed && due)) {
      return false;
    }
    b.db := SetObject(b.db, o, b.db.objects[o].(purge := JobRunning));
    PurgeObject(b, o, false);
    FinishJob(b, o, true);
    claimed := true;
  }

  /** A worker that starts puts the jobs its predecessor left running back in the queue. */
  method Restart(b: System)
    modifies b`db
    ensures b.db == RestartTx(old(b.db))
  {
    var objects := b.db.objects;
    b.db := b.db.(objects := seq(|objects|, o requires 0 <= o < |objects| =>
      if objects[o].purge == JobRunning then objects[o].(purge := JobPending) else objects[o]));
  }

  /** The job loop until no job is left to pick: no new work arrives and nothing fails. */
  method DrainQueue(b: System, due: set<nat>)
    modifies b
    ensures b.State() == Drained(old(b.State()), due, |old(b.db).objects|)
  {
    Restart(b);
    for o := 0 to |b.db.objects|
      invariant |b.db.objects| == |old(b.db).objects|
      invariant b.State() == Drained(old(b.State()), due, o)
    {
      var _ := RunPurgeJob(b, o, o in due);
    }
  }

  // Reconciliation.

  /** Every listed key: an old one without a row is removed, one whose row is purged is purged again. */
  method SweepKeys(b: System, keys: seq<ListedKey>)
    modifies b
    ensures b.State() == Run(b.cfg, old(b.State()), KeyEvents(keys))
  {
    ghost var start, es := b.State(), KeyEvents(keys);
    for i := 0 to |keys|
      invariant b.State() == Run(b.cfg, start, es[..i])
    {
      Safety.RunNext(b.cfg, start, es, i);
      var key := keys[i].key;
      if key in b.store.objects {
        if key >= |b.db.objects| {
          if keys[i].aged {
            b.store := RemoveObject(b.store, key);
          }
        } else if b.db.objects[key].state == PURGED {
          PurgeObject(b, key, false);
        }
      }
    }
    assert es[..|keys|] == es;
  }

  /** Every listed session: an old one no upload records is aborted. */
  method SweepSessions(b: System, sessions: seq<ListedSession>)
    modifies b
    ensures b.State() == Run(b.cfg, old(b.State()), SessionEvents(sessions))
  {
    ghost var start, es := b.State(), SessionEvents(sessions);
    for i := 0 to |sessions|
      invariant b.State() == Run(b.cfg, start, es[..i])
    {
      Safety.RunNext(b.cfg, start, es, i);
      var id := sessions[i].session;
      var recorded := exists u :: 0 <= u < |b.db.uploads| && b.db.uploads[u].session == Some(id);
      if sessions[i].aged && !recorded {
        b.store := AbortSession(b.store, id);
      }
    }
    assert es[..|sessions|] == es;
  }

  /** Every AVAILABLE object row: one whose bytes are missing is blocked. */
  method SweepRows(b: System)
    modifies b`db
    ensures b.State() == Run(b.cfg, old(b.State()), RowEvents(|old(b.db).objects|))
  {
    ghost var start, es := b.State(), RowEvents(|b.db.objects|);
    for o := 0 to |b.db.objects|
      invariant |b.db.objects| == |es| && b.State() == Run(b.cfg, start, es[..o])
    {
      Safety.RunNext(b.cfg, start, es, o);
      if b.db.objects[o].state == AVAILABLE && o !in b.store.objects {
        b.db := SetObject(b.db, o, b.db.objects[o].(state := BLOCKED));
      }
    }
    assert es[..|es|] == es;
  }

  // Cleanup.

  method EndFile(b: System, f: nat, why: EndReason)
    modifies b`db
    ensures b.db == EndFileTx(old(b.db), f, why)
  {
    if f >= |b.db.files| || b.db.files[f].obj >= |b.db.objects| || b.db.files[f].state == PROCESSING { return; }
    var row := b.db.files[f];
    match why {
      case FileExpired => b.db := SetFile(b.db, f, row.(state := EXPIRED));
      case TrashExpired =>
        if row.state == DELETED {
          b.db := SetFile(b.db, f, row.(state := PURGED));
        }
      case FolderExpired => b.db := SetFile(b.db, f, row.(state := PURGED));
    }
    b.db := Enqueue(b.db, row.obj);
  }

  /** The files one of the cleanup queries selected, each in its own transaction. */
  method EndFiles(b: System, files: seq<nat>, why: EndReason)
    modifies b`db
    ensures b.State() == Run(b.cfg, old(b.State()), EndEvents(files, why))
  {
    ghost var start, es := b.State(), EndEvents(files, why);
    for i := 0 to |files|
      invariant b.State() == Run(b.cfg, start, es[..i])
    {
      Safety.RunNext(b.cfg, start, es, i);
      EndFile(b, files[i], why);
    }
    assert es[..|files|] == es;
  }

  method EndStaleUpload(b: System, x: Stale) returns (ok: bool)
    modifies b
    ensures b.State() == Apply(b.cfg, old(b.State()), StaleEvent(old(b.State()), x))
    ensures ok <==> StaleSettled(b.cfg, old(b.State()), x)
  {
    if x.u >= |b.db.uploads| { return true; }
    var row := b.db.uploads[x.u];
    if row.obj in b.store.objects && |b.store.objects[row.obj]| == row.size {
      var result := UploadRoutes.CompleteUpload(b, x.u, row.owner, [], false, x.verdict);
      return result.Finished?;
    }
    if row.state != COMPLETE && RowsExist(b.db, row) {
      UploadRoutes.EndUpload(b, x.u, TIMED_OUT, false);
    }
    ok := true;
  }

  method EndStaleUploads(b: System, stale: seq<Stale>) returns (ok: bool)
    modifies b
    ensures b.State() == Run(b.cfg, old(b.State()), StaleEvents(b.cfg, old(b.State()), stale))
    ensures ok <==> AllSettled(b.cfg, old(b.State()), stale)
  {
    ghost var start, done := b.State(), [];
    for i := 0 to |stale|
      invariant b.State() == Run(b.cfg, start, done)
      invariant StaleEvents(b.cfg, start, stale) == done + StaleEvents(b.cfg, b.State(), stale[i..])
      invariant AllSettled(b.cfg, start, stale) <==> AllSettled(b.cfg, b.State(), stale[i..])
    {
      ghost var e := StaleEvent(b.State(), stale[i]);
      StaleEventsUnfold(b.cfg, b.State(), stale, i, done);
      AllSettledUnfolds(b.cfg, b.State(), stale, i);
      RunOneMore(b.cfg, start, done, e);
      done := done + [e];
      ok := EndStaleUpload(b, stale[i]);
      if !ok { return; }
    }
    assert stale[|stale|..] == [] && done + [] == done;
    ok := true;
  }
}
