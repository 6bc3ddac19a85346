/** Purging over whole runs: nothing needed is removed, and nothing unneeded is forgotten. */
module Purging {
  import opened Base
  import opened Catalog
  import opened Transactions
  import opened Runs
  import opened Integrity
  import opened Safety
  import opened References
  import Completion
  import Versions

  // Nothing needed is removed.

  /** In every reachable state, whatever crashed before: a live finished file or a version has its bytes. */
  lemma NeededBytesExist(cfg: Config, s: Sys, o: nat)
    requires Reachable(cfg, s)
    requires (exists f :: 0 <= f < |s.db.files| && s.db.files[f].obj == o && Charged(s.db.files[f]))
      || (exists v :: 0 <= v < |s.db.versions| && s.db.versions[v].obj == o)
    ensures o in s.store.objects
    ensures o < |s.db.objects| && s.db.objects[o].state != PURGED
  {
    ReachableInv(cfg, s);
  }

  lemma FinishKeepsRefs(s: Sys, o: nat, ok: bool, x: nat)
    ensures Referenced(FinishTx(s.db, o, ok), x) <==> Referenced(s.db, x)
  {
    var db := FinishTx(s.db, o, ok);
    assert db.files == s.db.files && db.versions == s.db.versions;
    assert (exists f :: 0 <= f < |db.files| && db.files[f].obj == x && Live(db.files[f])) <==>
           (exists f :: 0 <= f < |s.db.files| && s.db.files[f].obj == x && Live(s.db.files[f]));
  }

  lemma StepNeverRevives(cfg: Config, s: Sys, e: Event, o: nat)
    requires Inv(cfg, s) && Assumed(s, e) && o < |s.db.objects| && !Referenced(s.db, o)
    ensures o < |Apply(cfg, s, e).db.objects| && !Referenced(Apply(cfg, s, e).db, o)
  {
    if e.FinishPurge? {
      FinishKeepsRefs(s, e.o, e.ok, o);
    } else {
      StepRefs(cfg, s, e);
    }
  }

  /** References are only ever copied from references: what nothing points at stays that way. */
  lemma {:induction false} UnreferencedForGood(cfg: Config, s: Sys, es: seq<Event>, i: nat, j: nat, o: nat)
    requires Inv(cfg, s) && AllAssumed(cfg, s, es) && i <= j <= |es|
    requires o < |Run(cfg, s, es[..i]).db.objects| && !Referenced(Run(cfg, s, es[..i]).db, o)
    ensures o < |Run(cfg, s, es[..j]).db.objects| && !Referenced(Run(cfg, s, es[..j]).db, o)
    decreases j
  {
    if i < j {
      UnreferencedForGood(cfg, s, es, i, j - 1, o);
      PrefixKeeps(cfg, s, es, j - 1);
      var before := Run(cfg, s, es[..j - 1]);
      assert es[..j][..j - 1] == es[..j - 1] && es[..j][j - 1] == es[j - 1];
      StepNeverRevives(cfg, before, es[j - 1], o);
    }
  }

  // Nothing unneeded is forgotten.

  /** A purge job may be finished as successful only if its object is gone or needed at that moment. */
  ghost predicate TimelyFinish(s: Sys, e: Event) {
    e.FinishPurge? && e.ok && e.o < |s.db.objects| && s.db.objects[e.o].purge == JobRunning ==>
      s.db.objects[e.o].state == PURGED || Referenced(s.db, e.o)
  }

  /** Only marking a job as completed can make the database forget an object, and only in that case. */
  lemma FinishKeepsNoLeakExactly(s: Sys, o: nat, ok: bool)
    requires NoLeak(s.db)
    ensures NoLeak(FinishTx(s.db, o, ok)) <==> TimelyFinish(s, FinishPurge(o, ok))
  {
    var db := FinishTx(s.db, o, ok);
    forall x | 0 <= x < |db.objects|
      ensures Referenced(db, x) <==> Referenced(s.db, x)
    {
      FinishKeepsRefs(s, o, ok, x);
    }
    if TimelyFinish(s, FinishPurge(o, ok)) {
      forall x | 0 <= x < |db.objects|
        ensures db.objects[x].state == PURGED || Referenced(db, x) || JobActive(db.objects[x])
      {
        assert s.db.objects[x].state == PURGED || Referenced(s.db, x) || JobActive(s.db.objects[x]);
      }
    } else {
      assert !(db.objects[o].state == PURGED || Referenced(db, o) || JobActive(db.objects[o]));
    }
  }

  lemma StepKeepsNoLeak(cfg: Config, s: Sys, e: Event)
    requires Inv(cfg, s) && Assumed(s, e) && NoLeak(s.db) && TimelyFinish(s, e)
    ensures NoLeak(Apply(cfg, s, e).db)
  {
    if e.FinishPurge? {
      FinishKeepsNoLeakExactly(s, e.o, e.ok);
    } else {
      StepRefs(cfg, s, e);
      RefStepKeepsNoLeak(s.db, Apply(cfg, s, e).db);
    }
  }

  /** No storage leak over whole runs in which purge jobs are finished in time. */
  lemma {:induction false} RunNeverLeaks(cfg: Config, s: Sys, es: seq<Event>)
    requires Inv(cfg, s) && AllAssumed(cfg, s, es) && NoLeak(s.db)
    requires forall i {:trigger TimelyFinish(Run(cfg, s, es[..i]), es[i])} :: 0 <= i < |es| ==>
      TimelyFinish(Run(cfg, s, es[..i]), es[i])
    ensures NoLeak(Run(cfg, s, es).db)
  {
    if |es| > 0 {
      var n := |es| - 1;
      forall i | 0 <= i < n
        ensures Assumed(Run(cfg, s, es[..n][..i]), es[..n][i])
        ensures TimelyFinish(Run(cfg, s, es[..n][..i]), es[..n][i])
      {
        assert es[..n][..i] == es[..i];
      }
      RunNeverLeaks(cfg, s, es[..n]);
      RunKeeps(cfg, s, es[..n]);
      StepKeepsNoLeak(cfg, Run(cfg, s, es[..n]), es[n]);
    }
  }

  /** Finishing a job right after its transaction committed is always in time. */
  lemma PurgeThenFinishIsTimely(cfg: Config, s: Sys, o: nat, ok: bool)
    requires Inv(cfg, s)
    ensures TimelyFinish(Apply(cfg, s, RunPurge(o, false)), FinishPurge(o, ok))
  {
  }

  predicate MovesJobs(e: Event) {
    e.ClaimPurge? || e.FinishPurge? || e.RestartWorker?
  }

  /** The same job is running before and after. */
  ghost predicate JobsRunOn(a: seq<ObjectRow>, b: seq<ObjectRow>) {
    |a| <= |b| && forall o {:trigger b[o]} :: 0 <= o < |a| ==> (a[o].purge == JobRunning <==> b[o].purge == JobRunning)
  }

  lemma {:induction false} BulkJobsRunOn(cfg: Config, db: Db, owner: nat, ids: seq<nat>, action: BulkAction)
    requires BulkTx(cfg, db, owner, ids, action).Some?
    ensures JobsRunOn(db.objects, BulkTx(cfg, db, owner, ids, action).value.objects)
    decreases |ids|
  {
    if |ids| > 0 {
      var next := BulkItem(cfg, db, owner, ids[0], action).value;
      assert JobsRunOn(db.objects, next.objects);
      BulkJobsRunOn(cfg, next, owner, ids[1..], action);
    }
  }

  lemma ReplaceJobsRunOn(cfg: Config, db: Db, owner: nat, f: nat, expected: nat, source: Source, visible: bool,
                         id: nat, now: int)
    requires ReplaceTx(cfg, db, owner, f, expected, source, visible, id, now).Some?
    ensures JobsRunOn(db.objects, ReplaceTx(cfg, db, owner, f, expected, source, visible, id, now).value.objects)
  {
    if ReplaceTx(cfg, db, owner, f, expected, source, visible, id, now).value != db {
      Versions.ReplaceShape(cfg, db, owner, f, expected, source, visible, id, now);
    }
  }

  lemma OverrideJobsRunOn(cfg: Config, db: Db, f: nat, state: Option<FileState>, owner: Option<nat>)
    requires OverrideTx(cfg, db, f, state, owner).Some?
    ensures JobsRunOn(db.objects, OverrideTx(cfg, db, f, state, owner).value.objects)
  {
  }

  lemma FileStepJobsRunOn(cfg: Config, s: Sys, e: Event)
    requires FileEvent(e)
    ensures JobsRunOn(s.db.objects, Apply(cfg, s, e).db.objects)
  {
    match e
    case Bulk(owner, ids, action) =>
      if BulkTx(cfg, s.db, owner, ids, action).Some? { BulkJobsRunOn(cfg, s.db, owner, ids, action); }
    case Replace(owner, f, expected, source, visible, id, now) =>
      if ReplaceTx(cfg, s.db, owner, f, expected, source, visible, id, now).Some? {
        ReplaceJobsRunOn(cfg, s.db, owner, f, expected, source, visible, id, now);
      }
    case Override(f, state, newOwner) =>
      if OverrideTx(cfg, s.db, f, state, newOwner).Some? { OverrideJobsRunOn(cfg, s.db, f, state, newOwner); }
    case _ =>
  }

  lemma UploadStepJobsRunOn(cfg: Config, s: Sys, e: Event)
    requires UploadEvent(e)
    ensures JobsRunOn(s.db.objects, Apply(cfg, s, e).db.objects)
  {
    if e.Finalize? && Apply(cfg, s, e).db != s.db {
      var row, size := Completion.FinalizeIsCompletion(cfg, s, e.u, e.owner, e.puts, e.crash, e.verdict);
    }
  }

  /** Only the worker's own bookkeeping starts or stops a running job. */
  lemma StepJobsRunOn(cfg: Config, s: Sys, e: Event)
    requires !MovesJobs(e)
    ensures JobsRunOn(s.db.objects, Apply(cfg, s, e).db.objects)
  {
    if UploadEvent(e) {
      UploadStepJobsRunOn(cfg, s, e);
    } else if FileEvent(e) {
      FileStepJobsRunOn(cfg, s, e);
    }
  }

  /** A step that takes the last reference of an object and does not purge it. */
  ghost predicate Orphans(cfg: Config, s: Sys, e: Event, o: nat) {
    var after := Apply(cfg, s, e).db;
    && o < |s.db.objects| && Referenced(s.db, o)
    && o < |after.objects| && !Referenced(after, o) && after.objects[o].state != PURGED
  }

  /**
   The exact condition. `enqueue` leaves a running job alone, so an object orphaned before its purge job
   is marked as completed is forgotten precisely when that job was already running.
   */
  lemma OrphanForgottenExactly(cfg: Config, s: Sys, e: Event, o: nat)
    requires Inv(cfg, s) && Assumed(s, e) && NoLeak(s.db) && !MovesJobs(e) && Orphans(cfg, s, e, o)
    ensures NoLeak(FinishTx(Apply(cfg, s, e).db, o, true)) <==> s.db.objects[o].purge != JobRunning
  {
    var s' := Apply(cfg, s, e);
    StepRefs(cfg, s, e);
    RefStepKeepsNoLeak(s.db, s'.db);
    StepJobsRunOn(cfg, s, e);
    FinishKeepsNoLeakExactly(s', o, true);
  }

  /** Every purge job marked as successful is marked right after its transaction. */
  ghost predicate FinishesFollowPurges(es: seq<Event>) {
    forall i :: 0 <= i < |es| && es[i].FinishPurge? && es[i].ok ==> i > 0 && es[i - 1] == RunPurge(es[i].o, false)
  }

  /** So a run leaks nothing as long as nothing comes between a purge and the end of its job. */
  lemma {:induction false} PromptRunNeverLeaks(cfg: Config, s: Sys, es: seq<Event>)
    requires Inv(cfg, s) && AllAssumed(cfg, s, es) && NoLeak(s.db) && FinishesFollowPurges(es)
    ensures NoLeak(Run(cfg, s, es).db)
  {
    forall i | 0 <= i < |es|
      ensures TimelyFinish(Run(cfg, s, es[..i]), es[i])
    {
      if es[i].FinishPurge? && es[i].ok {
        PrefixKeeps(cfg, s, es, i - 1);
        RunNext(cfg, s, es, i - 1);
        PurgeThenFinishIsTimely(cfg, Run(cfg, s, es[..i - 1]), es[i].o, es[i].ok);
      }
    }
    RunNeverLeaks(cfg, s, es);
  }

  lemma ReferencedIsUnpurged(cfg: Config, s: Sys, o: nat)
    requires Inv(cfg, s) && o < |s.db.objects| && Referenced(s.db, o)
    ensures s.db.objects[o].state != PURGED
  {
    if f :| 0 <= f < |s.db.files| && s.db.files[f].obj == o && Live(s.db.files[f]) {
      assert FileOk(s.db.uploads, f, s.db.files[f]);
      assert UploadRowsOk(s.db.objects, s.db.files, o, s.db.uploads[o]);
    }
  }

  // The worker's reconciliation with the store.

  /** Listing keys removes only bytes whose row is purged and unreferenced; no unfinished upload loses its object. */
  lemma SweepSparesNeeded(cfg: Config, s: Sys, key: nat, aged: bool, crash: bool, o: nat)
    requires Inv(cfg, s) && o in s.store.objects
    requires o !in Apply(cfg, s, SweepKey(key, aged, crash)).store.objects
    ensures o == key && o < |s.db.uploads|
    ensures s.db.objects[o].state == PURGED && !Referenced(s.db, o) && !Active(s.db.uploads[o])
  {
    assert ObjectOk(cfg, s.db.uploads, o, s.store.objects[o]);
    assert UploadRowsOk(s.db.objects, s.db.files, o, s.db.uploads[o]);
  }

  /** Listing sessions aborts only sessions no upload records: those hold no part at all. */
  lemma SweepSparesSessions(cfg: Config, s: Sys, session: nat, aged: bool, id: nat)
    requires Inv(cfg, s) && id in s.store.sessions
    requires id !in Apply(cfg, s, SweepSession(session, aged)).store.sessions
    ensures forall u :: 0 <= u < |s.db.uploads| ==> s.db.uploads[u].session != Some(id)
    ensures forall i :: 0 <= i < |s.store.sessions[id].parts| ==> s.store.sessions[id].parts[i].None?
  {
    assert SessionOk(cfg, s.db.uploads, id, s.store.sessions[id]);
  }
}
