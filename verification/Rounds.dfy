/**
 The worker's rounds (apps/worker/src/index.ts: cleanup, reconcile and the job loop): each is a run of
 single steps, so it keeps whatever runs keep, and here is what it achieves.
 */
module Rounds {
  import opened Base
  import opened Catalog
  import opened Transactions
  import opened Runs
  import opened Integrity
  import opened Safety
  import opened References
  import opened Purging
  import opened Quota

  // Rounds are runs.

  lemma {:induction false} RunOneMore(cfg: Config, s: Sys, es: seq<Event>, e: Event)
    ensures Run(cfg, s, es + [e]) == Apply(cfg, Run(cfg, s, es), e)
  {
    assert (es + [e])[..|es|] == es;
  }

  lemma {:induction false} RunsJoin(cfg: Config, s: Sys, xs: seq<Event>, ys: seq<Event>)
    ensures Run(cfg, s, xs + ys) == Run(cfg, Run(cfg, s, xs), ys)
  {
    if |ys| == 0 {
      assert xs + ys == xs;
    } else {
      var before, last := ys[..|ys| - 1], ys[|ys| - 1];
      RunsJoin(cfg, s, xs, before);
      RunsJoinNext(cfg, s, xs, before, last);
      SplitLast(xs, ys);
    }
  }

  lemma SplitLast(xs: seq<Event>, ys: seq<Event>)
    requires |ys| > 0
    ensures var before, last := ys[..|ys| - 1], ys[|ys| - 1];
      xs + ys == xs + before + [last] && ys == before + [last]
  {
  }

  lemma {:induction false} RunsJoinNext(cfg: Config, s: Sys, xs: seq<Event>, ys: seq<Event>, e: Event)
    requires Run(cfg, s, xs + ys) == Run(cfg, Run(cfg, s, xs), ys)
    ensures Run(cfg, s, xs + ys + [e]) == Run(cfg, Run(cfg, s, xs), ys + [e])
  {
    RunOneMore(cfg, s, xs + ys, e);
    RunOneMore(cfg, Run(cfg, s, xs), ys, e);
  }

  /** Steps no assumption on runs speaks about. */
  predicate Unconditional(es: seq<Event>) {
    forall e :: e in es ==> !e.InitUpload? && !e.Override?
  }

  /** A round keeps the tables and the store in order, every account within its quota, and forgets no object. */
  lemma {:induction false} RoundKeeps(cfg: Config, s: Sys, es: seq<Event>)
    requires Inv(cfg, s) && WithinQuota(cfg, s.db) && NoLeak(s.db)
    requires Unconditional(es) && FinishesFollowPurges(es)
    ensures var s' := Run(cfg, s, es); Inv(cfg, s') && WithinQuota(cfg, s'.db) && NoLeak(s'.db)
  {
    RunKeeps(cfg, s, es);
    RunKeepsQuota(cfg, s, es);
    PromptRunNeverLeaks(cfg, s, es);
  }

  /** And a system that was reached by an admitted run is still one after a round. */
  lemma {:induction false} RoundIsReachable(cfg: Config, s: Sys, es: seq<Event>)
    requires Reachable(cfg, s) && Unconditional(es)
    ensures Reachable(cfg, Run(cfg, s, es))
  {
    var free, done :| AllAssumed(cfg, EmptySystem(free), done) && s == Run(cfg, EmptySystem(free), done);
    var all := done + es;
    RunsJoin(cfg, EmptySystem(free), done, es);
    forall i | 0 <= i < |all|
      ensures Assumed(Run(cfg, EmptySystem(free), all[..i]), all[i])
    {
      if i < |done| {
        assert all[..i] == done[..i];
      } else {
        assert all[i] in es;
      }
    }
    assert AllAssumed(cfg, EmptySystem(free), all);
  }

  // Listed keys.

  datatype ListedKey = ListedKey(key: nat, aged: bool)

  function KeyEvents(keys: seq<ListedKey>): (es: seq<Event>)
    ensures |es| == |keys| && Unconditional(es) && FinishesFollowPurges(es)
  {
    seq(|keys|, i requires 0 <= i < |keys| => SweepKey(keys[i].key, keys[i].aged, false))
  }

  /** A purged row whose bytes are still there, as a crashed completion followed by an abort leaves one. */
  ghost predicate Leftover(s: Sys, key: nat) {
    key < |s.db.objects| && s.db.objects[key].state == PURGED && !Referenced(s.db, key) && key in s.store.objects
  }

  ghost predicate Clears(s: Sys, keys: seq<ListedKey>, key: nat) {
    Leftover(s, key) && exists i :: 0 <= i < |keys| && keys[i].key == key
  }

  lemma KeyCleared(cfg: Config, s: Sys, k: ListedKey)
    requires Inv(cfg, s)
    ensures var s' := SweepKeyTx(s, k.key, k.aged, false);
      && Inv(cfg, s') && s'.db == s.db
      && s'.store.objects.Keys == s.store.objects.Keys - (if Leftover(s, k.key) then {k.key} else {})
  {
    SweepKeyKeeps(cfg, s, k.key, k.aged, false);
    if k.key in s.store.objects {
      assert ObjectOk(cfg, s.db.uploads, k.key, s.store.objects[k.key]);
    }
  }

  lemma ClearsOneMore(s: Sys, keys: seq<ListedKey>)
    requires |keys| > 0
    ensures var n := |keys| - 1;
      forall key: nat :: Clears(s, keys, key) <==> Clears(s, keys[..n], key) || (Leftover(s, key) && key == keys[n].key)
  {
    var n := |keys| - 1;
    forall key: nat
      ensures Clears(s, keys, key) <==> Clears(s, keys[..n], key) || (Leftover(s, key) && key == keys[n].key)
    {
      if i :| 0 <= i < n && keys[i].key == key {
        assert keys[..n][i].key == key;
      }
    }
  }

  /** The bytes of the listed leftovers are gone, nothing else has changed. */
  ghost predicate Cleared(s: Sys, s': Sys, keys: seq<ListedKey>) {
    && s'.db == s.db
    && forall key: nat :: key in s'.store.objects <==> key in s.store.objects && !Clears(s, keys, key)
  }

  lemma ClearOneMore(cfg: Config, s: Sys, mid: Sys, keys: seq<ListedKey>)
    requires |keys| > 0 && Inv(cfg, mid) && Cleared(s, mid, keys[..|keys| - 1])
    ensures var last := keys[|keys| - 1]; Cleared(s, SweepKeyTx(mid, last.key, last.aged, false), keys)
  {
    KeyCleared(cfg, mid, keys[|keys| - 1]);
    ClearsOneMore(s, keys);
  }

  lemma {:induction false} LastKey(cfg: Config, s: Sys, keys: seq<ListedKey>)
    requires |keys| > 0
    ensures var last := keys[|keys| - 1];
      Run(cfg, s, KeyEvents(keys)) ==
        SweepKeyTx(Run(cfg, s, KeyEvents(keys[..|keys| - 1])), last.key, last.aged, false)
  {
    var before, k := KeyEvents(keys[..|keys| - 1]), keys[|keys| - 1];
    assert KeyEvents(keys) == before + [SweepKey(k.key, k.aged, false)];
    RunOneMore(cfg, s, before, SweepKey(k.key, k.aged, false));
  }

  /** A pass over listed keys removes exactly the bytes of the listed leftovers, and no row changes. */
  lemma {:induction false} PassClearsLeftovers(cfg: Config, s: Sys, keys: seq<ListedKey>)
    requires Inv(cfg, s)
    ensures Inv(cfg, Run(cfg, s, KeyEvents(keys))) && Cleared(s, Run(cfg, s, KeyEvents(keys)), keys)
  {
    if |keys| > 0 {
      var before, last := keys[..|keys| - 1], keys[|keys| - 1];
      PassClearsLeftovers(cfg, s, before);
      LastKey(cfg, s, keys);
      ClearOneMore(cfg, s, Run(cfg, s, KeyEvents(before)), keys);
      SweepKeyKeeps(cfg, Run(cfg, s, KeyEvents(before)), last.key, last.aged, false);
    }
  }

  // Listed multipart sessions.

  datatype ListedSession = ListedSession(session: nat, aged: bool)

  function SessionEvents(sessions: seq<ListedSession>): (es: seq<Event>)
    ensures |es| == |sessions| && Unconditional(es) && FinishesFollowPurges(es)
  {
    seq(|sessions|, i requires 0 <= i < |sessions| => SweepSession(sessions[i].session, sessions[i].aged))
  }

  predicate Recorded(db: Db, session: nat) {
    exists u :: 0 <= u < |db.uploads| && db.uploads[u].session == Some(session)
  }

  predicate Aborts(db: Db, sessions: seq<ListedSession>, id: nat) {
    !Recorded(db, id) && exists i :: 0 <= i < |sessions| && sessions[i] == ListedSession(id, true)
  }

  /** The old sessions no upload records are gone, all else is as it was. */
  ghost predicate Aborted(s: Sys, s': Sys, sessions: seq<ListedSession>) {
    && s'.db == s.db && s'.store.objects == s.store.objects
    && (forall id: nat :: id in s'.store.sessions <==> id in s.store.sessions && !Aborts(s.db, sessions, id))
    && (forall id: nat :: id in s'.store.sessions ==> s'.store.sessions[id] == s.store.sessions[id])
  }

  lemma AbortOneMore(s: Sys, mid: Sys, sessions: seq<ListedSession>)
    requires |sessions| > 0 && Aborted(s, mid, sessions[..|sessions| - 1])
    ensures var last := sessions[|sessions| - 1]; Aborted(s, SweepSessionTx(mid, last.session, last.aged), sessions)
  {
    var n := |sessions| - 1;
    forall id: nat
      ensures Aborts(s.db, sessions, id) <==>
        Aborts(s.db, sessions[..n], id) || (!Recorded(s.db, id) && sessions[n] == ListedSession(id, true))
    {
      if i :| 0 <= i < n && sessions[i] == ListedSession(id, true) {
        assert sessions[..n][i] == ListedSession(id, true);
      }
    }
  }

  lemma {:induction false} LastSession(cfg: Config, s: Sys, sessions: seq<ListedSession>)
    requires |sessions| > 0
    ensures var last := sessions[|sessions| - 1];
      Run(cfg, s, SessionEvents(sessions)) ==
        SweepSessionTx(Run(cfg, s, SessionEvents(sessions[..|sessions| - 1])), last.session, last.aged)
  {
    assert SessionEvents(sessions)[..|sessions| - 1] == SessionEvents(sessions[..|sessions| - 1]);
  }

  /** A pass over listed sessions aborts exactly the old ones no upload records. */
  lemma {:induction false} PassAbortsUnrecorded(cfg: Config, s: Sys, sessions: seq<ListedSession>)
    ensures Aborted(s, Run(cfg, s, SessionEvents(sessions)), sessions)
  {
    if |sessions| > 0 {
      PassAbortsUnrecorded(cfg, s, sessions[..|sessions| - 1]);
      LastSession(cfg, s, sessions);
      AbortOneMore(s, Run(cfg, s, SessionEvents(sessions[..|sessions| - 1])), sessions);
    }
  }

  // Object rows.

  function RowEvents(n: nat): (es: seq<Event>)
    ensures |es| == n && Unconditional(es) && FinishesFollowPurges(es)
  {
    seq(n, o requires 0 <= o < n => SweepRow(o))
  }

  function CheckedRow(row: ObjectRow, present: bool): ObjectRow {
    if row.state == AVAILABLE && !present then row.(state := BLOCKED) else row
  }

  /** The first n rows are checked against the store, nothing else has changed. */
  predicate Checked(s: Sys, s': Sys, n: nat) {
    && s' == s.(db := s.db.(objects := s'.db.objects)) && |s'.db.objects| == |s.db.objects|
    && (forall o :: 0 <= o < |s.db.objects| && o < n ==>
          s'.db.objects[o] == CheckedRow(s.db.objects[o], o in s.store.objects))
    && (forall o :: 0 <= o < |s.db.objects| && o >= n ==> s'.db.objects[o] == s.db.objects[o])
  }

  lemma CheckOneMore(s: Sys, mid: Sys, o: nat)
    requires o < |s.db.objects| && Checked(s, mid, o)
    ensures Checked(s, SweepRowTx(mid, o), o + 1)
  {
  }

  lemma {:induction false} LastRow(cfg: Config, s: Sys, o: nat)
    ensures Run(cfg, s, RowEvents(o + 1)) == SweepRowTx(Run(cfg, s, RowEvents(o)), o)
  {
    assert RowEvents(o + 1)[..o] == RowEvents(o);
  }

  lemma {:induction false} RowsChecked(cfg: Config, s: Sys, n: nat)
    requires n <= |s.db.objects|
    ensures Checked(s, Run(cfg, s, RowEvents(n)), n)
  {
    if n > 0 {
      RowsChecked(cfg, s, n - 1);
      LastRow(cfg, s, n - 1);
      CheckOneMore(s, Run(cfg, s, RowEvents(n - 1)), n - 1);
    }
  }

  /**
   After the check of all rows no AVAILABLE row lacks its bytes. Rows change only by being blocked, and
   none that a live file or a version needs is: nobody loses access to anything.
   */
  lemma {:induction false} RowCheckBlocksOnlyUnneeded(cfg: Config, s: Sys, o: nat)
    requires Inv(cfg, s) && o < |s.db.objects|
    ensures var s' := Run(cfg, s, RowEvents(|s.db.objects|));
      && o < |s'.db.objects|
      && (s'.db.objects[o].state == AVAILABLE <==> s.db.objects[o].state == AVAILABLE && o in s.store.objects)
      && (s'.db.objects[o] != s.db.objects[o] ==> !Referenced(s.db, o) && s'.db.objects[o].state == BLOCKED)
  {
    RowsChecked(cfg, s, |s.db.objects|);
    if s.db.objects[o].state == AVAILABLE && Referenced(s.db, o) {
      NeededIsPresent(cfg, s, o);
    }
  }

  lemma NeededIsPresent(cfg: Config, s: Sys, o: nat)
    requires Inv(cfg, s) && o < |s.db.objects| && Referenced(s.db, o) && s.db.objects[o].state != PROCESSING
    ensures o in s.store.objects
  {
    if f :| 0 <= f < |s.db.files| && s.db.files[f].obj == o && Live(s.db.files[f]) {
      assert FileOk(s.db.uploads, f, s.db.files[f]);
      assert UploadRowsOk(s.db.objects, s.db.files, o, s.db.uploads[o]);
      assert Charged(s.db.files[f]);
    }
  }

  // Files whose time is over.

  function EndEvents(files: seq<nat>, why: EndReason): (es: seq<Event>)
    ensures |es| == |files| && Unconditional(es) && FinishesFollowPurges(es)
  {
    seq(|files|, i requires 0 <= i < |files| => EndFile(files[i], why))
  }

  /** What a cleanup does to a file it lists: trash that was restored in the meantime is spared. */
  predicate Ends(file: FileRow, why: EndReason) {
    file.state != PROCESSING && (why == TrashExpired ==> file.state == DELETED)
  }

  predicate EndedFile(was: FileRow, file: FileRow, why: EndReason) {
    && file.obj == was.obj && file.owner == was.owner
    && (Ends(was, why) ==> file.state == if why == FileExpired then EXPIRED else PURGED)
    && (!Ends(was, why) ==> file == was)
  }

  /** What a cleanup query listed is over, its object is queued, and no other file has changed. */
  ghost predicate FilesEnded(a: Db, b: Db, files: seq<nat>, why: EndReason) {
    && |b.files| == |a.files| && |b.objects| == |a.objects|
    && b.uploads == a.uploads && b.versions == a.versions
    && (forall f {:trigger b.files[f]} :: 0 <= f < |a.files| ==>
          if f in files then EndedFile(a.files[f], b.files[f], why) else b.files[f] == a.files[f])
    && (forall f {:trigger a.files[f]} :: 0 <= f < |a.files| && f in files && a.files[f].state != PROCESSING ==>
          a.files[f].obj < |a.objects| ==> JobActive(b.objects[a.files[f].obj]))
  }

  lemma {:induction false} LastFile(cfg: Config, s: Sys, files: seq<nat>, why: EndReason)
    requires |files| > 0
    ensures var mid := Run(cfg, s, EndEvents(files[..|files| - 1], why));
      Run(cfg, s, EndEvents(files, why)) == mid.(db := EndFileTx(mid.db, files[|files| - 1], why))
  {
    var before, last := EndEvents(files[..|files| - 1], why), EndFile(files[|files| - 1], why);
    assert EndEvents(files, why) == before + [last];
    RunOneMore(cfg, s, before, last);
  }

  lemma {:induction false} EndingEndsFiles(cfg: Config, s: Sys, files: seq<nat>, why: EndReason)
    requires forall f :: 0 <= f < |s.db.files| ==> s.db.files[f].obj < |s.db.objects|
    ensures var s' := Run(cfg, s, EndEvents(files, why)); s'.store == s.store && FilesEnded(s.db, s'.db, files, why)
  {
    if |files| > 0 {
      var before := files[..|files| - 1];
      EndingEndsFiles(cfg, s, before, why);
      LastFile(cfg, s, files, why);
      EndOneMore(s.db, Run(cfg, s, EndEvents(before, why)).db, before, files[|files| - 1], why);
      assert files == before + [files[|files| - 1]];
    }
  }

  lemma EndOneMore(a: Db, b: Db, files: seq<nat>, g: nat, why: EndReason)
    requires FilesEnded(a, b, files, why)
    requires forall f :: 0 <= f < |a.files| ==> a.files[f].obj < |a.objects|
    ensures FilesEnded(a, EndFileTx(b, g, why), files + [g], why)
  {
  }

  // Stale uploads.

  /** An upload selected as stale, with what a completion would find out about it. */
  datatype Stale = Stale(u: nat, verdict: Verdict)

  /** The store holds the whole object of the upload. */
  predicate StoredWhole(s: Sys, u: nat) {
    && u < |s.db.uploads| && s.db.uploads[u].obj in s.store.objects
    && |s.store.objects[s.db.uploads[u].obj]| == s.db.uploads[u].size
  }

  /** What the worker does about one of them: finish it if its object is complete, else give it up. */
  function StaleEvent(s: Sys, x: Stale): (e: Event)
    ensures !e.InitUpload? && !e.Override? && !e.FinishPurge?
  {
    if StoredWhole(s, x.u) then Finalize(x.u, s.db.uploads[x.u].owner, [], false, x.verdict) else TimeOut(x.u, false)
  }

  /** An upload whose object is missing or of another size is given up, any other one is completed for its owner. */
  lemma StaleChoice(s: Sys, x: Stale)
    requires x.u < |s.db.uploads|
    ensures var row := s.db.uploads[x.u];
      StaleEvent(s, x) ==
        if row.obj !in s.store.objects || |s.store.objects[row.obj]| != row.size then TimeOut(x.u, false)
        else Finalize(x.u, row.owner, [], false, x.verdict)
  {
  }

  predicate StaleSettled(cfg: Config, s: Sys, x: Stale) {
    StoredWhole(s, x.u) ==> FinalizeTx(cfg, s, x.u, s.db.uploads[x.u].owner, [], false, x.verdict).1.Finished?
  }

  /** The steps of the loop. A completion that is refused makes the whole cleanup fail; what was done stays. */
  function StaleEvents(cfg: Config, s: Sys, stale: seq<Stale>): seq<Event>
    decreases |stale|
  {
    if |stale| == 0 then []
    else
      var e := StaleEvent(s, stale[0]);
      [e] + if StaleSettled(cfg, s, stale[0]) then StaleEvents(cfg, Apply(cfg, s, e), stale[1..]) else []
  }

  predicate AllSettled(cfg: Config, s: Sys, stale: seq<Stale>)
    decreases |stale|
  {
    |stale| > 0 ==>
      StaleSettled(cfg, s, stale[0]) && AllSettled(cfg, Apply(cfg, s, StaleEvent(s, stale[0])), stale[1..])
  }

  /** The loop from its turn i on. */
  lemma {:induction false} StaleEventsUnfold(cfg: Config, s: Sys, stale: seq<Stale>, i: nat, done: seq<Event>)
    requires i < |stale|
    ensures done + StaleEvents(cfg, s, stale[i..]) ==
      done + [StaleEvent(s, stale[i])] + StaleEventsAfter(cfg, s, stale, i)
  {
    assert stale[i..][1..] == stale[i + 1..];
  }

  function StaleEventsAfter(cfg: Config, s: Sys, stale: seq<Stale>, i: nat): seq<Event>
    requires i < |stale|
  {
    if !StaleSettled(cfg, s, stale[i]) then []
    else StaleEvents(cfg, Apply(cfg, s, StaleEvent(s, stale[i])), stale[i + 1..])
  }

  lemma {:induction false} AllSettledUnfolds(cfg: Config, s: Sys, stale: seq<Stale>, i: nat)
    requires i < |stale|
    ensures AllSettled(cfg, s, stale[i..]) <==>
      StaleSettled(cfg, s, stale[i]) && AllSettled(cfg, Apply(cfg, s, StaleEvent(s, stale[i])), stale[i + 1..])
  {
    assert stale[i..][1..] == stale[i + 1..];
  }

  lemma {:induction false} StaleEventsHarmless(cfg: Config, s: Sys, stale: seq<Stale>)
    ensures Unconditional(StaleEvents(cfg, s, stale)) && FinishesFollowPurges(StaleEvents(cfg, s, stale))
    decreases |stale|
  {
    if |stale| > 0 {
      StaleEventsHarmless(cfg, Apply(cfg, s, StaleEvent(s, stale[0])), stale[1..]);
    }
  }

  /** An upload that has ended although the store holds its object: no completion accepts it any more. */
  predicate Stuck(s: Sys, u: nat) {
    u < |s.db.uploads| && Ended(s.db.uploads[u]) && u in s.store.objects
  }

  /** One turn: it fails exactly for a stuck upload, settles any other, and makes no upload stuck or unstuck. */
  lemma StaleTurn(cfg: Config, s: Sys, x: Stale)
    requires Inv(cfg, s)
    ensures var s' := Apply(cfg, s, StaleEvent(s, x));
      && Inv(cfg, s') && s'.store.objects == s.store.objects && |s'.db.uploads| == |s.db.uploads|
      && UploadsStep(s.db.uploads, s'.db.uploads)
      && (StaleSettled(cfg, s, x) <==> !Stuck(s, x.u))
      && (forall u :: 0 <= u < |s.db.uploads| && u != x.u ==> s'.db.uploads[u] == s.db.uploads[u])
      && (x.u < |s.db.uploads| && !Stuck(s, x.u) ==>
            s'.db.uploads[x.u].state ==
              if s.db.uploads[x.u].state == COMPLETE || x.u in s.store.objects then COMPLETE else TIMED_OUT)
  {
    StepKeeps(cfg, s, StaleEvent(s, x));
    StepRespectsUploads(cfg, s, StaleEvent(s, x));
    if x.u < |s.db.uploads| {
      var row := s.db.uploads[x.u];
      assert UploadRowsOk(s.db.objects, s.db.files, x.u, row);
      if x.u in s.store.objects {
        assert ObjectOk(cfg, s.db.uploads, x.u, s.store.objects[x.u]);
        WholeTurn(cfg, s, x);
      }
    }
  }

  lemma WholeTurn(cfg: Config, s: Sys, x: Stale)
    requires Inv(cfg, s) && StoredWhole(s, x.u) && s.db.uploads[x.u].obj == x.u
    requires s.db.uploads[x.u].state != CREATED
    ensures var (s', r) := FinalizeTx(cfg, s, x.u, s.db.uploads[x.u].owner, [], false, x.verdict);
      && s'.store == s.store && |s'.db.uploads| == |s.db.uploads|
      && (r.Finished? <==> !Ended(s.db.uploads[x.u]))
      && (forall u :: 0 <= u < |s.db.uploads| && u != x.u ==> s'.db.uploads[u] == s.db.uploads[u])
      && (r.Finished? ==> s'.db.uploads[x.u].state == COMPLETE)
  {
    var row := s.db.uploads[x.u];
    assert UploadOk(cfg, row);
    assert UploadRowsOk(s.db.objects, s.db.files, x.u, row);
    if row.state in {UPLOADING, FAILED} {
      RetrySucceeds(cfg, s, x.u, [], x.verdict);
    }
  }

  /** Complete, if the store held its object, or given up. */
  predicate Settles(s: Sys, s': Sys, u: nat) {
    u < |s.db.uploads| ==>
      && u < |s'.db.uploads|
      && s'.db.uploads[u].state ==
           if s.db.uploads[u].state == COMPLETE || u in s.store.objects then COMPLETE else TIMED_OUT
  }

  /**
   The loop over stale uploads gets through exactly when none of them is stuck; then each of them is
   complete, if the store held its object, or given up.
   */
  lemma {:induction false} StaleRoundExactly(cfg: Config, s: Sys, stale: seq<Stale>)
    requires Inv(cfg, s)
    ensures var s' := Run(cfg, s, StaleEvents(cfg, s, stale));
      && |s'.db.uploads| == |s.db.uploads| && UploadsStep(s.db.uploads, s'.db.uploads)
      && (AllSettled(cfg, s, stale) <==> forall x :: x in stale ==> !Stuck(s, x.u))
      && (AllSettled(cfg, s, stale) ==> forall x :: x in stale ==> Settles(s, s', x.u))
    decreases |stale|
  {
    if |stale| > 0 {
      var x, rest := stale[0], stale[1..];
      var e := StaleEvent(s, x);
      var next := Apply(cfg, s, e);
      StaleTurn(cfg, s, x);
      assert stale == [x] + rest;
      assert Run(cfg, s, [e]) == next by {
        assert [e][..0] == [];
      }
      if StaleSettled(cfg, s, x) {
        StaleRoundExactly(cfg, next, rest);
        RunsJoin(cfg, s, [e], StaleEvents(cfg, next, rest));
        UploadsStepTransitive(s.db.uploads, next.db.uploads, Run(cfg, next, StaleEvents(cfg, next, rest)).db.uploads);
        StaleRest(s, next, Run(cfg, next, StaleEvents(cfg, next, rest)), x, rest);
      }
    }
  }

  /** The first turn changes nothing that matters to the later ones. */
  lemma StaleRest(s: Sys, next: Sys, last: Sys, x: Stale, rest: seq<Stale>)
    requires |next.db.uploads| == |s.db.uploads| && next.store.objects == s.store.objects
    requires forall u :: 0 <= u < |s.db.uploads| && u != x.u ==> next.db.uploads[u] == s.db.uploads[u]
    requires !Stuck(s, x.u) && Settles(s, next, x.u) && UploadsStep(next.db.uploads, last.db.uploads)
    ensures (forall y :: y in rest ==> !Stuck(next, y.u)) <==> (forall y :: y in rest ==> !Stuck(s, y.u))
    ensures Settles(s, last, x.u)
    ensures (forall y :: y in rest ==> Settles(next, last, y.u)) ==> forall y :: y in rest ==> Settles(s, last, y.u)
  {
    forall y: nat
      ensures Stuck(next, y) <==> Stuck(s, y)
    {
    }
    if x.u < |s.db.uploads| {
      assert UploadStep(next.db.uploads[x.u], last.db.uploads[x.u]);
    }
  }

  // The purge queue.

  /** Whether the job loop picks a job: `due` holds the failed ones with attempts left whose backoff is over. */
  predicate Picked(job: JobStatus, due: bool) {
    job == JobPending || (job == JobFailed && due)
  }

  /** One turn of the job loop for the purge job of an object: claim, purge, finish. */
  function PurgeJob(s: Sys, o: nat, due: bool): Sys {
    if o >= |s.db.objects| || !Picked(s.db.objects[o].purge, due) then s
    else
      var purged := PurgeTx(s.(db := ClaimTx(s.db, o)), o, false);
      purged.(db := FinishTx(purged.db, o, true))
  }

  /** A restarted worker goes through the purge jobs of the first n objects, and none of them fails. */
  function Drained(s: Sys, due: set<nat>, n: nat): Sys {
    if n == 0 then s.(db := RestartTx(s.db)) else PurgeJob(Drained(s, due, n - 1), n - 1, n - 1 in due)
  }

  function PurgeJobEvents(o: nat): seq<Event> {
    [ClaimPurge(o), RunPurge(o, false), FinishPurge(o, true)]
  }

  function DrainEvents(s: Sys, due: set<nat>, n: nat): seq<Event> {
    if n == 0 then [RestartWorker]
    else DrainEvents(s, due, n - 1) + TurnEvents(Drained(s, due, n - 1), n - 1, n - 1 in due)
  }

  lemma {:induction false} RunClaims(cfg: Config, s: Sys, es: seq<Event>, o: nat)
    ensures var before := Run(cfg, s, es); Run(cfg, s, es + [ClaimPurge(o)]) == before.(db := ClaimTx(before.db, o))
  {
    RunOneMore(cfg, s, es, ClaimPurge(o));
  }

  lemma {:induction false} RunPurges(cfg: Config, s: Sys, es: seq<Event>, o: nat)
    ensures Run(cfg, s, es + [RunPurge(o, false)]) == PurgeTx(Run(cfg, s, es), o, false)
  {
    RunOneMore(cfg, s, es, RunPurge(o, false));
  }

  lemma {:induction false} RunFinishes(cfg: Config, s: Sys, es: seq<Event>, o: nat)
    ensures var before := Run(cfg, s, es);
      Run(cfg, s, es + [FinishPurge(o, true)]) == before.(db := FinishTx(before.db, o, true))
  {
    RunOneMore(cfg, s, es, FinishPurge(o, true));
  }

  lemma {:induction false} JobRuns(cfg: Config, s: Sys, es: seq<Event>, o: nat)
    ensures var before := Run(cfg, s, es);
      var purged := PurgeTx(before.(db := ClaimTx(before.db, o)), o, false);
      Run(cfg, s, es + PurgeJobEvents(o)) == purged.(db := FinishTx(purged.db, o, true))
  {
    RunClaims(cfg, s, es, o);
    RunPurges(cfg, s, es + [ClaimPurge(o)], o);
    RunFinishes(cfg, s, es + [ClaimPurge(o)] + [RunPurge(o, false)], o);
    assert es + PurgeJobEvents(o) == es + [ClaimPurge(o)] + [RunPurge(o, false)] + [FinishPurge(o, true)];
  }

  /** The steps of the drain when it comes to object o. */
  function TurnEvents(s: Sys, o: nat, due: bool): seq<Event> {
    if o < |s.db.objects| && Picked(s.db.objects[o].purge, due) then PurgeJobEvents(o) else []
  }

  lemma {:induction false} TurnRuns(cfg: Config, s: Sys, es: seq<Event>, o: nat, due: bool)
    ensures PurgeJob(Run(cfg, s, es), o, due) == Run(cfg, s, es + TurnEvents(Run(cfg, s, es), o, due))
  {
    JobRuns(cfg, s, es, o);
    assert es + [] == es;
  }

  lemma {:induction false} DrainHarmless(s: Sys, due: set<nat>, n: nat)
    ensures Unconditional(DrainEvents(s, due, n)) && FinishesFollowPurges(DrainEvents(s, due, n))
  {
    if n > 0 {
      DrainHarmless(s, due, n - 1);
      HarmlessJoin(DrainEvents(s, due, n - 1), TurnEvents(Drained(s, due, n - 1), n - 1, n - 1 in due));
    }
  }

  /** Draining is a run; DrainHarmless says that it finishes every job right after its purge. */
  lemma {:induction false} DrainIsRun(cfg: Config, s: Sys, due: set<nat>, n: nat)
    ensures Drained(s, due, n) == Run(cfg, s, DrainEvents(s, due, n))
  {
    if n == 0 {
      DrainStarts(cfg, s);
    } else {
      DrainIsRun(cfg, s, due, n - 1);
      TurnRunsOn(cfg, s, DrainEvents(s, due, n - 1), Drained(s, due, n - 1), n - 1, n - 1 in due);
    }
  }

  lemma {:induction false} TurnRunsOn(cfg: Config, s: Sys, es: seq<Event>, now: Sys, o: nat, due: bool)
    requires now == Run(cfg, s, es)
    ensures PurgeJob(now, o, due) == Run(cfg, s, es + TurnEvents(now, o, due))
  {
    TurnRuns(cfg, s, es, o, due);
  }

  lemma {:induction false} DrainStarts(cfg: Config, s: Sys)
    ensures Run(cfg, s, [RestartWorker]) == s.(db := RestartTx(s.db))
  {
    assert [RestartWorker][..0] == [];
  }

  lemma HarmlessJoin(xs: seq<Event>, ys: seq<Event>)
    requires Unconditional(xs) && FinishesFollowPurges(xs) && Unconditional(ys) && FinishesFollowPurges(ys)
    ensures Unconditional(xs + ys) && FinishesFollowPurges(xs + ys)
  {
    var all: seq<Event> := xs + ys;
    forall i | 0 <= i < |all| && all[i].FinishPurge? && all[i].ok
      ensures i > 0 && all[i - 1] == RunPurge(all[i].o, false)
    {
      if i >= |xs| {
        assert ys[i - |xs|].FinishPurge?;
      }
    }
  }

  function Restarted(row: ObjectRow): ObjectRow {
    if row.purge == JobRunning then row.(purge := JobPending) else row
  }

  function DrainedRow(row: ObjectRow, due: bool, needed: bool): ObjectRow {
    if !Picked(Restarted(row).purge, due) then row
    else row.(purge := JobCompleted, state := if needed then row.state else PURGED)
  }

  lemma SameReferences(a: Db, b: Db, o: nat)
    requires a.files == b.files && a.versions == b.versions
    ensures Referenced(a, o) <==> Referenced(b, o)
  {
    assert (exists f :: 0 <= f < |a.files| && a.files[f].obj == o && Live(a.files[f])) <==>
           (exists f :: 0 <= f < |b.files| && b.files[f].obj == o && Live(b.files[f]));
  }

  lemma JobTurn(s: Sys, o: nat, due: bool)
    requires o < |s.db.objects| && s.db.objects[o].purge != JobRunning
    ensures PurgeJob(s, o, due).db ==
      s.db.(objects := s.db.objects[o := DrainedRow(s.db.objects[o], due, Referenced(s.db, o))])
  {
    SameReferences(s.db, ClaimTx(s.db, o), o);
  }

  /** Row x once the jobs of the first n objects are done. */
  predicate RowDrained(a: Db, b: Db, due: set<nat>, n: nat, x: nat) {
    && x < |a.objects| && x < |b.objects|
    && b.objects[x] ==
         if x < n then DrainedRow(a.objects[x], x in due, Referenced(a, x)) else Restarted(a.objects[x])
  }

  /** The jobs of the first n objects are done, those of the others wait. */
  ghost predicate RowsDrained(a: Db, b: Db, due: set<nat>, n: nat) {
    && b == a.(objects := b.objects) && |b.objects| == |a.objects|
    && forall x: nat {:trigger RowDrained(a, b, due, n, x)} :: x < |a.objects| ==> RowDrained(a, b, due, n, x)
  }

  lemma NextRowDrained(a: Db, s: Sys, due: set<nat>, o: nat)
    requires o < |a.objects| && RowsDrained(a, s.db, due, o)
    ensures RowsDrained(a, PurgeJob(s, o, o in due).db, due, o + 1)
  {
    var after, n := PurgeJob(s, o, o in due).db, o + 1;
    assert RowDrained(a, s.db, due, o, o);
    SameReferences(a, s.db, o);
    JobTurn(s, o, o in due);
    forall x: nat | x < |a.objects|
      ensures RowDrained(a, after, due, n, x)
    {
      assert RowDrained(a, s.db, due, o, x);
    }
  }

  lemma {:induction false} DrainedRows(s: Sys, due: set<nat>, n: nat)
    requires n <= |s.db.objects|
    ensures RowsDrained(s.db, Drained(s, due, n).db, due, n)
  {
    if n > 0 {
      DrainedRows(s, due, n - 1);
      NextRowDrained(s.db, Drained(s, due, n - 1), due, n - 1);
    } else {
      forall x: nat | x < |s.db.objects|
        ensures RowDrained(s.db, RestartTx(s.db), due, 0, x)
      {
      }
    }
  }

  /** An object whose purge job has failed and is not to be tried again. */
  predicate GivenUp(row: ObjectRow, due: bool) {
    row.state != PURGED && row.purge == JobFailed && !due
  }

  /**
   Draining the queue leaves exactly the referenced objects unpurged, and besides them those whose job
   has failed and is not to be tried again.
   */
  lemma {:induction false} DrainedIsExact(cfg: Config, s: Sys, due: set<nat>, o: nat)
    requires Inv(cfg, s) && NoLeak(s.db) && o < |s.db.objects|
    ensures var s' := Drained(s, due, |s.db.objects|);
      && o < |s'.db.objects|
      && (Referenced(s'.db, o) <==> Referenced(s.db, o))
      && (s'.db.objects[o].state != PURGED <==> Referenced(s.db, o) || GivenUp(s.db.objects[o], o in due))
  {
    DrainedRows(s, due, |s.db.objects|);
    assert RowDrained(s.db, Drained(s, due, |s.db.objects|).db, due, |s.db.objects|, o);
    SameReferences(s.db, Drained(s, due, |s.db.objects|).db, o);
    assert s.db.objects[o].state == PURGED || Referenced(s.db, o) || JobActive(s.db.objects[o]);
    if Referenced(s.db, o) {
      ReferencedIsUnpurged(cfg, s, o);
    }
  }
}
