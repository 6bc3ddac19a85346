/** Version history: replacing, restoring and pruning (apps/api/src/cloud.ts). */
module Versions {
  import opened Base
  import opened Catalog
  import opened Transactions
  import opened Integrity

  /** Pruning deletes exactly the versions that are not kept and reorders nothing. */
  lemma {:induction false} SurvivorsExact(versions: seq<VersionRow>, among: seq<VersionRow>, f: nat, r: Retention)
    ensures forall w :: w in Survivors(versions, among, f, r) <==> w in among && Kept(versions, w, f, r)
    ensures VersionsDistinct(among) ==> VersionsDistinct(Survivors(versions, among, f, r))
  {
    if |among| > 0 {
      var n := |among| - 1;
      SurvivorsExact(versions, among[..n], f, r);
      var before, all := Survivors(versions, among[..n], f, r), Survivors(versions, among, f, r);
      assert among == among[..n] + [among[n]];
      if VersionsDistinct(among) {
        forall i, j | 0 <= i < j < |all|
          ensures all[i].id != all[j].id
          ensures all[i].file == all[j].file ==> all[i].revision != all[j].revision
        {
          assert before[i] in among[..n];
          if j == |before| {
            var k :| 0 <= k < n && among[k] == before[i];
          }
        }
      }
    }
  }

  lemma PruneKeeps(cfg: Config, s: Sys, f: nat, now: int)
    requires Inv(cfg, s)
    ensures PruneTx(cfg, s.db, f, now).Some? ==> Inv(cfg, s.(db := PruneTx(cfg, s.db, f, now).value))
  {
    var p := PruneTx(cfg, s.db, f, now);
    if p.Some? {
      var r := RetentionFor(cfg, s.db.files[f], now);
      RowsFrame(cfg, s, s.db.(objects := p.value.objects));
      SurvivorsExact(s.db.versions, s.db.versions, f, r);
      var kept := p.value.versions;
      forall v | 0 <= v < |kept|
        ensures VersionOk(s.db.uploads, s.db.files, kept[v])
        ensures BytesPresent(p.value.objects, s.store, kept[v].obj)
      {
        assert kept[v] in s.db.versions;
        var i :| 0 <= i < |s.db.versions| && s.db.versions[i] == kept[v];
        assert VersionOk(s.db.uploads, s.db.files, s.db.versions[i]);
      }
    }
  }

  lemma {:induction false} FoundVersion(versions: seq<VersionRow>, id: nat, f: nat)
    ensures FindVersion(versions, id, f).Some? ==>
      FindVersion(versions, id, f).value in versions && FindVersion(versions, id, f).value.id == id
      && FindVersion(versions, id, f).value.file == f
    ensures FindVersion(versions, id, f).None? ==>
      forall v :: v in versions ==> v.id != id || v.file != f
  {
    if |versions| > 0 && !(versions[0].id == id && versions[0].file == f) {
      FoundVersion(versions[1..], id, f);
    }
  }

  /** Any content a replace may switch to belongs to a completed upload and has its bytes. */
  lemma SourceIsSafe(cfg: Config, s: Sys, owner: nat, f: nat, source: Source, visible: bool)
    requires Inv(cfg, s) && SourceContent(s.db, owner, f, source, visible).Some?
    ensures var o := SourceContent(s.db, owner, f, source, visible).value.obj;
      o < |s.db.uploads| && s.db.uploads[o].state == COMPLETE && BytesPresent(s.db.objects, s.store, o)
  {
    match source
    case FromFile(g) =>
      assert FileOk(s.db.uploads, g, s.db.files[g]);
      var o := s.db.files[g].obj;
      assert UploadRowsOk(s.db.objects, s.db.files, o, s.db.uploads[o]);
    case FromVersion(id) =>
      FoundVersion(s.db.versions, id, f);
      var v := FindVersion(s.db.versions, id, f).value;
      var i :| 0 <= i < |s.db.versions| && s.db.versions[i] == v;
      assert VersionOk(s.db.uploads, s.db.files, s.db.versions[i]);
  }

  lemma SwitchKeeps(cfg: Config, s: Sys, f: nat, content: Content, id: nat, now: int)
    requires Inv(cfg, s) && f < |s.db.files| && s.db.files[f].state == AVAILABLE
    requires content.obj < |s.db.uploads| && s.db.uploads[content.obj].state == COMPLETE
    requires BytesPresent(s.db.objects, s.store, content.obj)
    requires !VersionClash(s.db, f, id)
    ensures Inv(cfg, s.(db := Switched(s.db, f, content, id, now)))
  {
    var db, db' := s.db, Switched(s.db, f, content, id, now);
    assert FileOk(db.uploads, f, db.files[f]);
    var o := db.files[f].obj;
    assert UploadRowsOk(db.objects, db.files, o, db.uploads[o]);
    forall x | 0 <= x < |db'.uploads|
      ensures UploadRowsOk(db'.objects, db'.files, x, db'.uploads[x])
    {
      assert UploadRowsOk(db.objects, db.files, x, db.uploads[x]);
    }
    forall g | 0 <= g < |db'.files|
      ensures FileOk(db'.uploads, g, db'.files[g])
    {
      assert FileOk(db.uploads, g, db.files[g]);
    }
    forall v | 0 <= v < |db'.versions|
      ensures VersionOk(db'.uploads, db'.files, db'.versions[v])
      ensures BytesPresent(db'.objects, s.store, db'.versions[v].obj)
    {
      if v < |db.versions| {
        assert VersionOk(db.uploads, db.files, db.versions[v]);
      }
    }
  }

  /** A replace that changes anything is a switch followed by a pruning that fits the quota. */
  lemma ReplaceShape(cfg: Config, db: Db, owner: nat, f: nat, expected: nat, source: Source, visible: bool,
                     id: nat, now: int)
    requires ReplaceTx(cfg, db, owner, f, expected, source, visible, id, now).Some?
    requires ReplaceTx(cfg, db, owner, f, expected, source, visible, id, now).value != db
    ensures f < |db.files| && db.files[f].owner == owner
    ensures db.files[f].state == AVAILABLE && db.files[f].revision == expected
    ensures SourceContent(db, owner, f, source, visible).Some? && !VersionClash(db, f, id)
    ensures SourceContent(db, owner, f, source, visible).value.obj != db.files[f].obj
    ensures var after := ReplaceTx(cfg, db, owner, f, expected, source, visible, id, now).value;
      var content := SourceContent(db, owner, f, source, visible).value;
      && PruneTx(cfg, Switched(db, f, content, id, now), f, now) == Some(after)
      && Balance(after, owner) <= cfg.policy(owner).storageBytes
  {
  }

  lemma ReplaceKeeps(cfg: Config, s: Sys, owner: nat, f: nat, expected: nat, source: Source, visible: bool,
                     id: nat, now: int)
    requires Inv(cfg, s)
    requires ReplaceTx(cfg, s.db, owner, f, expected, source, visible, id, now).Some?
    ensures Inv(cfg, s.(db := ReplaceTx(cfg, s.db, owner, f, expected, source, visible, id, now).value))
  {
    var after := ReplaceTx(cfg, s.db, owner, f, expected, source, visible, id, now).value;
    if after != s.db {
      ReplaceShape(cfg, s.db, owner, f, expected, source, visible, id, now);
      SourceIsSafe(cfg, s, owner, f, source, visible);
      var content := SourceContent(s.db, owner, f, source, visible).value;
      SwitchKeeps(cfg, s, f, content, id, now);
      SwitchThenPrune(cfg, s, f, content, id, now);
      assert Some(after) == PruneTx(cfg, Switched(s.db, f, content, id, now), f, now);
    }
  }

  lemma SwitchThenPrune(cfg: Config, s: Sys, f: nat, content: Content, id: nat, now: int)
    requires f < |s.db.files| && Inv(cfg, s.(db := Switched(s.db, f, content, id, now)))
    ensures PruneTx(cfg, Switched(s.db, f, content, id, now), f, now).Some?
    ensures Inv(cfg, s.(db := PruneTx(cfg, Switched(s.db, f, content, id, now), f, now).value))
  {
    PruneKeeps(cfg, s.(db := Switched(s.db, f, content, id, now)), f, now);
  }

  /** UNIQUE(file_id, revision) is never violated: only a reused row id could clash. */
  lemma RevisionNeverClashes(cfg: Config, s: Sys, f: nat, id: nat)
    requires Inv(cfg, s) && f < |s.db.files|
    requires forall v :: v in s.db.versions ==> v.id != id
    ensures !VersionClash(s.db, f, id)
  {
    forall i | 0 <= i < |s.db.versions|
      ensures s.db.versions[i].id != id
      ensures s.db.versions[i].file == f ==> s.db.versions[i].revision != s.db.files[f].revision
    {
      assert VersionOk(s.db.uploads, s.db.files, s.db.versions[i]);
      assert s.db.versions[i] in s.db.versions;
    }
  }

  // What pruning keeps.

  /** Nothing older survives a newer version of the same file. */
  lemma {:induction false} NewerRanksLower(versions: seq<VersionRow>, w: VersionRow, v: VersionRow)
    requires Newer(w, v)
    ensures NewerCount(versions, w) <= NewerCount(versions, v)
  {
    if |versions| > 0 {
      NewerRanksLower(versions[..|versions| - 1], w, v);
    }
  }

  lemma {:induction false} PruneKeepsNewest(versions: seq<VersionRow>, f: nat, r: Retention, w: VersionRow,
                                            v: VersionRow)
    requires w.file == v.file == f && w in versions && Newer(w, v)
    requires v in Survivors(versions, versions, f, r)
    ensures w in Survivors(versions, versions, f, r)
  {
    SurvivorsExact(versions, versions, f, r);
    NewerRanksLower(versions, w, v);
  }

  function OfFile(versions: seq<VersionRow>, f: nat): seq<VersionRow> {
    if |versions| == 0 then []
    else
      OfFile(versions[..|versions| - 1], f) +
      (if versions[|versions| - 1].file == f then [versions[|versions| - 1]] else [])
  }

  lemma {:induction false} OfFileExact(versions: seq<VersionRow>, f: nat)
    ensures forall w :: w in OfFile(versions, f) <==> w in versions && w.file == f
    ensures VersionsDistinct(versions) ==> VersionsDistinct(OfFile(versions, f))
  {
    if |versions| > 0 {
      var n := |versions| - 1;
      OfFileExact(versions[..n], f);
      var before, all := OfFile(versions[..n], f), OfFile(versions, f);
      assert versions == versions[..n] + [versions[n]];
      if VersionsDistinct(versions) {
        forall i, j | 0 <= i < j < |all|
          ensures all[i].id != all[j].id
          ensures all[i].file == all[j].file ==> all[i].revision != all[j].revision
        {
          assert before[i] in versions[..n];
          if j == |before| {
            var k :| 0 <= k < n && versions[k] == before[i];
          }
        }
      }
    }
  }

  /** The last of several versions of one file in the retention order. */
  lemma {:induction false} OldestExists(versions: seq<VersionRow>, f: nat) returns (oldest: VersionRow)
    requires |versions| > 0 && VersionsDistinct(versions)
    requires forall v :: v in versions ==> v.file == f
    ensures oldest in versions
    ensures forall w :: w in versions && w != oldest ==> Newer(w, oldest)
  {
    var n := |versions| - 1;
    var last := versions[n];
    assert versions == versions[..n] + [last];
    if n == 0 {
      oldest := last;
    } else {
      var before := OldestExists(versions[..n], f);
      assert before in versions[..n];
      assert before.id != last.id;
      oldest := if Newer(last, before) then before else last;
    }
  }

  lemma {:induction false} AllOthersNewer(versions: seq<VersionRow>, v: VersionRow)
    requires VersionsDistinct(versions)
    requires forall w :: w in versions && w != v ==> Newer(w, v)
    ensures NewerCount(versions, v) >= |versions| - (if v in versions then 1 else 0)
  {
    if |versions| > 0 {
      var n := |versions| - 1;
      assert versions == versions[..n] + [versions[n]];
      AllOthersNewer(versions[..n], v);
      if versions[n] == v {
        forall k | 0 <= k < n
          ensures versions[k] != v
        {
        }
        assert v !in versions[..n];
      }
    }
  }

  lemma {:induction false} CountOneMore(versions: seq<VersionRow>, last: VersionRow, f: nat, v: VersionRow)
    ensures NewerCount(OfFile(versions + [last], f), v) ==
      NewerCount(OfFile(versions, f), v) + (if last.file == f && Newer(last, v) then 1 else 0)
  {
    var o := OfFile(versions, f);
    assert (versions + [last])[..|versions|] == versions && (o + [last])[..|o|] == o;
    assert OfFile(versions + [last], f) == if last.file == f then o + [last] else o;
  }

  /** Ranks can only drop when versions are taken away. */
  lemma {:induction false} CountInSurvivors(versions: seq<VersionRow>, among: seq<VersionRow>, f: nat, r: Retention,
                                            v: VersionRow)
    ensures NewerCount(OfFile(Survivors(versions, among, f, r), f), v) <= NewerCount(among, v)
  {
    if |among| > 0 {
      var n := |among| - 1;
      var fewer := Survivors(versions, among[..n], f, r);
      CountInSurvivors(versions, among[..n], f, r, v);
      if Kept(versions, among[n], f, r) {
        CountOneMore(fewer, among[n], f, v);
        assert Survivors(versions, among, f, r) == fewer + [among[n]];
      } else {
        assert Survivors(versions, among, f, r) == fewer;
      }
    }
  }

  /** After pruning a file has at most the retained number of versions, all within the retention age. */
  lemma {:induction false} PruneBounds(versions: seq<VersionRow>, f: nat, r: Retention)
    requires VersionsDistinct(versions) && r.count >= 0
    ensures var kept := OfFile(Survivors(versions, versions, f, r), f);
      |kept| <= r.count && forall v :: v in kept ==> v.created >= r.cutoff
  {
    var survivors := Survivors(versions, versions, f, r);
    var kept := OfFile(survivors, f);
    SurvivorsExact(versions, versions, f, r);
    OfFileExact(survivors, f);
    if |kept| > 0 {
      var oldest := OldestExists(kept, f);
      AllOthersNewer(kept, oldest);
      CountInSurvivors(versions, versions, f, r, oldest);
    }
  }

  /** A version that goes was either outnumbered by newer ones or too old, and its object is queued for purging. */
  lemma {:induction false} PruneDropsForAReason(cfg: Config, db: Db, f: nat, now: int, v: VersionRow)
    requires f < |db.files| && v in db.versions && v.obj < |db.objects|
    requires v !in PruneTx(cfg, db, f, now).value.versions
    ensures v.file == f
    ensures var r := RetentionFor(cfg, db.files[f], now);
      NewerCount(db.versions, v) >= r.count || v.created < r.cutoff
    ensures PruneTx(cfg, db, f, now).value.objects[v.obj].purge in {JobPending, JobRunning}
  {
    var r := RetentionFor(cfg, db.files[f], now);
    SurvivorsExact(db.versions, db.versions, f, r);
    var i :| 0 <= i < |db.versions| && db.versions[i] == v;
    assert DropsObject(db.versions, f, r, v.obj);
  }

  // What an account's limits mean for one file.

  /** The versions of file f. */
  function HistoryOf(db: Db, f: nat): seq<VersionRow> {
    OfFile(db.versions, f)
  }

  /** A version is within both ages, the account's and the site's, counted in days of 86400000 milliseconds. */
  predicate WithinAges(cfg: Config, owner: nat, v: VersionRow, now: int) {
    && now - v.created <= cfg.policy(owner).versionDays * 86400000
    && now - v.created <= cfg.maxVersionDays * 86400000
  }

  /** The versions of v's file made after v; of those made at the same time, the ones with a larger id. */
  function Later(versions: seq<VersionRow>, v: VersionRow): set<VersionRow> {
    set w | w in versions && w.file == v.file && (w.created > v.created || (w.created == v.created && w.id > v.id))
  }

  lemma {:induction false} RankIsCount(versions: seq<VersionRow>, v: VersionRow)
    requires VersionsDistinct(versions)
    ensures NewerCount(versions, v) == |Later(versions, v)|
  {
    if |versions| > 0 {
      var n := |versions| - 1;
      var last := versions[n];
      RankIsCount(versions[..n], v);
      assert versions == versions[..n] + [last];
      assert last !in versions[..n];
      LaterSplits(versions[..n], last, v);
    }
  }

  lemma LaterSplits(versions: seq<VersionRow>, last: VersionRow, v: VersionRow)
    requires last !in versions
    ensures |Later(versions + [last], v)| == |Later(versions, v)| + (if Newer(last, v) then 1 else 0)
  {
    assert Later(versions + [last], v) == Later(versions, v) + if Newer(last, v) then {last} else {};
  }

  /** Pruning leaves an ended file no version, and a live one no more and none older than either limit allows. */
  lemma {:induction false} PruneKeepsLimits(cfg: Config, s: Sys, f: nat, now: int)
    requires Inv(cfg, s) && f < |s.db.files|
    ensures PruneTx(cfg, s.db, f, now).Some?
    ensures var kept := HistoryOf(PruneTx(cfg, s.db, f, now).value, f);
      var owner := s.db.files[f].owner;
      && |kept| <= cfg.policy(owner).versionCount && |kept| <= cfg.maxVersionCount
      && (!Live(s.db.files[f]) ==> kept == [])
      && forall v :: v in kept ==> WithinAges(cfg, owner, v, now)
  {
    PruneBounds(s.db.versions, f, RetentionFor(cfg, s.db.files[f], now));
  }

  /**
   Pruning a file touches no other file's versions, and takes one of its own if and only if the file is
   over, the version is older than one of the two ages, or as many newer ones exist as the smaller of the
   two counts.
   */
  lemma {:induction false} PruneTakesExactly(cfg: Config, s: Sys, f: nat, now: int, v: VersionRow)
    requires Inv(cfg, s) && f < |s.db.files| && v in s.db.versions
    ensures PruneTx(cfg, s.db, f, now).Some?
    ensures var owner := s.db.files[f].owner;
      v !in PruneTx(cfg, s.db, f, now).value.versions <==>
        && v.file == f
        && (|| !Live(s.db.files[f]) || !WithinAges(cfg, owner, v, now)
            || |Later(s.db.versions, v)| >= cfg.policy(owner).versionCount
            || |Later(s.db.versions, v)| >= cfg.maxVersionCount)
  {
    SurvivorsExact(s.db.versions, s.db.versions, f, RetentionFor(cfg, s.db.files[f], now));
    RankIsCount(s.db.versions, v);
  }

  /** Nothing else changes, but that the object of every version taken is queued. */
  lemma PruneQueuesExactly(cfg: Config, s: Sys, f: nat, now: int, o: nat)
    requires Inv(cfg, s) && f < |s.db.files| && o < |s.db.objects|
    ensures PruneTx(cfg, s.db, f, now).Some?
    ensures var after := PruneTx(cfg, s.db, f, now).value;
      && after.files == s.db.files && after.uploads == s.db.uploads && |after.objects| == |s.db.objects|
      && (forall v :: v in after.versions ==> v in s.db.versions)
      && after.objects[o] == s.db.objects[o].(purge := after.objects[o].purge)
      && (if exists v :: v in s.db.versions && v !in after.versions && v.obj == o
          then after.objects[o].purge == (if s.db.objects[o].purge == JobRunning then JobRunning else JobPending)
          else after.objects[o].purge == s.db.objects[o].purge)
  {
    var r := RetentionFor(cfg, s.db.files[f], now);
    SurvivorsExact(s.db.versions, s.db.versions, f, r);
    if DropsObject(s.db.versions, f, r, o) {
      var i :| 0 <= i < |s.db.versions| && s.db.versions[i].obj == o && !Kept(s.db.versions, s.db.versions[i], f, r);
      assert s.db.versions[i] in s.db.versions && s.db.versions[i] !in PruneTx(cfg, s.db, f, now).value.versions;
    }
    if v :| v in s.db.versions && v !in PruneTx(cfg, s.db, f, now).value.versions && v.obj == o {
      var i :| 0 <= i < |s.db.versions| && s.db.versions[i] == v;
    }
  }
}
