/** Version history over whole runs: optimistic replaces and restores (apps/api/src/cloud.ts). */
module History {
  import opened ObjectStore
  import opened Catalog
  import opened Transactions
  import opened Runs
  import opened Safety
  import Completion
  import Versions

  /** Files only appear, and their revisions only grow. */
  predicate FilesGrow(a: seq<FileRow>, b: seq<FileRow>) {
    |a| <= |b| && forall f :: 0 <= f < |a| ==> a[f].revision <= b[f].revision
  }

  lemma FilesGrowTransitive(a: seq<FileRow>, b: seq<FileRow>, c: seq<FileRow>)
    requires FilesGrow(a, b) && FilesGrow(b, c)
    ensures FilesGrow(a, c)
  {
    forall f | 0 <= f < |a|
      ensures a[f].revision <= c[f].revision
    {
      assert a[f].revision <= b[f].revision;
    }
  }

  /** No row with this id is new. */
  ghost predicate NoNewVersion(a: seq<VersionRow>, b: seq<VersionRow>, id: nat) {
    forall v :: v in b && v.id == id ==> v in a
  }

  lemma {:induction false} BulkHistory(cfg: Config, db: Db, owner: nat, ids: seq<nat>, action: BulkAction)
    requires BulkTx(cfg, db, owner, ids, action).Some?
    ensures FilesGrow(db.files, BulkTx(cfg, db, owner, ids, action).value.files)
    ensures BulkTx(cfg, db, owner, ids, action).value.versions == db.versions
    decreases |ids|
  {
    if |ids| > 0 {
      var next := BulkItem(cfg, db, owner, ids[0], action).value;
      BulkHistory(cfg, next, owner, ids[1..], action);
      FilesGrowTransitive(db.files, next.files, BulkTx(cfg, next, owner, ids[1..], action).value.files);
    }
  }

  lemma FinalizeHistory(cfg: Config, s: Sys, u: nat, owner: nat, puts: seq<Put>, crash: bool, v: Verdict)
    ensures var db := FinalizeTx(cfg, s, u, owner, puts, crash, v).0.db;
      FilesGrow(s.db.files, db.files) && db.versions == s.db.versions
  {
    if FinalizeTx(cfg, s, u, owner, puts, crash, v).0.db != s.db {
      var row, size := Completion.FinalizeIsCompletion(cfg, s, u, owner, puts, crash, v);
    }
  }

  lemma UploadHistory(cfg: Config, s: Sys, e: Event)
    requires UploadEvent(e)
    ensures FilesGrow(s.db.files, Apply(cfg, s, e).db.files) && Apply(cfg, s, e).db.versions == s.db.versions
  {
    if e.Finalize? {
      FinalizeHistory(cfg, s, e.u, e.owner, e.puts, e.crash, e.verdict);
    }
  }

  lemma PruneHistory(cfg: Config, db: Db, f: nat, now: int, id: nat)
    requires PruneTx(cfg, db, f, now).Some?
    ensures PruneTx(cfg, db, f, now).value.files == db.files
    ensures NoNewVersion(db.versions, PruneTx(cfg, db, f, now).value.versions, id)
  {
    Versions.SurvivorsExact(db.versions, db.versions, f, RetentionFor(cfg, db.files[f], now));
  }

  lemma ReplaceHistory(cfg: Config, db: Db, owner: nat, f: nat, expected: nat, source: Source, visible: bool,
                       id: nat, now: int, other: nat)
    requires ReplaceTx(cfg, db, owner, f, expected, source, visible, id, now).Some? && id != other
    ensures var after := ReplaceTx(cfg, db, owner, f, expected, source, visible, id, now).value;
      FilesGrow(db.files, after.files) && NoNewVersion(db.versions, after.versions, other)
  {
    var after := ReplaceTx(cfg, db, owner, f, expected, source, visible, id, now).value;
    if after != db {
      Versions.ReplaceShape(cfg, db, owner, f, expected, source, visible, id, now);
      var content := SourceContent(db, owner, f, source, visible).value;
      PruneHistory(cfg, Switched(db, f, content, id, now), f, now, other);
    }
  }

  lemma EditHistory(cfg: Config, s: Sys, e: Event)
    requires e.Edit? || e.Override? || e.EndFile?
    ensures FilesGrow(s.db.files, Apply(cfg, s, e).db.files) && Apply(cfg, s, e).db.versions == s.db.versions
  {
  }

  lemma FileHistory(cfg: Config, s: Sys, e: Event, id: nat)
    requires FileEvent(e) && (e.Replace? ==> e.id != id)
    ensures FilesGrow(s.db.files, Apply(cfg, s, e).db.files)
    ensures NoNewVersion(s.db.versions, Apply(cfg, s, e).db.versions, id)
  {
    match e
    case Bulk(owner, ids, action) =>
      if BulkTx(cfg, s.db, owner, ids, action).Some? { BulkHistory(cfg, s.db, owner, ids, action); }
    case Replace(owner, f, expected, source, visible, id', now) =>
      if ReplaceTx(cfg, s.db, owner, f, expected, source, visible, id', now).Some? {
        ReplaceHistory(cfg, s.db, owner, f, expected, source, visible, id', now, id);
      }
    case Prune(f, now) => if PruneTx(cfg, s.db, f, now).Some? { PruneHistory(cfg, s.db, f, now, id); }
    case _ => EditHistory(cfg, s, e);
  }

  lemma StepHistory(cfg: Config, s: Sys, e: Event, id: nat)
    requires e.Replace? ==> e.id != id
    ensures FilesGrow(s.db.files, Apply(cfg, s, e).db.files)
    ensures NoNewVersion(s.db.versions, Apply(cfg, s, e).db.versions, id)
  {
    if UploadEvent(e) {
      UploadHistory(cfg, s, e);
    } else if FileEvent(e) {
      FileHistory(cfg, s, e, id);
    }
  }

  /** From any moment of a run to any later one. */
  lemma {:induction false} RevisionsGrow(cfg: Config, s: Sys, es: seq<Event>, i: nat, j: nat)
    requires i <= j <= |es|
    ensures FilesGrow(Run(cfg, s, es[..i]).db.files, Run(cfg, s, es[..j]).db.files)
    decreases j
  {
    if i < j {
      RevisionsGrow(cfg, s, es, i, j - 1);
      RunNext(cfg, s, es, j - 1);
      var e := es[j - 1];
      StepHistory(cfg, Run(cfg, s, es[..j - 1]), e, if e.Replace? then e.id + 1 else 0);
      FilesGrowTransitive(Run(cfg, s, es[..i]).db.files, Run(cfg, s, es[..j - 1]).db.files,
                          Run(cfg, s, es[..j]).db.files);
    }
  }

  predicate ReplaceOf(e: Event, f: nat, expected: nat) {
    e.Replace? && e.f == f && e.expected == expected
  }

  predicate Changes(cfg: Config, s: Sys, es: seq<Event>, i: nat)
    requires i < |es|
  {
    Apply(cfg, Run(cfg, s, es[..i]), es[i]).db != Run(cfg, s, es[..i]).db
  }

  lemma ReplaceBumps(cfg: Config, s: Sys, e: Event)
    requires e.Replace? && Apply(cfg, s, e).db != s.db
    ensures e.f < |s.db.files| && s.db.files[e.f].revision == e.expected
    ensures e.f < |Apply(cfg, s, e).db.files| && Apply(cfg, s, e).db.files[e.f].revision == e.expected + 1
  {
    Versions.ReplaceShape(cfg, s.db, e.owner, e.f, e.expected, e.source, e.visible, e.id, e.now);
  }

  /** Of any number of replaces sent with the same expected revision, at most one changes the file. */
  lemma OnlyOneReplaceWins(cfg: Config, s: Sys, es: seq<Event>, i: nat, j: nat, f: nat, expected: nat)
    requires i < j < |es|
    requires ReplaceOf(es[i], f, expected) && ReplaceOf(es[j], f, expected)
    ensures !(Changes(cfg, s, es, i) && Changes(cfg, s, es, j))
  {
    if Changes(cfg, s, es, i) && Changes(cfg, s, es, j) {
      assert es[..i + 1][..i] == es[..i];
      ReplaceBumps(cfg, Run(cfg, s, es[..i]), es[i]);
      ReplaceBumps(cfg, Run(cfg, s, es[..j]), es[j]);
      RevisionsGrow(cfg, s, es, i + 1, j);
    }
  }

  lemma {:induction false} VersionRowsPersist(cfg: Config, s: Sys, es: seq<Event>, i: nat, j: nat, id: nat)
    requires i <= j <= |es|
    requires forall k :: i <= k < j && es[k].Replace? ==> es[k].id != id
    ensures NoNewVersion(Run(cfg, s, es[..i]).db.versions, Run(cfg, s, es[..j]).db.versions, id)
    decreases j
  {
    if i < j {
      VersionRowsPersist(cfg, s, es, i, j - 1, id);
      RunNext(cfg, s, es, j - 1);
      StepHistory(cfg, Run(cfg, s, es[..j - 1]), es[j - 1], id);
    }
  }

  predicate Holds(v: VersionRow, f: nat, obj: nat, mime: string) {
    v.file == f && v.obj == obj && v.mime == mime
  }

  lemma NoClashIsNew(db: Db, f: nat, id: nat)
    requires f < |db.files| && !VersionClash(db, f, id)
    ensures forall v :: v in db.versions ==> v.id != id
  {
    forall k | 0 <= k < |db.versions|
      ensures db.versions[k].id != id
    {
    }
  }

  /** The version a replace makes holds the content the file had. */
  lemma ReplaceStores(cfg: Config, s: Sys, e: Event)
    requires e.Replace? && Apply(cfg, s, e).db != s.db
    ensures e.f < |s.db.files|
    ensures forall v :: v in Apply(cfg, s, e).db.versions && v.id == e.id ==>
      Holds(v, e.f, s.db.files[e.f].obj, s.db.files[e.f].mime)
  {
    Versions.ReplaceShape(cfg, s.db, e.owner, e.f, e.expected, e.source, e.visible, e.id, e.now);
    NoClashIsNew(s.db, e.f, e.id);
    var content := SourceContent(s.db, e.owner, e.f, e.source, e.visible).value;
    PruneHistory(cfg, Switched(s.db, e.f, content, e.id, e.now), e.f, e.now, e.id);
  }

  lemma RestoreSwitches(cfg: Config, s: Sys, e: Event) returns (v: VersionRow)
    requires e.Replace? && e.source.FromVersion? && Apply(cfg, s, e).db != s.db
    ensures v in s.db.versions && v.id == e.source.version && v.file == e.f
    ensures e.f < |Apply(cfg, s, e).db.files|
    ensures Apply(cfg, s, e).db.files[e.f].obj == v.obj && Apply(cfg, s, e).db.files[e.f].mime == v.mime
  {
    Versions.ReplaceShape(cfg, s.db, e.owner, e.f, e.expected, e.source, e.visible, e.id, e.now);
    Versions.FoundVersion(s.db.versions, e.source.version, e.f);
    v := FindVersion(s.db.versions, e.source.version, e.f).value;
  }

  /** A replace, whatever comes after it, and a restore of the version it made. */
  ghost predicate ReplacedThenRestored(cfg: Config, s: Sys, es: seq<Event>, i: nat, j: nat) {
    && i < j < |es|
    && es[i].Replace? && Changes(cfg, s, es, i)
    && es[j].Replace? && es[j].source == FromVersion(es[i].id) && Changes(cfg, s, es, j)
    && forall k :: i < k < j && es[k].Replace? ==> es[k].id != es[i].id
  }

  /** Restoring the version a replace made brings the earlier object and type back, whatever happened in between. */
  lemma {:induction false} RestoreBringsBack(cfg: Config, s: Sys, es: seq<Event>, i: nat, j: nat)
    requires ReplacedThenRestored(cfg, s, es, i, j)
    ensures var f := es[i].f;
      var before, after := Run(cfg, s, es[..i]).db.files, Run(cfg, s, es[..j + 1]).db.files;
      && es[j].f == f < |before| && f < |after|
      && after[f].obj == before[f].obj && after[f].mime == before[f].mime
  {
    var a, b := Run(cfg, s, es[..i]), Run(cfg, s, es[..j]);
    RunNext(cfg, s, es, i);
    RunNext(cfg, s, es, j);
    ReplaceStores(cfg, a, es[i]);
    VersionRowsPersist(cfg, s, es, i + 1, j, es[i].id);
    var v := RestoreSwitches(cfg, b, es[j]);
    assert Holds(v, es[i].f, a.db.files[es[i].f].obj, a.db.files[es[i].f].mime);
  }
}
