/** Pruning and replacing versions (apps/api/src/cloud.ts). */
module CloudRoutes {
  import opened Base
  import opened Catalog
  import opened Transactions
  import opened Backend

  /** The rows a pruning deletes. */
  function Removed(versions: seq<VersionRow>, among: seq<VersionRow>, f: nat, r: Retention): seq<VersionRow> {
    if |among| == 0 then []
    else
      var last := among[|among| - 1];
      Removed(versions, among[..|among| - 1], f, r) + (if Kept(versions, last, f, r) then [] else [last])
  }

  lemma {:induction false} RemovedExact(versions: seq<VersionRow>, among: seq<VersionRow>, f: nat, r: Retention)
    ensures forall w :: w in Removed(versions, among, f, r) <==> w in among && !Kept(versions, w, f, r)
  {
    if |among| > 0 {
      RemovedExact(versions, among[..|among| - 1], f, r);
      assert among == among[..|among| - 1] + [among[|among| - 1]];
    }
  }

  predicate Points(versions: seq<VersionRow>, o: nat) {
    exists v :: v in versions && v.obj == o
  }

  lemma {:induction false} DroppedArePointedAt(versions: seq<VersionRow>, f: nat, r: Retention, o: nat)
    ensures DropsObject(versions, f, r, o) <==> Points(Removed(versions, versions, f, r), o)
  {
    RemovedExact(versions, versions, f, r);
    if DropsObject(versions, f, r, o) {
      var i :| 0 <= i < |versions| && versions[i].obj == o && !Kept(versions, versions[i], f, r);
      assert versions[i] in Removed(versions, versions, f, r);
    }
    if Points(Removed(versions, versions, f, r), o) {
      var v :| v in Removed(versions, versions, f, r) && v.obj == o;
      var i :| 0 <= i < |versions| && versions[i] == v;
    }
  }

  function QueueOf(o: ObjectRow, queued: bool): ObjectRow {
    if queued then o.(purge := EnqueueStatus(o.purge)) else o
  }

  method PruneVersions(b: System, f: nat, now: int) returns (ok: bool)
    modifies b`db
    ensures var r := PruneTx(b.cfg, old(b.db), f, now);
      ok == r.Some? && b.db == if ok then r.value else old(b.db)
  {
    if f >= |b.db.files| { return false; }
    var file := b.db.files[f];
    var policy := b.cfg.policy(file.owner);
    var count := if file.state in {PURGED, EXPIRED} then 0 else Min(policy.versionCount, b.cfg.maxVersionCount);
    var days := Min(policy.versionDays, b.cfg.maxVersionDays);
    var r := Retention(count, now - days * DAY);
    var removed := Removed(b.db.versions, b.db.versions, f, r);
    b.db := b.db.(versions := Survivors(b.db.versions, b.db.versions, f, r));
    ghost var objects := b.db.objects;
    for i := 0 to |removed|
      invariant b.db == old(b.db).(versions := b.db.versions, objects := b.db.objects)
      invariant b.db.versions == Survivors(old(b.db).versions, old(b.db).versions, f, r)
      invariant |b.db.objects| == |objects|
      invariant forall o :: 0 <= o < |objects| ==> b.db.objects[o] == QueueOf(objects[o], Points(removed[..i], o))
    {
      assert forall o :: Points(removed[..i + 1], o) <==> Points(removed[..i], o) || removed[i].obj == o by {
        PointsMore(removed, i);
      }
      if removed[i].obj < |b.db.objects| {
        b.db := Enqueue(b.db, removed[i].obj);
      }
    }
    assert removed[..|removed|] == removed;
    forall o | 0 <= o < |objects|
      ensures b.db.objects[o] == EnqueueDropped(objects, old(b.db).versions, f, r)[o]
    {
      DroppedArePointedAt(old(b.db).versions, f, r, o);
    }
    assert b.db.objects == EnqueueDropped(objects, old(b.db).versions, f, r);
    ok := true;
  }

  lemma PointsMore(removed: seq<VersionRow>, i: nat)
    requires i < |removed|
    ensures forall o {:trigger Points(removed[..i + 1], o)} ::
      Points(removed[..i + 1], o) <==> Points(removed[..i], o) || removed[i].obj == o
  {
    assert removed[..i + 1] == removed[..i] + [removed[i]];
    forall o
      ensures Points(removed[..i + 1], o) <==> Points(removed[..i], o) || removed[i].obj == o
    {
      if Points(removed[..i], o) {
        var v :| v in removed[..i] && v.obj == o;
        assert v in removed[..i + 1];
      }
      if removed[i].obj == o {
        assert removed[i] in removed[..i + 1];
      }
    }
  }

  /** Store the current content as a version, switch to the new one, prune, and check the quota last. */
  method ReplaceContent(b: System, owner: nat, f: nat, expected: nat, source: Source, visible: bool, id: nat, now: int)
      returns (ok: bool)
    modifies b`db
    ensures var r := ReplaceTx(b.cfg, old(b.db), owner, f, expected, source, visible, id, now);
      ok == r.Some? && b.db == if ok then r.value else old(b.db)
  {
    if f >= |b.db.files| || b.db.files[f].owner != owner || b.db.files[f].obj >= |b.db.objects| { return false; }
    var saved := b.db;
    var target := b.db.files[f];
    if target.revision != expected { return false; }
    if target.state != AVAILABLE { return false; }
    var policy := b.cfg.policy(owner);
    if !b.cfg.versioningEnabled || policy.versionCount == 0 || policy.versionDays == 0 { return false; }
    var content := SourceContent(b.db, owner, f, source, visible);
    if content.None? { return false; }
    if content.value.obj == target.obj { return true; }
    if content.value.obj >= |b.db.objects| || SizeOf(b.db.objects[content.value.obj]) > policy.fileBytes {
      return false;
    }
    if VersionClash(b.db, f, id) { return false; }
    b.db := b.db.(versions := b.db.versions + [VersionRow(id, f, target.obj, target.revision, target.mime, now)]);
    b.db := SetFile(b.db, f, target.(obj := content.value.obj, mime := content.value.mime));
    assert b.db == Switched(saved, f, content.value, id, now);
    ok := PruneVersions(b, f, now);
    if UsedBytes(b.db, owner) + ReservedBytes(b.db, owner) > policy.storageBytes {
      b.db := saved;
      ok := false;
    }
  }
}
