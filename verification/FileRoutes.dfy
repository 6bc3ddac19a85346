/** The file handlers of apps/api/src/files.ts that touch stored bytes and quotas. */
module FileRoutes {
  import opened Base
  import opened Catalog
  import opened Transactions
  import opened Runs
  import opened Backend

  /** [...new Set(ids)] */
  function Distinct(ids: seq<nat>): (r: seq<nat>)
    ensures forall x :: x in r <==> x in ids
    ensures forall i, j :: 0 <= i < j < |r| ==> r[i] != r[j]
  {
    if |ids| == 0 then []
    else
      var before := Distinct(ids[..|ids| - 1]);
      if ids[|ids| - 1] in before then before else before + [ids[|ids| - 1]]
  }

  method BulkFile(b: System, owner: nat, f: nat, action: BulkAction) returns (ok: bool)
    modifies b`db
    ensures var r := BulkItem(b.cfg, old(b.db), owner, f, action);
      ok == r.Some? && b.db == if ok then r.value else old(b.db)
  {
    if f >= |b.db.files| || b.db.files[f].owner != owner || b.db.files[f].obj >= |b.db.objects| { return false; }
    var row := b.db.files[f];
    match action {
    case Delete =>
      if row.state != AVAILABLE && row.state != QUARANTINED && row.state != BLOCKED { return false; }
      b.db := SetFile(b.db, f, row.(state := DELETED));
    case Restore =>
      if row.state != DELETED { return false; }
      if b.db.objects[row.obj].state != AVAILABLE { return false; }
      b.db := SetFile(b.db, f, row.(state := AVAILABLE));
    case Move =>
      b.db := SetFile(b.db, f, row);
    case Copy =>
      if row.state != AVAILABLE { return false; }
      var used := UsedBytes(b.db, owner) + ReservedBytes(b.db, owner);
      if used + b.db.objects[row.obj].expected > b.cfg.policy(owner).storageBytes { return false; }
      b.db := b.db.(files := b.db.files + [FileRow(owner, row.obj, AVAILABLE, 1, row.mime)]);
    case Purge =>
      if row.state != DELETED { return false; }
      b.db := SetFile(b.db, f, row.(state := PURGED));
      b.db := Enqueue(b.db, row.obj);
    }
    ok := true;
  }

  /** All selected files or none: the first that cannot be changed rolls everything back. */
  method BulkFiles(b: System, owner: nat, ids: seq<nat>, action: BulkAction) returns (ok: bool)
    modifies b`db
    ensures b.db == Commit(old(b.State()), BulkTx(b.cfg, old(b.db), owner, Distinct(ids), action)).db
    ensures ok == BulkTx(b.cfg, old(b.db), owner, Distinct(ids), action).Some?
  {
    var saved := b.db;
    var selected := Distinct(ids);
    for i := 0 to |selected|
      invariant BulkTx(b.cfg, saved, owner, selected, action) == BulkTx(b.cfg, b.db, owner, selected[i..], action)
    {
      assert selected[i..][1..] == selected[i + 1..];
      ok := BulkFile(b, owner, selected[i], action);
      if !ok {
        b.db := saved;
        return;
      }
    }
    ok := true;
  }

  method PatchFile(b: System, f: nat, owner: nat, expected: Option<nat>) returns (ok: bool)
    modifies b`db
    ensures var r := EditTx(old(b.db), f, owner, expected);
      ok == r.Some? && b.db == if ok then r.value else old(b.db)
  {
    if f >= |b.db.files| || b.db.files[f].owner != owner { return false; }
    if expected.Some? && b.db.files[f].revision != expected.value { return false; }
    b.db := SetFile(b.db, f, b.db.files[f]);
    ok := true;
  }

  /** The moderator's override. */
  method AdminPatchFile(b: System, f: nat, state: Option<FileState>, owner: Option<nat>) returns (ok: bool)
    modifies b`db
    ensures var r := OverrideTx(b.cfg, old(b.db), f, state, owner);
      ok == r.Some? && b.db == if ok then r.value else old(b.db)
  {
    if state.Some? && state.value !in {AVAILABLE, BLOCKED, DELETED, EXPIRED} { return false; }
    if f >= |b.db.files| || b.db.files[f].obj >= |b.db.objects| { return false; }
    var row := b.db.files[f];
    if row.state == PROCESSING || row.state == PURGED { return false; }
    var obj := b.db.objects[row.obj];
    if state == Some(AVAILABLE) && obj.state != AVAILABLE && obj.state != BLOCKED { return false; }
    if owner.Some? {
      var quota := b.cfg.policy(owner.value);
      var size := if obj.size.Some? then obj.size.value else 0;
      var used := UsedBytes(b.db, owner.value) + ReservedBytes(b.db, owner.value);
      var history := Sum(HistoryCharges(b.db, f));
      var additional := if owner.value == row.owner then 0 else size + history;
      if size > quota.fileBytes || used + additional > quota.storageBytes { return false; }
    }
    b.db := SetFile(b.db, f, row.(
      state := if state.Some? then state.value else row.state,
      owner := if owner.Some? then owner.value else row.owner));
    if state == Some(BLOCKED) {
      b.db := SetObject(b.db, row.obj, b.db.objects[row.obj].(state := BLOCKED));
    }
    if state == Some(AVAILABLE) && b.db.objects[row.obj].state == BLOCKED {
      b.db := SetObject(b.db, row.obj, b.db.objects[row.obj].(state := AVAILABLE));
    }
    if state == Some(EXPIRED) {
      b.db := Enqueue(b.db, row.obj);
    }
    ok := true;
  }
}
