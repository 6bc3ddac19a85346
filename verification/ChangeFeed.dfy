/**
 The per-account change feed kept by triggers (migration 003) and read in pages (apps/api/src/cloud.ts).
 A row's id is its position; `None` is a deleted row. `obj` matters for files only.
 */
module ChangeFeed {
  import opened Base

  datatype Kind = FileEntity | FolderEntity | ShareEntity

  datatype Op = Inserted | Updated | Deleted

  datatype Row = Row(kind: Kind, owner: nat, revision: nat, obj: nat)

  datatype Change = Change(owner: nat, sequence: nat, kind: Kind, id: nat, op: Op, revision: nat)

  datatype Cloud = Cloud(rows: seq<Option<Row>>, cursors: map<nat, nat>, changes: seq<Change>)

  // The triggers.

  function Latest(cloud: Cloud, owner: nat): nat {
    if owner in cloud.cursors then cloud.cursors[owner] else 0
  }

  /** cloud_emit */
  function Emit(cloud: Cloud, owner: nat, kind: Kind, id: nat, op: Op, revision: nat): Cloud {
    var next := Latest(cloud, owner) + 1;
    cloud.(cursors := cloud.cursors[owner := next],
           changes := cloud.changes + [Change(owner, next, kind, id, op, revision)])
  }

  function Insert(cloud: Cloud, kind: Kind, owner: nat, obj: nat): Cloud {
    Emit(cloud.(rows := cloud.rows + [Some(Row(kind, owner, 1, obj))]), owner, kind, |cloud.rows|, Inserted, 1)
  }

  predicate Present(cloud: Cloud, id: nat) {
    id < |cloud.rows| && cloud.rows[id].Some?
  }

  /** Shares have no revision column; theirs is always reported as 1. */
  function NextRevision(row: Row): nat {
    if row.kind == ShareEntity then 1 else row.revision + 1
  }

  function Update(cloud: Cloud, id: nat, owner: nat, obj: nat): Cloud {
    if !Present(cloud, id) then cloud
    else
      var row := cloud.rows[id].value;
      var rev := NextRevision(row);
      var told := if row.owner != owner then Emit(cloud, row.owner, row.kind, id, Deleted, rev) else cloud;
      Emit(told.(rows := told.rows[id := Some(Row(row.kind, owner, rev, obj))]), owner, row.kind, id, Updated, rev)
  }

  function Delete(cloud: Cloud, id: nat): Cloud {
    if !Present(cloud, id) then cloud
    else
      var row := cloud.rows[id].value;
      Emit(cloud.(rows := cloud.rows[id := None]), row.owner, row.kind, id, Deleted, row.revision)
  }

  predicate FileOn(row: Option<Row>, obj: nat) {
    row.Some? && row.value.kind == FileEntity && row.value.obj == obj
  }

  /** cloud_object_changed, up to the file of number k: within one account files are told in order of id. */
  function ObjectChanged(cloud: Cloud, obj: nat, k: nat): Cloud
    requires k <= |cloud.rows|
    ensures ObjectChanged(cloud, obj, k).rows == cloud.rows
  {
    if k == 0 then cloud
    else
      var before := ObjectChanged(cloud, obj, k - 1);
      if !FileOn(cloud.rows[k - 1], obj) then before
      else
        var row := cloud.rows[k - 1].value;
        Emit(before, row.owner, row.kind, k - 1, Updated, row.revision)
  }

  /** The tables as the triggers change them. */
  class CloudTables {
    var rows: seq<Option<Row>>
    var cursors: map<nat, nat>
    var changes: seq<Change>

    function State(): Cloud
      reads this
    {
      Cloud(rows, cursors, changes)
    }

    constructor ()
      ensures State() == Cloud([], map[], [])
    {
      rows, cursors, changes := [], map[], [];
    }

    method EmitChange(owner: nat, kind: Kind, id: nat, op: Op, revision: nat)
      modifies this
      ensures State() == Emit(old(State()), owner, kind, id, op, revision)
    {
      var next := 1;
      if owner in cursors {
        next := cursors[owner] + 1;
      }
      cursors := cursors[owner := next];
      changes := changes + [Change(owner, next, kind, id, op, revision)];
    }

    method InsertRow(kind: Kind, owner: nat, obj: nat)
      modifies this
      ensures State() == Insert(old(State()), kind, owner, obj)
    {
      rows := rows + [Some(Row(kind, owner, 1, obj))];
      EmitChange(owner, kind, |rows| - 1, Inserted, 1);
    }

    method UpdateRow(id: nat, owner: nat, obj: nat)
      modifies this
      ensures State() == Update(old(State()), id, owner, obj)
    {
      if id >= |rows| || rows[id].None? { return; }
      var row := rows[id].value;
      var revision := if row.kind == ShareEntity then 1 else row.revision + 1;
      if row.owner != owner {
        EmitChange(row.owner, row.kind, id, Deleted, revision);
      }
      rows := rows[id := Some(Row(row.kind, owner, revision, obj))];
      EmitChange(owner, row.kind, id, Updated, revision);
    }

    method DeleteRow(id: nat)
      modifies this
      ensures State() == Delete(old(State()), id)
    {
      if id >= |rows| || rows[id].None? { return; }
      var row := rows[id].value;
      rows := rows[id := None];
      EmitChange(row.owner, row.kind, id, Deleted, row.revision);
    }

    method TellObjectChanged(obj: nat)
      modifies this
      ensures State() == ObjectChanged(old(State()), obj, |old(rows)|)
    {
      for id := 0 to |rows|
        invariant rows == old(rows)
        invariant State() == ObjectChanged(old(State()), obj, id)
      {
        if rows[id].Some? && rows[id].value.kind == FileEntity && rows[id].value.obj == obj {
          EmitChange(rows[id].value.owner, FileEntity, id, Updated, rows[id].value.revision);
        }
      }
    }
  }

  // What a reader of the feed knows.

  /** One account's changes, in the order they were made. */
  function Feed(changes: seq<Change>, owner: nat): seq<Change> {
    if |changes| == 0 then []
    else
      Feed(changes[..|changes| - 1], owner) +
      (if changes[|changes| - 1].owner == owner then [changes[|changes| - 1]] else [])
  }

  /** Replaying a feed, the last operation on an entity counts. */
  function Known(feed: seq<Change>): map<nat, nat> {
    if |feed| == 0 then map[]
    else
      var before, last := Known(feed[..|feed| - 1]), feed[|feed| - 1];
      if last.op == Deleted then before - {last.id} else before[last.id := last.revision]
  }

  function Owned(rows: seq<Option<Row>>, owner: nat): map<nat, nat> {
    map id: nat | id < |rows| && rows[id].Some? && rows[id].value.owner == owner :: rows[id].value.revision
  }

  /** Sequence numbers run from 1 without gaps. */
  predicate Dense(feed: seq<Change>) {
    forall i :: 0 <= i < |feed| ==> feed[i].sequence == i + 1
  }

  predicate Tells(feed: seq<Change>, latest: nat, owned: map<nat, nat>) {
    Dense(feed) && |feed| == latest && Known(feed) == owned
  }

  ghost predicate Faithful(cloud: Cloud) {
    forall owner: nat {:trigger Feed(cloud.changes, owner)} ::
      Tells(Feed(cloud.changes, owner), Latest(cloud, owner), Owned(cloud.rows, owner))
  }

  /** An emission is one more entry of its owner's feed and no entry of any other. */
  lemma {:induction false} EmitAppends(cloud: Cloud, owner: nat, kind: Kind, id: nat, op: Op, revision: nat, who: nat)
    ensures var after := Emit(cloud, owner, kind, id, op, revision);
      && Feed(after.changes, who) == Feed(cloud.changes, who) +
           (if who == owner then [Change(owner, Latest(cloud, owner) + 1, kind, id, op, revision)] else [])
      && Latest(after, who) == Latest(cloud, who) + (if who == owner then 1 else 0)
  {
    var after := Emit(cloud, owner, kind, id, op, revision);
    assert after.changes[..|cloud.changes|] == cloud.changes;
  }

  function After(owned: map<nat, nat>, id: nat, op: Op, revision: nat): map<nat, nat> {
    if op == Deleted then owned - {id} else owned[id := revision]
  }

  lemma TellsMore(feed: seq<Change>, latest: nat, owned: map<nat, nat>, c: Change)
    requires Tells(feed, latest, owned) && c.sequence == latest + 1
    ensures Tells(feed + [c], latest + 1, After(owned, c.id, c.op, c.revision))
  {
    assert (feed + [c])[..|feed|] == feed;
  }

  /** A row change and the emission that reports it keep the feed of every account faithful. */
  lemma EmitKeeps(cloud: Cloud, rows: seq<Option<Row>>, owner: nat, kind: Kind, id: nat, op: Op, revision: nat)
    requires Faithful(cloud)
    requires Owned(rows, owner) == After(Owned(cloud.rows, owner), id, op, revision)
    requires forall who: nat {:trigger Owned(rows, who)} :: who != owner ==> Owned(rows, who) == Owned(cloud.rows, who)
    ensures Faithful(Emit(cloud.(rows := rows), owner, kind, id, op, revision))
  {
    var changed := cloud.(rows := rows);
    var after := Emit(changed, owner, kind, id, op, revision);
    forall who: nat
      ensures Tells(Feed(after.changes, who), Latest(after, who), Owned(after.rows, who))
    {
      var feed := Feed(cloud.changes, who);
      EmitAppends(changed, owner, kind, id, op, revision, who);
      if who == owner {
        TellsMore(feed, Latest(cloud, who), Owned(cloud.rows, who),
                  Change(owner, Latest(cloud, owner) + 1, kind, id, op, revision));
      } else {
        assert Feed(after.changes, who) == feed;
      }
    }
  }

  lemma OwnedAfterSet(rows: seq<Option<Row>>, id: nat, row: Option<Row>, who: nat)
    requires id < |rows|
    ensures Owned(rows[id := row], who) ==
      if row.Some? && row.value.owner == who then Owned(rows, who)[id := row.value.revision]
      else Owned(rows, who) - {id}
  {
  }

  /** A change of owner is a deletion in the old feed and an update in the new one. */
  lemma UpdateKeeps(cloud: Cloud, id: nat, owner: nat, obj: nat)
    requires Faithful(cloud) && Present(cloud, id)
    ensures Faithful(Update(cloud, id, owner, obj))
  {
    var row := cloud.rows[id].value;
    var rev := NextRevision(row);
    var row' := Some(Row(row.kind, owner, rev, obj));
    var rows := cloud.rows[id := row'];
    if row.owner == owner {
      forall who: nat
        ensures Owned(rows, who) == if who == owner then Owned(cloud.rows, who)[id := rev] else Owned(cloud.rows, who)
      {
        OwnedAfterSet(cloud.rows, id, row', who);
      }
      EmitKeeps(cloud, rows, owner, row.kind, id, Updated, rev);
    } else {
      var gone := cloud.rows[id := None];
      assert gone[id := row'] == rows;
      forall who: nat
        ensures Owned(gone, who) == if who == row.owner then Owned(cloud.rows, who) - {id} else Owned(cloud.rows, who)
        ensures Owned(rows, who) == if who == owner then Owned(gone, who)[id := rev] else Owned(gone, who)
      {
        OwnedAfterSet(cloud.rows, id, None, who);
        OwnedAfterSet(gone, id, row', who);
      }
      EmitKeeps(cloud, gone, row.owner, row.kind, id, Deleted, rev);
      var told := Emit(cloud.(rows := gone), row.owner, row.kind, id, Deleted, rev);
      EmitKeeps(told, rows, owner, row.kind, id, Updated, rev);
      assert Update(cloud, id, owner, obj) == Emit(told.(rows := rows), owner, row.kind, id, Updated, rev);
    }
  }

  lemma {:induction false} ObjectChangedKeeps(cloud: Cloud, obj: nat, k: nat)
    requires Faithful(cloud) && k <= |cloud.rows|
    ensures Faithful(ObjectChanged(cloud, obj, k))
  {
    if k > 0 {
      ObjectChangedKeeps(cloud, obj, k - 1);
      if FileOn(cloud.rows[k - 1], obj) {
        var before := ObjectChanged(cloud, obj, k - 1);
        var row := cloud.rows[k - 1].value;
        assert before.(rows := before.rows) == before;
        EmitKeeps(before, before.rows, row.owner, row.kind, k - 1, Updated, row.revision);
      }
    }
  }

  // Whole runs.

  datatype Event =
    | InsertEvent(kind: Kind, owner: nat, obj: nat)
    | UpdateEvent(id: nat, owner: nat, obj: nat)
    | DeleteEvent(id: nat)
    | ObjectEvent(obj: nat)

  function Apply(cloud: Cloud, e: Event): Cloud {
    match e
    case InsertEvent(kind, owner, obj) => Insert(cloud, kind, owner, obj)
    case UpdateEvent(id, owner, obj) => Update(cloud, id, owner, obj)
    case DeleteEvent(id) => Delete(cloud, id)
    case ObjectEvent(obj) => ObjectChanged(cloud, obj, |cloud.rows|)
  }

  function Run(cloud: Cloud, es: seq<Event>): Cloud {
    if |es| == 0 then cloud else Apply(Run(cloud, es[..|es| - 1]), es[|es| - 1])
  }

  lemma {:induction false} RunKeeps(cloud: Cloud, es: seq<Event>)
    requires Faithful(cloud)
    ensures Faithful(Run(cloud, es))
  {
    if |es| > 0 {
      RunKeeps(cloud, es[..|es| - 1]);
      var before := Run(cloud, es[..|es| - 1]);
      match es[|es| - 1]
      case InsertEvent(kind, owner, obj) =>
        EmitKeeps(before, before.rows + [Some(Row(kind, owner, 1, obj))], owner, kind, |before.rows|, Inserted, 1);
      case UpdateEvent(id, owner, obj) => if Present(before, id) { UpdateKeeps(before, id, owner, obj); }
      case DeleteEvent(id) =>
        if Present(before, id) {
          var row := before.rows[id].value;
          EmitKeeps(before, before.rows[id := None], row.owner, row.kind, id, Deleted, row.revision);
        }
      case ObjectEvent(obj) => ObjectChangedKeeps(before, obj, |before.rows|);
    }
  }

  /**
   Whatever happens to files, folders, shares and objects: replaying an account's feed gives exactly the
   entities it owns with their current revisions, and the sequence numbers are 1, 2, ... up to the cursor.
   */
  lemma {:induction false} FeedIsFaithful(es: seq<Event>, owner: nat)
    ensures var cloud := Run(Cloud([], map[], []), es);
      && Known(Feed(cloud.changes, owner)) == Owned(cloud.rows, owner)
      && Dense(Feed(cloud.changes, owner)) && |Feed(cloud.changes, owner)| == Latest(cloud, owner)
  {
    EmptyIsFaithful();
    RunKeeps(Cloud([], map[], []), es);
  }

  lemma EmptyIsFaithful()
    ensures Faithful(Cloud([], map[], []))
  {
    forall who: nat
      ensures Tells(Feed([], who), 0, Owned([], who))
    {
    }
  }

  // What each change of a row or an object adds to every account's feed.

  /** An account's feed after a step, without what it was before. */
  function News(cloud: Cloud, e: Event, who: nat): seq<Change> {
    var before, after := Feed(cloud.changes, who), Feed(Apply(cloud, e).changes, who);
    if |before| <= |after| then after[|before|..] else []
  }

  /** A new row is told to its owner and to nobody else. */
  lemma {:induction false} InsertTells(cloud: Cloud, kind: Kind, owner: nat, obj: nat, who: nat)
    ensures var e := InsertEvent(kind, owner, obj);
      && Apply(cloud, e).rows == cloud.rows + [Some(Row(kind, owner, 1, obj))]
      && Feed(Apply(cloud, e).changes, who) == Feed(cloud.changes, who) + News(cloud, e, who)
      && News(cloud, e, who) == if who != owner then []
           else [Change(who, Latest(cloud, who) + 1, kind, |cloud.rows|, Inserted, 1)]
  {
    EmitAppends(cloud.(rows := cloud.rows + [Some(Row(kind, owner, 1, obj))]), owner, kind, |cloud.rows|, Inserted, 1,
                who);
  }

  /** An update counts the revision of files and folders up; a row that changes hands is deleted for its old owner. */
  lemma {:induction false} UpdateTells(cloud: Cloud, id: nat, owner: nat, obj: nat, who: nat)
    requires id < |cloud.rows| && cloud.rows[id].Some?
    ensures var e, row := UpdateEvent(id, owner, obj), cloud.rows[id].value;
      var revision := if row.kind == ShareEntity then 1 else row.revision + 1;
      && Apply(cloud, e).rows == cloud.rows[id := Some(Row(row.kind, owner, revision, obj))]
      && Feed(Apply(cloud, e).changes, who) == Feed(cloud.changes, who) + News(cloud, e, who)
      && News(cloud, e, who) ==
           if who == owner then [Change(who, Latest(cloud, who) + 1, row.kind, id, Updated, revision)]
           else if who == row.owner then [Change(who, Latest(cloud, who) + 1, row.kind, id, Deleted, revision)]
           else []
  {
    UpdateRows(cloud, id, owner, obj);
    UpdateNews(cloud, id, owner, obj, who);
  }

  lemma UpdateRows(cloud: Cloud, id: nat, owner: nat, obj: nat)
    requires Present(cloud, id)
    ensures var row := cloud.rows[id].value;
      Update(cloud, id, owner, obj).rows == cloud.rows[id := Some(Row(row.kind, owner, NextRevision(row), obj))]
  {
  }

  lemma {:induction false} UpdateNews(cloud: Cloud, id: nat, owner: nat, obj: nat, who: nat)
    requires Present(cloud, id)
    ensures var row := cloud.rows[id].value;
      var rev := NextRevision(row);
      Feed(Update(cloud, id, owner, obj).changes, who) == Feed(cloud.changes, who) +
        (if who == owner then [Change(who, Latest(cloud, who) + 1, row.kind, id, Updated, rev)]
         else if who == row.owner then [Change(who, Latest(cloud, who) + 1, row.kind, id, Deleted, rev)]
         else [])
  {
    var row := cloud.rows[id].value;
    var rev := NextRevision(row);
    var rows := cloud.rows[id := Some(Row(row.kind, owner, rev, obj))];
    if row.owner != owner {
      var told := Emit(cloud, row.owner, row.kind, id, Deleted, rev);
      EmitAppends(cloud, row.owner, row.kind, id, Deleted, rev, who);
      EmitAppends(told.(rows := rows), owner, row.kind, id, Updated, rev, who);
    } else {
      EmitAppends(cloud.(rows := rows), owner, row.kind, id, Updated, rev, who);
    }
  }

  lemma {:induction false} DeleteTells(cloud: Cloud, id: nat, who: nat)
    requires id < |cloud.rows| && cloud.rows[id].Some?
    ensures var e, row := DeleteEvent(id), cloud.rows[id].value;
      && Apply(cloud, e).rows == cloud.rows[id := None]
      && Feed(Apply(cloud, e).changes, who) == Feed(cloud.changes, who) + News(cloud, e, who)
      && News(cloud, e, who) == if who != row.owner then []
           else [Change(who, Latest(cloud, who) + 1, row.kind, id, Deleted, row.revision)]
  {
    var row := cloud.rows[id].value;
    EmitAppends(cloud.(rows := cloud.rows[id := None]), row.owner, row.kind, id, Deleted, row.revision, who);
  }

  /** A row that is not there is told to nobody. */
  lemma AbsentTellsNothing(cloud: Cloud, id: nat, owner: nat, obj: nat)
    requires id >= |cloud.rows| || cloud.rows[id] == None
    ensures Apply(cloud, UpdateEvent(id, owner, obj)) == Apply(cloud, DeleteEvent(id)) == cloud
  {
  }

  /** A run is its steps, one after the other. */
  lemma {:induction false} RunGoesOn(cloud: Cloud, es: seq<Event>, e: Event)
    ensures Run(cloud, es + [e]) == Apply(Run(cloud, es), e)
  {
    assert (es + [e])[..|es|] == es;
  }

  /** The account's file `id` holds object `obj`. */
  predicate HoldsObject(rows: seq<Option<Row>>, id: nat, obj: nat, who: nat) {
    && id < |rows| && rows[id].Some?
    && rows[id].value.kind == FileEntity && rows[id].value.obj == obj && rows[id].value.owner == who
  }

  /** One update for each of the account's files below k on the object, in order of id, at its present revision. */
  ghost predicate TellsObject(rows: seq<Option<Row>>, news: seq<Change>, obj: nat, who: nat, latest: nat, k: nat) {
    && (forall i :: 0 <= i < |news| ==>
          && HoldsObject(rows, news[i].id, obj, who) && news[i].id < k
          && news[i] == Change(who, latest + 1 + i, FileEntity, news[i].id, Updated, rows[news[i].id].value.revision))
    && (forall i, j :: 0 <= i < j < |news| ==> news[i].id < news[j].id)
    && (forall id: nat {:trigger HoldsObject(rows, id, obj, who)} :: id < k && HoldsObject(rows, id, obj, who) ==>
          exists i :: 0 <= i < |news| && news[i].id == id)
  }

  lemma TellsObjectMore(rows: seq<Option<Row>>, news: seq<Change>, obj: nat, who: nat, latest: nat, k: nat)
    requires TellsObject(rows, news, obj, who, latest, k)
    ensures !HoldsObject(rows, k, obj, who) ==> TellsObject(rows, news, obj, who, latest, k + 1)
    ensures HoldsObject(rows, k, obj, who) ==>
      var c := Change(who, latest + 1 + |news|, FileEntity, k, Updated, rows[k].value.revision);
      TellsObject(rows, news + [c], obj, who, latest, k + 1)
  {
    if HoldsObject(rows, k, obj, who) {
      var more := news + [Change(who, latest + 1 + |news|, FileEntity, k, Updated, rows[k].value.revision)];
      forall id: nat | id < k + 1 && HoldsObject(rows, id, obj, who)
        ensures exists i :: 0 <= i < |more| && more[i].id == id
      {
        if id < k {
          var i :| 0 <= i < |news| && news[i].id == id;
          assert more[i].id == id;
        } else {
          assert more[|news|].id == id;
        }
      }
    }
  }

  /** What the first k rows have added to the account's feed. */
  ghost predicate ToldUpTo(cloud: Cloud, obj: nat, who: nat, k: nat, news: seq<Change>)
    requires k <= |cloud.rows|
  {
    var after := ObjectChanged(cloud, obj, k);
    && Feed(after.changes, who) == Feed(cloud.changes, who) + news
    && Latest(after, who) == Latest(cloud, who) + |news|
    && TellsObject(cloud.rows, news, obj, who, Latest(cloud, who), k)
  }

  lemma {:induction false} RowTells(cloud: Cloud, obj: nat, who: nat, k: nat)
    requires k < |cloud.rows|
    ensures var before, after := ObjectChanged(cloud, obj, k), ObjectChanged(cloud, obj, k + 1);
      if HoldsObject(cloud.rows, k, obj, who)
      then
        && Feed(after.changes, who) == Feed(before.changes, who) +
             [Change(who, Latest(before, who) + 1, FileEntity, k, Updated, cloud.rows[k].value.revision)]
        && Latest(after, who) == Latest(before, who) + 1
      else Feed(after.changes, who) == Feed(before.changes, who) && Latest(after, who) == Latest(before, who)
  {
    if FileOn(cloud.rows[k], obj) {
      var row := cloud.rows[k].value;
      EmitAppends(ObjectChanged(cloud, obj, k), row.owner, row.kind, k, Updated, row.revision, who);
    }
  }

  lemma {:induction false} ToldNoMore(cloud: Cloud, obj: nat, who: nat, k: nat, news: seq<Change>)
    requires k < |cloud.rows| && ToldUpTo(cloud, obj, who, k, news) && !HoldsObject(cloud.rows, k, obj, who)
    ensures ToldUpTo(cloud, obj, who, k + 1, news)
  {
    TellsObjectMore(cloud.rows, news, obj, who, Latest(cloud, who), k);
    RowTells(cloud, obj, who, k);
  }

  lemma {:induction false} ToldOneMore(cloud: Cloud, obj: nat, who: nat, k: nat, news: seq<Change>)
    requires k < |cloud.rows| && ToldUpTo(cloud, obj, who, k, news) && HoldsObject(cloud.rows, k, obj, who)
    ensures var c := Change(who, Latest(cloud, who) + 1 + |news|, FileEntity, k, Updated,
                            cloud.rows[k].value.revision);
      ToldUpTo(cloud, obj, who, k + 1, news + [c])
  {
    var c := Change(who, Latest(cloud, who) + 1 + |news|, FileEntity, k, Updated, cloud.rows[k].value.revision);
    TellsObjectMore(cloud.rows, news, obj, who, Latest(cloud, who), k);
    RowTells(cloud, obj, who, k);
    assert Feed(cloud.changes, who) + news + [c] == Feed(cloud.changes, who) + (news + [c]);
  }

  lemma {:induction false} ObjectTellsUpTo(cloud: Cloud, obj: nat, who: nat, k: nat) returns (news: seq<Change>)
    requires k <= |cloud.rows|
    ensures ToldUpTo(cloud, obj, who, k, news)
  {
    if k == 0 {
      news := [];
    } else {
      news := ObjectTellsUpTo(cloud, obj, who, k - 1);
      if HoldsObject(cloud.rows, k - 1, obj, who) {
        ToldOneMore(cloud, obj, who, k - 1, news);
        news := news + [Change(who, Latest(cloud, who) + 1 + |news|, FileEntity, k - 1, Updated,
                               cloud.rows[k - 1].value.revision)];
      } else {
        ToldNoMore(cloud, obj, who, k - 1, news);
      }
    }
  }

  /** A change of an object is told to every account with a file on it: once for each file, and nothing else. */
  lemma {:induction false} ObjectTells(cloud: Cloud, obj: nat, who: nat)
    ensures var e := ObjectEvent(obj);
      && Apply(cloud, e).rows == cloud.rows
      && Feed(Apply(cloud, e).changes, who) == Feed(cloud.changes, who) + News(cloud, e, who)
      && TellsObject(cloud.rows, News(cloud, e, who), obj, who, Latest(cloud, who), |cloud.rows|)
  {
    var news := ObjectTellsUpTo(cloud, obj, who, |cloud.rows|);
    assert News(cloud, ObjectEvent(obj), who) == news;
  }

  // Paging.

  /** Rows of one account behind the cursor; they are stored in the order of their sequence numbers. */
  function Behind(changes: seq<Change>, owner: nat, cursor: nat): seq<Change> {
    if |changes| == 0 then []
    else
      Behind(changes[..|changes| - 1], owner, cursor) +
      (if changes[|changes| - 1].owner == owner && changes[|changes| - 1].sequence > cursor
       then [changes[|changes| - 1]] else [])
  }

  datatype Page = Page(items: seq<Change>, cursor: nat, hasMore: bool)

  /** GET /api/cloud/changes. `None` is the 409 for a cursor the account has not reached. */
  function GetPage(cloud: Cloud, owner: nat, cursor: nat, limit: nat): Option<Page> {
    if cursor > Latest(cloud, owner) then None
    else
      var behind := Behind(cloud.changes, owner, cursor);
      var items := behind[..Min(limit, |behind|)];
      Some(Page(items, if |items| > 0 then items[|items| - 1].sequence else cursor, |items| == limit))
  }

  function From(feed: seq<Change>, cursor: nat): seq<Change> {
    if cursor <= |feed| then feed[cursor..] else []
  }

  lemma FromMore(feed: seq<Change>, c: Change, cursor: nat)
    requires c.sequence == |feed| + 1
    ensures From(feed + [c], cursor) == From(feed, cursor) + (if c.sequence > cursor then [c] else [])
  {
  }

  lemma DenseBefore(feed: seq<Change>, c: Change)
    requires Dense(feed + [c])
    ensures Dense(feed) && c.sequence == |feed| + 1
  {
    assert (feed + [c])[|feed|] == c;
    forall i | 0 <= i < |feed|
      ensures feed[i].sequence == i + 1
    {
      assert (feed + [c])[i] == feed[i];
    }
  }

  lemma {:induction false} BehindIsSlice(changes: seq<Change>, owner: nat, cursor: nat)
    requires Dense(Feed(changes, owner))
    ensures Behind(changes, owner, cursor) == From(Feed(changes, owner), cursor)
  {
    if |changes| > 0 {
      var n := |changes| - 1;
      var before := Feed(changes[..n], owner);
      if changes[n].owner == owner {
        DenseBefore(before, changes[n]);
        FromMore(before, changes[n], cursor);
      } else {
        assert Feed(changes, owner) == before;
      }
      BehindIsSlice(changes[..n], owner, cursor);
    }
  }

  /** A page is the next stretch of the feed, and it says there may be more exactly when it is full. */
  lemma {:induction false} PageIsNextStretch(cloud: Cloud, owner: nat, cursor: nat, limit: nat)
    requires Faithful(cloud) && limit > 0
    ensures var feed, page := Feed(cloud.changes, owner), GetPage(cloud, owner, cursor, limit);
      && (page.None? <==> cursor > |feed|)
      && (page.Some? ==>
            && page.value.cursor == Min(cursor + limit, |feed|)
            && page.value.items == feed[cursor..page.value.cursor]
            && (page.value.hasMore <==> cursor + limit <= |feed|))
  {
    var feed := Feed(cloud.changes, owner);
    assert Tells(feed, Latest(cloud, owner), Owned(cloud.rows, owner));
    BehindIsSlice(cloud.changes, owner, cursor);
    if cursor <= |feed| {
      var end := Min(cursor + limit, |feed|);
      assert feed[cursor..][..end - cursor] == feed[cursor..end];
      assert end > cursor ==> feed[end - 1].sequence == end;
    }
  }

  lemma {:induction false} FeedGrows(cloud: Cloud, es: seq<Event>, k: nat, owner: nat)
    requires k <= |es|
    ensures Feed(Run(cloud, es[..k]).changes, owner) <= Feed(Run(cloud, es).changes, owner)
    decreases |es|
  {
    if k == |es| {
      assert es[..k] == es;
    } else {
      var n := |es| - 1;
      FeedGrows(cloud, es[..n], k, owner);
      assert es[..n][..k] == es[..k];
      StepGrows(Run(cloud, es[..n]), es[n], owner);
    }
  }

  lemma {:induction false} StepGrows(cloud: Cloud, e: Event, owner: nat)
    ensures Feed(cloud.changes, owner) <= Feed(Apply(cloud, e).changes, owner)
  {
    match e
    case InsertEvent(kind, who, obj) =>
      var added := cloud.(rows := cloud.rows + [Some(Row(kind, who, 1, obj))]);
      EmitAppends(added, who, kind, |cloud.rows|, Inserted, 1, owner);
    case UpdateEvent(id, who, obj) =>
      if Present(cloud, id) {
        var row := cloud.rows[id].value;
        var rev := NextRevision(row);
        var told := if row.owner != who then Emit(cloud, row.owner, row.kind, id, Deleted, rev) else cloud;
        EmitAppends(cloud, row.owner, row.kind, id, Deleted, rev, owner);
        var written := told.(rows := told.rows[id := Some(Row(row.kind, who, rev, obj))]);
        EmitAppends(written, who, row.kind, id, Updated, rev, owner);
      }
    case DeleteEvent(id) =>
      if Present(cloud, id) {
        var row := cloud.rows[id].value;
        EmitAppends(cloud.(rows := cloud.rows[id := None]), row.owner, row.kind, id, Deleted, row.revision, owner);
      }
    case ObjectEvent(obj) => ObjectGrows(cloud, obj, |cloud.rows|, owner);
  }

  lemma {:induction false} ObjectGrows(cloud: Cloud, obj: nat, k: nat, owner: nat)
    requires k <= |cloud.rows|
    ensures Feed(cloud.changes, owner) <= Feed(ObjectChanged(cloud, obj, k).changes, owner)
  {
    if k > 0 {
      ObjectGrows(cloud, obj, k - 1, owner);
      if FileOn(cloud.rows[k - 1], obj) {
        var row := cloud.rows[k - 1].value;
        EmitAppends(ObjectChanged(cloud, obj, k - 1), row.owner, row.kind, k - 1, Updated, row.revision, owner);
      }
    }
  }

  /** The feed of an account as it stands after the first m events. */
  function FeedAt(es: seq<Event>, owner: nat, m: nat): seq<Change>
    requires m <= |es|
  {
    Feed(Run(Cloud([], map[], []), es[..m]).changes, owner)
  }

  lemma FeedAtGrows(es: seq<Event>, owner: nat, m: nat, m': nat)
    requires m <= m' <= |es|
    ensures FeedAt(es, owner, m) <= FeedAt(es, owner, m')
  {
    assert es[..m'][..m] == es[..m];
    FeedGrows(Cloud([], map[], []), es[..m'], m, owner);
  }

  datatype Reader = Reader(received: seq<Change>, cursor: nat, hasMore: bool)

  /** A reader that asks for a page at each of the given moments of a run and goes on from its last cursor. */
  function Read(es: seq<Event>, owner: nat, start: nat, limit: nat, moments: seq<nat>): Option<Reader>
    requires forall i :: 0 <= i < |moments| ==> moments[i] <= |es|
  {
    if |moments| == 0 then Some(Reader([], start, true))
    else
      var n := |moments| - 1;
      match Read(es, owner, start, limit, moments[..n])
      case None => None
      case Some(r) => ReadOn(es, owner, r, limit, moments[n])
  }

  function ReadOn(es: seq<Event>, owner: nat, r: Reader, limit: nat, m: nat): Option<Reader>
    requires m <= |es|
  {
    match GetPage(Run(Cloud([], map[], []), es[..m]), owner, r.cursor, limit)
    case None => None
    case Some(page) => Some(Reader(r.received + page.items, page.cursor, page.hasMore))
  }

  predicate UpTo(r: Reader, feed: seq<Change>, start: nat) {
    && start <= r.cursor <= |feed|
    && r.received == feed[start..r.cursor]
  }

  lemma ReadOnKeeps(es: seq<Event>, owner: nat, r: Reader, limit: nat, m: nat, start: nat)
    requires m <= |es| && limit > 0 && UpTo(r, FeedAt(es, owner, m), start)
    ensures var r' := ReadOn(es, owner, r, limit, m);
      && r'.Some? && UpTo(r'.value, FeedAt(es, owner, m), start)
      && (!r'.value.hasMore ==> r'.value.cursor == |FeedAt(es, owner, m)|)
  {
    EmptyIsFaithful();
    RunKeeps(Cloud([], map[], []), es[..m]);
    PageIsNextStretch(Run(Cloud([], map[], []), es[..m]), owner, r.cursor, limit);
  }

  /**
   While changes keep being appended, reading on from any valid cursor delivers every later change once
   and in order, never fails, and is caught up whenever a page says there is no more.
   */
  lemma {:induction false} ReaderMissesNothing(es: seq<Event>, owner: nat, start: nat, limit: nat, moments: seq<nat>)
    requires limit > 0 && |moments| > 0 && forall i :: 0 <= i < |moments| ==> moments[i] <= |es|
    requires forall i, j :: 0 <= i < j < |moments| ==> moments[i] <= moments[j]
    requires start <= |FeedAt(es, owner, moments[0])|
    ensures var reader := Read(es, owner, start, limit, moments);
      var feed := FeedAt(es, owner, moments[|moments| - 1]);
      && reader.Some? && UpTo(reader.value, feed, start)
      && (!reader.value.hasMore ==> reader.value.cursor == |feed|)
    decreases |moments|
  {
    var n := |moments| - 1;
    if n == 0 {
      assert moments[..0] == [];
      ReadOnKeeps(es, owner, Reader([], start, true), limit, moments[0], start);
    } else {
      ReaderMissesNothing(es, owner, start, limit, moments[..n]);
      ReadNext(es, owner, Read(es, owner, start, limit, moments[..n]).value, limit, moments[n - 1], moments[n], start);
    }
  }

  /** Reading on at a later moment. */
  lemma ReadNext(es: seq<Event>, owner: nat, r: Reader, limit: nat, m: nat, m': nat, start: nat)
    requires m <= m' <= |es| && limit > 0 && UpTo(r, FeedAt(es, owner, m), start)
    ensures var r' := ReadOn(es, owner, r, limit, m');
      && r'.Some? && UpTo(r'.value, FeedAt(es, owner, m'), start)
      && (!r'.value.hasMore ==> r'.value.cursor == |FeedAt(es, owner, m')|)
  {
    FeedAtGrows(es, owner, m, m');
    ReadOnKeeps(es, owner, r, limit, m', start);
  }
}
