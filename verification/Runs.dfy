/** Runs of the system: any interleaving of requests, part uploads, worker steps and crashes. */
module Runs {
  import opened Base
  import opened ObjectStore
  import opened Catalog
  import opened Transactions

  datatype Event =
    | CreateUpload(owner: nat, size: nat, mime: string, allowed: bool)
    | InitUpload(u: nat, outcome: InitOutcome)
    | Sign(u: nat, owner: nat, requests: seq<SignRequest>, active: bool)
    | PutPartBytes(put: Put)
    | Ack(u: nat, owner: nat, number: int, etag: string)
    | Status(u: nat, owner: nat)
    | Finalize(u: nat, owner: nat, puts: seq<Put>, crash: bool, verdict: Verdict)
    | RecordFailure(u: nat, code: ErrorCode)
    | Abort(u: nat, owner: nat, crash: bool)
    | TimeOut(u: nat, crash: bool)
    | Bulk(owner: nat, ids: seq<nat>, action: BulkAction)
    | Edit(f: nat, owner: nat, seen: Option<nat>)
    | Override(f: nat, state: Option<FileState>, newOwner: Option<nat>)
    | EndFile(f: nat, why: EndReason)
    | Replace(owner: nat, f: nat, expected: nat, source: Source, visible: bool, id: nat, now: int)
    | Prune(f: nat, now: int)
    | ClaimPurge(o: nat)
    | RunPurge(o: nat, crash: bool)
    | FinishPurge(o: nat, ok: bool)
    | RestartWorker
    | Scan(o: nat, clean: bool)
    | SweepKey(key: nat, aged: bool, crash: bool)
    | SweepSession(session: nat, aged: bool)
    | SweepRow(o: nat)

  function Commit(s: Sys, db: Option<Db>): Sys {
    if db.Some? then s.(db := db.value) else s
  }

  function Apply(cfg: Config, s: Sys, e: Event): Sys {
    match e
    case CreateUpload(owner, size, mime, allowed) => Commit(s, CreateTx(cfg, s, owner, size, mime, allowed))
    case InitUpload(u, outcome) => if u < |s.db.uploads| then InitTx(s, u, outcome) else s
    case Sign(u, owner, requests, active) =>
      var r := SignTx(cfg, s, u, owner, requests, active);
      if r.Some? then r.value else s
    case PutPartBytes(put) => s.(store := PutPart(s.store, cfg.hash, put))
    case Ack(u, owner, number, etag) => Commit(s, AckTx(s.db, u, owner, number, etag))
    case Status(u, owner) => Commit(s, StatusTx(cfg, s, u, owner))
    case Finalize(u, owner, puts, crash, verdict) => FinalizeTx(cfg, s, u, owner, puts, crash, verdict).0
    case RecordFailure(u, code) => s.(db := RecordFailureTx(s.db, u, code))
    case Abort(u, owner, crash) => AbortTx(s, u, owner, crash)
    case TimeOut(u, crash) => TimeOutTx(s, u, crash)
    case Bulk(owner, ids, action) => Commit(s, BulkTx(cfg, s.db, owner, ids, action))
    case Edit(f, owner, seen) => Commit(s, EditTx(s.db, f, owner, seen))
    case Override(f, state, newOwner) => Commit(s, OverrideTx(cfg, s.db, f, state, newOwner))
    case EndFile(f, why) => s.(db := EndFileTx(s.db, f, why))
    case Replace(owner, f, expected, source, visible, id, now) =>
      Commit(s, ReplaceTx(cfg, s.db, owner, f, expected, source, visible, id, now))
    case Prune(f, now) => Commit(s, PruneTx(cfg, s.db, f, now))
    case ClaimPurge(o) => s.(db := ClaimTx(s.db, o))
    case RunPurge(o, crash) => PurgeTx(s, o, crash)
    case FinishPurge(o, ok) => s.(db := FinishTx(s.db, o, ok))
    case RestartWorker => s.(db := RestartTx(s.db))
    case Scan(o, clean) => s.(db := ScanTx(s.db, o, clean))
    case SweepKey(key, aged, crash) => SweepKeyTx(s, key, aged, crash)
    case SweepSession(session, aged) => SweepSessionTx(s, session, aged)
    case SweepRow(o) => SweepRowTx(s, o)
  }

  /**
   What the code leaves to its operators and clients: the second half of a create request meets the
   row the first half inserted, and no moderator overrides the state of a file that has expired.
   */
  predicate Assumed(s: Sys, e: Event) {
    match e
    case InitUpload(u, _) =>
      u < |s.db.uploads| ==> s.db.uploads[u].state == CREATED && s.db.uploads[u].session.None?
    case Override(f, state, _) =>
      f < |s.db.files| && s.db.files[f].state == EXPIRED ==> state.None? || state.value == EXPIRED
    case _ => true
  }

  function Run(cfg: Config, s: Sys, es: seq<Event>): Sys {
    if |es| == 0 then s else Apply(cfg, Run(cfg, s, es[..|es| - 1]), es[|es| - 1])
  }

  ghost predicate AllAssumed(cfg: Config, s: Sys, es: seq<Event>) {
    forall i {:trigger Assumed(Run(cfg, s, es[..i]), es[i])} :: 0 <= i < |es| ==> Assumed(Run(cfg, s, es[..i]), es[i])
  }

  /** One more step. */
  lemma {:induction false} RunExtends(cfg: Config, s: Sys, es: seq<Event>, e: Event)
    requires AllAssumed(cfg, s, es) && Assumed(Run(cfg, s, es), e)
    ensures AllAssumed(cfg, s, es + [e]) && Run(cfg, s, es + [e]) == Apply(cfg, Run(cfg, s, es), e)
  {
    var more := es + [e];
    assert more[..|es|] == es;
    forall i | 0 <= i < |more|
      ensures Assumed(Run(cfg, s, more[..i]), more[i])
    {
      if i < |es| {
        assert more[..i] == es[..i];
      }
    }
  }

  function EmptySystem(free: int): Sys {
    Sys(Db([], [], [], []), Store(map[], map[], {}, 0, free))
  }
}
