/**
 The running system: one database and one store, shared by the API and the worker. A method is one
 request or one step of the worker. What it writes to the database before it fails is rolled back by
 restoring the rows it started from; what it does to the store stays. The contract of each method is
 the step of Runs.Apply it carries out.
 */
module Backend {
  import opened ObjectStore
  import opened Catalog
  import opened Transactions
  import opened Runs
  import opened Safety

  class System {
    const cfg: Config
    var db: Db
    var store: Store

    function State(): Sys
      reads this
    {
      Sys(db, store)
    }

    constructor (cfg: Config, free: int)
      ensures State() == EmptySystem(free) && this.cfg == cfg
    {
      this.cfg := cfg;
      db := Db([], [], [], []);
      store := Store(map[], map[], {}, 0, free);
    }
  }

  /** A system that starts empty and only takes admitted steps stays in reachable states. */
  lemma StepIsReachable(cfg: Config, s: Sys, e: Event)
    requires Reachable(cfg, s) && Assumed(s, e)
    ensures Reachable(cfg, Apply(cfg, s, e))
  {
    var free, es :| AllAssumed(cfg, EmptySystem(free), es) && s == Run(cfg, EmptySystem(free), es);
    RunExtends(cfg, EmptySystem(free), es, e);
  }
}
