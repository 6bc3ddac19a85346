/**
 The browser's transfer scheduler (apps/web/src/upload/engine.ts): one call of run with its part
 workers. A step is what happens between two awaits; which await ends next, and how, is open.
 */
module Scheduler {
  import opened Base

  const ATTEMPTS: nat := 6

  /** What a part worker is waiting for. */
  datatype Phase = Hashing | Signing | Putting | Persisting | Acking | Waiting

  datatype Job = Job(phase: Phase, attempt: nat)

  /** What run itself is waiting for, or how it ended. `settled`: some worker has ended since the race began. */
  datatype Main = Racing(settled: bool) | Draining | Finalizing | Complete | Failed | Paused | Cancelled

  /** Calls that leave the scheduler, in order. */
  datatype Call = Dispatched(n: nat) | SignAsked(n: nat) | PutSent(n: nat)

  datatype Transfer = Transfer(
    count: nat, completed: set<nat>,
    next: nat, running: map<nat, Job>,
    limit: int, maxLimit: int, success: nat,
    paused: bool, cancelled: bool, error: bool,
    main: Main, calls: seq<Call>)

  /** runtime(): between one and eight parts at a time, whatever the server proposes. */
  function StartLimit(concurrency: int): int {
    Max(1, Min(8, concurrency))
  }

  function Fresh(count: nat, completed: set<nat>, concurrency: int): Transfer {
    Transfer(count, completed, 1, map[], StartLimit(concurrency), StartLimit(concurrency), 0,
             false, false, false, Racing(true), [])
  }

  // The main loop.

  /** The inner loop: start workers for parts not yet confirmed while there is room. */
  function Dispatch(t: Transfer): Transfer
    decreases t.count + 1 - t.next
  {
    if t.next > t.count || |t.running| >= t.limit || t.paused then t
    else if t.next in t.completed then Dispatch(t.(next := t.next + 1))
    else
      Dispatch(t.(next := t.next + 1, running := t.running[t.next := Job(Hashing, 0)],
                  calls := t.calls + [Dispatched(t.next)]))
  }

  function Turn(t: Transfer): Transfer {
    if (t.next > t.count && |t.running| == 0) || t.paused then t.(main := Draining)
    else
      var d := Dispatch(t);
      d.(main := if |d.running| > 0 then Racing(false) else Draining)
  }

  /** After all workers have ended. */
  function Settle(t: Transfer): Transfer {
    t.(main :=
      if t.cancelled then Cancelled
      else if t.error then Main.Failed
      else if t.paused then Main.Paused
      else Finalizing)
  }

  // A worker.

  function EndJob(t: Transfer, n: nat): Transfer {
    t.(running := t.running - {n}, main := if t.main.Racing? then Racing(true) else t.main)
  }

  function SetJob(t: Transfer, n: nat, job: Job): Transfer {
    t.(running := t.running[n := job])
  }

  /** The worker threw: the whole transfer stops. */
  function Throw(t: Transfer, n: nat): Transfer {
    EndJob(t.(error := true, paused := true), n)
  }

  /** The top of the attempt loop. */
  function Attempt(t: Transfer, n: nat, attempt: nat): Transfer {
    if t.paused || t.cancelled then EndJob(t, n)
    else SetJob(t.(calls := t.calls + [SignAsked(n)]), n, Job(Signing, attempt))
  }

  /** The catch clause. */
  function Catch(t: Transfer, n: nat, attempt: nat, retryable: bool): Transfer {
    if t.paused || t.cancelled then EndJob(t, n)
    else
      var slower := t.(limit := Max(1, t.limit - 1));
      if !retryable || attempt == ATTEMPTS - 1 then Throw(slower, n)
      else SetJob(slower, n, Job(Waiting, attempt + 1))
  }

  function Acked(t: Transfer, n: nat): Transfer {
    var success := t.success + 1;
    EndJob(t.(success := success,
              limit := if success % 12 == 0 && t.limit < t.maxLimit then t.limit + 1 else t.limit), n)
  }

  datatype Step =
    | MainTurn
    | HashEnds(n: nat, ok: bool)
    | SignEnds(n: nat, ok: bool)
    | PutEnds(n: nat, ok: bool, retryable: bool)
    | PersistEnds(n: nat, ok: bool)
    | AckEnds(n: nat)
    | WaitEnds(n: nat)
    | PauseAsked
    | CancelAsked
    | AllSettled
    | CompleteEnds(ok: bool)

  predicate At(t: Transfer, n: nat, phase: Phase) {
    n in t.running && t.running[n].phase == phase
  }

  predicate Over(t: Transfer) {
    t.main in {Complete, Main.Failed, Main.Paused, Cancelled}
  }

  predicate Enabled(t: Transfer, s: Step) {
    match s
    case MainTurn => t.main == Racing(true)
    case HashEnds(n, _) => At(t, n, Hashing)
    case SignEnds(n, _) => At(t, n, Signing)
    case PutEnds(n, _, _) => At(t, n, Putting)
    case PersistEnds(n, _) => At(t, n, Persisting)
    case AckEnds(n) => At(t, n, Acking)
    case WaitEnds(n) => At(t, n, Waiting)
    case PauseAsked => !t.paused
    case CancelAsked => !t.cancelled
    case AllSettled => t.main == Draining && |t.running| == 0
    case CompleteEnds(_) => t.main == Finalizing
  }

  function Next(t: Transfer, s: Step): Transfer
    requires Enabled(t, s)
  {
    match s
    case MainTurn => Turn(t)
    case HashEnds(n, ok) => if ok then Attempt(t, n, 0) else Throw(t, n)
    case SignEnds(n, ok) =>
      if !ok then Catch(t, n, t.running[n].attempt, true)
      else if t.paused then EndJob(t, n)
      else SetJob(t.(calls := t.calls + [PutSent(n)]), n, Job(Putting, t.running[n].attempt))
    case PutEnds(n, ok, retryable) =>
      if !ok then Catch(t, n, t.running[n].attempt, retryable)
      else SetJob(t.(completed := t.completed + {n}), n, Job(Persisting, t.running[n].attempt))
    case PersistEnds(n, ok) =>
      if !ok then Catch(t, n, t.running[n].attempt, true)
      else SetJob(t, n, Job(Acking, t.running[n].attempt))
    case AckEnds(n) => Acked(t, n)
    case WaitEnds(n) => Attempt(t, n, t.running[n].attempt)
    case PauseAsked => t.(paused := true)
    case CancelAsked => t.(paused := true, cancelled := true)
    case AllSettled => Settle(t)
    case CompleteEnds(ok) => t.(main := if ok then Complete else Main.Failed)
  }

  predicate AllEnabled(t: Transfer, steps: seq<Step>)
    decreases |steps|
  {
    |steps| > 0 ==> Enabled(t, steps[0]) && AllEnabled(Next(t, steps[0]), steps[1..])
  }

  function Run(t: Transfer, steps: seq<Step>): Transfer
    requires AllEnabled(t, steps)
    decreases |steps|
  {
    if |steps| == 0 then t else Run(Next(t, steps[0]), steps[1..])
  }

  // The scheduler as it keeps its fields.

  class UploadRuntime {
    const count: nat
    const maxLimit: int
    var completed: set<nat>
    var next: nat
    var running: map<nat, Job>
    var limit: int
    var success: nat
    var paused: bool
    var cancelled: bool
    var error: bool
    var main: Main
    var calls: seq<Call>

    function State(): Transfer
      reads this
    {
      Transfer(count, completed, next, running, limit, maxLimit, success, paused, cancelled, error, main, calls)
    }

    constructor (count: nat, completed: set<nat>, concurrency: int)
      ensures State() == Fresh(count, completed, concurrency)
    {
      var start := StartLimit(concurrency);
      this.count, this.maxLimit, this.limit := count, start, start;
      this.completed, this.next, this.running, this.success := completed, 1, map[], 0;
      this.paused, this.cancelled, this.error := false, false, false;
      this.main, this.calls := Racing(true), [];
    }

    /** One round of the outer loop, up to the next await. */
    method MainRound()
      requires main == Racing(true)
      modifies this
      ensures State() == Next(old(State()), MainTurn)
    {
      if (next > count && |running| == 0) || paused {
        main := Draining;
        return;
      }
      ghost var goal := Dispatch(State());
      while next <= count && |running| < limit && !paused
        invariant Dispatch(State()) == goal
        decreases count + 1 - next
      {
        var n := next;
        next := next + 1;
        if n !in completed {
          running := running[n := Job(Hashing, 0)];
          calls := calls + [Dispatched(n)];
        }
      }
      main := if |running| > 0 then Racing(false) else Draining;
    }

    /** The await a worker was in has ended: what it does up to its next await. */
    method WorkerStep(s: Step)
      requires Enabled(State(), s)
      requires s.HashEnds? || s.SignEnds? || s.PutEnds? || s.PersistEnds? || s.AckEnds? || s.WaitEnds?
      modifies this
      ensures State() == Next(old(State()), s)
    {
      var n := s.n;
      var attempt := running[n].attempt;
      match s
      case HashEnds(_, ok) =>
        if ok { TryAgain(n, 0); } else { Fail(n); }
      case SignEnds(_, ok) =>
        if !ok {
          Caught(n, attempt, true);
        } else if paused {
          Finish(n);
        } else {
          calls := calls + [PutSent(n)];
          running := running[n := Job(Putting, attempt)];
        }
      case PutEnds(_, ok, retryable) =>
        if !ok {
          Caught(n, attempt, retryable);
        } else {
          completed := completed + {n};
          running := running[n := Job(Persisting, attempt)];
        }
      case PersistEnds(_, ok) =>
        if !ok {
          Caught(n, attempt, true);
        } else {
          running := running[n := Job(Acking, attempt)];
        }
      case AckEnds(_) =>
        success := success + 1;
        if success % 12 == 0 && limit < maxLimit {
          limit := limit + 1;
        }
        Finish(n);
      case WaitEnds(_) =>
        TryAgain(n, attempt);
    }

    method Pause()
      requires !paused
      modifies this
      ensures State() == Next(old(State()), PauseAsked)
    {
      paused := true;
    }

    method Cancel()
      requires !cancelled
      modifies this
      ensures State() == Next(old(State()), CancelAsked)
    {
      cancelled := true;
      paused := true;
    }

    /** What follows the loop once every worker has ended. */
    method AfterWorkers()
      requires Enabled(State(), AllSettled)
      modifies this
      ensures State() == Next(old(State()), AllSettled)
    {
      if cancelled {
        main := Cancelled;
      } else if error {
        main := Main.Failed;
      } else if paused {
        main := Main.Paused;
      } else {
        main := Finalizing;
      }
    }

    method TryAgain(n: nat, attempt: nat)
      modifies this
      ensures State() == Attempt(old(State()), n, attempt)
    {
      if paused || cancelled {
        Finish(n);
      } else {
        calls := calls + [SignAsked(n)];
        running := running[n := Job(Signing, attempt)];
      }
    }

    method Caught(n: nat, attempt: nat, retryable: bool)
      modifies this
      ensures State() == Catch(old(State()), n, attempt, retryable)
    {
      if paused || cancelled {
        Finish(n);
        return;
      }
      limit := Max(1, limit - 1);
      if !retryable || attempt == ATTEMPTS - 1 {
        Fail(n);
      } else {
        running := running[n := Job(Waiting, attempt + 1)];
      }
    }

    method Fail(n: nat)
      modifies this
      ensures State() == Throw(old(State()), n)
    {
      error := true;
      paused := true;
      Finish(n);
    }

    method Finish(n: nat)
      modifies this
      ensures State() == EndJob(old(State()), n)
    {
      running := running - {n};
      if main.Racing? {
        main := Racing(true);
      }
    }
  }

  // What every step keeps.

  function Count(calls: seq<Call>, c: Call): nat {
    if |calls| == 0 then 0
    else Count(calls[..|calls| - 1], c) + (if calls[|calls| - 1] == c then 1 else 0)
  }

  /** How often a worker in this position has asked for a signature. */
  function Asked(job: Job): nat {
    if job.phase == Hashing then 0 else if job.phase == Waiting then job.attempt else job.attempt + 1
  }

  /** What is known of one part: the calls made for it, its worker if it has one, and whether it is confirmed. */
  datatype Part = Part(dispatched: nat, asked: nat, put: nat, job: Option<Job>, done: bool)

  function JobOf(t: Transfer, n: nat): Option<Job> {
    if n in t.running then Some(t.running[n]) else None
  }

  function PartOf(t: Transfer, n: nat): Part {
    Part(Count(t.calls, Dispatched(n)), Count(t.calls, SignAsked(n)), Count(t.calls, PutSent(n)),
         JobOf(t, n), n in t.completed)
  }

  /** `passed`: the main loop has gone by this number. */
  predicate PartFacts(p: Part, passed: bool, paused: bool) {
    && p.put <= p.asked <= ATTEMPTS
    && p.dispatched <= 1
    && (!passed ==> p.job.None? && p.dispatched == 0 && p.asked == 0)
    && (passed && !paused ==> p.done || p.job.Some?)
    && (p.job.Some? ==>
          var job := p.job.value;
          && p.dispatched == 1 && job.attempt < ATTEMPTS && p.asked == Asked(job)
          && (job.phase == Hashing ==> job.attempt == 0)
          && (job.phase == Signing ==> p.put < p.asked)
          && (job.phase in {Persisting, Acking} ==> p.done))
  }

  predicate PartOk(t: Transfer, n: nat) {
    PartFacts(PartOf(t, n), 1 <= n < t.next, t.paused)
  }

  /** At most `maxLimit`, hence at most eight, parts run at once; once finalizing, nothing is missing. */
  ghost predicate Shape(t: Transfer) {
    && 1 <= t.limit <= t.maxLimit <= 8
    && |t.running| <= t.maxLimit
    && 1 <= t.next <= t.count + 1
    && (t.error || t.cancelled ==> t.paused)
    && (t.main == Racing(false) ==> |t.running| > 0)
    && (!t.main.Racing? && !t.paused ==> t.next == t.count + 1 && |t.running| == 0)
    && (!t.main.Racing? && t.main != Draining ==> |t.running| == 0)
    && (t.main in {Finalizing, Complete} ==> forall n: nat :: 1 <= n <= t.count ==> n in t.completed)
  }

  ghost predicate Parts(t: Transfer) {
    forall n: nat {:trigger PartOk(t, n)} :: PartOk(t, n)
  }

  ghost predicate Ok(t: Transfer) {
    Shape(t) && Parts(t)
  }

  lemma FreshOk(count: nat, completed: set<nat>, concurrency: int)
    ensures Ok(Fresh(count, completed, concurrency))
  {
    var t := Fresh(count, completed, concurrency);
    forall n: nat
      ensures PartOk(t, n)
    {
    }
  }

  lemma {:induction false} CountMore(calls: seq<Call>, c: Call, x: Call)
    ensures Count(calls + [c], x) == Count(calls, x) + (if c == x then 1 else 0)
  {
    assert (calls + [c])[..|calls|] == calls;
  }

  /** A call for part n counts for n alone. */
  lemma {:induction false} CallCounts(calls: seq<Call>, c: Call, x: nat)
    ensures Count(calls + [c], Dispatched(x)) == Count(calls, Dispatched(x)) + (if c == Dispatched(x) then 1 else 0)
    ensures Count(calls + [c], SignAsked(x)) == Count(calls, SignAsked(x)) + (if c == SignAsked(x) then 1 else 0)
    ensures Count(calls + [c], PutSent(x)) == Count(calls, PutSent(x)) + (if c == PutSent(x) then 1 else 0)
  {
    CountMore(calls, c, Dispatched(x));
    CountMore(calls, c, SignAsked(x));
    CountMore(calls, c, PutSent(x));
  }

  predicate Worker(s: Step) {
    s.HashEnds? || s.SignEnds? || s.PutEnds? || s.PersistEnds? || s.AckEnds? || s.WaitEnds?
  }

  /** What a worker of part n can do to the transfer. */
  ghost predicate Moves(a: Transfer, b: Transfer, n: nat) {
    && b.next == a.next && b.count == a.count && b.maxLimit == a.maxLimit
    && (a.paused ==> b.paused) && (b.cancelled == a.cancelled) && (b.error ==> a.error || b.paused)
    && 1 <= b.limit <= b.maxLimit
    && (b.calls == a.calls || b.calls == a.calls + [SignAsked(n)] || b.calls == a.calls + [PutSent(n)])
    && (b.completed == a.completed || b.completed == a.completed + {n})
    && n in a.running
    && ((b.main == a.main && n in b.running && b.running == a.running[n := b.running[n]])
        || (b.running == a.running - {n} && b.main == if a.main.Racing? then Racing(true) else a.main))
  }

  lemma WorkerMoves(t: Transfer, s: Step)
    requires Shape(t) && Enabled(t, s) && Worker(s)
    ensures Moves(t, Next(t, s), s.n)
  {
    if s.SignEnds? && s.ok && !t.paused {
      assert Next(t, s).running == t.running[s.n := Job(Putting, t.running[s.n].attempt)];
    }
  }

  lemma OtherPartsKeep(a: Transfer, b: Transfer, n: nat, x: nat)
    requires Moves(a, b, n) && x != n && PartOk(a, x)
    ensures PartOk(b, x)
  {
    CallCounts(a.calls, SignAsked(n), x);
    CallCounts(a.calls, PutSent(n), x);
  }

  lemma MovesKeepShape(a: Transfer, b: Transfer, n: nat)
    requires Shape(a) && Moves(a, b, n)
    ensures Shape(b)
  {
    if b.running == a.running - {n} {
      SubsetSize(b.running.Keys, a.running.Keys);
      assert |b.running| == |b.running.Keys| && |a.running| == |a.running.Keys|;
    } else {
      assert b.running.Keys == a.running.Keys;
      assert |b.running| == |b.running.Keys| && |a.running| == |a.running.Keys|;
    }
    assert |a.running| > 0;
  }

  lemma {:induction false} SubsetSize(a: set<nat>, b: set<nat>)
    requires a <= b
    ensures |a| <= |b|
  {
    if a != {} {
      var x :| x in a;
      SubsetSize(a - {x}, b - {x});
    }
  }

  lemma AttemptPart(t: Transfer, n: nat, attempt: nat)
    requires PartOk(t, n) && n in t.running && t.running[n].attempt == attempt
    requires t.running[n].phase in {Hashing, Waiting} && (t.cancelled ==> t.paused)
    ensures PartOk(Attempt(t, n, attempt), n)
  {
    CallCounts(t.calls, SignAsked(n), n);
  }

  lemma CatchPart(t: Transfer, n: nat, retryable: bool)
    requires PartOk(t, n) && n in t.running && (t.cancelled ==> t.paused)
    requires t.running[n].phase in {Signing, Putting, Persisting}
    ensures PartOk(Catch(t, n, t.running[n].attempt, retryable), n)
  {
  }

  lemma WorkerPartKeeps(t: Transfer, s: Step)
    requires Worker(s) && Shape(t) && PartOk(t, s.n) && Enabled(t, s)
    ensures PartOk(Next(t, s), s.n)
  {
    var n := s.n;
    match s
    case HashEnds(_, ok) => if ok { AttemptPart(t, n, 0); }
    case SignEnds(_, ok) =>
      if !ok { CatchPart(t, n, true); }
      CallCounts(t.calls, PutSent(n), n);
    case PutEnds(_, ok, retryable) => if !ok { CatchPart(t, n, retryable); }
    case PersistEnds(_, ok) => if !ok { CatchPart(t, n, true); }
    case AckEnds(_) =>
    case WaitEnds(_) => AttemptPart(t, n, t.running[n].attempt);
  }

  lemma WorkerKeeps(t: Transfer, s: Step)
    requires Ok(t) && Enabled(t, s) && Worker(s)
    ensures Ok(Next(t, s))
  {
    var t' := Next(t, s);
    WorkerMoves(t, s);
    MovesKeepShape(t, t', s.n);
    forall x: nat
      ensures PartOk(t', x)
    {
      assert PartOk(t, x);
      if x == s.n {
        WorkerPartKeeps(t, s);
      } else {
        OtherPartsKeep(t, t', s.n, x);
      }
    }
  }

  /** One turn of the inner loop. */
  function DispatchOne(t: Transfer): Transfer {
    if t.next in t.completed then t.(next := t.next + 1)
    else
      t.(next := t.next + 1, running := t.running[t.next := Job(Hashing, 0)], calls := t.calls + [Dispatched(t.next)])
  }

  lemma DispatchOneKeeps(t: Transfer)
    requires Parts(t) && 1 <= t.next && !t.paused
    ensures Parts(DispatchOne(t)) && |DispatchOne(t).running| <= |t.running| + 1
  {
    forall x: nat
      ensures PartOk(DispatchOne(t), x)
    {
      assert PartOk(t, x);
      CallCounts(t.calls, Dispatched(t.next), x);
    }
  }

  /** Dispatching goes on until there is no number or no room left. */
  lemma {:induction false} DispatchKeeps(t: Transfer)
    requires Parts(t) && 1 <= t.next <= t.count + 1 && |t.running| <= t.maxLimit && 1 <= t.limit <= t.maxLimit
    requires !t.paused
    ensures var d := Dispatch(t);
      && Parts(d) && |d.running| <= d.maxLimit && 1 <= d.next <= d.count + 1
      && d == t.(next := d.next, running := d.running, calls := d.calls)
      && (|d.running| == 0 ==> d.next == t.count + 1)
    decreases t.count + 1 - t.next
  {
    if t.next <= t.count && |t.running| < t.limit {
      DispatchOneKeeps(t);
      DispatchKeeps(DispatchOne(t));
    }
  }

  lemma TurnKeeps(t: Transfer)
    requires Ok(t) && t.main == Racing(true)
    ensures Ok(Turn(t))
  {
    if !t.paused {
      DispatchKeeps(t);
    }
    var d := if (t.next > t.count && |t.running| == 0) || t.paused then t else Dispatch(t);
    forall x: nat
      ensures PartOk(Turn(t), x)
    {
      assert PartOk(d, x);
    }
  }

  lemma OutsideKeeps(t: Transfer, s: Step)
    requires Ok(t) && Enabled(t, s) && (s.PauseAsked? || s.CancelAsked? || s.AllSettled? || s.CompleteEnds?)
    ensures Ok(Next(t, s))
  {
    forall x: nat
      ensures PartOk(Next(t, s), x)
      ensures Next(t, s).main in {Finalizing, Complete} && 1 <= x <= t.count ==> x in t.completed
    {
      assert PartOk(t, x);
    }
  }

  lemma StepKeeps(t: Transfer, s: Step)
    requires Ok(t) && Enabled(t, s)
    ensures Ok(Next(t, s))
  {
    if s.MainTurn? {
      TurnKeeps(t);
    } else if Worker(s) {
      WorkerKeeps(t, s);
    } else {
      OutsideKeeps(t, s);
    }
  }

  /** Any interleaving of workers, the main loop, pausing and cancelling keeps the scheduler in order. */
  lemma {:induction false} RunKeeps(t: Transfer, steps: seq<Step>)
    requires Ok(t) && AllEnabled(t, steps)
    ensures Ok(Run(t, steps))
    decreases |steps|
  {
    if |steps| > 0 {
      StepKeeps(t, steps[0]);
      RunKeeps(Next(t, steps[0]), steps[1..]);
    }
  }

  /**
   One run from any set of confirmed parts: at most eight parts at a time, each part handed out at most
   once with at most six attempts, and the completion call is made only when every part is confirmed.
   */
  lemma {:induction false} RunIsOrderly(count: nat, completed: set<nat>, concurrency: int, steps: seq<Step>, n: nat)
    requires AllEnabled(Fresh(count, completed, concurrency), steps)
    ensures var t := Run(Fresh(count, completed, concurrency), steps);
      && 1 <= t.limit <= t.maxLimit <= 8 && |t.running| <= t.maxLimit
      && Count(t.calls, Dispatched(n)) <= 1
      && Count(t.calls, PutSent(n)) <= Count(t.calls, SignAsked(n)) <= ATTEMPTS
      && (t.main in {Finalizing, Complete} && 1 <= n <= t.count ==> n in t.completed)
  {
    var t := Run(Fresh(count, completed, concurrency), steps);
    FreshOk(count, completed, concurrency);
    RunKeeps(Fresh(count, completed, concurrency), steps);
    assert PartOk(t, n);
  }

  // Confirmed parts are left alone.

  lemma {:induction false} DispatchSparesConfirmed(t: Transfer, n: nat)
    requires n in t.completed
    ensures Count(Dispatch(t).calls, Dispatched(n)) == Count(t.calls, Dispatched(n))
    ensures Dispatch(t).completed == t.completed
    decreases t.count + 1 - t.next
  {
    if t.next <= t.count && |t.running| < t.limit && !t.paused {
      DispatchSparesConfirmed(DispatchOne(t), n);
      CallCounts(t.calls, Dispatched(t.next), n);
    }
  }

  lemma WorkersDispatchNothing(t: Transfer, s: Step, n: nat)
    requires Worker(s) && Enabled(t, s)
    ensures Count(Next(t, s).calls, Dispatched(n)) == Count(t.calls, Dispatched(n))
    ensures t.completed <= Next(t, s).completed
  {
    CallCounts(t.calls, SignAsked(s.n), n);
    CallCounts(t.calls, PutSent(s.n), n);
  }

  /** A part that is confirmed at some moment is never handed out after it. */
  lemma {:induction false} ConfirmedIsNotSentAgain(t: Transfer, steps: seq<Step>, n: nat)
    requires AllEnabled(t, steps) && n in t.completed
    ensures Count(Run(t, steps).calls, Dispatched(n)) == Count(t.calls, Dispatched(n))
    decreases |steps|
  {
    if |steps| > 0 {
      if Worker(steps[0]) {
        WorkersDispatchNothing(t, steps[0], n);
      } else {
        DispatchSparesConfirmed(t, n);
      }
      ConfirmedIsNotSentAgain(Next(t, steps[0]), steps[1..], n);
    }
  }

  // Every run ends.

  function Rank(phase: Phase): nat {
    match phase
    case Hashing => 5
    case Waiting => 5
    case Signing => 4
    case Putting => 3
    case Persisting => 2
    case Acking => 1
  }

  /** How many awaits a worker can still go through. */
  function Work(job: Option<Job>): int {
    if job.None? then 0 else 5 * (ATTEMPTS - 1 - job.value.attempt) + Rank(job.value.phase)
  }

  function Works(t: Transfer): (r: seq<int>)
    ensures |r| == t.count + 1
  {
    seq(t.count + 1, n requires 0 <= n < t.count + 1 => Work(JobOf(t, n)))
  }

  function MainRank(main: Main): nat {
    match main
    case Racing(settled) => if settled then 4 else 3
    case Draining => 2
    case Finalizing => 1
    case _ => 0
  }

  function Flags(t: Transfer): nat {
    (if t.paused then 0 else 1) + (if t.cancelled then 0 else 1)
  }

  /** An upper bound on the steps a transfer can still take. */
  function Measure(t: Transfer): int {
    64 * (t.count + 1 - t.next) + 2 * Sum(Works(t)) + MainRank(t.main) + Flags(t)
  }

  lemma MeasureNonNegative(t: Transfer)
    requires Ok(t)
    ensures 0 <= Measure(t)
  {
    forall n | 0 <= n < t.count + 1
      ensures 0 <= Works(t)[n]
    {
      assert PartOk(t, n);
    }
    SumNonNegative(Works(t));
  }

  lemma WorkerDecreases(t: Transfer, s: Step)
    requires Ok(t) && Worker(s) && Enabled(t, s)
    ensures Measure(Next(t, s)) < Measure(t)
  {
    var t' := Next(t, s);
    var n := s.n;
    assert PartOk(t, n);
    WorkerMoves(t, s);
    WorkDrops(t, s);
    forall x | 0 <= x < t.count + 1 && x != n
      ensures Works(t')[x] == Works(t)[x]
    {
    }
    SumDiffersAt(Works(t), Works(t'), n);
  }

  lemma WorkDrops(t: Transfer, s: Step)
    requires Worker(s) && Enabled(t, s) && t.running[s.n].attempt < ATTEMPTS
    requires t.running[s.n].phase == Hashing ==> t.running[s.n].attempt == 0
    ensures Work(JobOf(Next(t, s), s.n)) < Work(JobOf(t, s.n))
  {
  }

  lemma {:induction false} DispatchBalances(t: Transfer)
    requires Parts(t) && 1 <= t.next <= t.count + 1 && !t.paused
    ensures 64 * (t.count + 1 - Dispatch(t).next) + 2 * Sum(Works(Dispatch(t))) <=
            64 * (t.count + 1 - t.next) + 2 * Sum(Works(t))
    ensures Dispatch(t).count == t.count && Dispatch(t).paused == t.paused && Dispatch(t).cancelled == t.cancelled
    decreases t.count + 1 - t.next
  {
    if t.next <= t.count && |t.running| < t.limit {
      var d := DispatchOne(t);
      assert PartOk(t, t.next);
      SumDiffersAt(Works(t), Works(d), t.next);
      DispatchOneKeeps(t);
      DispatchBalances(d);
    }
  }

  lemma TurnDecreases(t: Transfer)
    requires Ok(t) && t.main == Racing(true)
    ensures Measure(Turn(t)) < Measure(t)
  {
    var d := Dispatch(t);
    assert Works(Turn(t)) == Works(if (t.next > t.count && |t.running| == 0) || t.paused then t else d);
    if !t.paused {
      DispatchBalances(t);
    }
  }

  lemma StepDecreases(t: Transfer, s: Step)
    requires Ok(t) && Enabled(t, s)
    ensures Measure(Next(t, s)) < Measure(t)
  {
    if Worker(s) {
      WorkerDecreases(t, s);
    } else if s.MainTurn? {
      TurnDecreases(t);
    } else {
      assert Works(Next(t, s)) == Works(t);
    }
  }

  /** No run goes on for ever: the number of steps is bounded from the start. */
  lemma {:induction false} RunIsBounded(t: Transfer, steps: seq<Step>)
    requires Ok(t) && AllEnabled(t, steps)
    ensures |steps| <= Measure(t)
    decreases |steps|
  {
    if |steps| == 0 {
      MeasureNonNegative(t);
    } else {
      StepKeeps(t, steps[0]);
      StepDecreases(t, steps[0]);
      RunIsBounded(Next(t, steps[0]), steps[1..]);
    }
  }

  /** Nor does it ever hang: as long as it is not over, some await of its own can end, and end well. */
  lemma NeverStuck(t: Transfer) returns (s: Step)
    requires Ok(t) && !Over(t)
    ensures Enabled(t, s) && Succeeds(s)
  {
    if t.main == Racing(true) {
      s := MainTurn;
    } else if t.main == Finalizing {
      s := CompleteEnds(true);
    } else if |t.running| == 0 {
      s := AllSettled;
    } else {
      assert |t.running| == |t.running.Keys|;
      var n :| n in t.running.Keys;
      match t.running[n].phase
      case Hashing => s := HashEnds(n, true);
      case Signing => s := SignEnds(n, true);
      case Putting => s := PutEnds(n, true, true);
      case Persisting => s := PersistEnds(n, true);
      case Acking => s := AckEnds(n);
      case Waiting => s := WaitEnds(n);
    }
  }

  // What failures do.

  predicate FailedTry(s: Step) {
    (s.SignEnds? || s.PutEnds? || s.PersistEnds?) && !s.ok
  }

  /** No further attempt can help: the part cannot be read, or the store refuses it for good. */
  predicate FinalFailure(s: Step) {
    (s.HashEnds? && !s.ok) || (s.PutEnds? && !s.ok && !s.retryable)
  }

  lemma {:induction false} PrefixCounts(a: seq<Call>, b: seq<Call>, c: Call)
    requires a <= b
    ensures Count(a, c) <= Count(b, c)
  {
    if |a| < |b| {
      assert a <= b[..|b| - 1];
      PrefixCounts(a, b[..|b| - 1], c);
    } else {
      assert a == b;
    }
  }

  lemma {:induction false} DispatchAppends(t: Transfer)
    ensures t.calls <= Dispatch(t).calls
    decreases t.count + 1 - t.next
  {
    if t.next <= t.count && |t.running| < t.limit && !t.paused {
      DispatchAppends(DispatchOne(t));
    }
  }

  lemma {:induction false} CallsGrow(t: Transfer, steps: seq<Step>)
    requires AllEnabled(t, steps)
    ensures t.calls <= Run(t, steps).calls
    decreases |steps|
  {
    if |steps| > 0 {
      DispatchAppends(t);
      CallsGrow(Next(t, steps[0]), steps[1..]);
    }
  }

  /**
   In a transfer that is neither paused nor cancelled a failure stops the transfer exactly when it is final or
   the part has had its six attempts. Any other failure leaves a worker for the part, and when its wait ends
   the part is asked for once more.
   */
  lemma FailureStopsExactly(t: Transfer, s: Step)
    requires Ok(t) && Enabled(t, s) && !t.paused && !t.cancelled && (FailedTry(s) || FinalFailure(s))
    ensures var t' := Next(t, s);
      && (t'.error <==> FinalFailure(s) || Count(t.calls, SignAsked(s.n)) == 6)
      && (t'.error ==> t'.paused && s.n !in t'.running)
      && (!t'.error ==>
            && !t'.paused && t'.calls == t.calls && Enabled(t', WaitEnds(s.n))
            && var again := Next(t', WaitEnds(s.n));
               again.calls == t.calls + [SignAsked(s.n)] && Enabled(again, SignEnds(s.n, true)))
  {
    assert PartOk(t, s.n);
  }

  lemma StepErrors(t: Transfer, s: Step)
    requires Ok(t) && Enabled(t, s) && !t.error && Next(t, s).error
    ensures FinalFailure(s) || (Worker(s) && Count(Next(t, s).calls, SignAsked(s.n)) == 6)
  {
    if Worker(s) {
      assert PartOk(t, s.n);
    } else if s.MainTurn? && !t.paused {
      DispatchKeeps(t);
    }
  }

  /** Along any run the transfer fails only for a final failure or a part with six attempts. */
  lemma {:induction false} ErrorHasCause(t: Transfer, steps: seq<Step>)
    requires Ok(t) && AllEnabled(t, steps) && !t.error && Run(t, steps).error
    ensures (exists s :: s in steps && FinalFailure(s)) || exists n :: Count(Run(t, steps).calls, SignAsked(n)) == 6
    decreases |steps|
  {
    var s := steps[0];
    var t' := Next(t, s);
    StepKeeps(t, s);
    if t'.error {
      StepErrors(t, s);
      if Worker(s) && !FinalFailure(s) {
        CallsGrow(t', steps[1..]);
        PrefixCounts(t'.calls, Run(t, steps).calls, SignAsked(s.n));
        RunKeeps(t', steps[1..]);
        assert PartOk(Run(t, steps), s.n);
      }
    } else {
      ErrorHasCause(t', steps[1..]);
      if c :| c in steps[1..] && FinalFailure(c) {
        assert c in steps;
      }
    }
  }

  /** The number of parallel parts goes down by one with each failure and up by one with every twelfth success. */
  lemma LimitMoves(t: Transfer, s: Step)
    requires Ok(t) && Enabled(t, s)
    ensures var t' := Next(t, s);
      && t'.maxLimit == t.maxLimit && t'.success == t.success + (if s.AckEnds? then 1 else 0)
      && t'.limit ==
           if !t.paused && FailedTry(s) then Max(1, t.limit - 1)
           else if s.AckEnds? && t'.success % 12 == 0 then Min(t.limit + 1, t.maxLimit)
           else t.limit
  {
    if s.MainTurn? && !t.paused {
      DispatchKeeps(t);
    }
  }

  // What pausing does.

  /** From the moment it is paused or cancelled a transfer sends nothing. */
  lemma {:induction false} PausedSendsNothing(t: Transfer, steps: seq<Step>)
    requires t.paused && AllEnabled(t, steps)
    ensures Run(t, steps).paused && Run(t, steps).calls == t.calls
    decreases |steps|
  {
    if |steps| > 0 {
      PausedSendsNothing(Next(t, steps[0]), steps[1..]);
    }
  }

  /** A round that finds the transfer paused hands out nothing and waits for the workers to end. */
  lemma PausedRound(t: Transfer)
    requires t.main == Racing(true) && t.paused
    ensures Next(t, MainTurn) == t.(main := Draining)
  {
  }

  /** How a run ends once its workers have: as the user asked, as a worker failed, or with the completion call. */
  lemma OutcomeExactly(t: Transfer)
    requires Enabled(t, AllSettled)
    ensures var t' := Next(t, AllSettled);
      && (t'.main == Cancelled <==> t.cancelled)
      && (t'.main == Main.Failed <==> t.error && !t.cancelled)
      && (t'.main == Main.Paused <==> t.paused && !t.error && !t.cancelled)
      && (t'.main == Finalizing <==> !t.paused && !t.error && !t.cancelled)
      && t' == t.(main := t'.main)
  {
  }

  /** The completion call decides between the last two states. */
  lemma CompletionDecides(t: Transfer, ok: bool)
    requires Enabled(t, CompleteEnds(ok))
    ensures Next(t, CompleteEnds(ok)) == t.(main := if ok then Complete else Main.Failed)
    ensures Enabled(t, PauseAsked) ==> Next(t, PauseAsked) == t.(paused := true)
    ensures Enabled(t, CancelAsked) ==> Next(t, CancelAsked) == t.(paused := true, cancelled := true)
  {
  }

  // What a round of the main loop does.

  lemma {:induction false} DispatchExactly(t: Transfer, n: nat)
    requires !t.paused && t.next <= t.count + 1 && forall x :: x in t.running ==> x < t.next
    ensures var d := Dispatch(t);
      && t.next <= d.next <= t.count + 1 && (d.next > t.count || |d.running| >= t.limit)
      && d == t.(next := d.next, running := d.running, calls := d.calls)
      && var sent := t.next <= n < d.next && n !in t.completed;
         && Count(d.calls, Dispatched(n)) == Count(t.calls, Dispatched(n)) + (if sent then 1 else 0)
         && JobOf(d, n) == if sent then Some(Job(Hashing, 0)) else JobOf(t, n)
    decreases t.count + 1 - t.next
  {
    if t.next <= t.count && |t.running| < t.limit {
      DispatchOneExactly(t, n);
      DispatchExactly(DispatchOne(t), n);
    }
  }

  lemma DispatchOneExactly(t: Transfer, n: nat)
    requires forall x :: x in t.running ==> x < t.next
    ensures var d := DispatchOne(t);
      && d == t.(next := t.next + 1, running := d.running, calls := d.calls)
      && (forall x :: x in d.running ==> x < d.next)
      && var sent := n == t.next && n !in t.completed;
         && Count(d.calls, Dispatched(n)) == Count(t.calls, Dispatched(n)) + (if sent then 1 else 0)
         && JobOf(d, n) == if sent then Some(Job(Hashing, 0)) else JobOf(t, n)
  {
    CountMore(t.calls, Dispatched(t.next), Dispatched(n));
  }

  /** A round hands out the next unconfirmed parts, in order, until there is no room or no part left. */
  lemma RoundExactly(t: Transfer, n: nat)
    requires Ok(t) && t.main == Racing(true) && !t.paused
    ensures var d := Next(t, MainTurn);
      && t.next <= d.next <= t.count + 1 && (d.next > t.count || |d.running| >= t.limit)
      && d.main == (if |d.running| > 0 then Racing(false) else Draining)
      && d.completed == t.completed
      && var sent := t.next <= n < d.next && n !in t.completed;
         && Count(d.calls, Dispatched(n)) == Count(t.calls, Dispatched(n)) + (if sent then 1 else 0)
         && JobOf(d, n) == if sent then Some(Job(Hashing, 0)) else JobOf(t, n)
  {
    forall x | x in t.running
      ensures x < t.next
    {
      assert PartOk(t, x);
    }
    DispatchExactly(t, n);
  }

  // A run in which nothing fails.

  predicate Succeeds(s: Step) {
    match s
    case HashEnds(_, ok) => ok
    case SignEnds(_, ok) => ok
    case PutEnds(_, ok, _) => ok
    case PersistEnds(_, ok) => ok
    case CompleteEnds(ok) => ok
    case PauseAsked => false
    case CancelAsked => false
    case _ => true
  }

  /** One part after some of its steps, all of which succeeded. `skipped`: it was confirmed before the run. */
  predicate SmoothPart(p: Part, skipped: bool, passed: bool) {
    if skipped || !passed then p == Part(0, 0, 0, None, skipped)
    else
      && p.dispatched == 1
      && (match p.job
          case None => p.asked == p.put == 1 && p.done
          case Some(job) =>
            && job.attempt == 0 && job.phase != Waiting
            && p.asked == (if job.phase == Hashing then 0 else 1)
            && p.put == (if job.phase in {Hashing, Signing} then 0 else 1)
            && (p.done <==> job.phase in {Persisting, Acking}))
  }

  predicate SmoothAt(t: Transfer, skipped: set<nat>, n: nat) {
    SmoothPart(PartOf(t, n), n in skipped, 1 <= n < t.next)
  }

  ghost predicate Smooth(t: Transfer, skipped: set<nat>) {
    && !t.paused && !t.cancelled && !t.error
    && t.main !in {Main.Failed, Main.Paused, Cancelled}
    && forall n: nat {:trigger SmoothAt(t, skipped, n)} :: SmoothAt(t, skipped, n)
  }

  lemma SmoothRound(t: Transfer, skipped: set<nat>)
    requires Ok(t) && Smooth(t, skipped) && t.main == Racing(true)
    ensures Smooth(Next(t, MainTurn), skipped)
  {
    var d := Next(t, MainTurn);
    forall n: nat
      ensures SmoothAt(d, skipped, n)
    {
      assert SmoothAt(t, skipped, n);
      RoundExactly(t, n);
      RoundCalls(t, n);
    }
    DispatchKeeps(t);
  }

  lemma {:induction false} DispatchCalls(t: Transfer, n: nat)
    ensures Count(Dispatch(t).calls, SignAsked(n)) == Count(t.calls, SignAsked(n))
    ensures Count(Dispatch(t).calls, PutSent(n)) == Count(t.calls, PutSent(n))
    decreases t.count + 1 - t.next
  {
    if t.next <= t.count && |t.running| < t.limit && !t.paused {
      DispatchCalls(DispatchOne(t), n);
      CallCounts(t.calls, Dispatched(t.next), n);
    }
  }

  lemma RoundCalls(t: Transfer, n: nat)
    requires t.main == Racing(true)
    ensures Count(Next(t, MainTurn).calls, SignAsked(n)) == Count(t.calls, SignAsked(n))
    ensures Count(Next(t, MainTurn).calls, PutSent(n)) == Count(t.calls, PutSent(n))
  {
    DispatchCalls(t, n);
  }

  lemma SmoothWorker(t: Transfer, skipped: set<nat>, s: Step)
    requires Ok(t) && Smooth(t, skipped) && Worker(s) && Enabled(t, s) && Succeeds(s)
    ensures Smooth(Next(t, s), skipped)
  {
    var t' := Next(t, s);
    WorkerMoves(t, s);
    forall n: nat
      ensures SmoothAt(t', skipped, n)
    {
      assert SmoothAt(t, skipped, n) && SmoothAt(t, skipped, s.n);
      CallCounts(t.calls, SignAsked(s.n), n);
      CallCounts(t.calls, PutSent(s.n), n);
    }
  }

  lemma SmoothStep(t: Transfer, skipped: set<nat>, s: Step)
    requires Ok(t) && Smooth(t, skipped) && Enabled(t, s) && Succeeds(s)
    ensures Smooth(Next(t, s), skipped)
  {
    if s.MainTurn? {
      SmoothRound(t, skipped);
    } else if Worker(s) {
      SmoothWorker(t, skipped, s);
    } else {
      forall n: nat
        ensures SmoothAt(Next(t, s), skipped, n)
      {
        assert SmoothAt(t, skipped, n);
      }
    }
  }

  lemma {:induction false} SmoothRun(t: Transfer, skipped: set<nat>, steps: seq<Step>)
    requires Ok(t) && Smooth(t, skipped) && AllEnabled(t, steps) && forall s :: s in steps ==> Succeeds(s)
    ensures Smooth(Run(t, steps), skipped)
    decreases |steps|
  {
    if |steps| > 0 {
      StepKeeps(t, steps[0]);
      SmoothStep(t, skipped, steps[0]);
      SmoothRun(Next(t, steps[0]), skipped, steps[1..]);
    }
  }

  lemma {:induction false} RunKeepsCount(t: Transfer, steps: seq<Step>)
    requires Ok(t) && AllEnabled(t, steps)
    ensures Run(t, steps).count == t.count
    decreases |steps|
  {
    if |steps| > 0 {
      if Worker(steps[0]) {
        WorkerMoves(t, steps[0]);
      } else if steps[0].MainTurn? && !t.paused {
        DispatchKeeps(t);
      }
      StepKeeps(t, steps[0]);
      RunKeepsCount(Next(t, steps[0]), steps[1..]);
    }
  }

  /** Such runs there are, from every state a run can be in. */
  lemma {:induction false} CanFinish(t: Transfer) returns (steps: seq<Step>)
    requires Ok(t)
    ensures AllEnabled(t, steps) && Over(Run(t, steps)) && forall s :: s in steps ==> Succeeds(s)
    decreases Measure(t)
  {
    MeasureNonNegative(t);
    if Over(t) {
      steps := [];
    } else {
      var s := NeverStuck(t);
      StepKeeps(t, s);
      StepDecreases(t, s);
      MeasureNonNegative(Next(t, s));
      var rest := CanFinish(Next(t, s));
      steps := [s] + rest;
      assert steps[1..] == rest;
    }
  }

  /** The server's proposal is taken as it is between one and eight parts, and else the nearer of the two. */
  lemma StartsWithin(count: nat, completed: set<nat>, concurrency: int)
    ensures var t := Fresh(count, completed, concurrency);
      && t.limit == t.maxLimit && 1 <= t.limit <= 8
      && (1 <= concurrency <= 8 ==> t.limit == concurrency)
      && (concurrency < 1 ==> t.limit == 1) && (concurrency > 8 ==> t.limit == 8)
  {
  }

  /**
   A run in which nothing fails and nobody interferes completes, and sends each part that was missing exactly
   once and no other part at all.
   */
  lemma {:induction false} CleanRunCompletes(count: nat, completed: set<nat>, concurrency: int, steps: seq<Step>,
                                             n: nat)
    requires AllEnabled(Fresh(count, completed, concurrency), steps) && forall s :: s in steps ==> Succeeds(s)
    requires Over(Run(Fresh(count, completed, concurrency), steps)) && 1 <= n <= count
    ensures var t := Run(Fresh(count, completed, concurrency), steps);
      var times := if n in completed then 0 else 1;
      && t.main == Complete
      && Count(t.calls, Dispatched(n)) == Count(t.calls, SignAsked(n)) == Count(t.calls, PutSent(n)) == times
  {
    var start := Fresh(count, completed, concurrency);
    var t := Run(start, steps);
    FreshOk(count, completed, concurrency);
    forall x: nat
      ensures SmoothAt(start, completed, x)
    {
    }
    SmoothRun(start, completed, steps);
    RunKeeps(start, steps);
    RunKeepsCount(start, steps);
    assert SmoothAt(t, completed, n);
  }
}
