/** Recursive queries: WITH RECURSIVE ... UNION over rows numbered 0 to n - 1. */
module Closure {

  type Relation = (nat, nat) -> bool

  function Rows(n: nat): (r: set<nat>)
    ensures forall x: nat :: x in r <==> x < n
  {
    if n == 0 then {} else Rows(n - 1) + {n - 1}
  }

  /** One round of the query: the rows a row found so far leads to. */
  function Next(n: nat, step: Relation, found: set<nat>): set<nat> {
    set y | y in Rows(n) && exists x :: x in found && step(x, y)
  }

  /** Rounds are added until one brings nothing new. */
  function Reach(n: nat, step: Relation, found: set<nat>): set<nat>
    decreases Rows(n) - found
  {
    var more := found + Next(n, step, found);
    if more == found then found else Reach(n, step, more)
  }

  predicate Path(n: nat, step: Relation, p: seq<nat>) {
    && |p| > 0
    && (forall i :: 0 <= i < |p| ==> p[i] < n)
    && (forall i :: 0 <= i < |p| - 1 ==> step(p[i], p[i + 1]))
  }

  ghost predicate Connected(n: nat, step: Relation, x: nat, y: nat) {
    exists p :: Path(n, step, p) && p[0] == x && p[|p| - 1] == y
  }

  lemma {:induction false} ReachClosed(n: nat, step: Relation, found: set<nat>)
    ensures found <= Reach(n, step, found)
    ensures forall x: nat, y: nat :: x in Reach(n, step, found) && y < n && step(x, y) ==> y in Reach(n, step, found)
    decreases Rows(n) - found
  {
    var more := found + Next(n, step, found);
    if more == found {
      forall x: nat, y: nat | x in found && y < n && step(x, y)
        ensures y in found
      {
        assert y in Next(n, step, found);
      }
    } else {
      ReachClosed(n, step, more);
    }
  }

  lemma {:induction false} PathStaysIn(n: nat, step: Relation, inside: set<nat>, p: seq<nat>)
    requires forall x: nat, y: nat :: x in inside && y < n && step(x, y) ==> y in inside
    requires Path(n, step, p) && p[0] in inside
    ensures p[|p| - 1] in inside
    decreases |p|
  {
    if |p| > 1 {
      assert step(p[0], p[1]);
      PathStaysIn(n, step, inside, p[1..]);
    }
  }

  lemma ExtendPath(n: nat, step: Relation, seeds: set<nat>, x: nat, y: nat)
    requires exists s :: s in seeds && Connected(n, step, s, x)
    requires y < n && step(x, y)
    ensures exists s :: s in seeds && Connected(n, step, s, y)
  {
    var s :| s in seeds && Connected(n, step, s, x);
    var p :| Path(n, step, p) && p[0] == s && p[|p| - 1] == x;
    var q := p + [y];
    assert Path(n, step, q) && q[0] == s && q[|q| - 1] == y;
  }

  lemma {:induction false} ReachSound(n: nat, step: Relation, seeds: set<nat>, found: set<nat>, y: nat)
    requires forall x :: x in found ==> exists s :: s in seeds && Connected(n, step, s, x)
    requires y in Reach(n, step, found)
    ensures exists s :: s in seeds && Connected(n, step, s, y)
    decreases Rows(n) - found
  {
    var more := found + Next(n, step, found);
    if more != found {
      forall z | z in more
        ensures exists s :: s in seeds && Connected(n, step, s, z)
      {
        if z !in found {
          var x :| x in found && step(x, z);
          ExtendPath(n, step, seeds, x, z);
        }
      }
      ReachSound(n, step, seeds, more, y);
    }
  }

  lemma SelfConnected(n: nat, step: Relation, x: nat)
    requires x < n
    ensures Connected(n, step, x, x)
  {
    assert Path(n, step, [x]) && [x][0] == x;
  }

  lemma {:induction false} ReachComplete(n: nat, step: Relation, seeds: set<nat>, s: nat, y: nat)
    requires s in seeds && Connected(n, step, s, y)
    ensures y in Reach(n, step, seeds)
  {
    ReachClosed(n, step, seeds);
    var p :| Path(n, step, p) && p[0] == s && p[|p| - 1] == y;
    PathStaysIn(n, step, Reach(n, step, seeds), p);
  }

  lemma {:induction false} SeedsConnected(n: nat, step: Relation, seeds: set<nat>)
    requires seeds <= Rows(n)
    ensures forall x :: x in seeds ==> exists s :: s in seeds && Connected(n, step, s, x)
  {
    forall x | x in seeds
      ensures exists s :: s in seeds && Connected(n, step, s, x)
    {
      SelfConnected(n, step, x);
    }
  }

  /** The query finds exactly the rows some seed is connected to. */
  lemma {:induction false} ReachExact(n: nat, step: Relation, seeds: set<nat>, y: nat)
    requires seeds <= Rows(n)
    ensures y in Reach(n, step, seeds) <==> exists s :: s in seeds && Connected(n, step, s, y)
  {
    if y in Reach(n, step, seeds) {
      SeedsConnected(n, step, seeds);
      ReachSound(n, step, seeds, seeds, y);
    } else {
      forall s | s in seeds
        ensures !Connected(n, step, s, y)
      {
        if Connected(n, step, s, y) {
          ReachComplete(n, step, seeds, s, y);
        }
      }
    }
  }

  ghost predicate Converse(n: nat, a: Relation, b: Relation) {
    forall x: nat, y: nat :: x < n && y < n ==> (a(x, y) <==> b(y, x))
  }

  lemma ConnectedBack(n: nat, a: Relation, b: Relation, x: nat, y: nat)
    requires Converse(n, a, b) && Connected(n, a, x, y)
    ensures Connected(n, b, y, x)
  {
    var p :| Path(n, a, p) && p[0] == x && p[|p| - 1] == y;
    var k := |p|;
    var q := seq(k, i requires 0 <= i < k => p[k - 1 - i]);
    forall i | 0 <= i < k - 1
      ensures b(q[i], q[i + 1])
    {
      assert a(p[k - 2 - i], p[k - 2 - i + 1]);
    }
    assert Path(n, b, q) && q[0] == y && q[|q| - 1] == x;
  }

  /** Walking down from the seeds meets y exactly when walking up from y meets a seed. */
  lemma {:induction false} ReachDual(n: nat, down: Relation, up: Relation, seeds: set<nat>, y: nat)
    requires Converse(n, down, up) && seeds <= Rows(n) && y < n
    ensures y in Reach(n, down, seeds) <==> exists s :: s in seeds && s in Reach(n, up, {y})
  {
    ReachExact(n, down, seeds, y);
    if y in Reach(n, down, seeds) {
      var s :| s in seeds && Connected(n, down, s, y);
      ConnectedBack(n, down, up, s, y);
      ReachExact(n, up, {y}, s);
      assert y in {y};
    }
    if s :| s in seeds && s in Reach(n, up, {y}) {
      ReachExact(n, up, {y}, s);
      var z :| z in {y} && Connected(n, up, z, s);
      ConnectedBack(n, up, down, y, s);
    }
  }

  /** Relations that relate the same rows are queried alike. */
  lemma {:induction false} SameReach(n: nat, a: Relation, b: Relation, seeds: set<nat>)
    requires seeds <= Rows(n) && forall x: nat, y: nat :: a(x, y) == b(x, y)
    ensures Reach(n, a, seeds) == Reach(n, b, seeds)
  {
    forall y: nat
      ensures y in Reach(n, a, seeds) <==> y in Reach(n, b, seeds)
    {
      SameConnected(n, a, b, y);
      ReachExact(n, a, seeds, y);
      ReachExact(n, b, seeds, y);
    }
  }

  lemma SameConnected(n: nat, a: Relation, b: Relation, y: nat)
    requires forall x: nat, y: nat :: a(x, y) == b(x, y)
    ensures forall x :: Connected(n, a, x, y) <==> Connected(n, b, x, y)
  {
    forall p
      ensures Path(n, a, p) <==> Path(n, b, p)
    {
    }
  }
}
