/** Download grants (apps/api/src/lib.ts, bandwidth; apps/api/src/files.ts, directDownload). Times are milliseconds. */
module Grants {

  const WINDOW: nat := 900000

  datatype Grant = Grant(owner: nat, at: int, bytes: nat)

  /** `month` numbers the calendar months in the order of time. */
  datatype Limits = Limits(concurrent: nat -> nat, bandwidth: nat -> nat, month: int -> int)

  /** count(*) of the owner's grants newer than fifteen minutes before `now`. */
  function Recent(grants: seq<Grant>, owner: nat, now: int): nat {
    if |grants| == 0 then 0
    else
      var g := grants[|grants| - 1];
      Recent(grants[..|grants| - 1], owner, now) + (if g.owner == owner && g.at > now - WINDOW then 1 else 0)
  }

  /** sum(bytes_authorized) since the first of the month of `now`. */
  function Spent(l: Limits, grants: seq<Grant>, owner: nat, now: int): nat {
    if |grants| == 0 then 0
    else
      var g := grants[|grants| - 1];
      Spent(l, grants[..|grants| - 1], owner, now) +
      (if g.owner == owner && l.month(g.at) >= l.month(now) then g.bytes else 0)
  }

  predicate Bandwidth(l: Limits, grants: seq<Grant>, owner: nat, bytes: nat, now: int) {
    Recent(grants, owner, now) < l.concurrent(owner) && Spent(l, grants, owner, now) + bytes <= l.bandwidth(owner)
  }

  /** A download the rest of directDownload agrees to. `at` is when its transaction began. */
  datatype Asked = Asked(owner: nat, bytes: nat, at: int)

  function Authorize(l: Limits, grants: seq<Grant>, a: Asked): seq<Grant> {
    if Bandwidth(l, grants, a.owner, a.bytes, a.at) then grants + [Grant(a.owner, a.at, a.bytes)] else grants
  }

  /** Transactions in the order they commit, which need not be the order they began in. */
  function AuthorizeAll(l: Limits, asked: seq<Asked>): seq<Grant> {
    if |asked| == 0 then [] else Authorize(l, AuthorizeAll(l, asked[..|asked| - 1]), asked[|asked| - 1])
  }

  /** The downloads table. */
  class Ledger {
    const limits: Limits
    var downloads: seq<Grant>

    constructor (limits: Limits)
      ensures this.limits == limits && downloads == []
    {
      this.limits := limits;
      downloads := [];
    }

    method DirectDownload(owner: nat, bytes: nat, now: int) returns (granted: bool)
      modifies this`downloads
      ensures downloads == Authorize(limits, old(downloads), Asked(owner, bytes, now))
      ensures granted <==> |downloads| == |old(downloads)| + 1
    {
      if Recent(downloads, owner, now) >= limits.concurrent(owner) { return false; }
      if Spent(limits, downloads, owner, now) + bytes > limits.bandwidth(owner) { return false; }
      downloads := downloads + [Grant(owner, now, bytes)];
      granted := true;
    }
  }

  // What the limits mean.

  /** Grants of an owner at times from `from` on, but before `until`. */
  function Between(grants: seq<Grant>, owner: nat, from: int, until: int): nat {
    if |grants| == 0 then 0
    else
      var g := grants[|grants| - 1];
      Between(grants[..|grants| - 1], owner, from, until) + (if g.owner == owner && from <= g.at < until then 1 else 0)
  }

  function MonthTotal(l: Limits, grants: seq<Grant>, owner: nat, month: int): nat {
    if |grants| == 0 then 0
    else
      var g := grants[|grants| - 1];
      MonthTotal(l, grants[..|grants| - 1], owner, month) +
      (if g.owner == owner && l.month(g.at) == month then g.bytes else 0)
  }

  /** A check at any moment of the window sees every grant of the window made so far, whenever those began. */
  lemma {:induction false} CheckSeesWindow(grants: seq<Grant>, owner: nat, from: int, until: int, now: int)
    requires from <= now < until <= from + WINDOW
    ensures Between(grants, owner, from, until) <= Recent(grants, owner, now)
  {
    if |grants| > 0 {
      CheckSeesWindow(grants[..|grants| - 1], owner, from, until, now);
    }
  }

  lemma {:induction false} CheckSeesMonth(l: Limits, grants: seq<Grant>, owner: nat, now: int)
    ensures MonthTotal(l, grants, owner, l.month(now)) <= Spent(l, grants, owner, now)
  {
    if |grants| > 0 {
      CheckSeesMonth(l, grants[..|grants| - 1], owner, now);
    }
  }

  /** No span of fifteen minutes holds more grants of an owner than its limit, in whatever order they commit. */
  lemma {:induction false} WindowLimit(l: Limits, asked: seq<Asked>, owner: nat, from: int, until: int)
    requires until <= from + WINDOW
    ensures Between(AuthorizeAll(l, asked), owner, from, until) <= l.concurrent(owner)
  {
    if |asked| > 0 {
      var before, a := AuthorizeAll(l, asked[..|asked| - 1]), asked[|asked| - 1];
      WindowLimit(l, asked[..|asked| - 1], owner, from, until);
      var after := AuthorizeAll(l, asked);
      if after != before {
        assert after[..|before|] == before;
        if from <= a.at < until {
          CheckSeesWindow(before, owner, from, until, a.at);
        }
      }
    }
  }

  /** In no calendar month are more bytes authorized than the owner's allowance. */
  lemma {:induction false} MonthLimit(l: Limits, asked: seq<Asked>, owner: nat, month: int)
    ensures MonthTotal(l, AuthorizeAll(l, asked), owner, month) <= l.bandwidth(owner)
  {
    if |asked| > 0 {
      var before, a := AuthorizeAll(l, asked[..|asked| - 1]), asked[|asked| - 1];
      MonthLimit(l, asked[..|asked| - 1], owner, month);
      var after := AuthorizeAll(l, asked);
      if after != before {
        assert after[..|before|] == before;
        if l.month(a.at) == month {
          CheckSeesMonth(l, before, owner, a.at);
        }
      }
    }
  }

  // A span that includes both of its ends, exactly fifteen minutes apart, can hold twice as many.

  lemma {:induction false} SpanSplits(grants: seq<Grant>, owner: nat, from: int, middle: int, until: int)
    requires from <= middle <= until
    ensures Between(grants, owner, from, until) ==
      Between(grants, owner, from, middle) + Between(grants, owner, middle, until)
  {
    if |grants| > 0 {
      SpanSplits(grants[..|grants| - 1], owner, from, middle, until);
    }
  }

  lemma ClosedWindowLimit(l: Limits, asked: seq<Asked>, owner: nat, from: int)
    ensures Between(AuthorizeAll(l, asked), owner, from, from + WINDOW + 1) <= 2 * l.concurrent(owner)
  {
    SpanSplits(AuthorizeAll(l, asked), owner, from, from + WINDOW, from + WINDOW + 1);
    WindowLimit(l, asked, owner, from, from + WINDOW);
    WindowLimit(l, asked, owner, from + WINDOW, from + WINDOW + 1);
  }

  function Burst(owner: nat, at: int, n: nat): seq<Asked> {
    seq(n, _ => Asked(owner, 0, at))
  }

  /** n grants at time 0 and k more exactly fifteen minutes later, none with any bytes. */
  ghost predicate Bursts(l: Limits, grants: seq<Grant>, owner: nat, n: nat, k: nat) {
    && Between(grants, owner, 0, WINDOW + 1) == n + k
    && Recent(grants, owner, 0) == n + k
    && Recent(grants, owner, WINDOW) == k
    && forall now :: Spent(l, grants, owner, now) == 0
  }

  lemma OneMore(l: Limits, grants: seq<Grant>, owner: nat, n: nat, k: nat, late: bool)
    requires Bursts(l, grants, owner, n, k) && (if late then k else n + k) < l.concurrent(owner)
    ensures var at := if late then WINDOW else 0;
      Bursts(l, Authorize(l, grants, Asked(owner, 0, at)), owner, if late then n else n + 1, if late then k + 1 else k)
  {
    var at := if late then WINDOW else 0;
    var after := Authorize(l, grants, Asked(owner, 0, at));
    assert Spent(l, grants, owner, at) == 0;
    assert after == grants + [Grant(owner, at, 0)];
    assert after[..|grants|] == grants;
  }

  lemma {:induction false} BurstsGranted(l: Limits, owner: nat, n: nat, k: nat)
    requires n <= l.concurrent(owner) && k <= l.concurrent(owner)
    ensures Bursts(l, AuthorizeAll(l, Burst(owner, 0, n) + Burst(owner, WINDOW, k)), owner, n, k)
    decreases n + k
  {
    var asked := Burst(owner, 0, n) + Burst(owner, WINDOW, k);
    if k > 0 {
      BurstsGranted(l, owner, n, k - 1);
      assert asked[..|asked| - 1] == Burst(owner, 0, n) + Burst(owner, WINDOW, k - 1);
      OneMore(l, AuthorizeAll(l, asked[..|asked| - 1]), owner, n, k - 1, true);
    } else if n > 0 {
      BurstsGranted(l, owner, n - 1, 0);
      assert asked[..|asked| - 1] == Burst(owner, 0, n - 1) + Burst(owner, WINDOW, 0);
      OneMore(l, AuthorizeAll(l, asked[..|asked| - 1]), owner, n - 1, 0, false);
    }
  }

  /** The doubled bound is attained, for every limit. */
  lemma {:induction false} ClosedWindowAttained(l: Limits, owner: nat)
    ensures exists asked :: Between(AuthorizeAll(l, asked), owner, 0, WINDOW + 1) == 2 * l.concurrent(owner)
  {
    var n := l.concurrent(owner);
    BurstsGranted(l, owner, n, n);
  }

  // What is granted.

  /** Grants were all made by this moment, and months come in the order of time. */
  ghost predicate MadeBy(l: Limits, grants: seq<Grant>, now: int) {
    forall g :: g in grants ==> g.at <= now && l.month(g.at) <= l.month(now)
  }

  lemma {:induction false} CountsAgree(l: Limits, grants: seq<Grant>, owner: nat, now: int)
    requires MadeBy(l, grants, now)
    ensures Recent(grants, owner, now) == Between(grants, owner, now - 15 * 60 * 1000 + 1, now + 1)
    ensures Spent(l, grants, owner, now) == MonthTotal(l, grants, owner, l.month(now))
  {
    if |grants| > 0 {
      assert grants[|grants| - 1] in grants;
      CountsAgree(l, grants[..|grants| - 1], owner, now);
    }
  }

  /**
   A download is granted exactly when the owner's grants of the last fifteen minutes leave room for one more
   and the owner's bytes of this month for its own; it is then recorded with its owner, time and bytes.
   */
  lemma {:induction false} GrantedExactly(l: Limits, grants: seq<Grant>, a: Asked)
    requires MadeBy(l, grants, a.at)
    ensures Authorize(l, grants, a) ==
      if && Between(grants, a.owner, a.at - 15 * 60 * 1000 + 1, a.at + 1) + 1 <= l.concurrent(a.owner)
         && MonthTotal(l, grants, a.owner, l.month(a.at)) + a.bytes <= l.bandwidth(a.owner)
      then grants + [Grant(a.owner, a.at, a.bytes)]
      else grants
  {
    CountsAgree(l, grants, a.owner, a.at);
  }
}
