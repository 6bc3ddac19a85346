/** Part planning: how a file is cut into multipart pieces (packages/validation/index.ts). */
module Planning {
  import opened Base

  const MAX_PARTS: nat := 10000

  datatype StoragePart = StoragePart(number: int, size: int, etag: string)

  function CeilDiv(a: nat, b: nat): (r: nat)
    requires b > 0
    ensures r * b >= a && (r == 0 || (r - 1) * b < a)
  {
    (a + b - 1) / b
  }

  /** `Math.ceil(size/10000/1024**2)` is taken over the rationals. */
  function PartSize(size: nat, configuredMiB: nat): nat {
    Max(configuredMiB * MIB, CeilDiv(size, MAX_PARTS * MIB) * MIB)
  }

  function PartCount(size: nat, chunk: nat): nat
    requires chunk > 0
  {
    CeilDiv(size, chunk)
  }

  /** `None` stands for the thrown 'Invalid part number'. */
  function ExpectedPartBytes(size: nat, chunk: nat, n: int): Option<int>
    requires chunk > 0
  {
    if n < 1 || n > PartCount(size, chunk) then None else Some(Min(chunk, size - (n - 1) * chunk))
  }

  /** The manifest check: the loop's verdict for the entries from index `i` on. */
  predicate PartsMatchFrom(size: nat, chunk: nat, parts: seq<StoragePart>, i: nat)
    requires chunk > 0 && i <= |parts|
    decreases |parts| - i
  {
    i == |parts| ||
    (&& parts[i].number == i + 1
     && ExpectedPartBytes(size, chunk, parts[i].number) == Some(parts[i].size)
     && parts[i].etag != ""
     && PartsMatchFrom(size, chunk, parts, i + 1))
  }

  predicate AssertParts(size: nat, chunk: nat, parts: seq<StoragePart>)
    requires chunk > 0
  {
    |parts| == PartCount(size, chunk) && PartsMatchFrom(size, chunk, parts, 0)
  }

  /** Reference definition of a plan: cut whole chunks off the front until at most one chunk is left. */
  function Tiling(rest: nat, chunk: nat, first: nat): seq<(int, int)>
    requires chunk > 0
    decreases rest
  {
    if rest == 0 then []
    else if rest <= chunk then [(first, rest)]
    else [(first, chunk)] + Tiling(rest - chunk, chunk, first + 1)
  }

  function Sizes(plan: seq<(int, int)>): (r: seq<int>)
    ensures |r| == |plan|
  {
    seq(|plan|, i requires 0 <= i < |plan| => plan[i].1)
  }

  function Shape(parts: seq<StoragePart>): (r: seq<(int, int)>)
    ensures |r| == |parts|
  {
    seq(|parts|, i requires 0 <= i < |parts| => (parts[i].number, parts[i].size))
  }

  lemma CeilDivUnique(a: nat, b: nat, q: nat)
    requires b > 0
    requires q * b >= a && (q == 0 || (q - 1) * b < a)
    ensures CeilDiv(a, b) == q
  {
    var r := CeilDiv(a, b);
    if q < r {
      CancelFactor(r - 1, q, b);
    } else if r < q {
      CancelFactor(q - 1, r, b);
    }
  }

  lemma CancelFactor(a: int, b: int, c: int)
    requires c > 0 && a * c < b * c
    ensures a < b
  {
    assert (a - b) * c < 0;
  }

  /** Every upload is planned into between one and 10000 parts, whatever part size is configured. */
  lemma PlanFitsStorageLimit(size: nat, configuredMiB: nat)
    requires size > 0
    ensures PartSize(size, configuredMiB) > 0
    ensures 1 <= PartCount(size, PartSize(size, configuredMiB)) <= MAX_PARTS
  {
    var chunk := PartSize(size, configuredMiB);
    var q := CeilDiv(size, MAX_PARTS * MIB);
    var n := PartCount(size, chunk);
    assert q >= 1;
    assert MAX_PARTS * chunk >= size;
    CancelFactor(n - 1, MAX_PARTS, chunk);
  }

  /** Each planned length is positive, at most a chunk, and only the last one may be short. */
  lemma PartLengths(size: nat, chunk: nat, n: int)
    requires chunk > 0 && 1 <= n <= PartCount(size, chunk)
    ensures ExpectedPartBytes(size, chunk, n).Some?
    ensures 0 < ExpectedPartBytes(size, chunk, n).value <= chunk
    ensures n < PartCount(size, chunk) ==> ExpectedPartBytes(size, chunk, n).value == chunk
    ensures (n - 1) * chunk + ExpectedPartBytes(size, chunk, n).value == Min(n * chunk, size)
  {
    var c := PartCount(size, chunk);
    assert (n - 1) * chunk <= (c - 1) * chunk < size;
    if n < c {
      assert n * chunk <= (c - 1) * chunk;
    }
    assert n * chunk == (n - 1) * chunk + chunk;
  }

  lemma {:induction false} TilingSizesSum(rest: nat, chunk: nat, first: nat)
    requires chunk > 0
    ensures Sum(Sizes(Tiling(rest, chunk, first))) == rest
    decreases rest
  {
    var t := Tiling(rest, chunk, first);
    if rest == 0 {
    } else if rest <= chunk {
      assert Sizes(t) == [rest];
    } else {
      var tail := Tiling(rest - chunk, chunk, first + 1);
      TilingSizesSum(rest - chunk, chunk, first + 1);
      assert Sizes(t) == [chunk] + Sizes(tail);
      SumPrepend(chunk, Sizes(tail));
    }
  }

  lemma {:induction false} SumPrepend(x: int, xs: seq<int>)
    ensures Sum([x] + xs) == x + Sum(xs)
  {
    if |xs| == 0 {
      assert [x] + xs == [x];
    } else {
      SumPrepend(x, xs[..|xs| - 1]);
      assert ([x] + xs)[..|xs|] == [x] + xs[..|xs| - 1];
    }
  }

  predicate TilesFrom(size: nat, chunk: nat, done: nat, t: seq<(int, int)>)
    requires chunk > 0
  {
    && |t| == PartCount(size, chunk) - done
    && forall i :: 0 <= i < |t| ==> Some(t[i].1) == ExpectedPartBytes(size, chunk, t[i].0) && t[i].0 == done + 1 + i
  }

  /** The reference tiling lists the parts the closed formula gives. */
  lemma {:induction false} TilingIsFormula(size: nat, chunk: nat, done: nat)
    requires chunk > 0 && done * chunk <= size
    ensures TilesFrom(size, chunk, done, Tiling(size - done * chunk, chunk, done + 1))
    decreases size - done * chunk
  {
    var rest := size - done * chunk;
    var c := PartCount(size, chunk);
    var next := (done + 1) * chunk;
    assert next == done * chunk + chunk;
    if rest == 0 {
      CeilDivUnique(size, chunk, done);
    } else if rest <= chunk {
      CeilDivUnique(size, chunk, done + 1);
    } else {
      TilingIsFormula(size, chunk, done + 1);
      var tail := Tiling(size - next, chunk, done + 2);
      assert Tiling(rest, chunk, done + 1) == [(done + 1, chunk)] + tail;
    }
  }

  lemma {:induction false} PartsMatchPointwise(size: nat, chunk: nat, parts: seq<StoragePart>, i: nat)
    requires chunk > 0 && i <= |parts|
    ensures PartsMatchFrom(size, chunk, parts, i) <==>
      forall k :: i <= k < |parts| ==>
        && parts[k].number == k + 1
        && ExpectedPartBytes(size, chunk, k + 1) == Some(parts[k].size)
        && parts[k].etag != ""
    decreases |parts| - i
  {
    if i < |parts| {
      PartsMatchPointwise(size, chunk, parts, i + 1);
    }
  }

  /** The manifest check accepts exactly the reference tiling with an etag on every part. */
  lemma {:induction false} AssertPartsExact(size: nat, chunk: nat, parts: seq<StoragePart>)
    requires chunk > 0
    ensures AssertParts(size, chunk, parts) <==>
      Shape(parts) == Tiling(size, chunk, 1) && forall k :: 0 <= k < |parts| ==> parts[k].etag != ""
    ensures AssertParts(size, chunk, parts) ==> Sum(Sizes(Shape(parts))) == size
  {
    TilingIsFormula(size, chunk, 0);
    TilingSizesSum(size, chunk, 1);
    PartsMatchPointwise(size, chunk, parts, 0);
    var t := Tiling(size, chunk, 1);
    if AssertParts(size, chunk, parts) {
      forall i | 0 <= i < |parts|
        ensures Shape(parts)[i] == t[i]
      {
        assert Some(t[i].1) == ExpectedPartBytes(size, chunk, i + 1);
      }
      assert Shape(parts) == t;
    }
    if Shape(parts) == t && forall k :: 0 <= k < |parts| ==> parts[k].etag != "" {
      forall k | 0 <= k < |parts|
        ensures parts[k].number == k + 1 && ExpectedPartBytes(size, chunk, k + 1) == Some(parts[k].size)
      {
        assert Shape(parts)[k] == (parts[k].number, parts[k].size);
        assert Some(t[k].1) == ExpectedPartBytes(size, chunk, k + 1);
      }
    }
  }
}
