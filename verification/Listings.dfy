/** Listing a session's parts page by page (packages/storage/index.ts, listParts). */
module Listings {
  import opened Base
  import opened ObjectStore

  /** One page: parts numbered above the marker, and the marker of the next page if there are more. */
  datatype Page = Page(parts: seq<Listed>, nextMarker: Option<int>)

  predicate Ascending(listing: seq<Listed>) {
    forall i, j :: 0 <= i < j < |listing| ==> listing[i].part.number < listing[j].part.number
  }

  function Above(listing: seq<Listed>, marker: Option<int>): seq<Listed> {
    if |listing| == 0 then []
    else
      Above(listing[..|listing| - 1], marker) +
      (if marker.None? || listing[|listing| - 1].part.number > marker.value then [listing[|listing| - 1]] else [])
  }

  /** What the store answers: at most `size` parts at a time, in order of their numbers. */
  function GetPage(listing: seq<Listed>, marker: Option<int>, size: nat): Page
    requires size > 0
  {
    var above := Above(listing, marker);
    if |above| <= size then Page(above, None) else Page(above[..size], Some(above[size - 1].part.number))
  }

  lemma {:induction false} ListingAscends(parts: seq<Option<StoredPart>>, hash: Bytes -> int, n: nat)
    requires n <= |parts|
    ensures Ascending(Listing(parts, hash, n))
    ensures forall i :: 0 <= i < |Listing(parts, hash, n)| ==> 1 <= Listing(parts, hash, n)[i].part.number <= n
  {
    if n > 0 {
      ListingAscends(parts, hash, n - 1);
    }
  }

  /** In an ascending listing, what lies above the number at position k - 1 is everything from k on. */
  lemma {:induction false} AboveIsRest(listing: seq<Listed>, k: nat)
    requires Ascending(listing) && 0 < k <= |listing|
    ensures Above(listing, Some(listing[k - 1].part.number)) == listing[k..]
    decreases |listing|
  {
    var marker := listing[k - 1].part.number;
    var n := |listing| - 1;
    if k == |listing| {
      NothingAbove(listing, marker);
    } else {
      assert listing[..n][k - 1] == listing[k - 1];
      AboveIsRest(listing[..n], k);
      assert listing[..n][k..] + [listing[n]] == listing[k..];
    }
  }

  lemma {:induction false} NothingAbove(listing: seq<Listed>, marker: int)
    requires forall i :: 0 <= i < |listing| ==> listing[i].part.number <= marker
    ensures Above(listing, Some(marker)) == []
  {
    if |listing| > 0 {
      NothingAbove(listing[..|listing| - 1], marker);
    }
  }

  lemma {:induction false} AllAbove(listing: seq<Listed>)
    ensures Above(listing, None) == listing
  {
    if |listing| > 0 {
      AllAbove(listing[..|listing| - 1]);
      assert listing == listing[..|listing| - 1] + [listing[|listing| - 1]];
    }
  }

  /** A page is the next stretch of the listing, and its marker leads to what follows. */
  lemma {:induction false} PageContinues(listing: seq<Listed>, k: nat, marker: Option<int>, size: nat)
    requires Ascending(listing) && k <= |listing| && size > 0 && Above(listing, marker) == listing[k..]
    ensures var page := GetPage(listing, marker, size);
      var end := Min(k + size, |listing|);
      && page.parts == listing[k..end]
      && (page.nextMarker.Some? <==> end < |listing|)
      && (page.nextMarker.Some? ==> k < end && Above(listing, page.nextMarker) == listing[end..])
  {
    if k + size < |listing| {
      assert listing[k..][size - 1] == listing[k + size - 1];
      AboveIsRest(listing, k + size);
    }
  }

  /** The paging loop collects every stored part once, in order, whatever the page size. */
  method ListParts(parts: seq<Option<StoredPart>>, hash: Bytes -> int, size: nat) returns (all: seq<Listed>)
    requires size > 0
    ensures all == Listing(parts, hash, |parts|)
  {
    var listing := Listing(parts, hash, |parts|);
    ListingAscends(parts, hash, |parts|);
    AllAbove(listing);
    all := [];
    var marker: Option<int> := None;
    var more := true;
    ghost var k := 0;
    while more
      invariant 0 <= k <= |listing| && all == listing[..k]
      invariant if more then Above(listing, marker) == listing[k..] else k == |listing|
      decreases more, |listing| - k
    {
      PageContinues(listing, k, marker, size);
      var page := GetPage(listing, marker, size);
      ghost var end := Min(k + size, |listing|);
      TakeMore(listing, k, end);
      all := all + page.parts;
      marker, more, k := page.nextMarker, page.nextMarker.Some?, end;
    }
    assert listing[..|listing|] == listing;
  }

  lemma TakeMore(listing: seq<Listed>, k: nat, end: nat)
    requires k <= end <= |listing|
    ensures listing[..k] + listing[k..end] == listing[..end]
  {
  }
}
