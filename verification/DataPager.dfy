/** Paging the redeemable positions under an offset cap past which the API re-serves one page. */
module DataPager {
  import opened Base

  const PAGE_LIMIT: nat := 500
  const MAX_OFFSET: nat := 10_000

  datatype Outcome = Yes | No | Other

  /** One reported row; the parsed condition and token are None when they do not parse. */
  datatype Position = Position(
    asset: string, token: Option<nat>, conditionId: Option<Bytes32>, outcome: Outcome, negativeRisk: bool)

  /** What the API serves for an offset: past the cap it repeats the page at the cap. */
  function Page(listing: seq<Position>, offset: nat): seq<Position> {
    var start := Min(Min(offset, MAX_OFFSET), |listing|);
    listing[start..Min(start + PAGE_LIMIT, |listing|)]
  }

  ghost predicate HasAsset(rows: seq<Position>, asset: string) {
    exists i :: 0 <= i < |rows| && rows[i].asset == asset
  }

  /** The first row of each asset, in order. */
  ghost function FirstRows(rows: seq<Position>): seq<Position> {
    if rows == [] then []
    else
      var front := FirstRows(rows[..|rows| - 1]);
      var last := rows[|rows| - 1];
      if HasAsset(front, last.asset) then front else front + [last]
  }

  ghost predicate DistinctAssets(rows: seq<Position>) {
    forall i, j :: 0 <= i < j < |rows| ==> rows[i].asset != rows[j].asset
  }

  lemma HasAssetAppend(rows: seq<Position>, p: Position, asset: string)
    ensures HasAsset(rows + [p], asset) <==> HasAsset(rows, asset) || p.asset == asset
  {
    if i :| 0 <= i < |rows| && rows[i].asset == asset {
      assert (rows + [p])[i].asset == asset;
    }
    if p.asset == asset {
      assert (rows + [p])[|rows|].asset == asset;
    }
    if i :| 0 <= i < |rows + [p]| && (rows + [p])[i].asset == asset {
      assert i == |rows| || rows[i].asset == asset;
    }
  }

  /** Every asset of the rows appears exactly once. */
  lemma {:induction false} FirstRowsKeepAssets(rows: seq<Position>, asset: string)
    ensures HasAsset(FirstRows(rows), asset) <==> HasAsset(rows, asset)
  {
    if rows != [] {
      var front, last := rows[..|rows| - 1], rows[|rows| - 1];
      assert rows == front + [last];
      FirstRowsKeepAssets(front, asset);
      HasAssetAppend(front, last, asset);
      HasAssetAppend(FirstRows(front), last, asset);
    }
  }

  lemma {:induction false} FirstRowsDistinct(rows: seq<Position>)
    ensures DistinctAssets(FirstRows(rows)) && |FirstRows(rows)| <= |rows|
  {
    if rows != [] {
      FirstRowsDistinct(rows[..|rows| - 1]);
    }
  }

  lemma {:induction false} DistinctRowsAllKept(rows: seq<Position>)
    requires DistinctAssets(rows)
    ensures FirstRows(rows) == rows
  {
    if rows != [] {
      var front := rows[..|rows| - 1];
      DistinctRowsAllKept(front);
      assert rows == front + [rows[|rows| - 1]];
    }
  }

  /** The rows collected from the first `k` of the listing. */
  ghost function Collected(listing: seq<Position>, k: nat): seq<Position>
    requires k <= |listing|
  {
    FirstRows(listing[..k])
  }

  /** One more row of the listing, taken or skipped. */
  lemma NextRow(listing: seq<Position>, k: nat, p: Position)
    requires k < |listing| && p == listing[k]
    ensures Collected(listing, k + 1) ==
      if HasAsset(Collected(listing, k), p.asset) then Collected(listing, k) else Collected(listing, k) + [p]
  {
    assert listing[..k + 1][..k] == listing[..k];
  }

  /** How many rows paging reads from an offset on: to a short page, the cap, or a page with nothing new. */
  ghost function Reach(listing: seq<Position>, offset: nat): (k: nat)
    requires offset <= |listing|
    ensures k <= |listing|
    decreases |listing| - offset
  {
    var stop := Min(offset + PAGE_LIMIT, |listing|);
    if stop - offset < PAGE_LIMIT || offset >= MAX_OFFSET || Collected(listing, stop) == Collected(listing, offset)
    then stop
    else Reach(listing, stop)
  }

  /** What one paging run returns. */
  ghost function PageSet(listing: seq<Position>): seq<Position> {
    Collected(listing, Reach(listing, 0))
  }

  /** Some full page adds nothing new, which paging takes for the recycled page. */
  ghost predicate StalePage(listing: seq<Position>, offset: nat) {
    && offset % PAGE_LIMIT == 0 && offset <= MAX_OFFSET && offset + PAGE_LIMIT <= |listing|
    && Collected(listing, offset + PAGE_LIMIT) == Collected(listing, offset)
  }

  ghost predicate Tracks(seen: set<string>, out: seq<Position>) {
    forall a :: a in seen <==> HasAsset(out, a)
  }

  lemma TracksAppend(seen: set<string>, out: seq<Position>, p: Position)
    requires Tracks(seen, out)
    ensures Tracks(seen + {p.asset}, out + [p])
  {
    forall a ensures a in seen + {p.asset} <==> HasAsset(out + [p], a) {
      HasAssetAppend(out, p, a);
    }
  }

  /** Takes the rows of one page that are not yet collected. */
  method AddPage(ghost listing: seq<Position>, ghost offset: nat, page: seq<Position>,
                 out0: seq<Position>, seen0: set<string>)
    returns (out: seq<Position>, seen: set<string>, added: nat)
    requires offset + |page| <= |listing| && page == listing[offset..offset + |page|]
    requires out0 == Collected(listing, offset) && Tracks(seen0, out0)
    ensures out == Collected(listing, offset + |page|) && Tracks(seen, out)
    ensures added == 0 <==> out == out0
  {
    out, seen, added := out0, seen0, 0;
    for k := 0 to |page|
      invariant out == Collected(listing, offset + k) && Tracks(seen, out)
      invariant |out| == |out0| + added && (added == 0 ==> out == out0)
    {
      var p := page[k];
      NextRow(listing, offset + k, p);
      if p.asset !in seen {
        TracksAppend(seen, out, p);
        seen := seen + {p.asset};
        out := out + [p];
        added := added + 1;
      }
    }
  }

  ghost predicate NoneStaleBefore(listing: seq<Position>, offset: nat) {
    forall o: nat :: o < offset ==> !StalePage(listing, o)
  }

  /** What paging returns, with the two ways it can stop. */
  ghost predicate PagingDone(listing: seq<Position>, out: seq<Position>, hitCap: bool) {
    && out == PageSet(listing) && DistinctAssets(out)
    && (!hitCap ==> out == FirstRows(listing))
    && (hitCap <==> |listing| >= MAX_OFFSET + PAGE_LIMIT || exists offset: nat :: StalePage(listing, offset))
  }

  /** Where paging stands before the page at `offset`. */
  ghost predicate AtPage(listing: seq<Position>, offset: nat) {
    && offset % PAGE_LIMIT == 0 && offset <= MAX_OFFSET && offset <= |listing|
    && NoneStaleBefore(listing, offset) && Reach(listing, offset) == Reach(listing, 0)
  }

  lemma PageStops(listing: seq<Position>, offset: nat, n: nat)
    requires AtPage(listing, offset) && n == |Page(listing, offset)|
    ensures n < PAGE_LIMIT ==> PagingDone(listing, Collected(listing, offset + n), false)
    ensures
      n == PAGE_LIMIT && (offset >= MAX_OFFSET || Collected(listing, offset + n) == Collected(listing, offset)) ==>
      PagingDone(listing, Collected(listing, offset + n), true)
  {
    FirstRowsDistinct(listing[..offset + n]);
    if n < PAGE_LIMIT {
      assert listing[..offset + n] == listing;
      NoneStaleAfter(listing, offset);
    } else if Collected(listing, offset + n) == Collected(listing, offset) {
      assert StalePage(listing, offset);
    }
  }

  lemma PageContinues(listing: seq<Position>, offset: nat)
    requires AtPage(listing, offset) && offset < MAX_OFFSET && |Page(listing, offset)| == PAGE_LIMIT
    requires Collected(listing, offset + PAGE_LIMIT) != Collected(listing, offset)
    ensures AtPage(listing, offset + PAGE_LIMIT)
  {
    NoneStaleNext(listing, offset);
    NextMultiple(offset);
  }

  lemma NextMultiple(offset: nat)
    requires offset % PAGE_LIMIT == 0 && offset < MAX_OFFSET
    ensures (offset + PAGE_LIMIT) % PAGE_LIMIT == 0 && offset + PAGE_LIMIT <= MAX_OFFSET
  {
  }

  /**
   * Pages until a short page, the cap, or a page with nothing new. Without `hitCap` the result
   * holds every asset of the listing exactly once.
   */
  method AllRedeemable(listing: seq<Position>) returns (out: seq<Position>, hitCap: bool)
    ensures PagingDone(listing, out, hitCap)
    ensures !hitCap ==> forall asset :: HasAsset(out, asset) <==> HasAsset(listing, asset)
  {
    out := [];
    var seen: set<string> := {};
    var offset: nat := 0;
    while true
      invariant Paging(listing, offset, out, seen)
      decreases MAX_OFFSET + PAGE_LIMIT - offset
    {
      var page := Page(listing, offset);
      var added;
      out, seen, added := AddPage(listing, offset, page, out, seen);
      PageStops(listing, offset, |page|);
      if |page| < PAGE_LIMIT {
        hitCap := false;
        break;
      }
      if offset >= MAX_OFFSET || added == 0 {
        hitCap := true;
        break;
      }
      PageContinues(listing, offset);
      offset := offset + PAGE_LIMIT;
    }
    KeepsEveryAsset(listing);
  }

  lemma KeepsEveryAsset(listing: seq<Position>)
    ensures forall asset :: HasAsset(FirstRows(listing), asset) <==> HasAsset(listing, asset)
  {
    forall asset ensures HasAsset(FirstRows(listing), asset) <==> HasAsset(listing, asset) {
      FirstRowsKeepAssets(listing, asset);
    }
  }

  /** Where paging has got to, and what it has collected. */
  ghost predicate Paging(listing: seq<Position>, offset: nat, out: seq<Position>, seen: set<string>) {
    AtPage(listing, offset) && out == Collected(listing, offset) && Tracks(seen, out)
  }

  lemma NoneStaleAfter(listing: seq<Position>, offset: nat)
    requires NoneStaleBefore(listing, offset) && offset + PAGE_LIMIT > |listing|
    ensures forall o: nat :: !StalePage(listing, o)
  {
  }

  /** Only whole multiples of the page size can be stale. */
  lemma NoneStaleNext(listing: seq<Position>, offset: nat)
    requires offset % PAGE_LIMIT == 0 && NoneStaleBefore(listing, offset) && !StalePage(listing, offset)
    ensures NoneStaleBefore(listing, offset + PAGE_LIMIT)
  {
    forall o: nat | offset < o < offset + PAGE_LIMIT ensures !StalePage(listing, o) {
      NotMultiple(offset / PAGE_LIMIT, o);
    }
  }

  lemma NotMultiple(q: nat, o: nat)
    requires q * PAGE_LIMIT < o < q * PAGE_LIMIT + PAGE_LIMIT
    ensures o % PAGE_LIMIT != 0
  {
  }

  /** A listing without repeated assets is cut short exactly when it fills every reachable page. */
  lemma DistinctListingNeverStale(listing: seq<Position>, offset: nat)
    requires DistinctAssets(listing)
    ensures !StalePage(listing, offset)
  {
    if offset + PAGE_LIMIT <= |listing| {
      DistinctRowsAllKept(listing[..offset]);
      DistinctRowsAllKept(listing[..offset + PAGE_LIMIT]);
    }
  }

  // ----- which rows are returned -----

  /** The `i`-th row is the first of its asset. */
  ghost predicate FirstOfAsset(rows: seq<Position>, i: nat) {
    i < |rows| && !HasAsset(rows[..i], rows[i].asset)
  }

  ghost predicate ListedFirst(rows: seq<Position>, p: Position) {
    exists i: nat :: FirstOfAsset(rows, i) && rows[i] == p
  }

  lemma ListedFirstStep(rows: seq<Position>, p: Position)
    requires rows != []
    ensures ListedFirst(rows, p)
       <==> ListedFirst(rows[..|rows| - 1], p) || (FirstOfAsset(rows, |rows| - 1) && rows[|rows| - 1] == p)
  {
    var front := rows[..|rows| - 1];
    if ListedFirst(front, p) {
      var i: nat :| FirstOfAsset(front, i) && front[i] == p;
      assert front[..i] == rows[..i] && FirstOfAsset(rows, i);
    }
    if ListedFirst(rows, p) {
      var i: nat :| FirstOfAsset(rows, i) && rows[i] == p;
      assert i < |front| ==> front[..i] == rows[..i] && FirstOfAsset(front, i);
    }
  }

  /** Of each asset the row listed first is kept, and the rows kept stay in order. */
  lemma {:induction false} FirstRowsAreFirst(rows: seq<Position>, p: Position)
    ensures p in FirstRows(rows) <==> ListedFirst(rows, p)
    ensures InOrder(FirstRows(rows), rows)
  {
    if rows != [] {
      var front, last := rows[..|rows| - 1], rows[|rows| - 1];
      FirstRowsAreFirst(front, p);
      FirstRowsKeepAssets(front, last.asset);
      ListedFirstStep(rows, p);
      var kept := FirstRows(front);
      assert (kept + [last])[..|kept|] == kept;
    }
  }

  // ----- how far paging gets -----

  lemma {:induction false} ReachToCap(listing: seq<Position>, offset: nat)
    requires offset % PAGE_LIMIT == 0 && offset <= MAX_OFFSET && offset <= |listing|
    requires forall o: nat :: offset <= o ==> !StalePage(listing, o)
    ensures Reach(listing, offset) == Min(|listing|, MAX_OFFSET + PAGE_LIMIT)
    decreases |listing| - offset
  {
    assert !StalePage(listing, offset);
    if offset + PAGE_LIMIT <= |listing| && offset < MAX_OFFSET {
      NextMultiple(offset);
      ReachToCap(listing, offset + PAGE_LIMIT);
    }
  }

  lemma MultiplesApart(a: nat, b: nat)
    requires a % PAGE_LIMIT == 0 && b % PAGE_LIMIT == 0 && a < b
    ensures a + PAGE_LIMIT <= b
  {
    if b < a + PAGE_LIMIT {
      NotMultiple(a / PAGE_LIMIT, b);
    }
  }

  lemma {:induction false} ReachToStale(listing: seq<Position>, offset: nat, stale: nat)
    requires offset % PAGE_LIMIT == 0 && offset <= stale && StalePage(listing, stale)
    requires forall o: nat :: offset <= o < stale ==> !StalePage(listing, o)
    ensures Reach(listing, offset) == stale + PAGE_LIMIT
    decreases |listing| - offset
  {
    if offset < stale {
      assert !StalePage(listing, offset);
      MultiplesApart(offset, stale);
      NextMultiple(offset);
      ReachToStale(listing, offset + PAGE_LIMIT, stale);
    }
  }

  /**
   * The page-set in terms of the listing: the first rows of all that lies within reach of the offset
   * cap, or, when a full page in there adds nothing new, of what lies before the first such page.
   */
  lemma PageSetIs(listing: seq<Position>)
    ensures NoneStaleBefore(listing, MAX_OFFSET + 1) ==>
      PageSet(listing) == FirstRows(listing[..Min(|listing|, MAX_OFFSET + PAGE_LIMIT)])
    ensures forall stale: nat :: StalePage(listing, stale) && NoneStaleBefore(listing, stale) ==>
      PageSet(listing) == FirstRows(listing[..stale])
  {
    if NoneStaleBefore(listing, MAX_OFFSET + 1) {
      forall o: nat ensures !StalePage(listing, o) {
        assert o <= MAX_OFFSET ==> o < MAX_OFFSET + 1;
      }
      ReachToCap(listing, 0);
    }
    forall stale: nat | StalePage(listing, stale) && NoneStaleBefore(listing, stale)
      ensures PageSet(listing) == FirstRows(listing[..stale])
    {
      ReachToStale(listing, 0, stale);
    }
  }
}
