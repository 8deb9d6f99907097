/**
 * One token's order book kept from snapshots and absolute level changes, delivered any number of
 * times, and its two depth queries. Prices and sizes are integers in one fine unit, so sums are exact.
 */
module Book {
  import opened Base

  datatype BookSide = Bid | Ask

  type Levels = map<nat, nat>

  datatype Ladders = Ladders(bids: Levels, asks: Levels)

  datatype BookEvent =
    | Snapshot(bids: seq<(nat, nat)>, asks: seq<(nat, nat)>)
    | Delta(side: BookSide, price: nat, size: nat)

  // ----- what an event does -----

  /** The levels with non-zero size; a later entry for a price overrides an earlier one. */
  function FromEntries(entries: seq<(nat, nat)>): Levels {
    if entries == [] then map[]
    else
      var (price, size) := entries[|entries| - 1];
      var m := FromEntries(entries[..|entries| - 1]);
      if size != 0 then m[price := size] else m
  }

  function SetLevel(levels: Levels, price: nat, size: nat): Levels {
    if size == 0 then levels - {price} else levels[price := size]
  }

  function Apply(b: Ladders, e: BookEvent): Ladders {
    match e
    case Snapshot(bids, asks) => Ladders(FromEntries(bids), FromEntries(asks))
    case Delta(Bid, price, size) => b.(bids := SetLevel(b.bids, price, size))
    case Delta(Ask, price, size) => b.(asks := SetLevel(b.asks, price, size))
  }

  function ApplyAll(b: Ladders, events: seq<BookEvent>): Ladders
    decreases |events|
  {
    if events == [] then b else ApplyAll(Apply(b, events[0]), events[1..])
  }

  ghost predicate NoZeroLevel(b: Ladders) {
    && (forall p :: p in b.bids ==> b.bids[p] != 0)
    && (forall p :: p in b.asks ==> b.asks[p] != 0)
  }

  lemma {:induction false} EntriesHaveNoZero(entries: seq<(nat, nat)>)
    ensures forall p :: p in FromEntries(entries) ==> FromEntries(entries)[p] != 0
  {
    if entries != [] {
      EntriesHaveNoZero(entries[..|entries| - 1]);
    }
  }

  /** No event leaves a level of size zero. */
  lemma ApplyKeepsNoZero(b: Ladders, e: BookEvent)
    requires NoZeroLevel(b)
    ensures NoZeroLevel(Apply(b, e))
  {
    if e.Snapshot? {
      EntriesHaveNoZero(e.bids);
      EntriesHaveNoZero(e.asks);
    }
  }

  // ----- what rests where -----

  /** Some entry gives the price a non-zero size. */
  ghost predicate Lists(entries: seq<(nat, nat)>, price: nat) {
    exists i :: 0 <= i < |entries| && entries[i].0 == price && entries[i].1 != 0
  }

  /** The `i`-th entry is the last to give its price a non-zero size. */
  ghost predicate LastToList(entries: seq<(nat, nat)>, i: nat) {
    && i < |entries| && entries[i].1 != 0
    && forall j :: i < j < |entries| && entries[j].1 != 0 ==> entries[j].0 != entries[i].0
  }

  /** The ladder of these entries: the listed prices, each at the size its last non-zero entry gives. */
  ghost predicate IsLadderOf(levels: Levels, entries: seq<(nat, nat)>) {
    && (forall price :: price in levels <==> Lists(entries, price))
    && forall i: nat :: LastToList(entries, i) ==>
         entries[i].0 in levels && levels[entries[i].0] == entries[i].1
  }

  lemma ListsFront(entries: seq<(nat, nat)>, price: nat)
    requires entries != []
    ensures var last := entries[|entries| - 1];
      Lists(entries, price) <==> Lists(entries[..|entries| - 1], price) || (last.0 == price && last.1 != 0)
  {
    var front := entries[..|entries| - 1];
    if i :| 0 <= i < |front| && front[i].0 == price && front[i].1 != 0 {
      assert entries[i] == front[i];
    }
    if i :| 0 <= i < |entries| && entries[i].0 == price && entries[i].1 != 0 {
      assert i < |front| ==> front[i] == entries[i];
    }
  }

  lemma LastToListFront(entries: seq<(nat, nat)>, i: nat)
    requires i < |entries| - 1 && LastToList(entries, i)
    ensures LastToList(entries[..|entries| - 1], i)
    ensures entries[|entries| - 1].1 != 0 ==> entries[|entries| - 1].0 != entries[i].0
  {
    var front := entries[..|entries| - 1];
    forall j | i < j < |front| && front[j].1 != 0 ensures front[j].0 != front[i].0 {
      assert front[j] == entries[j];
    }
  }

  lemma {:induction false} EntriesMakeLadder(entries: seq<(nat, nat)>)
    ensures IsLadderOf(FromEntries(entries), entries)
  {
    var levels := FromEntries(entries);
    if entries != [] {
      var front, last := entries[..|entries| - 1], entries[|entries| - 1];
      EntriesMakeLadder(front);
      forall price ensures price in levels <==> Lists(entries, price) {
        ListsFront(entries, price);
      }
      forall i: nat | LastToList(entries, i)
        ensures entries[i].0 in levels && levels[entries[i].0] == entries[i].1
      {
        if i < |front| {
          LastToListFront(entries, i);
          assert front[i] == entries[i];
        }
      }
    }
  }

  /** The level at one price is set, or removed when the size is 0; every other level is as before. */
  ghost predicate OneLevelSet(before: Levels, after: Levels, price: nat, size: nat) {
    && (price in after <==> size != 0)
    && (price in after ==> after[price] == size)
    && (forall p :: p != price ==> (p in after <==> p in before))
    && (forall p :: p != price && p in before && p in after ==> after[p] == before[p])
  }

  /** A snapshot's bids become the bids and its asks the asks, whatever was there. */
  lemma SnapshotReplaces(b: Ladders, bids: seq<(nat, nat)>, asks: seq<(nat, nat)>)
    ensures IsLadderOf(Apply(b, Snapshot(bids, asks)).bids, bids)
    ensures IsLadderOf(Apply(b, Snapshot(bids, asks)).asks, asks)
  {
    EntriesMakeLadder(bids);
    EntriesMakeLadder(asks);
  }

  /** A change sets one level of its own side. */
  lemma DeltaSetsOne(b: Ladders, price: nat, size: nat)
    ensures var c := Apply(b, Delta(Bid, price, size)); c.asks == b.asks && OneLevelSet(b.bids, c.bids, price, size)
    ensures var c := Apply(b, Delta(Ask, price, size)); c.bids == b.bids && OneLevelSet(b.asks, c.asks, price, size)
  {
    OneLevelIsSet(b.bids, price, size);
    OneLevelIsSet(b.asks, price, size);
  }

  lemma OneLevelIsSet(levels: Levels, price: nat, size: nat)
    ensures OneLevelSet(levels, SetLevel(levels, price, size), price, size)
  {
  }

  // ----- duplicated delivery -----

  function SideOf(b: Ladders, side: BookSide): Levels {
    if side == Bid then b.bids else b.asks
  }

  /** The size resting at a price, None when there is no level. */
  function LevelAt(b: Ladders, side: BookSide, price: nat): Option<nat> {
    var levels := SideOf(b, side);
    if price in levels then Some(levels[price]) else None
  }

  /** Whether an event decides what rests at a price. */
  predicate Touches(e: BookEvent, side: BookSide, price: nat) {
    e.Snapshot? || (e.side == side && e.price == price)
  }

  lemma TouchDecides(b: Ladders, c: Ladders, e: BookEvent, side: BookSide, price: nat)
    ensures LevelAt(Apply(b, e), side, price) ==
      if Touches(e, side, price) then LevelAt(Apply(c, e), side, price) else LevelAt(b, side, price)
  {
  }

  ghost predicate TouchedBy(events: seq<BookEvent>, side: BookSide, price: nat) {
    exists i :: 0 <= i < |events| && Touches(events[i], side, price)
  }

  lemma TouchedSplit(events: seq<BookEvent>, side: BookSide, price: nat)
    requires events != []
    ensures TouchedBy(events, side, price) <==>
      Touches(events[0], side, price) || TouchedBy(events[1..], side, price)
  {
    if i :| 0 <= i < |events[1..]| && Touches(events[1..][i], side, price) {
      assert Touches(events[i + 1], side, price);
    }
    if i :| 0 <= i < |events| && Touches(events[i], side, price) {
      assert i == 0 || Touches(events[1..][i - 1], side, price);
    }
  }

  /** A stream that touches a price leaves the same level whatever book it starts from. */
  lemma {:induction false} StreamDecides(b: Ladders, c: Ladders, events: seq<BookEvent>, side: BookSide, price: nat)
    ensures LevelAt(ApplyAll(b, events), side, price) ==
      if TouchedBy(events, side, price) then LevelAt(ApplyAll(c, events), side, price)
      else LevelAt(b, side, price)
    decreases |events|
  {
    if events != [] {
      TouchedSplit(events, side, price);
      TouchDecides(b, c, events[0], side, price);
      TouchDecides(c, b, events[0], side, price);
      StreamDecides(Apply(b, events[0]), Apply(c, events[0]), events[1..], side, price);
      StreamDecides(Apply(c, events[0]), Apply(b, events[0]), events[1..], side, price);
    }
  }

  /** `merged` interleaves the copies, each consumed in order and to its end. */
  ghost predicate Interleaves(merged: seq<BookEvent>, copies: seq<seq<BookEvent>>)
    decreases |merged|, 1
  {
    if merged == [] then forall i :: 0 <= i < |copies| ==> copies[i] == []
    else exists i :: TakesFrom(merged, copies, i)
  }

  ghost predicate TakesFrom(merged: seq<BookEvent>, copies: seq<seq<BookEvent>>, i: nat)
    requires merged != []
    decreases |merged|, 0
  {
    && i < |copies| && copies[i] != [] && copies[i][0] == merged[0]
    && Interleaves(merged[1..], copies[i := copies[i][1..]])
  }

  /** Each copy still has a suffix of the stream to deliver. */
  ghost predicate Suffixes(copies: seq<seq<BookEvent>>, stream: seq<BookEvent>) {
    forall i :: 0 <= i < |copies| ==> IsSuffix(copies[i], stream)
  }

  ghost predicate IsSuffix(s: seq<BookEvent>, stream: seq<BookEvent>) {
    |s| <= |stream| && s == stream[|stream| - |s|..]
  }

  /** Some copy has yet to deliver an event that touches the price. */
  ghost predicate Pending(copies: seq<seq<BookEvent>>, side: BookSide, price: nat) {
    exists i :: 0 <= i < |copies| && TouchedBy(copies[i], side, price)
  }

  lemma {:induction false} SuffixDecides(
      b: Ladders, c: Ladders, stream: seq<BookEvent>, k: nat, side: BookSide, price: nat)
    requires k <= |stream| && TouchedBy(stream[k..], side, price)
    ensures LevelAt(ApplyAll(b, stream[k..]), side, price) == LevelAt(ApplyAll(c, stream), side, price)
    decreases k
  {
    if k == 0 {
      assert stream[0..] == stream;
      StreamDecides(b, c, stream, side, price);
    } else {
      assert stream[1..][k - 1..] == stream[k..];
      SuffixDecides(b, Apply(c, stream[0]), stream[1..], k - 1, side, price);
    }
  }

  lemma PendingAfter(copies: seq<seq<BookEvent>>, i: nat, side: BookSide, price: nat)
    requires i < |copies| && copies[i] != []
    ensures Pending(copies[i := copies[i][1..]], side, price) ==> Pending(copies, side, price)
    ensures Pending(copies, side, price) ==>
      Touches(copies[i][0], side, price) || Pending(copies[i := copies[i][1..]], side, price)
  {
    var later := copies[i := copies[i][1..]];
    TouchedSplit(copies[i], side, price);
    if j :| 0 <= j < |later| && TouchedBy(later[j], side, price) {
      assert TouchedBy(copies[j], side, price);
    }
    if j :| 0 <= j < |copies| && TouchedBy(copies[j], side, price) {
      assert j == i || TouchedBy(later[j], side, price);
      if j == i && TouchedBy(copies[i][1..], side, price) {
        assert TouchedBy(later[i], side, price);
      }
    }
  }

  /** At each price, an interleaving ends where a copy still to touch it would, or leaves it alone. */
  lemma {:induction false} InterleavingDecides(
      b: Ladders, c: Ladders, merged: seq<BookEvent>, copies: seq<seq<BookEvent>>, stream: seq<BookEvent>,
      side: BookSide, price: nat)
    requires Interleaves(merged, copies) && Suffixes(copies, stream)
    ensures LevelAt(ApplyAll(b, merged), side, price) ==
      if Pending(copies, side, price) then LevelAt(ApplyAll(c, stream), side, price)
      else LevelAt(b, side, price)
    decreases |merged|
  {
    if merged != [] {
      var i: nat :| TakesFrom(merged, copies, i);
      var e, tail := merged[0], copies[i][1..];
      var later := copies[i := tail];
      assert IsSuffix(tail, stream);
      InterleavingDecides(Apply(b, e), c, merged[1..], later, stream, side, price);
      PendingAfter(copies, i, side, price);
      TouchDecides(b, c, e, side, price);
      if Touches(e, side, price) {
        assert TouchedBy(copies[i], side, price);
        if !Pending(later, side, price) {
          LastTouch(b, c, copies[i], stream, side, price);
          assert !TouchedBy(later[i], side, price);
        }
      }
    }
  }

  /** The last event of a suffix to touch a price settles it as the whole stream does. */
  lemma LastTouch(b: Ladders, c: Ladders, s: seq<BookEvent>, stream: seq<BookEvent>, side: BookSide, price: nat)
    requires s != [] && IsSuffix(s, stream) && Touches(s[0], side, price) && TouchedBy(s, side, price)
    ensures !TouchedBy(s[1..], side, price) ==>
      LevelAt(Apply(b, s[0]), side, price) == LevelAt(ApplyAll(c, stream), side, price)
  {
    SuffixDecides(b, c, stream, |stream| - |s|, side, price);
    StreamDecides(Apply(b, s[0]), c, s[1..], side, price);
  }

  lemma SameLevels(m: Levels, n: Levels)
    requires forall p :: p in m <==> p in n
    requires forall p :: p in m ==> m[p] == n[p]
    ensures m == n
  {
  }

  /** Any interleaving of one or more complete copies of a stream ends in the book of a single copy. */
  lemma FanOutConverges(b: Ladders, merged: seq<BookEvent>, copies: seq<seq<BookEvent>>, stream: seq<BookEvent>)
    requires copies != [] && forall i :: 0 <= i < |copies| ==> copies[i] == stream
    requires Interleaves(merged, copies)
    ensures ApplyAll(b, merged) == ApplyAll(b, stream)
  {
    var x, y := ApplyAll(b, merged), ApplyAll(b, stream);
    assert Suffixes(copies, stream);
    forall side, price ensures LevelAt(x, side, price) == LevelAt(y, side, price) {
      InterleavingDecides(b, b, merged, copies, stream, side, price);
      StreamDecides(b, b, stream, side, price);
      if TouchedBy(stream, side, price) {
        assert TouchedBy(copies[0], side, price);
      }
    }
    forall price ensures price in x.bids <==> price in y.bids
      ensures price in x.bids ==> x.bids[price] == y.bids[price]
    {
      assert LevelAt(x, Bid, price) == LevelAt(y, Bid, price);
    }
    forall price ensures price in x.asks <==> price in y.asks
      ensures price in x.asks ==> x.asks[price] == y.asks[price]
    {
      assert LevelAt(x, Ask, price) == LevelAt(y, Ask, price);
    }
    SameLevels(x.bids, y.bids);
    SameLevels(x.asks, y.asks);
  }

  // ----- depth -----

  ghost predicate IsLeast(s: set<nat>, m: nat) {
    m in s && forall p :: p in s ==> m <= p
  }

  ghost predicate IsGreatest(s: set<nat>, m: nat) {
    m in s && forall p :: p in s ==> p <= m
  }

  lemma {:induction false} LeastExists(s: set<nat>) returns (m: nat)
    requires s != {}
    ensures IsLeast(s, m)
  {
    var x :| x in s;
    var rest := s - {x};
    m := x;
    if rest != {} {
      var r := LeastExists(rest);
      m := if x < r then x else r;
    }
    assert forall p :: p in s ==> p == x || p in rest;
  }

  lemma {:induction false} GreatestExists(s: set<nat>) returns (m: nat)
    requires s != {}
    ensures IsGreatest(s, m)
  {
    var x :| x in s;
    var rest := s - {x};
    m := x;
    if rest != {} {
      var r := GreatestExists(rest);
      m := if x < r then r else x;
    }
    assert forall p :: p in s ==> p == x || p in rest;
  }

  ghost function MinPrice(s: set<nat>): (m: nat)
    requires s != {}
    ensures IsLeast(s, m)
  {
    assert exists m :: IsLeast(s, m) by {
      var m := LeastExists(s);
    }
    var m :| IsLeast(s, m);
    m
  }

  /** Total size over a set of prices. */
  ghost function SumSizes(levels: Levels, prices: set<nat>): nat
    requires prices <= levels.Keys
  {
    if prices == {} then 0
    else var p := MinPrice(prices); levels[p] + SumSizes(levels, prices - {p})
  }

  /** The sum does not depend on the order of the levels. */
  lemma {:induction false} SumSizesRemove(levels: Levels, prices: set<nat>, x: nat)
    requires prices <= levels.Keys && x in prices
    ensures SumSizes(levels, prices) == levels[x] + SumSizes(levels, prices - {x})
  {
    var m := MinPrice(prices);
    if x != m {
      SumSizesRemove(levels, prices - {m}, x);
      SumSizesRemove(levels, prices - {x}, m);
      assert prices - {m} - {x} == prices - {x} - {m};
    }
  }

  lemma {:induction false} SumSizesMonotone(levels: Levels, small: set<nat>, large: set<nat>)
    requires small <= large <= levels.Keys
    requires forall p :: p in large ==> levels[p] != 0
    ensures SumSizes(levels, small) <= SumSizes(levels, large)
    ensures small < large ==> SumSizes(levels, small) < SumSizes(levels, large)
    decreases |large - small|
  {
    if small != large {
      assert exists x :: x in large && x !in small;
      var x :| x in large && x !in small;
      assert large - small - {x} == large - (small + {x});
      SumSizesMonotone(levels, small + {x}, large);
      SumSizesRemove(levels, small + {x}, x);
      assert small + {x} - {x} == small;
    }
  }

  ghost function UpTo(levels: Levels, maxPrice: nat): set<nat> {
    set p | p in levels.Keys && p <= maxPrice
  }

  ghost function DepthUpTo(levels: Levels, maxPrice: nat): nat {
    SumSizes(levels, UpTo(levels, maxPrice))
  }

  /**
   * The marginal ask price for `need`: the least ladder price whose depth covers it, or the
   * deepest price when the whole ladder does not.
   */
  ghost predicate IsPriceForSize(levels: Levels, need: int, price: nat) {
    && price in levels
    && (forall p :: p in levels && p < price ==> DepthUpTo(levels, p) < need)
    && (DepthUpTo(levels, price) >= need || forall p :: p in levels ==> p <= price)
  }

  lemma PriceForSizeUnique(levels: Levels, need: int, p: nat, q: nat)
    requires IsPriceForSize(levels, need, p) && IsPriceForSize(levels, need, q)
    ensures p == q
  {
  }

  /**
   * The two queries are adjoint: a ceiling buys `need` exactly when the ladder holds that much and
   * the ceiling reaches the price for `need`.
   */
  lemma DepthQueriesAdjoint(levels: Levels, need: int, price: nat, ceiling: nat)
    requires forall p :: p in levels ==> levels[p] != 0
    requires IsPriceForSize(levels, need, price) && need > 0
    ensures DepthUpTo(levels, ceiling) >= need <==> DepthUpTo(levels, price) >= need && price <= ceiling
  {
    var ladder := UpTo(levels, ceiling);
    if price <= ceiling {
      SumSizesMonotone(levels, UpTo(levels, price), ladder);
      if DepthUpTo(levels, price) < need {
        assert ladder == UpTo(levels, price);
      }
    } else if ladder != {} {
      var top := GreatestExists(ladder);
      assert ladder == UpTo(levels, top);
      assert DepthUpTo(levels, top) < need;
    }
  }

  // ----- the class -----

  class OrderBook {
    var bids: Levels
    var asks: Levels

    ghost function View(): Ladders
      reads this
    {
      Ladders(bids, asks)
    }

    constructor ()
      ensures View() == Ladders(map[], map[])
    {
      bids, asks := map[], map[];
    }

    method ApplySnapshot(newBids: seq<(nat, nat)>, newAsks: seq<(nat, nat)>)
      modifies this
      ensures IsLadderOf(bids, newBids) && IsLadderOf(asks, newAsks)
      ensures View() == Apply(old(View()), Snapshot(newBids, newAsks))
    {
      SnapshotReplaces(View(), newBids, newAsks);
      bids := LevelsOf(newBids);
      asks := LevelsOf(newAsks);
    }

    /** Returns whether the ladder changed, so a re-delivered change returns false. */
    method ApplyDelta(side: BookSide, price: nat, size: nat) returns (changed: bool)
      modifies this
      ensures side == Bid ==> asks == old(asks) && OneLevelSet(old(bids), bids, price, size)
      ensures side == Ask ==> bids == old(bids) && OneLevelSet(old(asks), asks, price, size)
      ensures View() == Apply(old(View()), Delta(side, price, size))
      ensures changed <==> View() != old(View())
    {
      var levels := if side == Bid then bids else asks;
      var updated: Levels;
      if size == 0 {
        changed := price in levels;
        updated := levels - {price};
      } else {
        changed := !(price in levels && levels[price] == size);
        updated := levels[price := size];
      }
      assert changed <==> updated != levels by {
        if changed {
          assert size == 0 ==> price in levels && price !in updated;
          assert size != 0 ==> price in updated && updated[price] == size;
        } else {
          assert updated == levels;
        }
      }
      if side == Bid {
        bids := updated;
      } else {
        asks := updated;
      }
    }

    /** The highest bid, None on an empty ladder. */
    method BestBid() returns (best: Option<nat>)
      ensures best.None? <==> bids == map[]
      ensures best.Some? ==> best.value in bids && forall p :: p in bids ==> p <= best.value
    {
      if bids == map[] {
        return None;
      }
      assert bids.Keys != {} by {
        var p :| p in bids;
      }
      ghost var top := GreatestExists(bids.Keys);
      var m :| m in bids.Keys && forall p :: p in bids.Keys ==> p <= m;
      return Some(m);
    }

    /** The lowest ask, None on an empty ladder. */
    method BestAsk() returns (best: Option<nat>)
      ensures best.None? <==> asks == map[]
      ensures best.Some? ==> best.value in asks && forall p :: p in asks ==> best.value <= p
    {
      if asks == map[] {
        return None;
      }
      assert asks.Keys != {} by {
        var p :| p in asks;
      }
      ghost var touch := LeastExists(asks.Keys);
      var m :| m in asks.Keys && forall p :: p in asks.Keys ==> m <= p;
      return Some(m);
    }

    /** Walks the asks from the best until the running depth covers `need`. */
    method AskPriceForSize(need: int) returns (price: Option<nat>)
      ensures price.None? <==> asks == map[]
      ensures price.Some? ==> IsPriceForSize(asks, need, price.value)
    {
      var cumulative := 0;
      price := None;
      var left := asks.Keys;
      assert asks.Keys - left == {};
      while left != {}
        invariant left <= asks.Keys
        invariant cumulative == SumSizes(asks, asks.Keys - left)
        invariant forall p, q :: p in asks.Keys - left && q in left ==> p < q
        invariant price.None? <==> left == asks.Keys
        invariant price.Some? ==> price.value in asks.Keys - left && cumulative < need
        invariant price.Some? ==> asks.Keys - left == UpTo(asks, price.value)
        invariant forall p :: p in asks.Keys - left ==> DepthUpTo(asks, p) < need
        decreases left
      {
        ghost var least := LeastExists(left);
        var p :| p in left && forall q :: q in left ==> p <= q;
        var seen := asks.Keys - left;
        assert asks.Keys - (left - {p}) == seen + {p} && seen + {p} - {p} == seen;
        assert seen + {p} == UpTo(asks, p);
        SumSizesRemove(asks, seen + {p}, p);
        cumulative := cumulative + asks[p];
        price := Some(p);
        left := left - {p};
        if cumulative >= need {
          return;
        }
      }
      assert asks.Keys - left == asks.Keys;
      if price.None? {
        assert asks.Keys == {};
      } else {
        assert forall p :: p in asks.Keys ==> p in UpTo(asks, price.value);
      }
    }

    /** The depth at or below a price ceiling, summed over the levels in any order. */
    method AskDepthUpTo(maxPrice: nat) returns (depth: nat)
      ensures depth == DepthUpTo(asks, maxPrice)
    {
      depth := 0;
      var left := set p | p in asks.Keys && p <= maxPrice;
      while left != {}
        invariant left <= asks.Keys
        invariant depth + SumSizes(asks, left) == DepthUpTo(asks, maxPrice)
        decreases left
      {
        var p :| p in left;
        SumSizesRemove(asks, left, p);
        depth := depth + asks[p];
        left := left - {p};
      }
    }
  }

  /** The dict of a snapshot side: entries in order, zero sizes skipped. */
  method LevelsOf(entries: seq<(nat, nat)>) returns (levels: Levels)
    ensures levels == FromEntries(entries)
  {
    levels := map[];
    for i := 0 to |entries|
      invariant levels == FromEntries(entries[..i])
    {
      var (price, size) := entries[i];
      assert entries[..i + 1][..i] == entries[..i];
      if size != 0 {
        levels := levels[price := size];
      }
    }
    assert entries[..|entries|] == entries;
  }
}
