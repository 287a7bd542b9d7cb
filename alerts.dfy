/** The inventory dashboard's two queries: variants running low on stock,
    lowest first, and the latest ledger rows, newest first. */
module Alerts {
  import opened Common
  import opened Domain

  /** The default of `threshold`. */
  const DefaultThreshold: real := 5.0

  /** The default of `take`. */
  const DefaultRecent: nat := 20

  predicate IsLow(v: Variant, threshold: real) {
    (v.stockOnHand as real) <= threshold
  }

  /** The `where` of `getLowStockVariants`, in catalogue order. */
  function LowOnly(vs: seq<Variant>, threshold: real): (r: seq<Variant>)
    ensures |r| <= |vs|
    ensures forall i :: 0 <= i < |r| ==> IsLow(r[i], threshold)
    ensures multiset(r) <= multiset(vs)
    ensures forall v :: v in vs && IsLow(v, threshold) ==> v in r
  {
    if vs == [] then []
    else
      var p := vs[..|vs| - 1];
      var last := vs[|vs| - 1];
      assert vs == p + [last];
      LowOnly(p, threshold) + (if IsLow(last, threshold) then [last] else [])
  }

  predicate SortedByStock(s: seq<Variant>) {
    forall i, j :: 0 <= i < j < |s| ==> s[i].stockOnHand <= s[j].stockOnHand
  }

  /** Puts `x` in front of the first variant with more stock. */
  function Insert(x: Variant, s: seq<Variant>): (r: seq<Variant>)
    requires SortedByStock(s)
    ensures SortedByStock(r)
    ensures multiset(r) == multiset(s) + multiset{x}
    ensures |r| == |s| + 1
    ensures r[0] == x || (s != [] && r[0] == s[0])
  {
    if s == [] || x.stockOnHand <= s[0].stockOnHand then
      [x] + s
    else
      assert s == [s[0]] + s[1..];
      var rest := Insert(x, s[1..]);
      assert s[0].stockOnHand <= rest[0].stockOnHand;
      [s[0]] + rest
  }

  /** `orderBy: { stockOnHand: 'asc' }`, as an insertion sort. */
  function SortByStock(s: seq<Variant>): (r: seq<Variant>)
    ensures SortedByStock(r)
    ensures multiset(r) == multiset(s)
    ensures |r| == |s|
  {
    if s == [] then []
    else
      assert s == [s[0]] + s[1..];
      Insert(s[0], SortByStock(s[1..]))
  }

  /** `getLowStockVariants(threshold = 5)`. */
  function LowStockVariants(vs: seq<Variant>, threshold: Option<real>): (r: seq<Variant>)
    ensures SortedByStock(r)
  {
    SortByStock(LowOnly(vs, if threshold.Some? then threshold.value else DefaultThreshold))
  }

  /** Exactly the variants at or below the threshold come back (the default
      threshold being 5), each as many times as it occurs in the catalogue,
      lowest stock first. */
  lemma LowStockMeaning(vs: seq<Variant>, threshold: Option<real>, v: Variant)
    ensures var t := if threshold.Some? then threshold.value else DefaultThreshold;
      v in LowStockVariants(vs, threshold) <==> v in vs && (v.stockOnHand as real) <= t
    ensures multiset(LowStockVariants(vs, threshold)) <= multiset(vs)
    ensures threshold.None? ==> (v in LowStockVariants(vs, threshold) <==> v in vs && v.stockOnHand <= 5)
  {
    var t := if threshold.Some? then threshold.value else DefaultThreshold;
    var low := LowOnly(vs, t);
    var r := LowStockVariants(vs, threshold);
    assert multiset(r) == multiset(low);
    assert v in r <==> v in multiset(r);
    assert v in low <==> v in multiset(low);
    if v in low {
      var k :| 0 <= k < |low| && low[k] == v;
      assert multiset(low)[v] <= multiset(vs)[v];
    }
  }

  /** `getRecentInventoryTransactions(take = 20)`: the ledger holds rows in
      the order they were written, so the newest come last. */
  function RecentTransactions(ledger: seq<LedgerEntry>, take: Option<nat>): (r: seq<LedgerEntry>)
    ensures |r| == Min(if take.Some? then take.value else DefaultRecent, |ledger|)
    ensures forall i :: 0 <= i < |r| ==> r[i] == ledger[|ledger| - 1 - i]
  {
    Take(Reverse(ledger), if take.Some? then take.value else DefaultRecent)
  }

  /** The recent rows are the latest `|r|` rows written, newest first. */
  lemma RecentAreLatest(ledger: seq<LedgerEntry>, take: Option<nat>)
    ensures var r := RecentTransactions(ledger, take);
      r == Reverse(ledger[|ledger| - |r|..])
  {
    var r := RecentTransactions(ledger, take);
    var tail := ledger[|ledger| - |r|..];
    assert |Reverse(tail)| == |r|;
    forall i | 0 <= i < |r| ensures r[i] == Reverse(tail)[i] {
      assert Reverse(tail)[i] == tail[|tail| - 1 - i];
    }
  }

  /** A row just written heads the list, and the rest of the list is the
      earlier list with its oldest row dropped once it is full. */
  lemma RecentAfterWrite(ledger: seq<LedgerEntry>, e: LedgerEntry, take: Option<nat>)
    requires (if take.Some? then take.value else DefaultRecent) > 0
    ensures var n := if take.Some? then take.value else DefaultRecent;
      RecentTransactions(ledger + [e], take) == [e] + Take(RecentTransactions(ledger, take), n - 1)
  {
    var n := if take.Some? then take.value else DefaultRecent;
    var after := RecentTransactions(ledger + [e], take);
    var before := Take(RecentTransactions(ledger, take), n - 1);
    assert |after| == |[e] + before|;
    forall i | 0 <= i < |after| ensures after[i] == ([e] + before)[i] {
      if i > 0 {
        assert (ledger + [e])[|ledger| - i] == ledger[|ledger| - 1 - (i - 1)];
      }
    }
  }
}
