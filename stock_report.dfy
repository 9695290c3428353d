/** The stock report: for every category, the available items tallied by
    size, their total, and a stock alert; then the alert summary and the
    split of categories into those with an alert and the healthy ones. */
module StockReport {
  import opened Common
  import opened Items

  /** The distinct non-empty categories of the inventory. */
  function Categories(inventory: seq<Item>): seq<string>
  {
    DistinctValues((it: Item) => it.category, inventory)
  }

  /** An item counts as stock of `category` when it is in that category and
      its status, lower-cased, is "available". */
  predicate InStock(item: Item, category: string)
  {
    item.category == category && Lower(item.status) == "available"
  }

  function StockItems(inventory: seq<Item>, category: string): seq<Item>
  {
    Filter(it => InStock(it, category), inventory)
  }

  /** The size an item is tallied under: a missing size is "Unknown". */
  function SizeKey(item: Item): (k: string)
    ensures k != ""
    ensures item.size == "" ==> k == "Unknown"
    ensures item.size != "" ==> k == item.size
  {
    if item.size == "" then "Unknown" else item.size
  }

  function SizeKeys(items: seq<Item>): (keys: seq<string>)
    ensures |keys| == |items|
    ensures forall i :: 0 <= i < |items| ==> keys[i] == SizeKey(items[i])
  {
    seq(|items|, i requires 0 <= i < |items| => SizeKey(items[i]))
  }

  /** How often `k` occurs in `s`. */
  function Occurrences(s: seq<string>, k: string): nat
  {
    if s == [] then 0
    else Occurrences(s[..|s| - 1], k) + (if s[|s| - 1] == k then 1 else 0)
  }

  lemma {:induction false} OccurrencesPositive(s: seq<string>, k: string)
    ensures k in s <==> Occurrences(s, k) >= 1
  {
    if s != [] {
      OccurrencesPositive(s[..|s| - 1], k);
      assert s == s[..|s| - 1] + [s[|s| - 1]];
    }
  }

  datatype SizeCount = SizeCount(size: string, count: int)

  /** The size entries: each distinct size, in order of first appearance,
      with the number of times it occurs. */
  function SizeTally(keys: seq<string>): (sizes: seq<SizeCount>)
    ensures |sizes| == |Distinct(keys)|
    ensures forall i :: 0 <= i < |sizes| ==>
              sizes[i] == SizeCount(Distinct(keys)[i], Occurrences(keys, Distinct(keys)[i]))
  {
    var d := Distinct(keys);
    seq(|d|, i requires 0 <= i < |d| => SizeCount(d[i], Occurrences(keys, d[i])))
  }

  /** Fills the size map one item at a time, remembering the order in which
      sizes were first seen, then lists its entries. */
  method TallySizes(keys: seq<string>) returns (sizes: seq<SizeCount>)
    ensures sizes == SizeTally(keys)
  {
    var sizeMap: map<string, int> := map[];
    var order: seq<string> := [];
    var i := 0;
    while i < |keys|
      invariant 0 <= i <= |keys|
      invariant order == Distinct(keys[..i])
      invariant forall k :: k in sizeMap <==> k in order
      invariant forall k :: k in sizeMap ==> sizeMap[k] == Occurrences(keys[..i], k)
    {
      var k := keys[i];
      assert keys[..i + 1][..i] == keys[..i];
      assert keys[..i + 1][i] == k;
      assert forall k' :: Occurrences(keys[..i + 1], k') == Occurrences(keys[..i], k') + (if k' == k then 1 else 0);
      OccurrencesPositive(keys[..i], k);
      if k in sizeMap {
        sizeMap := sizeMap[k := sizeMap[k] + 1];
      } else {
        sizeMap := sizeMap[k := 1];
        order := order + [k];
      }
      i := i + 1;
    }
    assert keys[..i] == keys;
    sizes := seq(|order|, j requires 0 <= j < |order| => SizeCount(order[j], sizeMap[order[j]]));
  }

  /** The sum of the counts of a list of size entries. */
  function SumCounts(sizes: seq<SizeCount>): int
  {
    if sizes == [] then 0 else sizes[0].count + SumCounts(sizes[1..])
  }

  /** The sum, over the sizes `d`, of how often each occurs in `s`. */
  function TotalOccurrences(d: seq<string>, s: seq<string>): int
  {
    if d == [] then 0 else Occurrences(s, d[0]) + TotalOccurrences(d[1..], s)
  }

  lemma {:induction false} TotalOccurrencesAppend(d: seq<string>, e: seq<string>, s: seq<string>)
    ensures TotalOccurrences(d + e, s) == TotalOccurrences(d, s) + TotalOccurrences(e, s)
  {
    if d == [] {
      assert d + e == e;
    } else {
      TotalOccurrencesAppend(d[1..], e, s);
      assert (d + e)[1..] == d[1..] + e;
    }
  }

  /** One more key adds one to the total when it is among the sizes counted. */
  lemma {:induction false} TotalOccurrencesSnoc(d: seq<string>, p: seq<string>, x: string)
    requires NoDuplicates(d)
    ensures TotalOccurrences(d, p + [x]) == TotalOccurrences(d, p) + (if x in d then 1 else 0)
  {
    if d != [] {
      assert (p + [x])[..|p + [x]| - 1] == p;
      assert NoDuplicates(d[1..]) by {
        forall i, j | 0 <= i < j < |d[1..]| ensures d[1..][i] != d[1..][j] {
          assert d[1..][i] == d[i + 1] && d[1..][j] == d[j + 1];
        }
      }
      TotalOccurrencesSnoc(d[1..], p, x);
      assert x in d <==> x == d[0] || x in d[1..] by {
        assert d == [d[0]] + d[1..];
      }
      if x == d[0] {
        assert x !in d[1..] by {
          forall j | 0 <= j < |d[1..]| ensures d[1..][j] != x {
            assert d[1..][j] == d[j + 1];
          }
        }
      }
    }
  }

  /** Every key is counted exactly once across the distinct sizes. */
  lemma {:induction false} TotalOccurrencesOfDistinct(s: seq<string>)
    ensures TotalOccurrences(Distinct(s), s) == |s|
  {
    if s != [] {
      var p := s[..|s| - 1];
      var x := s[|s| - 1];
      assert s == p + [x];
      TotalOccurrencesOfDistinct(p);
      var d := Distinct(p);
      TotalOccurrencesSnoc(d, p, x);
      if x !in d {
        TotalOccurrencesAppend(d, [x], s);
        assert x !in p;
        OccurrencesPositive(p, x);
        assert Occurrences(s, x) == 1;
      }
    }
  }

  lemma {:induction false} SumCountsOfTally(sizes: seq<SizeCount>, d: seq<string>, s: seq<string>)
    requires |sizes| == |d|
    requires forall i :: 0 <= i < |d| ==> sizes[i].count == Occurrences(s, d[i])
    ensures SumCounts(sizes) == TotalOccurrences(d, s)
  {
    if d != [] {
      SumCountsOfTally(sizes[1..], d[1..], s);
    }
  }

  /** The tally is a faithful breakdown: each size appears once, each count
      is at least one, and the counts add up to the number of keys. */
  lemma SizeTallySpec(keys: seq<string>)
    ensures SumCounts(SizeTally(keys)) == |keys|
    ensures forall i :: 0 <= i < |SizeTally(keys)| ==> SizeTally(keys)[i].count >= 1
    ensures forall i, j :: 0 <= i < j < |SizeTally(keys)| ==> SizeTally(keys)[i].size != SizeTally(keys)[j].size
    ensures forall k :: (exists i :: 0 <= i < |SizeTally(keys)| && SizeTally(keys)[i].size == k) <==> k in keys
  {
    var t := SizeTally(keys);
    var d := Distinct(keys);
    SumCountsOfTally(t, d, keys);
    TotalOccurrencesOfDistinct(keys);
    forall i | 0 <= i < |t| ensures t[i].count >= 1 {
      OccurrencesPositive(keys, d[i]);
    }
    forall k ensures (exists i :: 0 <= i < |t| && t[i].size == k) <==> k in keys {
      if k in keys {
        var i :| 0 <= i < |d| && d[i] == k;
        assert t[i].size == k;
      }
    }
  }

  /* ---------------- Alerts ---------------- */

  datatype Alert = NoStock | LowStock | Overstock

  /** No alert for 4 to 10 items. */
  function AlertFor(total: int): Option<Alert>
  {
    if total == 0 then Some(NoStock)
    else if total < 4 then Some(LowStock)
    else if total > 10 then Some(Overstock)
    else None
  }

  /** The thresholds, each in both directions, for any count. */
  lemma AlertThresholds(total: nat)
    ensures AlertFor(total) == Some(NoStock) <==> total == 0
    ensures AlertFor(total) == Some(LowStock) <==> 1 <= total <= 3
    ensures AlertFor(total) == Some(Overstock) <==> total > 10
    ensures AlertFor(total) == None <==> 4 <= total <= 10
  {
  }

  datatype CategoryStock = CategoryStock(category: string, totalCount: int, alert: Option<Alert>, sizes: seq<SizeCount>)

  /** What the report says about one category. */
  function CategoryReport(inventory: seq<Item>, category: string): CategoryStock
  {
    var items := StockItems(inventory, category);
    CategoryStock(category, |items|, AlertFor(|items|), SizeTally(SizeKeys(items)))
  }

  /** One category's line: tally the available items by size, add up the
      tally, and pick the alert from the total. */
  method CategoryStockOf(inventory: seq<Item>, category: string) returns (cs: CategoryStock)
    ensures cs == CategoryReport(inventory, category)
  {
    var items := StockItems(inventory, category);
    var sizes := TallySizes(SizeKeys(items));
    var totalCount := SumCounts(sizes);
    SizeTallySpec(SizeKeys(items));
    cs := CategoryStock(category, totalCount, AlertFor(totalCount), sizes);
  }

  /** A category's total is the number of its available items, split into
      sizes, each non-empty, with missing sizes under "Unknown". */
  lemma CategoryReportSpec(inventory: seq<Item>, category: string)
    ensures var cs := CategoryReport(inventory, category);
            cs.totalCount == SumCounts(cs.sizes)
            && cs.totalCount == Count(it => InStock(it, category), inventory)
            && (forall i :: 0 <= i < |cs.sizes| ==> cs.sizes[i].count >= 1)
            && (forall i :: 0 <= i < |cs.sizes| ==>
                  exists it :: it in inventory && InStock(it, category) && SizeKey(it) == cs.sizes[i].size)
  {
    var items := StockItems(inventory, category);
    var keys := SizeKeys(items);
    SizeTallySpec(keys);
    var t := SizeTally(keys);
    forall i | 0 <= i < |t|
      ensures exists it :: it in inventory && InStock(it, category) && SizeKey(it) == t[i].size
    {
      assert t[i].size in keys;
      var j :| 0 <= j < |keys| && keys[j] == t[i].size;
      assert items[j] in items;
    }
  }

  /** The tally of a size key counts the items filed under it. */
  lemma {:induction false} OccurrencesOfKeys(items: seq<Item>, k: string, q: Item -> bool)
    requires forall it :: q(it) == (SizeKey(it) == k)
    ensures Occurrences(SizeKeys(items), k) == Count(q, items)
  {
    if items != [] {
      var init := items[..|items| - 1];
      OccurrencesOfKeys(init, k, q);
      assert SizeKeys(items)[..|items| - 1] == SizeKeys(init);
      CountSnoc(q, init, items[|items| - 1]);
      assert init + [items[|items| - 1]] == items;
    }
  }

  /** A key that occurs has a line in the tally, with its number of
      occurrences. */
  lemma KeyInTally(keys: seq<string>, k: string)
    requires k in keys
    ensures exists i :: 0 <= i < |SizeTally(keys)| && SizeTally(keys)[i] == SizeCount(k, Occurrences(keys, k))
  {
    SizeTallySpec(keys);
    var t := SizeTally(keys);
    var i :| 0 <= i < |t| && t[i].size == k;
    assert t[i] == SizeCount(k, Occurrences(keys, k));
  }

  /** Every size key of a category's stock has a line in its report, whose
      count is the number of the category's available items filed under it. */
  lemma CategorySizeEntry(inventory: seq<Item>, category: string, k: string)
    requires exists it :: it in inventory && InStock(it, category) && SizeKey(it) == k
    ensures exists i :: 0 <= i < |CategoryReport(inventory, category).sizes|
              && CategoryReport(inventory, category).sizes[i]
                 == SizeCount(k, Count(it => InStock(it, category) && SizeKey(it) == k, inventory))
  {
    var inStock := (it: Item) => InStock(it, category);
    var keyed := (it: Item) => SizeKey(it) == k;
    var both := (it: Item) => InStock(it, category) && SizeKey(it) == k;
    var items := StockItems(inventory, category);
    var keys := SizeKeys(items);
    var it :| it in inventory && InStock(it, category) && SizeKey(it) == k;
    FilterMembership(inStock, inventory, it);
    var j :| 0 <= j < |items| && items[j] == it;
    assert keys[j] == k;
    KeyInTally(keys, k);
    OccurrencesOfKeys(items, k, keyed);
    FilterCompose(inStock, keyed, both, inventory);
    assert Occurrences(keys, k) == Count(both, inventory);
    assert CategoryReport(inventory, category).sizes == SizeTally(keys);
  }

  /** An available item without a size is tallied under "Unknown", together
      with any whose size is literally "Unknown". */
  lemma MissingSizeTalliedAsUnknown(inventory: seq<Item>, category: string, item: Item)
    requires item in inventory && InStock(item, category) && item.size == ""
    ensures exists i :: 0 <= i < |CategoryReport(inventory, category).sizes|
              && CategoryReport(inventory, category).sizes[i]
                 == SizeCount("Unknown", Count(it => InStock(it, category) && (it.size == "" || it.size == "Unknown"), inventory))
  {
    CategorySizeEntry(inventory, category, "Unknown");
    var p := (it: Item) => InStock(it, category) && SizeKey(it) == "Unknown";
    var q := (it: Item) => InStock(it, category) && (it.size == "" || it.size == "Unknown");
    FilterCongruent(p, q, inventory);
  }

  /** The report: one line per category, in category order. */
  method BuildReport(inventory: seq<Item>) returns (report: seq<CategoryStock>)
    ensures |report| == |Categories(inventory)|
    ensures forall i :: 0 <= i < |report| ==> report[i] == CategoryReport(inventory, Categories(inventory)[i])
  {
    var categories := Categories(inventory);
    report := [];
    var i := 0;
    while i < |categories|
      invariant 0 <= i <= |categories|
      invariant |report| == i
      invariant forall j :: 0 <= j < i ==> report[j] == CategoryReport(inventory, categories[j])
    {
      var cs := CategoryStockOf(inventory, categories[i]);
      report := report + [cs];
      i := i + 1;
    }
  }

  /* ---------------- Summary ---------------- */

  predicate IsNoStock(c: CategoryStock) { c.alert == Some(NoStock) }
  predicate IsLowStock(c: CategoryStock) { c.alert == Some(LowStock) }
  predicate IsOverstock(c: CategoryStock) { c.alert == Some(Overstock) }
  predicate HasAlert(c: CategoryStock) { c.alert.Some? }
  predicate IsHealthy(c: CategoryStock) { c.alert.None? }

  datatype AlertSummary = AlertSummary(noStock: nat, lowStock: nat, overstock: nat)

  /** The three counters, bumped once per category that has an alert. */
  method SummarizeAlerts(report: seq<CategoryStock>) returns (summary: AlertSummary)
    ensures summary == AlertSummary(Count(IsNoStock, report), Count(IsLowStock, report), Count(IsOverstock, report))
  {
    summary := AlertSummary(0, 0, 0);
    var i := 0;
    while i < |report|
      invariant 0 <= i <= |report|
      invariant summary == AlertSummary(Count(IsNoStock, report[..i]), Count(IsLowStock, report[..i]),
                                        Count(IsOverstock, report[..i]))
    {
      var c := report[i];
      assert report[..i + 1] == report[..i] + [c];
      CountSnoc(IsNoStock, report[..i], c);
      CountSnoc(IsLowStock, report[..i], c);
      CountSnoc(IsOverstock, report[..i], c);
      if c.alert == Some(NoStock) {
        summary := summary.(noStock := summary.noStock + 1);
      } else if c.alert == Some(LowStock) {
        summary := summary.(lowStock := summary.lowStock + 1);
      } else if c.alert == Some(Overstock) {
        summary := summary.(overstock := summary.overstock + 1);
      }
      i := i + 1;
    }
    assert report[..i] == report;
  }

  function AlertItems(report: seq<CategoryStock>): seq<CategoryStock>
  {
    Filter(HasAlert, report)
  }

  function HealthyItems(report: seq<CategoryStock>): seq<CategoryStock>
  {
    Filter(IsHealthy, report)
  }

  predicate HasAlerts(report: seq<CategoryStock>)
  {
    exists i :: 0 <= i < |report| && report[i].alert.Some?
  }

  function TotalAlertCount(report: seq<CategoryStock>): nat
  {
    |AlertItems(report)|
  }

  /** The three counters add up to the number of categories with an alert. */
  lemma {:induction false} AlertSummaryTotals(report: seq<CategoryStock>)
    ensures Count(IsNoStock, report) + Count(IsLowStock, report) + Count(IsOverstock, report)
            == TotalAlertCount(report)
    decreases |report|
  {
    if report != [] {
      var p := report[..|report| - 1];
      var c := report[|report| - 1];
      assert report == p + [c];
      AlertSummaryTotals(p);
      CountSnoc(IsNoStock, p, c);
      CountSnoc(IsLowStock, p, c);
      CountSnoc(IsOverstock, p, c);
      CountSnoc(HasAlert, p, c);
      match c.alert {
        case None => assert !HasAlert(c) && !IsNoStock(c) && !IsLowStock(c) && !IsOverstock(c);
        case Some(a) =>
          assert HasAlert(c);
          match a {
            case NoStock => assert IsNoStock(c) && !IsLowStock(c) && !IsOverstock(c);
            case LowStock => assert !IsNoStock(c) && IsLowStock(c) && !IsOverstock(c);
            case Overstock => assert !IsNoStock(c) && !IsLowStock(c) && IsOverstock(c);
          }
      }
    }
  }

  /** Alerted and healthy categories split the report: both keep report
      order, and together they hold every category exactly as often as the
      report does. */
  lemma AlertPartition(report: seq<CategoryStock>)
    ensures Subseq(AlertItems(report), report) && Subseq(HealthyItems(report), report)
    ensures forall c :: multiset(AlertItems(report))[c] + multiset(HealthyItems(report))[c] == multiset(report)[c]
    ensures |AlertItems(report)| + |HealthyItems(report)| == |report|
    ensures HasAlerts(report) <==> AlertItems(report) != []
  {
    FilterIsSubseq(HasAlert, report);
    FilterIsSubseq(IsHealthy, report);
    forall c ensures multiset(AlertItems(report))[c] + multiset(HealthyItems(report))[c] == multiset(report)[c] {
      FilterMultiplicity(HasAlert, report, c);
      FilterMultiplicity(IsHealthy, report, c);
    }
    assert multiset(AlertItems(report)) + multiset(HealthyItems(report)) == multiset(report);
    assert |multiset(AlertItems(report)) + multiset(HealthyItems(report))| == |report|;
    if HasAlerts(report) {
      var i :| 0 <= i < |report| && report[i].alert.Some?;
      FilterMembership(HasAlert, report, report[i]);
    }
    if AlertItems(report) != [] {
      var c := AlertItems(report)[0];
      assert c in report;
    }
  }
}
