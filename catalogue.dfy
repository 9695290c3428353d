/** The customer catalogue: the search box, the size and category
    selectors and the price-range selector applied one after the other to
    the inventory, and the size and category lists the selectors offer. An
    empty selector imposes no constraint. */
module Catalogue {
  import opened Common
  import opened Items

  datatype Selection = Selection(search: string, size: string, category: string, priceRange: string)

  /** The name contains the query ignoring case, or the id text contains the
      query as typed. */
  predicate SearchMatches(item: Item, search: string)
  {
    Contains(Lower(item.name), Lower(search)) || Contains(IntToString(item.id), search)
  }

  /** The price ranges: both middle ranges include 1000, and any range name
      not listed keeps every price. */
  predicate InPriceRange(price: int, range: string)
  {
    if range == "below500" then price < 500
    else if range == "500to1000" then 500 <= price <= 1000
    else if range == "1000to2000" then 1000 <= price <= 2000
    else if range == "above2000" then price > 2000
    else true
  }

  /** The filter chain as written: search first, then each selector that is
      set. */
  function FilteredData(data: seq<Item>, s: Selection): seq<Item>
  {
    var bySearch := Filter(it => SearchMatches(it, s.search), data);
    var bySize := if s.size != "" then Filter((it: Item) => it.size == s.size, bySearch) else bySearch;
    var byCategory := if s.category != "" then Filter((it: Item) => it.category == s.category, bySize) else bySize;
    if s.priceRange != "" then Filter((it: Item) => InPriceRange(it.price, s.priceRange), byCategory) else byCategory
  }

  /** One item's verdict, all selectors at once. */
  predicate Selected(item: Item, s: Selection)
  {
    SearchMatches(item, s.search)
    && (s.size == "" || item.size == s.size)
    && (s.category == "" || item.category == s.category)
    && (s.priceRange == "" || InPriceRange(item.price, s.priceRange))
  }

  predicate UpToSize(item: Item, s: Selection)
  {
    SearchMatches(item, s.search) && (s.size == "" || item.size == s.size)
  }

  predicate UpToCategory(item: Item, s: Selection)
  {
    UpToSize(item, s) && (s.category == "" || item.category == s.category)
  }

  /** A step of the chain that is applied only when its selector is set is
      the same as a filter by "unset or matching". */
  lemma {:induction false} OptionalStep(xs: seq<Item>, active: bool, step: Item -> bool, before: Item -> bool, after: Item -> bool)
    requires forall it :: after(it) == (before(it) && (!active || step(it)))
    requires forall i :: 0 <= i < |xs| ==> before(xs[i])
    ensures (if active then Filter(step, xs) else xs) == Filter(after, xs)
  {
    if active {
      FilterCongruent(step, after, xs);
    } else {
      FilterKeepsAll(after, xs);
    }
  }

  /** A conditional step applied to the result of a filter is again one
      filter of the original list. */
  lemma ChainStep(data: seq<Item>, prev: seq<Item>, active: bool,
                  step: Item -> bool, before: Item -> bool, after: Item -> bool)
    requires prev == Filter(before, data)
    requires forall it :: after(it) == (before(it) && (!active || step(it)))
    ensures (if active then Filter(step, prev) else prev) == Filter(after, data)
  {
    forall i | 0 <= i < |prev| ensures before(prev[i]) {
      FilterMembership(before, data, prev[i]);
    }
    OptionalStep(prev, active, step, before, after);
    FilterCompose(before, after, after, data);
  }

  /** The chain of filters is one filter by the conjunction of the
      selectors: the shown items keep catalogue order, and an item is shown
      exactly when it passes the search and every selector that is set. */
  lemma FilteredDataSelects(data: seq<Item>, s: Selection)
    ensures FilteredData(data, s) == Filter(it => Selected(it, s), data)
    ensures Subseq(FilteredData(data, s), data)
    ensures forall it :: it in FilteredData(data, s) <==> it in data && Selected(it, s)
  {
    var search := (it: Item) => SearchMatches(it, s.search);
    var upToSize := (it: Item) => UpToSize(it, s);
    var upToCategory := (it: Item) => UpToCategory(it, s);
    var selected := (it: Item) => Selected(it, s);
    var bySearch := Filter(search, data);
    var bySize := if s.size != "" then Filter((it: Item) => it.size == s.size, bySearch) else bySearch;
    var byCategory := if s.category != "" then Filter((it: Item) => it.category == s.category, bySize) else bySize;

    ChainStep(data, bySearch, s.size != "", (it: Item) => it.size == s.size, search, upToSize);
    ChainStep(data, bySize, s.category != "", (it: Item) => it.category == s.category, upToSize, upToCategory);
    ChainStep(data, byCategory, s.priceRange != "", (it: Item) => InPriceRange(it.price, s.priceRange),
              upToCategory, selected);

    FilterIsSubseq(selected, data);
    forall it ensures it in FilteredData(data, s) <==> it in data && Selected(it, s) {
      FilterMembership(selected, data, it);
    }
  }

  /** Every price falls in one of the four ranges, and 1000 falls in both
      middle ones. */
  lemma PriceRangesCover(price: int)
    ensures InPriceRange(price, "below500") || InPriceRange(price, "500to1000")
            || InPriceRange(price, "1000to2000") || InPriceRange(price, "above2000")
    ensures InPriceRange(1000, "500to1000") && InPriceRange(1000, "1000to2000")
  {
  }

  /** The sizes and categories offered by the selectors. */
  function Sizes(data: seq<Item>): seq<string>
  {
    DistinctValues((it: Item) => it.size, data)
  }

  function CategoriesOf(data: seq<Item>): seq<string>
  {
    DistinctValues((it: Item) => it.category, data)
  }

  /** The selectors offer every size and category that occurs, once each. */
  lemma SelectorListsSpec(data: seq<Item>)
    ensures NoDuplicates(Sizes(data)) && NoDuplicates(CategoriesOf(data))
    ensures forall v :: v in Sizes(data) <==> v != "" && exists it :: it in data && it.size == v
    ensures forall v :: v in CategoriesOf(data) <==> v != "" && exists it :: it in data && it.category == v
  {
    DistinctValuesSpec((it: Item) => it.size, data);
    DistinctValuesSpec((it: Item) => it.category, data);
  }
}
