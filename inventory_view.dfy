/** The admin inventory table: the search box and the three drop-downs
    (category, status, size) that narrow the list, the options those
    drop-downs offer, and the status counters above the table. */
module InventoryView {
  import opened Common
  import opened Items

  /** The value of a drop-down that imposes no constraint. */
  const All := "All"

  datatype InventoryFilter = InventoryFilter(search: string, category: string, status: string, size: string)

  /** The id text or the name contains the query, all lower-cased. */
  predicate MatchesSearch(item: Item, search: string)
  {
    var text := Lower(search);
    Contains(Lower(IntToString(item.id)), text) || Contains(Lower(item.name), text)
  }

  /** "All" lets every value through; any other choice must equal the
      item's value exactly. */
  predicate MatchesChoice(choice: string, value: string)
  {
    choice == All || value == choice
  }

  predicate ItemMatches(item: Item, f: InventoryFilter)
  {
    MatchesSearch(item, f.search) && MatchesChoice(f.category, item.category)
    && MatchesChoice(f.status, item.status) && MatchesChoice(f.size, item.size)
  }

  function FilteredItems(items: seq<Item>, f: InventoryFilter): seq<Item>
  {
    Filter(item => ItemMatches(item, f), items)
  }

  /** The table keeps item order and shows exactly the items that pass the
      search and all three drop-downs. */
  lemma FilteredItemsSelects(items: seq<Item>, f: InventoryFilter)
    ensures Subseq(FilteredItems(items, f), items)
    ensures forall item :: item in FilteredItems(items, f) <==>
              item in items && MatchesSearch(item, f.search) && MatchesChoice(f.category, item.category)
              && MatchesChoice(f.status, item.status) && MatchesChoice(f.size, item.size)
  {
    var p := (item: Item) => ItemMatches(item, f);
    FilterIsSubseq(p, items);
    forall item ensures item in FilteredItems(items, f) <==> item in items && ItemMatches(item, f) {
      FilterMembership(p, items, item);
    }
  }

  /** With an empty search and "All" everywhere the whole inventory shows. */
  lemma NoFilterShowsAll(items: seq<Item>)
    ensures FilteredItems(items, InventoryFilter("", All, All, All)) == items
  {
    var f := InventoryFilter("", All, All, All);
    forall i | 0 <= i < |items| ensures ItemMatches(items[i], f) == true {
      ContainsEmpty(Lower(IntToString(items[i].id)));
    }
    FilterKeepsAll(item => ItemMatches(item, f), items);
  }

  /* ---------------- Drop-down options ---------------- */

  /** "All" followed by the distinct non-empty values of one field. */
  function Options(field: Item -> string, items: seq<Item>): (opts: seq<string>)
    ensures |opts| >= 1 && opts[0] == All
  {
    [All] + DistinctValues(field, items)
  }

  function CategoryOptions(items: seq<Item>): seq<string>
  {
    Options((i: Item) => i.category, items)
  }

  function StatusOptions(items: seq<Item>): seq<string>
  {
    Options((i: Item) => i.status, items)
  }

  function SizeOptions(items: seq<Item>): seq<string>
  {
    Options((i: Item) => i.size, items)
  }

  /** Each list starts with "All", then offers every non-empty value that
      occurs, once each, and nothing else. */
  lemma OptionsSpec(field: Item -> string, items: seq<Item>)
    ensures NoDuplicates(Options(field, items)[1..])
    ensures forall v :: v in Options(field, items)[1..] <==>
                        v != "" && exists it :: it in items && field(it) == v
  {
    assert Options(field, items)[1..] == DistinctValues(field, items);
    DistinctValuesSpec(field, items);
  }

  /* ---------------- Counters ---------------- */

  predicate IsAvailable(item: Item) { item.status == "Available" }
  predicate IsRented(item: Item) { item.status == "Rented" }
  predicate InMaintenance(item: Item) { item.status == "Maintenance" }

  function TotalItems(items: seq<Item>): nat
  {
    |items|
  }

  /** The three status counters never add up to more than the inventory. */
  lemma StatusCountersBounded(items: seq<Item>)
    ensures Count(IsAvailable, items) + Count(IsRented, items) + Count(InMaintenance, items) <= TotalItems(items)
  {
    DisjointCounts(IsAvailable, IsRented, InMaintenance, items);
  }
}
