/** An inventory item as the inventory list delivers it. A missing text
    field is represented as "". */
module Items {
  import opened Common

  datatype Item = Item(
    id: int,
    name: string,
    category: string,
    size: string,
    status: string,
    price: int,
    image: string)

  /** The non-empty values of one text field, in item order
      (`items.map(field).filter(Boolean)`). */
  function Values(field: Item -> string, items: seq<Item>): seq<string>
  {
    if items == [] then []
    else if field(items[0]) != "" then [field(items[0])] + Values(field, items[1..])
    else Values(field, items[1..])
  }

  lemma {:induction false} ValuesMembership(field: Item -> string, items: seq<Item>, v: string)
    ensures v in Values(field, items) <==> v != "" && exists it :: it in items && field(it) == v
  {
    if items != [] {
      ValuesMembership(field, items[1..], v);
      assert items == [items[0]] + items[1..];
    }
  }

  /** The distinct non-empty values of one field, in order of first
      appearance (`[...new Set(...)]`). */
  function DistinctValues(field: Item -> string, items: seq<Item>): seq<string>
  {
    Distinct(Values(field, items))
  }

  /** Each non-empty value that occurs is listed, exactly once, and nothing
      else is. */
  lemma DistinctValuesSpec(field: Item -> string, items: seq<Item>)
    ensures NoDuplicates(DistinctValues(field, items))
    ensures forall v :: v in DistinctValues(field, items) <==>
                        v != "" && exists it :: it in items && field(it) == v
  {
    forall v ensures v in DistinctValues(field, items) <==>
                     v != "" && exists it :: it in items && field(it) == v {
      ValuesMembership(field, items, v);
    }
  }
}
