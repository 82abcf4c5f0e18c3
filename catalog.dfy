/** The product record as the catalogue API delivers it, shared by the
    listing, the favourites and the related-products selection. */
module Catalog {

  /** One catalogue product; `price` is in cents. */
  datatype Product = Product(id: int, title: string, description: string, category: string, price: int)

  /** The ids of `items`, in order. */
  function Ids(items: seq<Product>): (r: seq<int>)
    ensures |r| == |items|
    ensures forall i :: 0 <= i < |items| ==> r[i] == items[i].id
    decreases |items|
  {
    if |items| == 0 then [] else [items[0].id] + Ids(items[1..])
  }

  lemma IdsAppend(a: seq<Product>, b: seq<Product>)
    ensures Ids(a + b) == Ids(a) + Ids(b)
  {
  }

  /** `items.some(item => item.id === id)`. */
  predicate HasId(items: seq<Product>, id: int)
  {
    id in Ids(items)
  }

  /** The test `item => item.id !== id`. */
  function NotId(id: int): Product -> bool
  {
    (p: Product) => p.id != id
  }

  /** How many entries of `items` carry `id`. */
  function CountId(items: seq<Product>, id: int): nat
  {
    multiset(Ids(items))[id]
  }

  lemma HasIdIffCount(items: seq<Product>, id: int)
    ensures HasId(items, id) <==> CountId(items, id) > 0
  {
  }
}
