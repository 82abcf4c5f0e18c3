/** The favourites store: a reducer over a list of products
    (src/context/FavoritesContext.jsx). It appends and removes by id; it
    does not deduplicate, which is left to its callers. */
module Favorites {
  import opened JsArray
  import opened Catalog

  datatype State = State(items: seq<Product>)

  datatype Action =
    | AddToFavorites(product: Product)
    | RemoveFromFavorites(id: int)
    | OtherAction  // any action type the reducer does not know

  /** The state the provider starts from. */
  const Initial: State := State([])

  /** favoritesReducer. */
  function Reduce(state: State, action: Action): State
  {
    match action
    case AddToFavorites(p) => state.(items := state.items + [p])
    case RemoveFromFavorites(id) => state.(items := Filter(state.items, NotId(id)))
    case OtherAction => state
  }

  lemma InitialIsEmpty()
    ensures Initial.items == [] && !HasId(Initial.items, 0)
  {
  }

  /** ADD puts the product at the end and leaves the earlier entries as they were. */
  lemma AddAppends(state: State, p: Product)
    ensures var r := Reduce(state, AddToFavorites(p));
      && |r.items| == |state.items| + 1
      && r.items[..|state.items|] == state.items
      && r.items[|state.items|] == p
  {
  }

  /** ADD counts the product's id once more and every other id as before,
      so adding a product that is already a favourite leaves two entries
      with its id. */
  lemma AddCountsOnceMore(state: State, p: Product)
    ensures forall k :: CountId(Reduce(state, AddToFavorites(p)).items, k)
                        == CountId(state.items, k) + (if k == p.id then 1 else 0)
    ensures HasId(state.items, p.id) ==> CountId(Reduce(state, AddToFavorites(p)).items, p.id) >= 2
  {
    IdsAppend(state.items, [p]);
  }

  lemma {:induction false} CountIdAfterRemove(items: seq<Product>, id: int, k: int)
    ensures CountId(Filter(items, NotId(id)), k) == if k == id then 0 else CountId(items, k)
    decreases |items|
  {
    if |items| > 0 {
      assert items == [items[0]] + items[1..];
      FilterCons(items[0], items[1..], NotId(id));
      CountIdAfterRemove(items[1..], id, k);
      IdsAppend(if NotId(id)(items[0]) then [items[0]] else [], Filter(items[1..], NotId(id)));
      IdsAppend([items[0]], items[1..]);
    }
  }

  /** REMOVE drops every entry with the id and keeps every other entry,
      as often as it occurred and in its original order. */
  lemma RemoveDropsOnlyId(state: State, id: int)
    ensures var r := Reduce(state, RemoveFromFavorites(id));
      && !HasId(r.items, id)
      && (forall k :: k != id ==> CountId(r.items, k) == CountId(state.items, k))
      && (forall x :: x in r.items <==> x in state.items && x.id != id)
      && IsSubsequence(r.items, state.items)
  {
    forall k ensures CountId(Filter(state.items, NotId(id)), k) == if k == id then 0 else CountId(state.items, k) {
      CountIdAfterRemove(state.items, id, k);
    }
    HasIdIffCount(Filter(state.items, NotId(id)), id);
  }

  /** REMOVE of an id no entry carries changes nothing. */
  lemma RemoveAbsentIsNoOp(state: State, id: int)
    requires !HasId(state.items, id)
    ensures Reduce(state, RemoveFromFavorites(id)) == state
  {
    assert forall i :: 0 <= i < |state.items| ==> Ids(state.items)[i] != id;
  }

  /** An action type the reducer does not know returns the state as it was. */
  lemma OtherActionIsNoOp(state: State)
    ensures Reduce(state, OtherAction) == state
  {
  }
}
