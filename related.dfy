/** The related products block (src/components/RelatedProducts.jsx):
    up to four other products of the current product's category. */
module Related {
  import opened JsArray
  import opened Catalog

  const MaxRelated := 4

  /** `data.filter(product => product.id !== currentId).slice(0, 4)`. */
  function RelatedSelection(fetched: seq<Product>, currentId: int): seq<Product>
  {
    Slice(Filter(fetched, NotId(currentId)), 0, MaxRelated)
  }

  /** The current product is never proposed; at most four are; they are the
      first four other products in fetch order, and all of them when there
      are fewer than four. */
  lemma RelatedSelectionSpec(fetched: seq<Product>, currentId: int)
    ensures !HasId(RelatedSelection(fetched, currentId), currentId)
    ensures |RelatedSelection(fetched, currentId)| <= MaxRelated
    ensures var others := Filter(fetched, NotId(currentId));
      RelatedSelection(fetched, currentId) == others[..|RelatedSelection(fetched, currentId)|]
      && (|others| <= MaxRelated ==> RelatedSelection(fetched, currentId) == others)
      && (|others| > MaxRelated ==> |RelatedSelection(fetched, currentId)| == MaxRelated)
    ensures IsSubsequence(RelatedSelection(fetched, currentId), fetched)
  {
    var others := Filter(fetched, NotId(currentId));
    var r := RelatedSelection(fetched, currentId);
    assert r == others[..if |others| < MaxRelated then |others| else MaxRelated];
    PrefixIsSubsequence(others, |r|);
    SubsequenceTransitive(r, others, fetched);
    forall i | 0 <= i < |r| ensures r[i].id != currentId {
      assert r[i] in others;
    }
    IdsNotHas(r, currentId);
  }

  lemma {:induction false} IdsNotHas(items: seq<Product>, id: int)
    requires forall i :: 0 <= i < |items| ==> items[i].id != id
    ensures !HasId(items, id)
    decreases |items|
  {
    if |items| > 0 {
      IdsNotHas(items[..|items| - 1], id);
      assert Ids(items) == Ids(items[..|items| - 1]) + [items[|items| - 1].id];
    }
  }

  /** What a fetch settles with: the category's products, or an error. */
  datatype FetchResult = Fetched(data: seq<Product>) | Failed

  /** The component's two state cells. */
  datatype View = View(relatedProducts: seq<Product>, loading: bool)

  const InitialView := View([], true)

  /** The effect on a new current product: it starts a fetch (when the
      product has a category) but resets neither cell, so the previous
      selection stays as it was until that fetch settles. */
  function ProductChanged(view: View): View
  {
    view
  }

  /** The fetch handler: a success stores the selection, and both paths
      clear the loading flag; a failure keeps whatever was selected before. */
  function Settle(view: View, result: FetchResult, currentId: int): View
  {
    match result
    case Fetched(data) => View(RelatedSelection(data, currentId), false)
    case Failed => view.(loading := false)
  }

  /** The section renders only once loading is over and something was selected. */
  predicate Renders(view: View)
  {
    !view.loading && |view.relatedProducts| > 0
  }

  /** Nothing renders before the first fetch settles (for example when no
      fetch starts). A pending fetch for a new product leaves the section
      as it was, and a failed one renders whatever was selected before.
      After a successful fetch the section renders exactly when the
      category holds another product. */
  lemma RendersSpec(view: View, data: seq<Product>, currentId: int)
    ensures !Renders(InitialView)
    ensures Renders(ProductChanged(view)) == Renders(view)
    ensures Renders(Settle(view, Failed, currentId)) <==> |view.relatedProducts| > 0
    ensures !Renders(Settle(InitialView, Failed, currentId))
    ensures Renders(Settle(view, Fetched(data), currentId))
      <==> exists i :: 0 <= i < |data| && data[i].id != currentId
  {
    var others := Filter(data, NotId(currentId));
    if exists i :: 0 <= i < |data| && data[i].id != currentId {
      var i :| 0 <= i < |data| && data[i].id != currentId;
      assert data[i] in others;
    }
    if |others| > 0 {
      assert others[0] in others;
    }
  }

  /** As written, the block can propose the product being viewed: after a
      selection holding `q` was shown, following `q`'s link makes `q` the
      current product, and `q` stays in the rendered selection while the
      new fetch is pending, and for good if that fetch fails. */
  lemma StaleSelectionShowsCurrentProduct(q: Product, firstId: int)
    requires q.id != firstId
    ensures var shown := Settle(InitialView, Fetched([q]), firstId);
      && Renders(ProductChanged(shown))
      && HasId(ProductChanged(shown).relatedProducts, q.id)
      && Renders(Settle(ProductChanged(shown), Failed, q.id))
      && HasId(Settle(ProductChanged(shown), Failed, q.id).relatedProducts, q.id)
  {
    RelatedSelectionSpec([q], firstId);
    assert Filter([q], NotId(firstId)) == [q];
    assert Ids([q]) == [q.id];
  }

  /** The effect with the reset it evidently needs: a new product clears
      the selection and shows nothing until its own fetch settles. */
  function ProductChangedCorrected(view: View): View
  {
    View([], true)
  }

  /** The fetch handler with the matching fix: a failure clears the
      selection instead of keeping another product's. */
  function SettleCorrected(view: View, result: FetchResult, currentId: int): View
  {
    if result.Failed? then View([], false) else Settle(view, result, currentId)
  }

  /** With the fix, nothing renders while a fetch is pending or after it
      fails, and whatever renders never holds the current product. */
  lemma CorrectedNeverShowsCurrentProduct(view: View, result: FetchResult, currentId: int)
    ensures !Renders(ProductChangedCorrected(view))
    ensures result.Failed? ==> !Renders(SettleCorrected(ProductChangedCorrected(view), result, currentId))
    ensures !HasId(SettleCorrected(ProductChangedCorrected(view), result, currentId).relatedProducts, currentId)
  {
    if result.Fetched? {
      RelatedSelectionSpec(result.data, currentId);
    } else {
      assert Ids([]) == [];
    }
  }
}
