/** The product listing page (src/components/Products.jsx): the category
    effect, the search and price filter, the price sort, pagination with
    its page-window rule, and the favourite toggle. The component's state
    cells are the fields of `ProductListing`. */
module Products {
  import opened JsArray
  import opened Text
  import opened Catalog
  import Favorites

  const ProductsPerPage: nat := 8

  /** Inclusive price bounds, in cents. */
  datatype PriceRange = PriceRange(min: int, max: int)

  /** `{ min: 0, max: 1000 }` euros. */
  const InitialPriceRange: PriceRange := PriceRange(0, 100000)

  // ---------------------------------------------------------------------
  // Category effect

  function CategoryMatcher(selected: string): Product -> bool
  {
    (p: Product) => p.category == selected
  }

  /** What the category effect stores in `products`. */
  function CategoryStage(all: seq<Product>, selected: string): seq<Product>
  {
    if selected == "all" then all else Filter(all, CategoryMatcher(selected))
  }

  /** 'all' keeps the whole catalogue; any other value keeps exactly the
      products of that category, in catalogue order. */
  lemma CategoryStageSpec(all: seq<Product>, selected: string)
    ensures selected == "all" ==> CategoryStage(all, selected) == all
    ensures selected != "all" ==>
      && (forall p :: p in CategoryStage(all, selected) <==> p in all && p.category == selected)
      && IsSubsequence(CategoryStage(all, selected), all)
    ensures forall p ::
      multiset(CategoryStage(all, selected))[p] ==
      if selected == "all" || p.category == selected then multiset(all)[p] else 0
  {
    FilterCounts(all, CategoryMatcher(selected));
  }

  // ---------------------------------------------------------------------
  // Search and price filter

  predicate MatchesSearch(p: Product, term: string)
  {
    IncludesIgnoringCase(p.title, term) || IncludesIgnoringCase(p.description, term)
  }

  predicate InPriceRange(p: Product, range: PriceRange)
  {
    range.min <= p.price <= range.max
  }

  function ListingMatcher(term: string, range: PriceRange): Product -> bool
  {
    (p: Product) => MatchesSearch(p, term) && InPriceRange(p, range)
  }

  /** filteredProducts. */
  function FilteredProducts(products: seq<Product>, term: string, range: PriceRange): seq<Product>
  {
    Filter(products, ListingMatcher(term, range))
  }

  /** Every kept product matches the term in its title or description,
      ignoring case, and lies within the range; every such product is
      kept, in order. An empty term matches every product. */
  lemma FilteredProductsSpec(products: seq<Product>, term: string, range: PriceRange)
    ensures forall p :: p in FilteredProducts(products, term, range) <==>
      p in products && MatchesSearch(p, term) && InPriceRange(p, range)
    ensures IsSubsequence(FilteredProducts(products, term, range), products)
    ensures forall p ::
      multiset(FilteredProducts(products, term, range))[p] ==
      if MatchesSearch(p, term) && InPriceRange(p, range) then multiset(products)[p] else 0
    ensures term == "" ==>
      forall p :: p in FilteredProducts(products, term, range) <==> p in products && InPriceRange(p, range)
  {
    FilterCounts(products, ListingMatcher(term, range));
    if term == "" {
      forall p: Product ensures MatchesSearch(p, term) {
        IncludesEmpty(Lower(p.title));
        assert Lower(term) == "";
      }
    }
  }

  // ---------------------------------------------------------------------
  // Price sort

  /** The comparator, read as "a sorts before or together with b". Any
      order other than 'asc' or 'desc' makes the comparator return 0. */
  function PriceOrder(sortOrder: string): (Product, Product) -> bool
  {
    if sortOrder == "asc" then (a: Product, b: Product) => a.price <= b.price
    else if sortOrder == "desc" then (a: Product, b: Product) => b.price <= a.price
    else (a: Product, b: Product) => true
  }

  /** sortedProducts: a sorted copy of filteredProducts. */
  function SortedProducts(filtered: seq<Product>, sortOrder: string): seq<Product>
  {
    StableSort(filtered, PriceOrder(sortOrder))
  }

  function PricedAt(price: int): Product -> bool
  {
    (p: Product) => p.price == price
  }

  lemma PriceOrderIsTotalPreorder(sortOrder: string)
    ensures TotalPreorder(PriceOrder(sortOrder))
  {
  }

  /** The sorted list is a permutation of the filtered one, ordered by
      price as asked, and the products at any one price keep their relative
      order; an unknown order leaves the list as it was. */
  lemma SortedProductsSpec(filtered: seq<Product>, sortOrder: string, price: int)
    ensures var r := SortedProducts(filtered, sortOrder);
      && multiset(r) == multiset(filtered)
      && (sortOrder == "asc" ==> forall i, j :: 0 <= i < j < |r| ==> r[i].price <= r[j].price)
      && (sortOrder == "desc" ==> forall i, j :: 0 <= i < j < |r| ==> r[i].price >= r[j].price)
      && (sortOrder != "asc" && sortOrder != "desc" ==> r == filtered)
      && Filter(r, PricedAt(price)) == Filter(filtered, PricedAt(price))
  {
    var le := PriceOrder(sortOrder);
    var r := SortedProducts(filtered, sortOrder);
    PriceOrderIsTotalPreorder(sortOrder);
    SortSorted(filtered, le);
    if sortOrder != "asc" && sortOrder != "desc" {
      SortOfSorted(filtered, le);
    }
    var v := Product(0, "", "", "", price);
    SortStable(filtered, v, le);
    if sortOrder == "asc" || sortOrder == "desc" {
      FilterCongruent(r, TiedWith(v, le), PricedAt(price));
      FilterCongruent(filtered, TiedWith(v, le), PricedAt(price));
    } else {
      assert r == filtered;
    }
  }

  // ---------------------------------------------------------------------
  // Pagination

  /** currentProducts: `slice(currentPage * 8 - 8, currentPage * 8)`. */
  function PageSlice(sorted: seq<Product>, currentPage: int): (r: seq<Product>)
    ensures |r| <= ProductsPerPage
  {
    Slice(sorted, currentPage * ProductsPerPage - ProductsPerPage, currentPage * ProductsPerPage)
  }

  /** Math.ceil(n / 8). */
  function TotalPages(n: nat): nat
  {
    (n + ProductsPerPage - 1) / ProductsPerPage
  }

  lemma TotalPagesIsCeiling(n: nat)
    ensures TotalPages(n) * ProductsPerPage >= n
    ensures n > 0 ==> (TotalPages(n) - 1) * ProductsPerPage < n
    ensures n == 0 <==> TotalPages(n) == 0
  {
  }

  /** Page p is the slice [(p-1)*8, p*8) of the sorted list, cut off at its
      end: never more than 8 products, and nothing past the last page. */
  lemma PageSliceSpec(sorted: seq<Product>, page: int)
    requires page >= 1
    ensures var r, from := PageSlice(sorted, page), (page - 1) * ProductsPerPage;
      && |r| <= ProductsPerPage
      && (from < |sorted| ==> r == sorted[from..if page * ProductsPerPage < |sorted| then page * ProductsPerPage else |sorted|])
      && (page > TotalPages(|sorted|) ==> r == [])
  {
    SliceNonNegative(sorted, (page - 1) * ProductsPerPage, page * ProductsPerPage);
    TotalPagesIsCeiling(|sorted|);
  }

  /** Pages 1..k, one after the other. */
  function PagesUpTo(sorted: seq<Product>, k: nat): seq<Product>
  {
    if k == 0 then [] else PagesUpTo(sorted, k - 1) + PageSlice(sorted, k)
  }

  lemma {:induction false} PagesUpToIsPrefix(sorted: seq<Product>, k: nat)
    ensures PagesUpTo(sorted, k) == sorted[..if k * ProductsPerPage < |sorted| then k * ProductsPerPage else |sorted|]
  {
    if k > 0 {
      PagesUpToIsPrefix(sorted, k - 1);
      PageSliceSpec(sorted, k);
      var a := if (k - 1) * ProductsPerPage < |sorted| then (k - 1) * ProductsPerPage else |sorted|;
      var b := if k * ProductsPerPage < |sorted| then k * ProductsPerPage else |sorted|;
      if (k - 1) * ProductsPerPage < |sorted| {
        assert sorted[..a] + sorted[a..b] == sorted[..b];
      } else {
        SliceNonNegative(sorted, (k - 1) * ProductsPerPage, k * ProductsPerPage);
      }
    }
  }

  /** Concatenating pages 1..totalPages gives back the sorted list exactly. */
  lemma PagesReassembleSorted(sorted: seq<Product>)
    ensures PagesUpTo(sorted, TotalPages(|sorted|)) == sorted
  {
    PagesUpToIsPrefix(sorted, TotalPages(|sorted|));
    TotalPagesIsCeiling(|sorted|);
  }

  // ---------------------------------------------------------------------
  // Paginator

  /** The Previous button's target, Math.max(1, currentPage - 1); the button
      is disabled on page 1. */
  function PreviousTarget(current: int): int
  {
    if current - 1 < 1 then 1 else current - 1
  }

  predicate PreviousDisabled(current: int)
  {
    current == 1
  }

  /** The Next button's target as written, Math.min(totalPages,
      currentPage + 1); the button is disabled when currentPage equals
      totalPages. */
  function NextTarget(current: int, total: int): int
  {
    if total < current + 1 then total else current + 1
  }

  predicate NextDisabled(current: int, total: int)
  {
    current == total
  }

  /** Both targets stay on an existing page when the current one is. */
  lemma TargetsStayInRange(current: int, total: int)
    requires 1 <= current <= total
    ensures 1 <= PreviousTarget(current) <= total
    ensures 1 <= NextTarget(current, total) <= total
    ensures PreviousTarget(current) == current <==> PreviousDisabled(current)
    ensures NextTarget(current, total) == current <==> NextDisabled(current, total)
  {
  }

  /** With no matching product there are no pages, yet Next is enabled on
      page 1 and leads to page 0, whose slice is empty whatever the list
      later holds. */
  lemma NextTargetLeavesPagesWhenEmpty(sorted: seq<Product>)
    ensures TotalPages(0) == 0
    ensures !NextDisabled(1, TotalPages(0)) && NextTarget(1, TotalPages(0)) == 0
    ensures PageSlice(sorted, 0) == []
  {
  }

  /** The corrected Next target, kept on page 1 or later, which
      `NextPageCorrected` uses. */
  function ClampedNextTarget(current: int, total: int): int
  {
    var t := NextTarget(current, total);
    if t < 1 then 1 else t
  }

  lemma ClampedNextTargetInRange(current: int, total: int)
    requires current >= 1
    ensures 1 <= ClampedNextTarget(current, total)
    ensures total >= 1 ==> ClampedNextTarget(current, total) <= total
    ensures current < total ==> ClampedNextTarget(current, total) == current + 1
    ensures total >= 1 ==> ClampedNextTarget(current, total) == NextTarget(current, total)
  {
  }

  datatype PageSlot = PageButton | PageEllipsis | PageHidden

  /** How the paginator renders page `page`. */
  function Slot(page: int, current: int, total: int): PageSlot
  {
    if page == 1 || page == total || (page >= current - 1 && page <= current + 1) then PageButton
    else if page == current - 2 || page == current + 2 then PageEllipsis
    else PageHidden
  }

  function Distance(a: int, b: int): nat
  {
    if a < b then b - a else a - b
  }

  /** A page is a button iff it is the first, the last or within one of the
      current page; an ellipsis iff it is none of these and two away. */
  lemma SlotSpec(page: int, current: int, total: int)
    ensures Slot(page, current, total) == PageButton <==>
      page == 1 || page == total || Distance(page, current) <= 1
    ensures Slot(page, current, total) == PageEllipsis <==>
      Slot(page, current, total) != PageButton && Distance(page, current) == 2
    ensures Slot(page, current, total) == PageHidden <==>
      page != 1 && page != total && Distance(page, current) > 2
  {
  }

  datatype PageEntry = Button(page: int) | Ellipsis(page: int)

  /** The entries rendered for pages k..total (hidden pages render null). */
  function WindowFrom(k: int, current: int, total: int): seq<PageEntry>
    decreases total - k + 1
  {
    if k > total then []
    else
      (match Slot(k, current, total)
       case PageButton => [Button(k)]
       case PageEllipsis => [Ellipsis(k)]
       case PageHidden => [])
      + WindowFrom(k + 1, current, total)
  }

  /** The numbered part of the paginator, pages 1..totalPages. */
  function Window(current: int, total: int): seq<PageEntry>
  {
    WindowFrom(1, current, total)
  }

  /** An upper bound on how many of the pages k..total can be shown: page 1,
      the last page and the five pages around the current one. */
  function ShownBound(k: int, current: int, total: int): int
  {
    var low := if k < current - 2 then current - 2 else k;
    (if k <= 1 then 1 else 0) + (if k <= total then 1 else 0)
      + (if current + 2 < low then 0 else current + 2 - low + 1)
  }

  lemma {:induction false} WindowFromBounded(k: int, current: int, total: int)
    ensures |WindowFrom(k, current, total)| <= ShownBound(k, current, total)
    decreases total - k + 1
  {
    if k <= total {
      WindowFromBounded(k + 1, current, total);
    }
  }

  /** However many pages there are, the paginator shows at most 7 entries. */
  lemma WindowAtMostSeven(current: int, total: int)
    ensures |Window(current, total)| <= 7
  {
    WindowFromBounded(1, current, total);
  }

  lemma {:induction false} WindowFromPages(k: int, current: int, total: int)
    ensures forall i :: 0 <= i < |WindowFrom(k, current, total)| ==>
      var e := WindowFrom(k, current, total)[i];
      && k <= e.page <= total
      && (e.Button? <==> Slot(e.page, current, total) == PageButton)
      && (e.Ellipsis? <==> Slot(e.page, current, total) == PageEllipsis)
    ensures forall i, j :: 0 <= i < j < |WindowFrom(k, current, total)| ==>
      WindowFrom(k, current, total)[i].page < WindowFrom(k, current, total)[j].page
    decreases total - k + 1
  {
    if k <= total {
      WindowFromPages(k + 1, current, total);
    }
  }

  /** The entries are in increasing page order, each rendered as its slot
      says, and the first and last pages always appear as buttons. */
  lemma WindowShape(current: int, total: int)
    requires total >= 1
    ensures var w := Window(current, total);
      && |w| >= 1 && w[0] == Button(1) && w[|w| - 1] == Button(total)
      && (forall i, j :: 0 <= i < j < |w| ==> w[i].page < w[j].page)
      && (forall i :: 0 <= i < |w| ==> 1 <= w[i].page <= total && Slot(w[i].page, current, total) != PageHidden)
  {
    WindowFromPages(1, current, total);
    WindowLast(1, current, total);
  }

  lemma {:induction false} WindowLast(k: int, current: int, total: int)
    requires k <= total
    ensures var w := WindowFrom(k, current, total); |w| >= 1 && w[|w| - 1] == Button(total)
    decreases total - k + 1
  {
    if k < total {
      WindowLast(k + 1, current, total);
    }
  }

  // ---------------------------------------------------------------------
  // Favourite toggle

  /** handleToggleFavorite: remove the product if an entry has its id,
      add it otherwise. */
  function ToggleFavorite(fav: Favorites.State, product: Product): Favorites.State
  {
    if HasId(fav.items, product.id) then Favorites.Reduce(fav, Favorites.RemoveFromFavorites(product.id))
    else Favorites.Reduce(fav, Favorites.AddToFavorites(product))
  }

  /** No id occurs twice. */
  ghost predicate DistinctIds(items: seq<Product>)
  {
    forall k :: CountId(items, k) <= 1
  }

  /** The toggle flips whether the product's id is a favourite, touches no
      other id, and never creates a duplicate. */
  lemma ToggleFavoriteSpec(fav: Favorites.State, product: Product)
    ensures var r := ToggleFavorite(fav, product);
      && HasId(r.items, product.id) == !HasId(fav.items, product.id)
      && CountId(r.items, product.id) <= 1
      && (forall k :: k != product.id ==> CountId(r.items, k) == CountId(fav.items, k))
      && (DistinctIds(fav.items) ==> DistinctIds(r.items))
  {
    if HasId(fav.items, product.id) {
      Favorites.RemoveDropsOnlyId(fav, product.id);
      HasIdIffCount(ToggleFavorite(fav, product).items, product.id);
    } else {
      Favorites.AddCountsOnceMore(fav, product);
      HasIdIffCount(fav.items, product.id);
      HasIdIffCount(ToggleFavorite(fav, product).items, product.id);
    }
  }

  /** Two toggles restore whether the product is a favourite. */
  lemma ToggleTwiceRestoresMembership(fav: Favorites.State, product: Product)
    ensures HasId(ToggleFavorite(ToggleFavorite(fav, product), product).items, product.id)
         == HasId(fav.items, product.id)
  {
    ToggleFavoriteSpec(fav, product);
    ToggleFavoriteSpec(ToggleFavorite(fav, product), product);
  }

  // ---------------------------------------------------------------------
  // The component's state

  class ProductListing {
    var allProducts: seq<Product>
    var products: seq<Product>
    var currentPage: int
    var sortOrder: string
    var selectedCategory: string
    var searchTerm: string
    var priceRange: PriceRange

    /** The category effect has run for the current catalogue and
        category. The page is never negative; it can be 0, which the
        Next button reaches when there are no pages. */
    ghost predicate Valid()
      reads this
    {
      products == CategoryStage(allProducts, selectedCategory) && currentPage >= 0
    }

    constructor ()
      ensures Valid()
      ensures allProducts == [] && products == [] && currentPage == 1
      ensures sortOrder == "asc" && selectedCategory == "all" && searchTerm == ""
      ensures priceRange == InitialPriceRange
    {
      allProducts, products, currentPage := [], [], 1;
      sortOrder, selectedCategory, searchTerm := "asc", "all", "";
      priceRange := InitialPriceRange;
    }

    /** The products on screen: the current page of the sorted, filtered
        list, never more than one page's worth. */
    function Visible(): (r: seq<Product>)
      reads this
      ensures |r| <= ProductsPerPage
    {
      PageSlice(SortedProducts(FilteredProducts(products, searchTerm, priceRange), sortOrder), currentPage)
    }

    function PageCount(): nat
      reads this
    {
      TotalPages(|FilteredProducts(products, searchTerm, priceRange)|)
    }

    /** The category effect: recompute `products` from the catalogue. */
    method ApplyCategoryEffect()
      modifies this`products
      ensures products == CategoryStage(allProducts, selectedCategory)
    {
      if selectedCategory == "all" {
        products := allProducts;
      } else {
        products := Filter(allProducts, CategoryMatcher(selectedCategory));
      }
    }

    /** The catalogue has arrived: both lists are set, then the category
        effect runs. */
    method Receive(data: seq<Product>)
      requires Valid()
      modifies this
      ensures Valid()
      ensures allProducts == data && products == CategoryStage(data, selectedCategory)
      ensures currentPage == old(currentPage) && sortOrder == old(sortOrder)
      ensures selectedCategory == old(selectedCategory) && searchTerm == old(searchTerm)
      ensures priceRange == old(priceRange)
    {
      allProducts := data;
      products := data;
      ApplyCategoryEffect();
    }

    method SelectCategory(category: string)
      requires Valid()
      modifies this
      ensures Valid()
      ensures selectedCategory == category && products == CategoryStage(allProducts, category)
      ensures allProducts == old(allProducts) && currentPage == old(currentPage)
      ensures sortOrder == old(sortOrder) && searchTerm == old(searchTerm) && priceRange == old(priceRange)
    {
      selectedCategory := category;
      ApplyCategoryEffect();
    }

    method SetSearchTerm(term: string)
      requires Valid()
      modifies this`searchTerm
      ensures Valid() && searchTerm == term
    {
      searchTerm := term;
    }

    method SetSortOrder(order: string)
      requires Valid()
      modifies this`sortOrder
      ensures Valid() && sortOrder == order
    {
      sortOrder := order;
    }

    method SetPriceRange(range: PriceRange)
      requires Valid()
      modifies this`priceRange
      ensures Valid() && priceRange == range
    {
      priceRange := range;
    }

    /** A numbered button: only pages 1..totalPages have one. */
    method GoToPage(page: int)
      requires Valid() && 1 <= page <= PageCount()
      modifies this`currentPage
      ensures Valid() && currentPage == page
    {
      currentPage := page;
    }

    method PreviousPage()
      requires Valid()
      modifies this`currentPage
      ensures Valid()
      ensures currentPage == if PreviousDisabled(old(currentPage)) then old(currentPage) else PreviousTarget(old(currentPage))
    {
      if !PreviousDisabled(currentPage) {
        currentPage := PreviousTarget(currentPage);
      }
    }

    /** The Next button as written: `min(totalPages, page + 1)` unless the
        page is already `totalPages`. With no pages this moves to page 0. */
    method NextPage()
      requires Valid()
      modifies this`currentPage
      ensures Valid()
      ensures currentPage == if NextDisabled(old(currentPage), PageCount()) then old(currentPage)
                             else NextTarget(old(currentPage), PageCount())
    {
      if !NextDisabled(currentPage, PageCount()) {
        currentPage := NextTarget(currentPage, PageCount());
      }
    }

    /** The Next button with the corrected target: from a page of 1 or
        later it never leaves pages 1 and up, and it never passes the last
        page when there is one. */
    method NextPageCorrected()
      requires Valid()
      modifies this`currentPage
      ensures Valid()
      ensures currentPage == if NextDisabled(old(currentPage), PageCount()) then old(currentPage)
                             else ClampedNextTarget(old(currentPage), PageCount())
      ensures old(currentPage) >= 1 ==> currentPage >= 1
      ensures 1 <= old(currentPage) <= PageCount() ==> currentPage <= PageCount()
    {
      if !NextDisabled(currentPage, PageCount()) {
        if currentPage >= 1 {
          ClampedNextTargetInRange(currentPage, PageCount());
        }
        currentPage := ClampedNextTarget(currentPage, PageCount());
      }
    }

    /** handleResetFilters. */
    method ResetFilters()
      requires Valid()
      modifies this
      ensures Valid()
      ensures searchTerm == "" && selectedCategory == "all" && sortOrder == "asc"
      ensures priceRange == InitialPriceRange && currentPage == 1
      ensures allProducts == old(allProducts) && products == allProducts
    {
      searchTerm := "";
      selectedCategory := "all";
      sortOrder := "asc";
      priceRange := InitialPriceRange;
      currentPage := 1;
      products := allProducts;
    }
  }
}
