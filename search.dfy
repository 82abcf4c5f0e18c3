/** The generic search hook (src/hooks/useSearch.js): hook state (search
    term, filters object, sort configuration), its three transitions, and
    the `filteredItems` pipeline: text search, category filter, price
    range, then an optional sort. */
module Search {
  import opened Wrappers
  import opened JsArray
  import opened Text

  datatype Category = Category(id: int, name: string)

  /** An item the hook searches; `price` is in cents. */
  datatype Item = Item(title: string, description: string, category: Option<Category>, price: int)

  /** A value held in the `filters` object: the category select stores a
      string, the price inputs a {min, max} range. */
  datatype FilterValue = StringValue(text: string) | RangeValue(min: int, max: int)

  type Filters = map<string, FilterValue>

  /** Any direction other than 'asc' sorts descending. */
  datatype Direction = Asc | Desc

  /** `key` is None for `null`. */
  datatype SortConfig = SortConfig(key: Option<string>, direction: Direction)

  const DefaultSort: SortConfig := SortConfig(None, Asc)

  datatype Options = Options(initialFilters: Option<Filters>, initialSort: Option<SortConfig>)

  datatype SearchState = SearchState(searchTerm: string, filters: Filters, sortConfig: SortConfig)

  function InitialFilters(options: Options): Filters
  {
    if options.initialFilters.Some? then options.initialFilters.value else map[]
  }

  /** The hook's state on first render. */
  function Init(options: Options): SearchState
  {
    SearchState("", InitialFilters(options),
                if options.initialSort.Some? then options.initialSort.value else DefaultSort)
  }

  function SetSearchTerm(state: SearchState, term: string): SearchState
  {
    state.(searchTerm := term)
  }

  /** updateFilter(key, value): `{ ...prev, [key]: value }`. */
  function UpdateFilter(state: SearchState, key: string, value: FilterValue): SearchState
  {
    state.(filters := state.filters[key := value])
  }

  /** updateSort(key): selecting the key already sorted ascending flips to
      descending; anything else sorts ascending by the new key. */
  function UpdateSort(state: SearchState, key: string): SearchState
  {
    var prev := state.sortConfig;
    state.(sortConfig := SortConfig(Some(key), if prev.key == Some(key) && prev.direction == Asc then Desc else Asc))
  }

  /** resetFilters: initial filters, the null/'asc' sort (not the initial
      sort) and an empty search term. */
  function ResetFilters(state: SearchState, options: Options): SearchState
  {
    SearchState("", InitialFilters(options), DefaultSort)
  }

  // ---------------------------------------------------------------------
  // The filteredItems pipeline

  /** The text test against title, description and category name. */
  predicate MatchesTerm(item: Item, term: string)
  {
    || IncludesIgnoringCase(item.title, term)
    || IncludesIgnoringCase(item.description, term)
    || (item.category.Some? && IncludesIgnoringCase(item.category.value.name, term))
  }

  function TermMatcher(term: string): Item -> bool
  {
    (x: Item) => MatchesTerm(x, term)
  }

  /** Stage 1: skipped for an empty term. */
  function SearchStage(items: seq<Item>, term: string): seq<Item>
  {
    if term == "" then items else Filter(items, TermMatcher(term))
  }

  /** What the `category` entry asks for: nothing (absent, '' or 'all'), or
      the id parseInt reads from it (None for NaN, which no id equals). */
  datatype CategoryRule = AnyCategory | CategoryIdIs(id: Option<int>)

  function CategoryRuleOf(filters: Filters): CategoryRule
  {
    if "category" !in filters then AnyCategory
    else match filters["category"]
      case StringValue(s) => if s == "" || s == "all" then AnyCategory else CategoryIdIs(ParseInt(s))
      case RangeValue(_, _) => CategoryIdIs(None)  // parseInt of an object is NaN
  }

  predicate HasCategoryId(item: Item, id: Option<int>)
  {
    id.Some? && item.category.Some? && item.category.value.id == id.value
  }

  function CategoryMatcher(id: Option<int>): Item -> bool
  {
    (x: Item) => HasCategoryId(x, id)
  }

  /** Stage 2. */
  function CategoryStage(items: seq<Item>, rule: CategoryRule): seq<Item>
  {
    match rule
    case AnyCategory => items
    case CategoryIdIs(id) => Filter(items, CategoryMatcher(id))
  }

  /** What the `priceRange` entry asks for: nothing (absent or ''), an
      inclusive range, or, for a non-empty string, a range whose bounds are
      undefined, which every comparison fails. */
  datatype PriceRule = AnyPrice | PriceBetween(min: int, max: int) | UndefinedBounds

  function PriceRuleOf(filters: Filters): PriceRule
  {
    if "priceRange" !in filters then AnyPrice
    else match filters["priceRange"]
      case RangeValue(min, max) => PriceBetween(min, max)
      case StringValue(s) => if s == "" then AnyPrice else UndefinedBounds
  }

  function PriceMatcher(min: int, max: int): Item -> bool
  {
    (x: Item) => min <= x.price <= max
  }

  /** Stage 3. */
  function PriceStage(items: seq<Item>, rule: PriceRule): seq<Item>
  {
    match rule
    case AnyPrice => items
    case PriceBetween(min, max) => Filter(items, PriceMatcher(min, max))
    case UndefinedBounds => []
  }

  /** The three filter stages, before any sort. */
  function Selection(items: seq<Item>, state: SearchState): seq<Item>
  {
    var searched := SearchStage(items, state.searchTerm);
    var categorised := CategoryStage(searched, CategoryRuleOf(state.filters));
    PriceStage(categorised, PriceRuleOf(state.filters))
  }

  /** Whether one item passes the text search. */
  predicate PassesSearch(term: string, item: Item)
  {
    term == "" || MatchesTerm(item, term)
  }

  /** Whether one item passes the category filter. */
  predicate PassesCategory(rule: CategoryRule, item: Item)
  {
    match rule
    case AnyCategory => true
    case CategoryIdIs(id) => HasCategoryId(item, id)
  }

  /** Whether one item passes the price filter. */
  predicate PassesPrice(rule: PriceRule, item: Item)
  {
    match rule
    case AnyPrice => true
    case PriceBetween(min, max) => min <= item.price <= max
    case UndefinedBounds => false
  }

  /** Whether one item passes all three stages: the independent reading of
      the pipeline. */
  predicate Selects(state: SearchState, item: Item)
  {
    && PassesSearch(state.searchTerm, item)
    && PassesCategory(CategoryRuleOf(state.filters), item)
    && PassesPrice(PriceRuleOf(state.filters), item)
  }

  function SearchTest(term: string): Item -> bool
  {
    (x: Item) => PassesSearch(term, x)
  }

  function CategoryTest(rule: CategoryRule): Item -> bool
  {
    (x: Item) => PassesCategory(rule, x)
  }

  function PriceTest(rule: PriceRule): Item -> bool
  {
    (x: Item) => PassesPrice(rule, x)
  }

  function SelectsTest(state: SearchState): Item -> bool
  {
    (x: Item) => Selects(state, x)
  }

  /** A sort runs only for a key that is neither null, '' nor 'default'. */
  predicate SortActive(config: SortConfig)
  {
    config.key.Some? && config.key.value != "" && config.key.value != "default"
  }

  /** The comparator, read as "a sorts before or together with b": by
      price, by title (localeCompare, here code-unit order), or, for any
      other key, ties throughout. */
  function Order(config: SortConfig): (Item, Item) -> bool
  {
    if config.key == Some("price") then
      (if config.direction == Asc then (a: Item, b: Item) => a.price <= b.price
       else (a: Item, b: Item) => b.price <= a.price)
    else if config.key == Some("title") then
      (if config.direction == Asc then (a: Item, b: Item) => LexLe(a.title, b.title)
       else (a: Item, b: Item) => LexLe(b.title, a.title))
    else
      (a: Item, b: Item) => true
  }

  /** filteredItems; `items` is None for a null list. */
  function FilteredItems(items: Option<seq<Item>>, state: SearchState): seq<Item>
  {
    if items.None? || |items.value| == 0 then []
    else
      var selected := Selection(items.value, state);
      if SortActive(state.sortConfig) then StableSort(selected, Order(state.sortConfig)) else selected
  }

  // ---------------------------------------------------------------------
  // Properties of the pipeline

  /** A null or empty list yields an empty result. */
  lemma EmptyInputYieldsEmpty(items: Option<seq<Item>>, state: SearchState)
    requires items.None? || items.value == []
    ensures FilteredItems(items, state) == []
  {
  }

  /** Each stage is one `filter` by its own test. */
  lemma SearchStageIsFilter(items: seq<Item>, term: string)
    ensures SearchStage(items, term) == Filter(items, SearchTest(term))
  {
    if term == "" {
      assert forall i :: 0 <= i < |items| ==> SearchTest(term)(items[i]);
    } else {
      FilterCongruent(items, TermMatcher(term), SearchTest(term));
    }
  }

  lemma CategoryStageIsFilter(items: seq<Item>, rule: CategoryRule)
    ensures CategoryStage(items, rule) == Filter(items, CategoryTest(rule))
  {
    match rule
    case AnyCategory =>
      assert forall i :: 0 <= i < |items| ==> CategoryTest(rule)(items[i]);
    case CategoryIdIs(id) =>
      FilterCongruent(items, CategoryMatcher(id), CategoryTest(rule));
  }

  lemma PriceStageIsFilter(items: seq<Item>, rule: PriceRule)
    ensures PriceStage(items, rule) == Filter(items, PriceTest(rule))
  {
    match rule
    case AnyPrice =>
      assert forall i :: 0 <= i < |items| ==> PriceTest(rule)(items[i]);
    case PriceBetween(min, max) =>
      FilterCongruent(items, PriceMatcher(min, max), PriceTest(rule));
    case UndefinedBounds =>
      FilterNone(items, PriceTest(rule));
  }

  /** The three stages together are one `filter` by `Selects`. */
  lemma SelectionIsFilter(items: seq<Item>, state: SearchState)
    ensures Selection(items, state) == Filter(items, SelectsTest(state))
  {
    var term, crule, prule := state.searchTerm, CategoryRuleOf(state.filters), PriceRuleOf(state.filters);
    var searched := SearchStage(items, term);
    var categorised := CategoryStage(searched, crule);
    SearchStageIsFilter(items, term);
    CategoryStageIsFilter(searched, crule);
    PriceStageIsFilter(categorised, prule);
    FilterFusion(items, SearchTest(term), CategoryTest(crule));
    var both := Both(SearchTest(term), CategoryTest(crule));
    FilterFusion(items, both, PriceTest(prule));
    FilterCongruent(items, Both(both, PriceTest(prule)), SelectsTest(state));
  }

  /** So the result keeps every copy of each accepted item, no copy of a
      rejected one, and the input order. */
  lemma SelectionIsOrderedSubset(items: seq<Item>, state: SearchState)
    ensures Selection(items, state) == Filter(items, SelectsTest(state))
    ensures forall x :: x in Selection(items, state) <==> x in items && Selects(state, x)
    ensures forall x :: multiset(Selection(items, state))[x] == if Selects(state, x) then multiset(items)[x] else 0
    ensures IsSubsequence(Selection(items, state), items)
  {
    SelectionIsFilter(items, state);
    FilterCounts(items, SelectsTest(state));
  }

  /** With no search term, no category (or 'all'), no price range and no
      sort key (or 'default'), the result is the input, in input order. */
  lemma NoCriteriaIsIdentity(items: seq<Item>, state: SearchState)
    requires state.searchTerm == ""
    requires "category" !in state.filters || state.filters["category"] == StringValue("all")
    requires "priceRange" !in state.filters
    requires state.sortConfig.key.None? || state.sortConfig.key == Some("default")
    ensures FilteredItems(Some(items), state) == items
  {
  }

  /** The result holds exactly the input items that pass every stage. */
  lemma FilteredItemsMembers(items: seq<Item>, state: SearchState)
    ensures forall x :: x in FilteredItems(Some(items), state) <==> x in items && Selects(state, x)
  {
    SelectionIsOrderedSubset(items, state);
    if |items| > 0 && SortActive(state.sortConfig) {
      var selected := Selection(items, state);
      var sorted := StableSort(selected, Order(state.sortConfig));
      assert forall x :: x in sorted <==> x in multiset(selected);
    }
  }

  /** A category other than 'all' keeps only items that have a category
      whose id is the parsed filter value; items without one are dropped. */
  lemma CategoryFilterSound(items: seq<Item>, state: SearchState, s: string)
    requires "category" in state.filters && state.filters["category"] == StringValue(s)
    requires s != "" && s != "all"
    ensures forall x :: x in FilteredItems(Some(items), state) ==>
      x.category.Some? && ParseInt(s) == Some(x.category.value.id)
  {
    FilteredItemsMembers(items, state);
  }

  /** Choosing a category in the select, whose option value is the rendered
      id, keeps exactly the matching items of that category. */
  lemma CategoryOptionSelectsThatCategory(items: seq<Item>, state: SearchState, id: int)
    requires "category" in state.filters && state.filters["category"] == StringValue(IntToString(id))
    ensures forall x :: x in FilteredItems(Some(items), state) <==>
      && x in items && x.category.Some? && x.category.value.id == id
      && (state.searchTerm == "" || MatchesTerm(x, state.searchTerm))
      && (match PriceRuleOf(state.filters)
          case AnyPrice => true
          case PriceBetween(min, max) => min <= x.price <= max
          case UndefinedBounds => false)
  {
    ParseIntOfIntToString(id);
    assert IntToString(id) != "" && IntToString(id) != "all" by {
      if id < 0 { assert IntToString(id)[1] != 'a'; } else { assert IsDigit(IntToString(id)[0]); }
    }
    FilteredItemsMembers(items, state);
  }

  /** A price range keeps only items priced within it, and an inverted
      range keeps nothing. */
  lemma PriceRangeSound(items: seq<Item>, state: SearchState, min: int, max: int)
    requires "priceRange" in state.filters && state.filters["priceRange"] == RangeValue(min, max)
    ensures forall x :: x in FilteredItems(Some(items), state) ==> min <= x.price <= max
    ensures min > max ==> FilteredItems(Some(items), state) == []
  {
    FilteredItemsMembers(items, state);
  }

  /** Without an active sort the result is the selection itself: an
      order-preserving subsequence of the input. */
  lemma UnsortedKeepsInputOrder(items: seq<Item>, state: SearchState)
    requires !SortActive(state.sortConfig)
    ensures IsSubsequence(FilteredItems(Some(items), state), items)
  {
    SelectionIsOrderedSubset(items, state);
  }

  lemma OrderIsTotalPreorder(config: SortConfig)
    ensures TotalPreorder(Order(config))
  {
    var le := Order(config);
    forall a: Item, b: Item ensures le(a, b) || le(b, a) {
      LexLeTotal(a.title, b.title);
    }
    forall a: Item, b: Item, c: Item | le(a, b) && le(b, c) ensures le(a, c) {
      if config.key == Some("title") {
        if config.direction == Asc {
          LexLeTransitive(a.title, b.title, c.title);
        } else {
          LexLeTransitive(c.title, b.title, a.title);
        }
      }
    }
  }

  /** With an active sort the result is a permutation of the selection,
      ordered by the comparator, and items the comparator ties keep their
      relative order. */
  lemma SortedResult(items: seq<Item>, state: SearchState, v: Item)
    requires SortActive(state.sortConfig)
    ensures var r, le := FilteredItems(Some(items), state), Order(state.sortConfig);
      && multiset(r) == multiset(Selection(items, state))
      && Sorted(r, le)
      && SameRank(r, v, le) == SameRank(Selection(items, state), v, le)
  {
    SelectionIsOrderedSubset(items, state);
    OrderIsTotalPreorder(state.sortConfig);
    SortSorted(Selection(items, state), Order(state.sortConfig));
    SortStable(Selection(items, state), v, Order(state.sortConfig));
  }

  /** Sorting by price: non-decreasing for 'asc', non-increasing otherwise. */
  lemma PriceSortOrdersPrices(items: seq<Item>, state: SearchState)
    requires state.sortConfig.key == Some("price")
    ensures var r := FilteredItems(Some(items), state);
      forall i, j :: 0 <= i < j < |r| ==>
        if state.sortConfig.direction == Asc then r[i].price <= r[j].price else r[i].price >= r[j].price
  {
    SelectionIsOrderedSubset(items, state);
    OrderIsTotalPreorder(state.sortConfig);
    SortSorted(Selection(items, state), Order(state.sortConfig));
  }

  // ---------------------------------------------------------------------
  // Properties of the transitions

  /** updateSort always installs the key; the direction becomes 'desc'
      exactly when that key was already sorted ascending. */
  lemma UpdateSortSpec(state: SearchState, key: string)
    ensures var r := UpdateSort(state, key);
      && r.sortConfig.key == Some(key)
      && (r.sortConfig.direction == Desc <==>
            state.sortConfig.key == Some(key) && state.sortConfig.direction == Asc)
      && r.searchTerm == state.searchTerm && r.filters == state.filters
  {
  }

  /** Choosing the same key again flips the direction each time. */
  lemma UpdateSortSameKeyToggles(state: SearchState, key: string)
    ensures var once := UpdateSort(state, key);
      UpdateSort(once, key).sortConfig.direction != once.sortConfig.direction
  {
  }

  /** updateFilter changes entry `key` and no other. */
  /** setSearchTerm(term) stores the term and leaves the filters and the
      sort configuration as they were. */
  lemma SetSearchTermChangesOnlyTerm(state: SearchState, term: string)
    ensures var r := SetSearchTerm(state, term);
      && r.searchTerm == term
      && r.filters == state.filters && r.sortConfig == state.sortConfig
  {
  }

  lemma UpdateFilterChangesOnlyKey(state: SearchState, key: string, value: FilterValue)
    ensures var r := UpdateFilter(state, key, value);
      && key in r.filters && r.filters[key] == value
      && (forall k :: k != key ==> (k in r.filters <==> k in state.filters))
      && (forall k :: k != key && k in state.filters ==> r.filters[k] == state.filters[k])
      && r.searchTerm == state.searchTerm && r.sortConfig == state.sortConfig
  {
  }

  /** resetFilters restores the initial filters and an empty term, and
      clears the sort; the result then filters nothing by text. */
  lemma ResetRestoresInitial(state: SearchState, options: Options)
    ensures var r := ResetFilters(state, options);
      && r.filters == Init(options).filters
      && r.searchTerm == Init(options).searchTerm == ""
      && r.sortConfig == DefaultSort && !SortActive(r.sortConfig)
  {
  }
}
