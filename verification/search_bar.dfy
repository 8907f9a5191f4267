/** The search bar's state: the query text and the filters (rarity and
    condition lists, an optional price range, a for-trade-only flag). Every
    filter change, and every explicit search, hands the query and the
    filters to `onSearch`. */
module SearchBar {
  import opened Wrappers
  import opened Seqs

  datatype PriceRange = PriceRange(min: real, max: real)

  datatype SearchFilters = SearchFilters(
    rarity: seq<string>,
    priceRange: Option<PriceRange>,
    condition: seq<string>,
    forTradeOnly: bool)

  /** The filters the bar starts with, and the ones Clear All restores. */
  const InitialFilters := SearchFilters([], None, [], false)

  // ---------------------------------------------------------------- lists

  function Other(v: string): string -> bool
  {
    (x: string) => x != v
  }

  /** The new list of `toggleArrayFilter`: every occurrence of a present
      value is removed, an absent value is appended. */
  function Toggle(list: seq<string>, v: string): (r: seq<string>)
    ensures v !in list ==> r == list + [v]
    ensures v in list ==> v !in r && IsSubsequence(r, list) && forall x :: x in r <==> x in list && x != v
  {
    if v in list then
      FilterIsSubsequence(list, Other(v));
      Filter(list, Other(v))
    else list + [v]
  }

  /** Removing every `v` takes exactly the occurrences of `v` out of the
      list's multiset. */
  lemma {:induction false} RemoveAllCount(list: seq<string>, v: string)
    ensures multiset(Filter(list, Other(v))) == multiset(list)[v := 0]
  {
    if list != [] {
      RemoveAllCount(list[1..], v);
      assert list == [list[0]] + list[1..];
      assert multiset(list) == multiset{list[0]} + multiset(list[1..]);
    }
  }

  /** How a toggle changes the list's length, which is its share of the
      active-filter count. */
  lemma ToggleLength(list: seq<string>, v: string)
    ensures v !in list ==> |Toggle(list, v)| == |list| + 1
    ensures v in list ==> |Toggle(list, v)| == |list| - multiset(list)[v]
  {
    if v in list {
      RemoveAllCount(list, v);
      assert |multiset(list)| == |multiset(list)[v := 0]| + multiset(list)[v];
    }
  }

  /** Every value occurs at most once. */
  ghost predicate Distinct(list: seq<string>)
  {
    forall x :: multiset(list)[x] <= 1
  }

  /** Toggles from the empty list keep values distinct. */
  lemma ToggleKeepsDistinct(list: seq<string>, v: string)
    requires Distinct(list)
    ensures Distinct(Toggle(list, v))
  {
    if v in list {
      RemoveAllCount(list, v);
    }
  }

  /** Toggling an absent value twice restores the list exactly. */
  lemma ToggleTwiceAbsent(list: seq<string>, v: string)
    requires v !in list
    ensures Toggle(Toggle(list, v), v) == list
  {
    var once := list + [v];
    assert v in once by {
      assert once[|list|] == v;
    }
    FilterAppend(list, [v], Other(v));
    forall x | x in list ensures Other(v)(x) {
    }
    FilterKeepsAll(list, Other(v));
    assert Filter([v], Other(v)) == [];
  }

  /** Toggling a present value twice moves it to the end: in a list of
      distinct values the contents and the length come back. */
  lemma ToggleTwicePresent(list: seq<string>, v: string)
    requires Distinct(list) && v in list
    ensures multiset(Toggle(Toggle(list, v), v)) == multiset(list)
    ensures |Toggle(Toggle(list, v), v)| == |list|
  {
    RemoveAllCount(list, v);
    var once := Toggle(list, v);
    assert multiset(once + [v]) == multiset(once) + multiset{v};
    assert multiset(list)[v] == 1;
    assert multiset(list) == multiset(list)[v := 0] + multiset{v};
  }

  // ---------------------------------------------------------------- changes

  /** A `handleFilterChange` call: the key it names and the new value. */
  datatype FilterChange =
    | SetRarity(rarity: seq<string>)
    | SetPriceRange(priceRange: Option<PriceRange>)
    | SetCondition(condition: seq<string>)
    | SetForTradeOnly(forTradeOnly: bool)

  /** `{ ...filters, [key]: value }`. */
  function WithChange(f: SearchFilters, ch: FilterChange): (r: SearchFilters)
    ensures ch.SetRarity? ==> r.rarity == ch.rarity
    ensures ch.SetPriceRange? ==> r.priceRange == ch.priceRange
    ensures ch.SetCondition? ==> r.condition == ch.condition
    ensures ch.SetForTradeOnly? ==> r.forTradeOnly == ch.forTradeOnly
    ensures !ch.SetRarity? ==> r.rarity == f.rarity
    ensures !ch.SetPriceRange? ==> r.priceRange == f.priceRange
    ensures !ch.SetCondition? ==> r.condition == f.condition
    ensures !ch.SetForTradeOnly? ==> r.forTradeOnly == f.forTradeOnly
  {
    match ch
    case SetRarity(v) => f.(rarity := v)
    case SetPriceRange(v) => f.(priceRange := v)
    case SetCondition(v) => f.(condition := v)
    case SetForTradeOnly(v) => f.(forTradeOnly := v)
  }

  /** The two list-valued filters. */
  datatype ListKey = RarityKey | ConditionKey

  /** The change `toggleArrayFilter(key, value)` makes. */
  function ToggleChange(f: SearchFilters, key: ListKey, v: string): FilterChange
  {
    match key
    case RarityKey => SetRarity(Toggle(f.rarity, v))
    case ConditionKey => SetCondition(Toggle(f.condition, v))
  }

  /** The list a key names. */
  function ListOf(f: SearchFilters, key: ListKey): seq<string>
  {
    match key
    case RarityKey => f.rarity
    case ConditionKey => f.condition
  }

  /** The filters after `toggleArrayFilter(key, value)`. */
  function ToggleFilter(f: SearchFilters, key: ListKey, v: string): SearchFilters
  {
    WithChange(f, ToggleChange(f, key, v))
  }

  // ---------------------------------------------------------------- count

  /** `activeFiltersCount`: one per listed rarity and condition, one for a
      price range, one for the for-trade flag. */
  function ActiveCount(f: SearchFilters): (r: nat)
    ensures r >= |f.rarity| + |f.condition|
    ensures r == 0 <==> f == InitialFilters
  {
    |f.rarity| + |f.condition| + (if f.priceRange.Some? then 1 else 0) + (if f.forTradeOnly then 1 else 0)
  }

  /** Clear All is offered exactly when some filter differs from its
      initial value. */
  predicate ClearAllShown(f: SearchFilters)
  {
    ActiveCount(f) > 0
  }

  lemma ClearAllShownIffChanged(f: SearchFilters)
    ensures ClearAllShown(f) <==> f != InitialFilters
  {
  }

  /** Toggling a listed value twice gives the filters back when the value
      was absent, and gives the count back when the list holds distinct
      values, as it does when built by toggles alone. */
  lemma ToggleTwiceKeepsCount(f: SearchFilters, key: ListKey, v: string)
    requires Distinct(ListOf(f, key))
    ensures v !in ListOf(f, key) ==> ToggleFilter(ToggleFilter(f, key, v), key, v) == f
    ensures ActiveCount(ToggleFilter(ToggleFilter(f, key, v), key, v)) == ActiveCount(f)
  {
    if v in ListOf(f, key) {
      ToggleTwicePresent(ListOf(f, key), v);
    } else {
      ToggleTwiceAbsent(ListOf(f, key), v);
    }
  }

  // ---------------------------------------------------------------- state

  /** The bar's state. Each handler returns the arguments it hands to
      `onSearch`. */
  class SearchControls {
    var query: string
    var filters: SearchFilters

    /** The lists are built by toggles, so their values are distinct. */
    ghost predicate Valid()
      reads this
    {
      Distinct(filters.rarity) && Distinct(filters.condition)
    }

    constructor ()
      ensures Valid()
      ensures query == "" && filters == InitialFilters && ActiveCount(filters) == 0
    {
      query := "";
      filters := InitialFilters;
    }

    /** Typing in the input changes the query only; nothing is sent. */
    method SetQuery(q: string)
      modifies this
      ensures query == q && filters == old(filters)
    {
      query := q;
    }

    /** `handleSearch`: the current query and filters are sent unchanged. */
    method HandleSearch() returns (sentQuery: string, sentFilters: SearchFilters)
      ensures sentQuery == query && sentFilters == filters
    {
      sentQuery, sentFilters := query, filters;
    }

    /** `handleFilterChange`: one key is replaced, the query is kept, and the
        new filters are what is sent. */
    method HandleFilterChange(ch: FilterChange) returns (sentQuery: string, sentFilters: SearchFilters)
      modifies this
      ensures filters == WithChange(old(filters), ch) && query == old(query)
      ensures sentQuery == query && sentFilters == filters
    {
      filters := WithChange(filters, ch);
      sentQuery, sentFilters := query, filters;
    }

    /** `toggleArrayFilter`. */
    method ToggleArrayFilter(key: ListKey, v: string) returns (sentQuery: string, sentFilters: SearchFilters)
      requires Valid()
      modifies this
      ensures Valid()
      ensures filters == ToggleFilter(old(filters), key, v) && query == old(query)
      ensures sentQuery == query && sentFilters == filters
    {
      ToggleKeepsDistinct(filters.rarity, v);
      ToggleKeepsDistinct(filters.condition, v);
      sentQuery, sentFilters := HandleFilterChange(ToggleChange(filters, key, v));
    }

    /** `clearFilters`: every filter back to its initial value, the query
        kept. */
    method ClearFilters() returns (sentQuery: string, sentFilters: SearchFilters)
      modifies this
      ensures Valid()
      ensures filters == InitialFilters && ActiveCount(filters) == 0 && query == old(query)
      ensures sentQuery == query && sentFilters == filters
    {
      filters := InitialFilters;
      sentQuery, sentFilters := query, filters;
    }
  }
}
