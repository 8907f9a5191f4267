/** The marketplace home page: it loads the marketplace cards as its
    featured list, and runs the search bar's query and filters through a
    staged filter over the marketplace cards. */
module MarketplacePage {
  import opened Wrappers
  import opened Seqs
  import opened Strings
  import opened MockData
  import opened SearchBar

  // ---------------------------------------------------------------- stages

  function TextStage(query: string): Card -> bool
  {
    (c: Card) => MatchesQuery(c, query)
  }

  function RarityStage(rarity: seq<string>): Card -> bool
  {
    (c: Card) => c.rarity.Label() in rarity
  }

  function ConditionStage(condition: seq<string>): Card -> bool
  {
    (c: Card) => c.condition.Label() in condition
  }

  function ForTradeStage(): Card -> bool
  {
    (c: Card) => c.isForTrade
  }

  /** A card passes every stage the query and the filters switch on: a
      non-blank query (tested untrimmed), a non-empty rarity or condition
      list, the for-trade flag. The price range switches nothing on. */
  predicate Passes(c: Card, query: string, f: SearchFilters)
  {
    (Trim(query) != [] ==> MatchesQuery(c, query))
    && (|f.rarity| > 0 ==> c.rarity.Label() in f.rarity)
    && (|f.condition| > 0 ==> c.condition.Label() in f.condition)
    && (f.forTradeOnly ==> c.isForTrade)
  }

  function PassesAll(query: string, f: SearchFilters): Card -> bool
  {
    (c: Card) => Passes(c, query, f)
  }

  /** What a search shows: the marketplace cards that pass, in catalogue
      order. */
  function SearchResults(catalogue: seq<Card>, query: string, f: SearchFilters): (r: seq<Card>)
    ensures IsSubsequence(r, MarketplaceCards(catalogue))
    ensures forall c :: c in r <==> c in catalogue && c.isForTrade && Passes(c, query, f)
  {
    var m := MarketplaceCards(catalogue);
    FilterIsSubsequence(m, PassesAll(query, f));
    Filter(m, PassesAll(query, f))
  }

  /** A card passes the first `n` stages, in the order the page runs them. */
  predicate PassesFirst(n: nat, c: Card, query: string, f: SearchFilters)
  {
    (n >= 1 && Trim(query) != [] ==> MatchesQuery(c, query))
    && (n >= 2 && |f.rarity| > 0 ==> c.rarity.Label() in f.rarity)
    && (n >= 3 && |f.condition| > 0 ==> c.condition.Label() in f.condition)
    && (n >= 4 && f.forTradeOnly ==> c.isForTrade)
  }

  function FirstStages(n: nat, query: string, f: SearchFilters): Card -> bool
  {
    (c: Card) => PassesFirst(n, c, query, f)
  }

  /** Whether stage `n` (0 to 3) is switched on. */
  predicate StageOn(n: nat, query: string, f: SearchFilters)
  {
    if n == 0 then Trim(query) != []
    else if n == 1 then |f.rarity| > 0
    else if n == 2 then |f.condition| > 0
    else f.forTradeOnly
  }

  /** The filter of stage `n` (0 to 3). */
  function Stage(n: nat, query: string, f: SearchFilters): Card -> bool
  {
    if n == 0 then TextStage(query)
    else if n == 1 then RarityStage(f.rarity)
    else if n == 2 then ConditionStage(f.condition)
    else ForTradeStage()
  }

  /** The list after the first `n` stages, each applied only when it is
      switched on, as the page runs them one after the other. */
  function Staged(m: seq<Card>, n: nat, query: string, f: SearchFilters): seq<Card>
  {
    if n == 0 then m
    else
      var before := Staged(m, n - 1, query, f);
      if StageOn(n - 1, query, f) then Filter(before, Stage(n - 1, query, f)) else before
  }

  /** Running the first `n` stages one after the other is one filter by
      their conjunction. */
  lemma {:induction false} StagedIsOneFilter(m: seq<Card>, n: nat, query: string, f: SearchFilters)
    requires n <= 4
    ensures Staged(m, n, query, f) == Filter(m, FirstStages(n, query, f))
  {
    if n == 0 {
      FilterKeepsAll(m, FirstStages(0, query, f));
    } else {
      StagedIsOneFilter(m, n - 1, query, f);
      StageStep(m, n - 1, query, f, Staged(m, n - 1, query, f));
    }
  }

  /** One stage: the cards that passed the first `n` stages and then stage
      `n`, when it is on, are the cards that pass the first `n + 1`. */
  lemma StageStep(m: seq<Card>, n: nat, query: string, f: SearchFilters, before: seq<Card>)
    requires n < 4 && before == Filter(m, FirstStages(n, query, f))
    ensures StageOn(n, query, f) ==> Filter(before, Stage(n, query, f)) == Filter(m, FirstStages(n + 1, query, f))
    ensures !StageOn(n, query, f) ==> before == Filter(m, FirstStages(n + 1, query, f))
  {
    if StageOn(n, query, f) {
      FilterFilter(m, FirstStages(n, query, f), Stage(n, query, f), FirstStages(n + 1, query, f));
    } else {
      FilterCongruent(m, FirstStages(n, query, f), FirstStages(n + 1, query, f));
    }
  }

  /** Passing all four stages is passing the search. */
  lemma AllStagesAreSearch(catalogue: seq<Card>, query: string, f: SearchFilters)
    ensures Filter(MarketplaceCards(catalogue), FirstStages(4, query, f)) == SearchResults(catalogue, query, f)
  {
    FilterCongruent(MarketplaceCards(catalogue), FirstStages(4, query, f), PassesAll(query, f));
  }

  // ---------------------------------------------------------------- properties

  /** The price range never changes the results. */
  lemma PriceRangeIgnored(catalogue: seq<Card>, query: string, f: SearchFilters, pr: Option<PriceRange>)
    ensures SearchResults(catalogue, query, f.(priceRange := pr)) == SearchResults(catalogue, query, f)
  {
    FilterCongruent(MarketplaceCards(catalogue), PassesAll(query, f.(priceRange := pr)), PassesAll(query, f));
  }

  /** A blank or whitespace-only query applies no text filter: it gives what
      the empty query gives. */
  lemma BlankQueryIgnored(catalogue: seq<Card>, query: string, f: SearchFilters)
    requires IsBlank(query)
    ensures SearchResults(catalogue, query, f) == SearchResults(catalogue, "", f)
  {
    TrimEmptyIffBlank(query);
    TrimEmptyIffBlank("");
    FilterCongruent(MarketplaceCards(catalogue), PassesAll(query, f), PassesAll("", f));
  }

  /** With no filter switched on, a blank query shows every marketplace
      card. */
  lemma NoFilterShowsMarketplace(catalogue: seq<Card>, query: string)
    requires IsBlank(query)
    ensures SearchResults(catalogue, query, InitialFilters) == MarketplaceCards(catalogue)
  {
    TrimEmptyIffBlank(query);
    FilterKeepsAll(MarketplaceCards(catalogue), PassesAll(query, InitialFilters));
  }

  /** With no filter switched on, a non-blank query gives what the API's
      `searchCards` gives on the marketplace cards. */
  lemma QueryOnlyIsApiSearch(catalogue: seq<Card>, query: string)
    requires !IsBlank(query)
    ensures SearchResults(catalogue, query, InitialFilters) == SearchCards(MarketplaceCards(catalogue), query)
  {
    TrimEmptyIffBlank(query);
    FilterCongruent(MarketplaceCards(catalogue), PassesAll(query, InitialFilters), (c: Card) => MatchesQuery(c, query));
  }

  /** The marketplace cards are all for trade, so the for-trade flag never
      changes the results. */
  lemma ForTradeFlagRedundant(catalogue: seq<Card>, query: string, f: SearchFilters)
    ensures SearchResults(catalogue, query, f.(forTradeOnly := true)) == SearchResults(catalogue, query, f.(forTradeOnly := false))
  {
    FilterCongruent(MarketplaceCards(catalogue), PassesAll(query, f.(forTradeOnly := true)), PassesAll(query, f.(forTradeOnly := false)));
  }

  /** Adding a value to a non-empty rarity list never loses a result. */
  lemma WiderRarityKeepsResults(catalogue: seq<Card>, query: string, f: SearchFilters, v: string, c: Card)
    requires |f.rarity| > 0 && c in SearchResults(catalogue, query, f)
    ensures c in SearchResults(catalogue, query, f.(rarity := f.rarity + [v]))
  {
  }

  // ---------------------------------------------------------------- page

  /** The page's state. */
  class MarketplaceHub {
    var featuredCards: seq<Card>
    var searchResults: seq<Card>
    var isLoading: bool
    var searchQuery: string
    var isSearching: bool

    constructor ()
      ensures featuredCards == [] && searchResults == [] && isLoading
      ensures searchQuery == "" && !isSearching
    {
      featuredCards, searchResults := [], [];
      isLoading := true;
      searchQuery := "";
      isSearching := false;
    }

    /** `loadFeaturedCards`: both lists become the marketplace cards and
        loading ends. */
    method LoadFeaturedCards(catalogue: seq<Card>)
      modifies this
      ensures featuredCards == MarketplaceCards(catalogue) && searchResults == featuredCards
      ensures !isLoading
      ensures searchQuery == old(searchQuery) && isSearching == old(isSearching)
    {
      var cards := MarketplaceCards(catalogue);
      featuredCards := cards;
      searchResults := cards;
      isLoading := false;
    }

    /** `handleSearch`: the page is marked searching and the query recorded;
        `results` starts as the marketplace cards and each switched-on stage
        filters it again; the outcome, which is the single filter
        `SearchResults` describes, is stored and the searching mark cleared. */
    method HandleSearch(catalogue: seq<Card>, query: string, filters: SearchFilters)
      modifies this
      ensures searchQuery == query && !isSearching
      ensures searchResults == SearchResults(catalogue, query, filters)
      ensures featuredCards == old(featuredCards) && isLoading == old(isLoading)
    {
      isSearching := true;
      searchQuery := query;
      var m := MarketplaceCards(catalogue);
      var results := m;

      if Trim(query) != [] {
        results := Filter(results, TextStage(query));
      }
      assert results == Staged(m, 1, query, filters);

      if |filters.rarity| > 0 {
        results := Filter(results, RarityStage(filters.rarity));
      }
      assert results == Staged(m, 2, query, filters);

      if |filters.condition| > 0 {
        results := Filter(results, ConditionStage(filters.condition));
      }
      assert results == Staged(m, 3, query, filters);

      if filters.forTradeOnly {
        results := Filter(results, ForTradeStage());
      }
      assert results == Staged(m, 4, query, filters);
      StagedIsOneFilter(m, 4, query, filters);
      AllStagesAreSearch(catalogue, query, filters);
      searchResults := results;
      isSearching := false;
    }

    /** `displayCards`: the search results once a query has been searched,
        the featured cards before. */
    function DisplayCards(): (r: seq<Card>)
      reads this
      ensures searchQuery != "" ==> r == searchResults
      ensures searchQuery == "" ==> r == featuredCards
    {
      if searchQuery != "" then searchResults else featuredCards
    }
  }
}
