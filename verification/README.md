# PokéTrade rules in Dafny

PokéTrade is a card-trading marketplace front end with no backend. Its
simulated API runs over constant arrays of cards, users and trades. Most of
its code is rendering. This project models the rules under that rendering
and proves properties about them:

- **trade-offer dialog:** the selection toggle, the offer's value and its
  10% fairness test, and the submit handler;
- **trade-status card:** the card lists a trade names, its value totals, the
  escrow progress bar and text, the status colours, and which of accept,
  decline and cancel the viewer is offered;
- **simulated API:** the marketplace list, lookup by id, case-insensitive
  search, trade creation, and the current user's collection;
- **search bar:** toggling rarities and conditions, the active-filter count,
  and clearing the filters;
- **marketplace page:** the search pipeline, which filters the marketplace
  cards stage by stage, and the choice of the list it displays;
- **collection grid:** its sort (insertion sort on a fresh array, proved
  sorted and a permutation), its total value, and the drag state;
- **collection page:** the rarity histogram (a loop over a map), the
  top-three list, and the action handlers;
- **navigation:** route highlighting and the mobile menu;
- **trader profile:** the star split of a rating and the trust badges.

Modules:

- `Wrappers`: Option and Result.
- `Seqs`: filter, find, take and subsequence, with their lemmas.
- `Strings`: ASCII lower case, substring search, ECMAScript trim, ordinal
  comparison and decimal rendering.
- One module per source component:
  - `MockData`
  - `TradeModal`
  - `TradeStatus`
  - `SearchBar`
  - `MarketplacePage`
  - `CollectionGrid`
  - `CollectionPage`
  - `Navigation`
  - `UserProfile`

Components that keep state become classes whose methods update their
fields:

- `TradeModal.OfferDialog`
- `SearchBar.SearchControls`
- `MarketplacePage.MarketplaceHub`
- `CollectionGrid.Grid`
- `CollectionPage.CollectionScreen`
- `Navigation.NavMenu`

The module-level constant arrays of the API become parameters, so every
property holds for any catalogue. The seed data is also given as
`MockCards`, `MockUsers` and `MockTrades`, with a few lemmas about it.

## Model

| member | source | states |
|---|---|---|
| Seqs.Filter | src/lib/mock-data.ts:189 | `Array.prototype.filter`: keeps exactly the elements that pass, never more than the input |
| Seqs.FilterIsSubsequence | src/app/page.tsx:48-69 | a filter keeps the relative order of what it keeps |
| Seqs.FilterFilter | src/app/page.tsx:51-69 | filtering twice is filtering once by the conjunction |
| Seqs.Find | src/lib/mock-data.ts:198 | `Array.prototype.find`: none when nothing passes, else the first element that passes |
| Seqs.Take | src/lib/mock-data.ts:268 | `slice(0, n)`: the first min(n, length) elements, in order |
| Strings.Lower | src/lib/mock-data.ts:257-258 | lower casing keeps the length and maps each character (ASCII letters only) |
| Strings.LowerIdempotent | src/lib/mock-data.ts:257-258 | lower casing twice is lower casing once |
| Strings.IncludesSound | src/lib/mock-data.ts:257-258 | `includes` finds an occurrence at some position |
| Strings.Includes | src/lib/mock-data.ts:257-258 | a string includes only substrings no longer than itself, and the empty string includes only the empty string |
| Strings.IncludesComplete | src/lib/mock-data.ts:257-258 | an occurrence at any position makes `includes` true |
| Strings.IncludesEmpty | src/lib/mock-data.ts:257-258 | every string includes the empty string |
| Strings.TrimStartSpec | src/app/page.tsx:51 | trimming the start drops a whitespace-only prefix and stops at a non-space |
| Strings.TrimEndSpec | src/app/page.tsx:51 | trimming the end drops a whitespace-only suffix and stops at a non-space |
| Strings.TrimEmptyIffBlank | src/app/page.tsx:51 | `query.trim()` is empty exactly when the query is blank |
| Strings.Trim | src/app/page.tsx:51 | `trim()` gives a contiguous piece of the string that neither starts nor ends with whitespace |
| Strings.StrCompare | src/components/pokemon/CollectionGrid.tsx:42 | the comparison result is -1, 0 or 1 |
| Strings.StrCompareAntisymmetric | src/components/pokemon/CollectionGrid.tsx:42 | swapping the arguments negates the result; 0 exactly for equal strings |
| Strings.StrCompareTransitive | src/components/pokemon/CollectionGrid.tsx:50 | the comparison is transitive |
| Strings.DecimalString | src/lib/mock-data.ts:218 | `Date.now()` rendered in decimal: only digits, at least one |
| Strings.DecimalStringInjective | src/lib/mock-data.ts:218 | different timestamps render differently |
| MockData.TotalValue | src/lib/mock-data.ts:270 | the `reduce` sum of trade values: 0 for no card, the card's value for one card, non-negative when every value is |
| MockData.TotalValueAppend | src/lib/mock-data.ts:270 | the value sum of a concatenation is the sum of the parts |
| MockData.TotalValueNonNegative | src/lib/mock-data.ts:270 | with non-negative values the sum is non-negative, and 0 exactly when every value is 0 |
| MockData.TotalValueSplit | src/components/pokemon/TradeStatus.tsx:297-299 | the cards that pass a test and those that fail it add up to the whole |
| MockData.MarketplaceCards | src/lib/mock-data.ts:186-192 | `getMarketplaceCards`: exactly the cards for trade, in catalogue order |
| MockData.CardById | src/lib/mock-data.ts:195-201 | `getCardById`: null when no card has the id, else the first card that has it |
| MockData.UserById | src/lib/mock-data.ts:204-210 | `getUserById`: null when no user has the id, else the first user that has it |
| MockData.CreateTrade | src/lib/mock-data.ts:213-224 | `createTrade`: the id starts with `trade_` and the creation time is the given one |
| MockData.CreateTradeKeepsDraft | src/lib/mock-data.ts:216-220 | every field of the request is copied unchanged |
| MockData.CreateTradeDistinctIds | src/lib/mock-data.ts:218 | trades created at different milliseconds get different ids |
| MockData.SearchCards | src/lib/mock-data.ts:253-263 | `searchCards`: exactly the cards whose name or series matches, in order |
| MockData.MatchesQueryIff | src/lib/mock-data.ts:256-259 | a card matches exactly when the lowered query occurs in its lowered name or series |
| MockData.MatchesQuery | src/lib/mock-data.ts:256-259 | a match needs the query to be no longer than the name or the series, and the empty query matches every card |
| MockData.SearchEmptyQuery | src/lib/mock-data.ts:256-259 | the empty query returns every card |
| MockData.MyCollectionOf | src/lib/mock-data.ts:267-271 | `myCollection`: the first three cards, exactly the pending trades in order, and the cards' value sum |
| MockData.MyCollectionSeed | src/lib/mock-data.ts:268-270 | on the seed data the collection is worth 192 and its one trade is active |
| MockData.MarketplaceSeed | src/lib/mock-data.ts:189 | five seed cards are on the marketplace; card 3, not for trade, is not |
| TradeModal.ToggleCard | src/components/pokemon/TradeModal.tsx:34-40 | an absent id is appended and the rest kept; a present id is removed everywhere and the rest kept in order |
| TradeModal.UniqueIdsCons | src/components/pokemon/TradeModal.tsx:34-40 | a list has unique ids exactly when its head's id is new and its tail has unique ids |
| TradeModal.FilterKeepsUniqueIds | src/components/pokemon/TradeModal.tsx:37 | removing cards keeps ids unique |
| TradeModal.ToggleKeepsUniqueIds | src/components/pokemon/TradeModal.tsx:30-40 | toggles keep the ids of the selection unique |
| TradeModal.ToggleTwiceAbsent | src/components/pokemon/TradeModal.tsx:34-40 | toggling an absent card twice restores the selection |
| TradeModal.ToggleTwicePresent | src/components/pokemon/TradeModal.tsx:34-40 | toggling a selected card twice keeps the selection's contents and length, and the card moves to the end after the other cards in their order |
| TradeModal.RemoveUniqueId | src/components/pokemon/TradeModal.tsx:37 | in a selection with unique ids, removing a card's id removes exactly that card |
| TradeModal.Abs | src/components/pokemon/TradeModal.tsx:45 | `Math.abs` of an integer |
| TradeModal.IsFairMeansWithinTenPercent | src/components/pokemon/TradeModal.tsx:43-45 | the integer test equals "difference at most a tenth of the target", read on the reals |
| TradeModal.FairAgainstZeroTarget | src/components/pokemon/TradeModal.tsx:43-45 | with non-negative values, an offer against a target worth 0 is fair only when every offered card is worth 0 |
| TradeModal.SelectedValue | src/components/pokemon/TradeModal.tsx:42 | the offer's value: 0 for no card, the card's value for one card, non-negative when every value is |
| TradeModal.IsFair | src/components/pokemon/TradeModal.tsx:43-45 | fair exactly when the offer lies between 90% and 110% of the target's value; never fair against a negative target |
| TradeModal.SubmitEnabled | src/components/pokemon/TradeModal.tsx:191 | the submit button is disabled while submitting, and otherwise enabled exactly when some card is selected |
| TradeModal.FairnessBanner | src/components/pokemon/TradeModal.tsx:129-141 | the banner is "fair" exactly when the offer is fair; otherwise it shows the absolute difference and says "you offer more" exactly when the offer exceeds the target |
| TradeModal.ToggleValue | src/components/pokemon/TradeModal.tsx:42 | toggling a card adds its value when it was absent and subtracts it when it was selected |
| TradeModal.SameIdIsOnly | src/components/pokemon/TradeModal.tsx:36 | in a selection with unique ids, the only card with a selected card's id is that card |
| TradeModal.OfferDialog.constructor | src/components/pokemon/TradeModal.tsx:30-32 | the dialog opens with no selection, no message, not submitting |
| TradeModal.OfferDialog.ToggleCardSelection | src/components/pokemon/TradeModal.tsx:34-40 | the selection becomes its toggle; the message and flag are kept; ids stay unique |
| TradeModal.OfferDialog.SetTradeMessage | src/components/pokemon/TradeModal.tsx:31 | only the message changes |
| TradeModal.OfferDialog.HandleSubmit | src/components/pokemon/TradeModal.tsx:47-61 | an offer is submitted exactly when the submit button is enabled; an empty selection changes nothing; otherwise the offer is submitted, a success closes the dialog and clears selection and message, a failure keeps them, and the flag ends false |
| TradeModal.SeedOffers | src/components/pokemon/TradeModal.tsx:43-45 | against Charizard (85), Pikachu with Rayquaza (72) is unfair and Umbreon with Leafeon (79) is fair |
| TradeStatus.ResolveCards | src/components/pokemon/TradeStatus.tsx:38-39 | the cards a trade names are the catalogue cards whose id it lists, in catalogue order |
| TradeStatus.FromCards | src/components/pokemon/TradeStatus.tsx:38 | the "Offering" list: exactly the catalogue cards whose id the trade offers, in catalogue order |
| TradeStatus.ToCards | src/components/pokemon/TradeStatus.tsx:39 | the "Requesting" list: exactly the catalogue cards whose id the trade requests, in catalogue order |
| TradeStatus.ResolvedValueBounded | src/components/pokemon/TradeStatus.tsx:297-299 | with non-negative values, each side's total lies between 0 and the catalogue's total |
| TradeStatus.NonNegativeFilter | src/components/pokemon/TradeStatus.tsx:38-39 | resolving keeps values non-negative |
| TradeStatus.ResolveNoIds | src/components/pokemon/TradeStatus.tsx:38-39 | a side naming no card is empty and worth 0 |
| TradeStatus.ResolveAbsentId | src/components/pokemon/TradeStatus.tsx:38 | an id no card carries resolves to nothing |
| TradeStatus.ResolveUniqueId | src/components/pokemon/TradeStatus.tsx:38 | an id exactly one card carries resolves to that card alone |
| TradeStatus.SeedTradeOffers | src/components/pokemon/TradeStatus.tsx:38 | the seed trade offers Charizard, worth 85 |
| TradeStatus.SeedTradeRequests | src/components/pokemon/TradeStatus.tsx:39 | the seed trade requests Pikachu, worth 42 |
| TradeStatus.StatusColor | src/components/pokemon/TradeStatus.tsx:61-75 | red exactly for declined and cancelled, yellow exactly for pending |
| TradeStatus.StatusColorShared | src/components/pokemon/TradeStatus.tsx:61-75 | two statuses share a colour exactly when equal or both declined/cancelled |
| TradeStatus.StatusIcon | src/components/pokemon/TradeStatus.tsx:44-59 | a check mark exactly for accepted and completed; a cross exactly when the icon is red |
| TradeStatus.IconAndBadge | src/components/pokemon/TradeStatus.tsx:44-75 | icon and badge agree on red; an accepted trade has a green icon and a blue badge |
| TradeStatus.EscrowProgress | src/components/pokemon/TradeStatus.tsx:77-92 | between 0 and 100; 0 exactly when unset or pending; 100 exactly when completed |
| TradeStatus.EscrowProgressMonotone | src/components/pokemon/TradeStatus.tsx:77-92 | progress never decreases along the escrow order and grows strictly after the first stage |
| TradeStatus.EscrowText | src/components/pokemon/TradeStatus.tsx:94-109 | for a trade, its users and the viewer: "Not started" exactly when the escrow stage is unset; the received-from text starts with "Received cards from " |
| TradeStatus.EscrowTextNamesSender | src/components/pokemon/TradeStatus.tsx:36-101 | after the prefix comes "you" when the viewer sent the trade, else the username of the first user with the sender's id, else "undefined" |
| TradeStatus.SendCardsWarningShown | src/components/pokemon/TradeStatus.tsx:228-242 | the send-your-cards warning shows exactly when the escrow panel shows with its progress bar at 0 |
| TradeStatus.EscrowPanelShown | src/components/pokemon/TradeStatus.tsx:228 | whenever the escrow panel shows, no viewer is offered accept, decline or cancel |
| TradeStatus.Actions | src/components/pokemon/TradeStatus.tsx:252-283 | any action needs an involved viewer, a handler and a pending trade; accept and decline come together, exactly for the receiver who is not the initiator; cancel exactly for the initiator; never accept with cancel |
| TradeStatus.NoActionsOnceDecided | src/components/pokemon/TradeStatus.tsx:254-274 | a trade that is not pending offers no action |
| TradeStatus.NoActionsForOutsiders | src/components/pokemon/TradeStatus.tsx:252 | an uninvolved viewer, or a card without a handler, gets no action |
| TradeStatus.InProgressNoteShown | src/components/pokemon/TradeStatus.tsx:252-287 | the in-progress note never appears together with the action buttons |
| TradeStatus.SeedTradeActions | src/components/pokemon/TradeStatus.tsx:252-283 | on the seed trade user2 may accept or decline, user1 may cancel, user3 gets nothing |
| SearchBar.Toggle | src/components/pokemon/SearchBar.tsx:47-51 | an absent value is appended; a present value is removed everywhere, the rest kept in order |
| SearchBar.RemoveAllCount | src/components/pokemon/SearchBar.tsx:50 | removing a value removes exactly its occurrences |
| SearchBar.ToggleLength | src/components/pokemon/SearchBar.tsx:47-51 | a toggle adds one to the length, or removes the value's occurrence count |
| SearchBar.ToggleKeepsDistinct | src/components/pokemon/SearchBar.tsx:47-51 | toggles keep the list's values distinct |
| SearchBar.ToggleTwiceAbsent | src/components/pokemon/SearchBar.tsx:47-51 | toggling an absent value twice restores the list |
| SearchBar.ToggleTwicePresent | src/components/pokemon/SearchBar.tsx:47-51 | toggling a present value twice in a distinct list keeps its contents and length |
| SearchBar.WithChange | src/components/pokemon/SearchBar.tsx:41-42 | the named field takes the new value and every other field is kept |
| SearchBar.ActiveCount | src/components/pokemon/SearchBar.tsx:67-71 | the count is at least the two list lengths, and 0 exactly for the initial filters |
| SearchBar.ClearAllShownIffChanged | src/components/pokemon/SearchBar.tsx:180 | Clear All is shown exactly when the filters differ from the initial ones |
| SearchBar.ToggleTwiceKeepsCount | src/components/pokemon/SearchBar.tsx:47-71 | toggling twice restores the filters when the value was absent, and the count always |
| SearchBar.SearchControls.constructor | src/components/pokemon/SearchBar.tsx:29-35 | empty query, initial filters, count 0 |
| SearchBar.SearchControls.SetQuery | src/components/pokemon/SearchBar.tsx:82 | typing changes the query only |
| SearchBar.SearchControls.HandleSearch | src/components/pokemon/SearchBar.tsx:37-39 | the current query and filters are sent |
| SearchBar.SearchControls.HandleFilterChange | src/components/pokemon/SearchBar.tsx:41-45 | the filters take the change, the query is kept, and the new filters are sent |
| SearchBar.SearchControls.ToggleArrayFilter | src/components/pokemon/SearchBar.tsx:47-54 | the filters become the toggled filters, lists stay distinct, the new filters are sent |
| SearchBar.SearchControls.ClearFilters | src/components/pokemon/SearchBar.tsx:56-65 | every filter returns to its initial value, the count is 0, the query is kept, the cleared filters are sent |
| MarketplacePage.SearchResults | src/app/page.tsx:48-69 | an order-preserving subsequence of the marketplace cards; a card is in it exactly when it is for trade and passes every switched-on stage |
| MarketplacePage.StagedIsOneFilter | src/app/page.tsx:51-69 | running the stages one after another is one filter by their conjunction |
| MarketplacePage.StageStep | src/app/page.tsx:51-69 | one more stage, when on, narrows the result to the cards passing one more test; when off it changes nothing |
| MarketplacePage.AllStagesAreSearch | src/app/page.tsx:51-69 | passing all four stages is passing the search |
| MarketplacePage.PriceRangeIgnored | src/app/page.tsx:43-77 | the price range never changes the results |
| MarketplacePage.BlankQueryIgnored | src/app/page.tsx:51 | a whitespace-only query gives what the empty query gives |
| MarketplacePage.NoFilterShowsMarketplace | src/app/page.tsx:48-69 | with no filter and a blank query every marketplace card is shown |
| MarketplacePage.QueryOnlyIsApiSearch | src/app/page.tsx:51-56 | with no filter, a non-blank query gives what `searchCards` gives on the marketplace cards |
| MarketplacePage.ForTradeFlagRedundant | src/app/page.tsx:67-69 | the for-trade flag never changes the results, since the marketplace cards are all for trade |
| MarketplacePage.WiderRarityKeepsResults | src/app/page.tsx:59-61 | adding a rarity to a non-empty list loses no result |
| MarketplacePage.MarketplaceHub.constructor | src/app/page.tsx:18-22 | empty lists, loading, empty query, not searching |
| MarketplacePage.MarketplaceHub.LoadFeaturedCards | src/app/page.tsx:31-41 | featured cards and results both become the marketplace cards and loading ends |
| MarketplacePage.MarketplaceHub.HandleSearch | src/app/page.tsx:43-77 | the query is recorded, the staged filter's result equals `SearchResults`, and searching ends |
| MarketplacePage.MarketplaceHub.DisplayCards | src/app/page.tsx:84 | the results once a query is set, the featured cards otherwise |
| CollectionGrid.IndexOf | src/components/pokemon/CollectionGrid.tsx:47 | `indexOf`: -1 exactly when absent, else the first position |
| CollectionGrid.IndexOfRarity | src/components/pokemon/CollectionGrid.tsx:46-47 | every rarity's label is found at its rank |
| CollectionGrid.Compare | src/components/pokemon/CollectionGrid.tsx:39-54 | the comparator gives 0 exactly for equal names, values, rarities or ids; by value and by rarity it is negative exactly when the first card ranks higher |
| CollectionGrid.InOrderMeans | src/components/pokemon/CollectionGrid.tsx:39-54 | name and id sort ascending, value and rarity descending |
| CollectionGrid.InOrderTotal | src/components/pokemon/CollectionGrid.tsx:39-54 | any two cards can be ordered |
| CollectionGrid.InOrderTransitive | src/components/pokemon/CollectionGrid.tsx:39-54 | the order is transitive |
| CollectionGrid.Swap | src/components/pokemon/CollectionGrid.tsx:39 | exchanges two elements and keeps the multiset |
| CollectionGrid.InsertStart | src/components/pokemon/CollectionGrid.tsx:39 | a sorted prefix is the insertion loop's starting state |
| CollectionGrid.InsertStep | src/components/pokemon/CollectionGrid.tsx:39 | one swap keeps the insertion loop's invariant |
| CollectionGrid.InsertEnd | src/components/pokemon/CollectionGrid.tsx:39 | when the insertion loop stops, the prefix is sorted |
| CollectionGrid.Insert | src/components/pokemon/CollectionGrid.tsx:39 | inserting the next element extends the sorted prefix and keeps the multiset |
| CollectionGrid.SortInPlace | src/components/pokemon/CollectionGrid.tsx:39-54 | the array ends sorted and a permutation of itself |
| CollectionGrid.SortedCards | src/components/pokemon/CollectionGrid.tsx:39-54 | `sortedCards`: a sorted permutation of a copy; the input is a value and is not reordered |
| CollectionGrid.TotalValueRemove | src/components/pokemon/CollectionGrid.tsx:90 | removing one card removes its value from the total |
| CollectionGrid.MultisetRemove | src/components/pokemon/CollectionGrid.tsx:39 | removing one card removes one copy from the multiset |
| CollectionGrid.TotalValuePermutation | src/components/pokemon/CollectionGrid.tsx:90 | reordering does not change the total value |
| CollectionGrid.TotalValueShownIgnoresOrder | src/components/pokemon/CollectionGrid.tsx:90 | the total the grid shows equals the total of the cards in any displayed order |
| CollectionGrid.Grid.constructor | src/components/pokemon/CollectionGrid.tsx:34-37 | sorted by name, grid view, nothing dragged |
| CollectionGrid.Grid.TotalValueShown | src/components/pokemon/CollectionGrid.tsx:90 | the grid's `totalValue`: 0 for an empty grid, non-negative when every value is |
| CollectionGrid.Grid.SetSortBy | src/components/pokemon/CollectionGrid.tsx:34 | only the sort option changes |
| CollectionGrid.Grid.SetViewMode | src/components/pokemon/CollectionGrid.tsx:35 | only the view mode changes |
| CollectionGrid.Grid.HandleDragStart | src/components/pokemon/CollectionGrid.tsx:56-60 | an editable grid records the dragged card; a read-only one changes nothing |
| CollectionGrid.Grid.HandleDragOver | src/components/pokemon/CollectionGrid.tsx:62-67 | the hover index is recorded only when editable and dragging |
| CollectionGrid.Grid.HandleDragLeave | src/components/pokemon/CollectionGrid.tsx:69-72 | an editable grid clears the hover index |
| CollectionGrid.Grid.HandleDrop | src/components/pokemon/CollectionGrid.tsx:74-83 | when editable and dragging, the move is reported and both fields reset; otherwise nothing changes; the cards never move |
| CollectionGrid.Grid.HandleDragEnd | src/components/pokemon/CollectionGrid.tsx:85-88 | both drag fields are reset |
| CollectionPage.TotalCards | src/app/collection/page.tsx:33 | 0 exactly for an empty collection |
| CollectionPage.CountPositiveIff | src/app/collection/page.tsx:39-42 | a rarity's count is positive exactly when some card has it |
| CollectionPage.RarityDistribution | src/app/collection/page.tsx:39-42 | the keys are exactly the rarities that occur, each with its card count, at least 1 |
| CollectionPage.CountsCoverCards | src/app/collection/page.tsx:39-42 | the counts of the five rarities add up to the number of cards |
| CollectionPage.HistogramSumsToTotal | src/app/collection/page.tsx:33-42 | the histogram's counts add up to `totalCards` |
| CollectionPage.HistogramUnique | src/app/collection/page.tsx:39-42 | a collection has only one histogram |
| CollectionPage.SeedHistogram | src/app/collection/page.tsx:39-42 | the seed collection holds three Ultra Rare cards and nothing else |
| CollectionPage.TopPerforming | src/app/collection/page.tsx:381-385 | the first min(3, n) cards, in order, ranked 1, 2, 3 |
| CollectionPage.TopPerformingShowsCollection | src/app/collection/page.tsx:381 | the collection holds at most three cards, so the list shows all of them |
| CollectionPage.CardPage | src/app/collection/page.tsx:44-46 | the address is `/card/` followed by the card's id |
| CollectionPage.CardActionAlert | src/app/collection/page.tsx:48-67 | no alert exactly for a refused removal; an edit alert starts with "Edit " and the name; the others start with the name |
| CollectionPage.TradeAlertAsWritten | src/app/collection/page.tsx:71 | the alert as written is "Trade ", the verb, then "ed successfully!" |
| CollectionPage.DeclineAlertMisspelt | src/app/collection/page.tsx:71 | for decline the alert reads "Trade declineed successfully!" |
| CollectionPage.PastTense | src/app/collection/page.tsx:71 | the past tense extends the verb by "d" when it ends in "e", by "ed" otherwise |
| CollectionPage.TradeAlertCorrected | src/app/collection/page.tsx:71 | the corrected alert differs from the one as written only for decline |
| CollectionPage.TradeAlert | src/app/collection/page.tsx:71 | the corrected alert starts with "Trade " and the verb and ends with " successfully!" |
| CollectionPage.CollectionScreen.constructor | src/app/collection/page.tsx:27 | the page opens on the collection tab |
| CollectionPage.CollectionScreen.HandleCardClick | src/app/collection/page.tsx:44-46 | the card's page address; nothing on the page changes |
| CollectionPage.CollectionScreen.HandleCardAction | src/app/collection/page.tsx:48-67 | only an alert; no collection data changes |
| CollectionPage.CollectionScreen.HandleTradeAction | src/app/collection/page.tsx:69-72 | only an alert, with the text as written ("Trade declineed successfully!" for decline); no trade changes |
| Navigation.IsActive | src/components/layout/Navigation.tsx:50-55 | every entry is active on its own address, and an active entry's address is no longer than the path |
| Navigation.IsActiveMeans | src/components/layout/Navigation.tsx:50-55 | the root entry is active exactly on "/"; any other entry exactly when the path starts with its address |
| Navigation.CollectionPrefixMatches | src/components/layout/Navigation.tsx:54 | "/collection" is active on "/collection/x" and also on "/collectionfoo"; the root entry is not |
| Navigation.RootHighlightsOnlyMarketplace | src/components/layout/Navigation.tsx:44-55 | on "/" only the Marketplace entry is active |
| Navigation.AtMostOneActive | src/components/layout/Navigation.tsx:44-55 | on any path at most one menu entry is active |
| Navigation.NavMenu.constructor | src/components/layout/Navigation.tsx:40 | the menu starts closed |
| Navigation.NavMenu.ToggleMenu | src/components/layout/Navigation.tsx:182 | the menu button negates the open flag |
| Navigation.NavMenu.CloseMenu | src/components/layout/Navigation.tsx:207-211 | the backdrop and close button close the menu |
| Navigation.NavMenu.FollowMobileLink | src/components/layout/Navigation.tsx:217-245 | a mobile link closes the menu and goes to its address |
| UserProfile.Trunc | src/components/pokemon/UserProfile.tsx:18 | rounds toward zero: never the opposite sign of x, and its magnitude is at most that of x and within 1 of it |
| UserProfile.FracPart | src/components/pokemon/UserProfile.tsx:18 | `x % 1`: in [0, 1) and equal to x minus its floor for x ≥ 0; in (-1, 0] for x < 0 |
| UserProfile.RatingStars | src/components/pokemon/UserProfile.tsx:16-31 | full stars are the floor; a half star exactly when the fraction is at least 0.5; full, half and empty add up to 5 |
| UserProfile.RatingStarsDefinedIff | src/components/pokemon/UserProfile.tsx:17-29 | the row can be built exactly for ratings in [0, 5.5) |
| UserProfile.RatingStarsOnScale | src/components/pokemon/UserProfile.tsx:17-19 | for ratings in [0, 5] the row exists, full is the floor, and full + half + empty = 5 |
| UserProfile.SeedRatingStars | src/components/pokemon/UserProfile.tsx:17-19 | 4.8 gives 4 full and a half, 4.2 gives 4 full and 1 empty, 5.5 fails |
| UserProfile.Badges | src/components/pokemon/UserProfile.tsx:125-147 | ID Verified iff verified; Top Rated iff rating ≥ 4.5; Experienced iff ≥ 100 trades; Reliable iff ≥ 50 trades and rating ≥ 4.0 |
| UserProfile.TopRatedExperiencedIsReliable | src/components/pokemon/UserProfile.tsx:131-147 | Top Rated together with Experienced implies Reliable |
| UserProfile.SeedBadges | src/lib/mock-data.ts:144-163 | the seed traders all earn ID Verified, Top Rated and Reliable, and all but the one with 89 trades earn Experienced |

## Left out

- **Rendering:** JSX, styling, icons, dialogs, tabs, dropdowns and the Progress bars' percentages are not modelled. The "You" labels of the trade card are left out too.
- **Latency and errors:** the `setTimeout`/Promise wrappers of the simulated API and the `await`s are left out. The API bodies are plain functions. The `catch` paths of `loadFeaturedCards` and `handleSearch` are unreachable once the API cannot fail, so they are not modelled.
- **Submit callback:** its outcome is a parameter (`callbackSucceeds`) of `TradeModal.OfferDialog.HandleSubmit`.
- **Browser side effects:** `window.location` becomes a returned address. `alert` becomes a returned message. `confirm` becomes a parameter (`confirmed`). `console` output is dropped.
- **Clock:** `Date.now()` and `toISOString` in `createTrade` are parameters.
- **Other dates and randomness:**
  - the date formatting of the trade card and the profile;
  - the per-month rate;
  - the random growth figure;
  - `getPriceHistory`, with its `Math.random` and float rounding.
- **Other files:** PriceChart.tsx and CardThumbnail.tsx are not part of this model.
- **Display details:** prices, images, avatar initials, `toFixed` renderings, the six-character trade id suffix and the capitalised status label are not modelled.
- **Default switch branches:** these are unreachable over the closed enumerations, so the model has no "unknown" case.
- **The navigation search box and the page tabs:** their state is set and never read by a modelled rule.
- Strings.Lower: lowers ASCII letters only, not the full Unicode mapping of `toLowerCase`.
- Strings.StrCompare: compares by code point. `localeCompare` uses the locale's collation, which this model replaces by an ordinal total order.
- TradeModal.IsFairMeansWithinTenPercent: fairness is exact, 10·|offered − target| ≤ target over integers. The source computes `targetValue * 0.1` in IEEE doubles, which can differ at the boundary.
- UserProfile.RatingStars: the rating is a real, so `% 1` and the 0.5 comparison are exact rather than IEEE.
- CollectionGrid.SortedCards: proved sorted and a permutation. JavaScript's sort is also stable, and stability is not proved.
- MarketplacePage.SearchResults: the text stage tests the untrimmed query, as the source does. Only the on/off switch uses the trimmed query.

## Findings

| source | as written | input that shows it | evidently intended | confidence | as-written member | corrected member |
|---|---|---|---|---|---|---|
| src/app/collection/page.tsx:71 | the alert appends "ed" to the action verb | action `decline` gives "Trade declineed successfully!" | "Trade declined successfully!" | not executed | CollectionPage.DeclineAlertMisspelt | CollectionPage.TradeAlertCorrected |
