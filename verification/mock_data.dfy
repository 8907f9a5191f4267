/** The card, user and trade records of the marketplace, its seed data, and
    the read and create operations of its simulated API, as plain functions
    over the catalogue they read. */
module MockData {
  import opened Wrappers
  import opened Seqs
  import opened Strings

  // ---------------------------------------------------------------- records

  datatype Rarity = Common | Uncommon | Rare | UltraRare | SecretRare
  {
    function Label(): string
    {
      match this
      case Common => "Common"
      case Uncommon => "Uncommon"
      case Rare => "Rare"
      case UltraRare => "Ultra Rare"
      case SecretRare => "Secret Rare"
    }
  }

  datatype Condition = Mint | NearMint | LightlyPlayed | ModeratelyPlayed | HeavilyPlayed
  {
    function Label(): string
    {
      match this
      case Mint => "Mint"
      case NearMint => "Near Mint"
      case LightlyPlayed => "Lightly Played"
      case ModeratelyPlayed => "Moderately Played"
      case HeavilyPlayed => "Heavily Played"
    }
  }

  /** A card of the catalogue. Its prices, trend and image are not modelled. */
  datatype Card = Card(
    id: string,
    name: string,
    series: string,
    rarity: Rarity,
    condition: Condition,
    owner: Option<string>,
    isForTrade: bool,
    tradeValue: int)

  /** A trader. The avatar and join date are not modelled. */
  datatype User = User(
    id: string,
    username: string,
    rating: real,
    totalTrades: int,
    verified: bool)

  /** The lifecycle status of a trade. */
  datatype Status = Pending | Accepted | Declined | Completed | Cancelled

  /** The escrow stage of a trade. */
  datatype Escrow = EscrowPending | ReceivedFrom | ReceivedTo | EscrowCompleted

  datatype Trade = Trade(
    id: string,
    fromUser: string,
    toUser: string,
    fromCards: seq<string>,
    toCards: seq<string>,
    status: Status,
    createdAt: string,
    escrowStatus: Option<Escrow>)

  /** What a caller hands to `createTrade`: a trade without `id` and
      `createdAt`. */
  datatype TradeDraft = TradeDraft(
    fromUser: string,
    toUser: string,
    fromCards: seq<string>,
    toCards: seq<string>,
    status: Status,
    escrowStatus: Option<Escrow>)

  // ---------------------------------------------------------------- values

  /** `cards.reduce((sum, card) => sum + card.tradeValue, 0)`. */
  function TotalValue(cards: seq<Card>): (r: int)
    ensures cards == [] ==> r == 0
    ensures |cards| == 1 ==> r == cards[0].tradeValue
  {
    if cards == [] then 0 else cards[0].tradeValue + TotalValue(cards[1..])
  }

  lemma {:induction false} TotalValueAppend(a: seq<Card>, b: seq<Card>)
    ensures TotalValue(a + b) == TotalValue(a) + TotalValue(b)
  {
    if a != [] {
      assert (a + b)[1..] == a[1..] + b;
      TotalValueAppend(a[1..], b);
    } else {
      assert a + b == b;
    }
  }

  predicate NonNegativeValues(cards: seq<Card>)
  {
    forall i :: 0 <= i < |cards| ==> cards[i].tradeValue >= 0
  }

  lemma {:induction false} TotalValueNonNegative(cards: seq<Card>)
    requires NonNegativeValues(cards)
    ensures TotalValue(cards) >= 0
    ensures TotalValue(cards) == 0 <==> forall i :: 0 <= i < |cards| ==> cards[i].tradeValue == 0
  {
    if cards != [] {
      TotalValueNonNegative(cards[1..]);
      assert forall i :: 1 <= i < |cards| ==> cards[i] == cards[1..][i - 1];
    }
  }

  /** What a filter keeps and what it drops add up to the whole value. */
  lemma {:induction false} TotalValueSplit(cards: seq<Card>, p: Card -> bool, notP: Card -> bool)
    requires forall c :: notP(c) == !p(c)
    ensures TotalValue(Filter(cards, p)) + TotalValue(Filter(cards, notP)) == TotalValue(cards)
  {
    if cards != [] {
      TotalValueSplit(cards[1..], p, notP);
    }
  }

  // ---------------------------------------------------------------- queries

  /** `getMarketplaceCards`: the cards marked for trade, in catalogue order. */
  function MarketplaceCards(cards: seq<Card>): (r: seq<Card>)
    ensures forall c :: c in r <==> c in cards && c.isForTrade
    ensures IsSubsequence(r, cards)
  {
    FilterIsSubsequence(cards, (c: Card) => c.isForTrade);
    Filter(cards, (c: Card) => c.isForTrade)
  }

  /** `getCardById`: the first card with that id, or null. */
  function CardById(cards: seq<Card>, id: string): (r: Option<Card>)
    ensures r.None? <==> forall c :: c in cards ==> c.id != id
    ensures r.Some? ==> r.value.id == id && exists i :: 0 <= i < |cards| && cards[i] == r.value && forall j :: 0 <= j < i ==> cards[j].id != id
  {
    Find(cards, (c: Card) => c.id == id)
  }

  /** `getUserById`: the first user with that id, or null. */
  function UserById(users: seq<User>, id: string): (r: Option<User>)
    ensures r.None? <==> forall u :: u in users ==> u.id != id
    ensures r.Some? ==> r.value.id == id && exists i :: 0 <= i < |users| && users[i] == r.value && forall j :: 0 <= j < i ==> users[j].id != id
  {
    Find(users, (u: User) => u.id == id)
  }

  /** `createTrade`: the draft's fields, plus `trade_<now>` as id and the
      creation time. `now` stands for `Date.now()` and `isoTime` for
      `new Date().toISOString()`. */
  function CreateTrade(draft: TradeDraft, now: nat, isoTime: string): (t: Trade)
    ensures "trade_" <= t.id && t.createdAt == isoTime
  {
    Trade("trade_" + DecimalString(now), draft.fromUser, draft.toUser, draft.fromCards,
          draft.toCards, draft.status, isoTime, draft.escrowStatus)
  }

  /** The draft a trade was made from: the trade without `id` and
      `createdAt`. */
  function DraftOf(t: Trade): TradeDraft
  {
    TradeDraft(t.fromUser, t.toUser, t.fromCards, t.toCards, t.status, t.escrowStatus)
  }

  /** `createTrade` copies every field of its input unchanged. */
  lemma CreateTradeKeepsDraft(draft: TradeDraft, now: nat, isoTime: string)
    ensures DraftOf(CreateTrade(draft, now, isoTime)) == draft
  {
  }

  /** Trades created at different times get different ids. */
  lemma CreateTradeDistinctIds(d1: TradeDraft, d2: TradeDraft, now1: nat, now2: nat, iso1: string, iso2: string)
    requires now1 != now2
    ensures CreateTrade(d1, now1, iso1).id != CreateTrade(d2, now2, iso2).id
  {
    var id1, id2 := CreateTrade(d1, now1, iso1).id, CreateTrade(d2, now2, iso2).id;
    if id1 == id2 {
      assert id1[6..] == DecimalString(now1);
      assert id2[6..] == DecimalString(now2);
      DecimalStringInjective(now1, now2);
    }
  }

  /** The text test of `searchCards` and of the marketplace search: the
      lowercased name or series contains the lowercased query. */
  predicate MatchesQuery(c: Card, query: string)
    ensures MatchesQuery(c, query) ==> |query| <= |c.name| || |query| <= |c.series|
    ensures query == [] ==> MatchesQuery(c, query)
  {
    Includes(Lower(c.name), Lower(query)) || Includes(Lower(c.series), Lower(query))
  }

  /** `searchCards`. */
  function SearchCards(cards: seq<Card>, query: string): (r: seq<Card>)
    ensures forall c :: c in r <==> c in cards && MatchesQuery(c, query)
    ensures IsSubsequence(r, cards)
  {
    FilterIsSubsequence(cards, (c: Card) => MatchesQuery(c, query));
    Filter(cards, (c: Card) => MatchesQuery(c, query))
  }

  /** A card matches exactly when the lowercased query occurs in its
      lowercased name or series. */
  lemma MatchesQueryIff(c: Card, query: string)
    ensures MatchesQuery(c, query) <==>
      (exists i :: OccursAt(Lower(c.name), Lower(query), i)) || (exists i :: OccursAt(Lower(c.series), Lower(query), i))
  {
    if MatchesQuery(c, query) {
      if Includes(Lower(c.name), Lower(query)) {
        IncludesSound(Lower(c.name), Lower(query));
        var i :| OccursAt(Lower(c.name), Lower(query), i);
        assert exists k :: OccursAt(Lower(c.name), Lower(query), k);
      } else {
        IncludesSound(Lower(c.series), Lower(query));
        var i :| OccursAt(Lower(c.series), Lower(query), i);
        assert exists k :: OccursAt(Lower(c.series), Lower(query), k);
      }
    } else {
      forall i | OccursAt(Lower(c.name), Lower(query), i) ensures false {
        IncludesComplete(Lower(c.name), Lower(query), i);
      }
      forall i | OccursAt(Lower(c.series), Lower(query), i) ensures false {
        IncludesComplete(Lower(c.series), Lower(query), i);
      }
    }
  }

  /** An empty query returns the whole catalogue. */
  lemma SearchEmptyQuery(cards: seq<Card>)
    ensures SearchCards(cards, "") == cards
  {
    forall c | c in cards ensures MatchesQuery(c, "") {
      IncludesEmpty(Lower(c.name));
    }
    FilterKeepsAll(cards, (c: Card) => MatchesQuery(c, ""));
  }

  // ---------------------------------------------------------------- my collection

  /** `myCollection`: the current user's cards, pending trades and value. */
  datatype CollectionSummary = CollectionSummary(cards: seq<Card>, activeTrades: seq<Trade>, totalValue: int)

  function MyCollectionOf(cards: seq<Card>, trades: seq<Trade>): (m: CollectionSummary)
    ensures |m.cards| == if |cards| < 3 then |cards| else 3
    ensures forall i :: 0 <= i < |m.cards| ==> m.cards[i] == cards[i]
    ensures forall t :: t in m.activeTrades <==> t in trades && t.status == Pending
    ensures IsSubsequence(m.activeTrades, trades)
    ensures m.totalValue == TotalValue(m.cards)
  {
    FilterIsSubsequence(trades, (t: Trade) => t.status == Pending);
    CollectionSummary(Take(cards, 3), Filter(trades, (t: Trade) => t.status == Pending), TotalValue(Take(cards, 3)))
  }

  // ---------------------------------------------------------------- seed data

  const MockCards: seq<Card> := [
    Card("1", "Charizard VMAX", "Darkness Ablaze", UltraRare, NearMint, Some("TrainerAsh92"), true, 85),
    Card("2", "Pikachu VMAX", "Vivid Voltage", UltraRare, Mint, Some("CardMasterMisty"), true, 42),
    Card("3", "Umbreon VMAX", "Evolving Skies", UltraRare, NearMint, Some("EliteFourBrock"), false, 65),
    Card("4", "Rayquaza V", "Evolving Skies", Rare, Mint, None, true, 30),
    Card("5", "Leafeon V", "Evolving Skies", Rare, NearMint, None, true, 14),
    Card("6", "Glaceon V", "Evolving Skies", Rare, Mint, None, true, 16)
  ]

  const MockUsers: seq<User> := [
    User("user1", "TrainerAsh92", 4.8, 127, true),
    User("user2", "CardMasterMisty", 4.9, 89, true),
    User("user3", "EliteFourBrock", 4.7, 203, true)
  ]

  const MockTrades: seq<Trade> := [
    Trade("trade1", "user1", "user2", ["1"], ["2"], Pending, "2024-01-15T10:30:00Z", Some(EscrowPending))
  ]

  /** The seed collection: cards 1 to 3 worth 85 + 42 + 65, and the one seed
      trade, which is pending. */
  lemma MyCollectionSeed()
    ensures MyCollectionOf(MockCards, MockTrades).totalValue == 192
    ensures MyCollectionOf(MockCards, MockTrades).activeTrades == MockTrades
  {
    var m := MyCollectionOf(MockCards, MockTrades);
    assert m.cards == MockCards[..3];
    assert TotalValue(m.cards) == 85 + TotalValue(MockCards[1..3]);
    assert TotalValue(MockCards[1..3]) == 42 + TotalValue(MockCards[2..3]);
  }

  /** Five of the six seed cards are on the marketplace; Umbreon is not. */
  lemma MarketplaceSeed()
    ensures |MarketplaceCards(MockCards)| == 5
    ensures MockCards[2] !in MarketplaceCards(MockCards)
  {
    var p := (c: Card) => c.isForTrade;
    assert Filter(MockCards, p) == [MockCards[0]] + Filter(MockCards[1..], p);
    assert Filter(MockCards[1..], p) == [MockCards[1]] + Filter(MockCards[2..], p);
    assert Filter(MockCards[2..], p) == Filter(MockCards[3..], p);
    SeedTailForTrade();
  }

  /** The last three seed cards are all for trade. */
  lemma SeedTailForTrade()
    ensures |Filter(MockCards[3..], (c: Card) => c.isForTrade)| == 3
  {
    var p := (c: Card) => c.isForTrade;
    assert Filter(MockCards[3..], p) == [MockCards[3]] + Filter(MockCards[4..], p);
    assert Filter(MockCards[4..], p) == [MockCards[4]] + Filter(MockCards[5..], p);
    assert Filter(MockCards[5..], p) == [MockCards[5]] + Filter(MockCards[6..], p);
    assert MockCards[6..] == [];
  }
}
