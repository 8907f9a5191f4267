/** The "My Collection" page: the collection's statistics, its rarity
    histogram, the top-performing list, and the card and trade handlers it
    hands to the grid and to the trade cards. The handlers only navigate or
    raise an alert; none of them changes the collection or a trade. */
module CollectionPage {
  import opened Wrappers
  import opened Seqs
  import opened MockData

  // ---------------------------------------------------------------- stats

  /** `totalCards`. */
  function TotalCards(collection: CollectionSummary): (r: nat)
    ensures r == 0 <==> collection.cards == []
  {
    |collection.cards|
  }

  // ---------------------------------------------------------------- histogram

  /** How many of `cards` have rarity `r`. */
  function CountRarity(cards: seq<Card>, r: Rarity): nat
  {
    if cards == [] then 0
    else CountRarity(cards[..|cards| - 1], r) + (if cards[|cards| - 1].rarity == r then 1 else 0)
  }

  /** A rarity is counted at least once exactly when some card has it. */
  lemma {:induction false} CountPositiveIff(cards: seq<Card>, r: Rarity)
    ensures CountRarity(cards, r) > 0 <==> exists i :: 0 <= i < |cards| && cards[i].rarity == r
  {
    if cards != [] {
      var init := cards[..|cards| - 1];
      CountPositiveIff(init, r);
      if CountRarity(init, r) > 0 {
        var i :| 0 <= i < |init| && init[i].rarity == r;
        assert cards[i] == init[i];
      }
      forall i | 0 <= i < |init| && cards[i].rarity == r
        ensures CountRarity(init, r) > 0
      {
        assert init[i] == cards[i];
      }
    }
  }

  /** The histogram of `cards`: its keys are exactly the rarities that occur,
      each mapped to the number of cards that have it. */
  predicate IsHistogram(cards: seq<Card>, m: map<Rarity, nat>)
  {
    forall r :: (r in m <==> CountRarity(cards, r) > 0) && (r in m ==> m[r] == CountRarity(cards, r))
  }

  /** `rarityDistribution`: the reduce writes into its accumulator in place,
      card by card, starting a rarity at 1 and incrementing it after. */
  method RarityDistribution(cards: seq<Card>) returns (acc: map<Rarity, nat>)
    ensures IsHistogram(cards, acc)
    ensures forall r :: r in acc ==> acc[r] >= 1
  {
    acc := map[];
    for i := 0 to |cards|
      invariant IsHistogram(cards[..i], acc)
    {
      var c := cards[i];
      assert cards[..i + 1][..i] == cards[..i];
      if c.rarity in acc {
        acc := acc[c.rarity := acc[c.rarity] + 1];
      } else {
        acc := acc[c.rarity := 1];
      }
    }
    assert cards[..|cards|] == cards;
  }

  /** The count a histogram shows for `r`; an absent key shows nothing. */
  function CountIn(m: map<Rarity, nat>, r: Rarity): nat
  {
    if r in m then m[r] else 0
  }

  /** The counts of a histogram added up over every rarity. */
  function SumCounts(m: map<Rarity, nat>): nat
  {
    CountIn(m, Common) + CountIn(m, Uncommon) + CountIn(m, Rare) + CountIn(m, UltraRare) + CountIn(m, SecretRare)
  }

  /** Each card adds one to the count of its own rarity and to no other. */
  lemma {:induction false} CountsCoverCards(cards: seq<Card>)
    ensures CountRarity(cards, Common) + CountRarity(cards, Uncommon) + CountRarity(cards, Rare)
      + CountRarity(cards, UltraRare) + CountRarity(cards, SecretRare) == |cards|
  {
    if cards != [] {
      CountsCoverCards(cards[..|cards| - 1]);
    }
  }

  /** A histogram's counts add up to the number of cards, which is
      `totalCards` for the collection's histogram. */
  lemma HistogramSumsToTotal(m: map<Rarity, nat>, collection: CollectionSummary)
    requires IsHistogram(collection.cards, m)
    ensures SumCounts(m) == TotalCards(collection)
  {
    var cards := collection.cards;
    assert forall r :: CountIn(m, r) == CountRarity(cards, r);
    CountsCoverCards(cards);
  }

  /** A collection has one histogram. */
  lemma HistogramUnique(cards: seq<Card>, m1: map<Rarity, nat>, m2: map<Rarity, nat>)
    requires IsHistogram(cards, m1) && IsHistogram(cards, m2)
    ensures m1 == m2
  {
    assert m1.Keys == m2.Keys;
  }

  /** The seed collection holds three Ultra Rare cards and nothing else. */
  lemma SeedHistogram()
    ensures IsHistogram(MyCollectionOf(MockCards, MockTrades).cards, map[UltraRare := 3])
  {
    var cards := MyCollectionOf(MockCards, MockTrades).cards;
    assert cards == MockCards[..3];
    assert MockCards[..3][..2] == MockCards[..2];
    assert MockCards[..2][..1] == MockCards[..1];
    assert MockCards[..1][..0] == [];
    forall r
      ensures CountRarity(cards, r) == if r == UltraRare then 3 else 0
    {
      assert CountRarity(MockCards[..1], r) == if r == UltraRare then 1 else 0;
      assert CountRarity(MockCards[..2], r) == if r == UltraRare then 2 else 0;
    }
  }

  // ---------------------------------------------------------------- top cards

  /** The top-performing list: the first three cards, each with its rank
      badge `#1`, `#2`, `#3`. */
  function TopPerforming(cards: seq<Card>): (r: seq<(nat, Card)>)
    ensures |r| == if |cards| < 3 then |cards| else 3
    ensures forall i :: 0 <= i < |r| ==> r[i].0 == i + 1 && r[i].1 == cards[i]
  {
    var top := Take(cards, 3);
    seq(|top|, (i: int) requires 0 <= i < |top| => (i + 1, top[i]))
  }

  /** The collection holds at most three cards, so the list shows all of
      them, in order. */
  lemma TopPerformingShowsCollection(cards: seq<Card>, trades: seq<Trade>)
    ensures |TopPerforming(MyCollectionOf(cards, trades).cards)| == TotalCards(MyCollectionOf(cards, trades))
  {
  }

  // ---------------------------------------------------------------- handlers

  /** `handleCardClick`: the address the browser is sent to. */
  function CardPage(card: Card): (url: string)
    ensures |url| == 6 + |card.id| && url[..6] == "/card/" && url[6..] == card.id
  {
    "/card/" + card.id
  }

  datatype CardAction = TradeToggle | Remove | Edit

  /** `handleCardAction`: the alert shown, if any. Removal asks for a
      confirmation first, and nothing is shown when it is refused. */
  function CardActionAlert(card: Card, action: CardAction, confirmed: bool): (r: Option<string>)
    ensures r.None? <==> action == Remove && !confirmed
    ensures r.Some? && action == Edit ==> "Edit " + card.name <= r.value
    ensures r.Some? && action != Edit ==> card.name <= r.value
  {
    match action
    case TradeToggle => Some(card.name + " trade status toggled!")
    case Edit => Some("Edit " + card.name + " details")
    case Remove => if confirmed then Some(card.name + " removed from collection!") else None
  }

  datatype TradeAction = AcceptTrade | DeclineTrade | CancelTrade

  /** The verb the trade card passes to `handleTradeAction`. */
  function Verb(action: TradeAction): string
  {
    match action
    case AcceptTrade => "accept"
    case DeclineTrade => "decline"
    case CancelTrade => "cancel"
  }

  /** The alert as the source builds it: the verb with "ed" appended. */
  function TradeAlertAsWritten(action: TradeAction): (r: string)
    ensures "Trade " + Verb(action) <= r
    ensures |r| == 6 + |Verb(action)| + 16 && r[6 + |Verb(action)|..] == "ed successfully!"
  {
    "Trade " + Verb(action) + "ed successfully!"
  }

  /** Appending "ed" to "decline" doubles the e. */
  lemma DeclineAlertMisspelt()
    ensures TradeAlertAsWritten(DeclineTrade) == "Trade declineed successfully!"
  {
  }

  /** The past tense of the verb: a verb ending in "e" only takes a "d". */
  function PastTense(action: TradeAction): (r: string)
    ensures Verb(action) <= r
    ensures Verb(action)[|Verb(action)| - 1] == 'e' ==> r == Verb(action) + "d"
    ensures Verb(action)[|Verb(action)| - 1] != 'e' ==> r == Verb(action) + "ed"
  {
    match action
    case AcceptTrade => "accepted"
    case DeclineTrade => "declined"
    case CancelTrade => "canceled"
  }

  /** The alert with the past tense spelt correctly. */
  function TradeAlert(action: TradeAction): (r: string)
    ensures "Trade " + Verb(action) <= r
    ensures |r| >= 14 && r[|r| - 14..] == " successfully!"
  {
    "Trade " + PastTense(action) + " successfully!"
  }

  /** The corrected alert differs from the one as written only for
      decline. */
  lemma TradeAlertCorrected(a: TradeAction)
    ensures TradeAlert(a) == TradeAlertAsWritten(a) <==> a != DeclineTrade
  {
    var v := Verb(a);
    if a == DeclineTrade {
      assert TradeAlert(a)[13] == 'd' && TradeAlertAsWritten(a)[13] == 'e';
    } else {
      assert PastTense(a) == v + "ed";
      assert "ed" + " successfully!" == "ed successfully!";
      assert "Trade " + (v + "ed") + " successfully!" == "Trade " + v + ("ed" + " successfully!");
    }
  }

  /** The page's state: the collection it shows and the tab on view. */
  class CollectionScreen {
    const collection: CollectionSummary
    var activeTab: string

    constructor (collection: CollectionSummary)
      ensures this.collection == collection && activeTab == "collection"
    {
      this.collection := collection;
      activeTab := "collection";
    }

    /** `handleCardClick`: navigates away; nothing on the page changes. */
    method HandleCardClick(card: Card) returns (url: string)
      ensures url == CardPage(card)
    {
      url := CardPage(card);
    }

    /** `handleCardAction`: only an alert; the collection is unchanged. */
    method HandleCardAction(card: Card, action: CardAction, confirmed: bool) returns (alert: Option<string>)
      ensures alert == CardActionAlert(card, action, confirmed)
    {
      alert := CardActionAlert(card, action, confirmed);
    }

    /** `handleTradeAction`: only an alert, with the text as the source
        builds it; no trade changes status. */
    method HandleTradeAction(tradeId: string, action: TradeAction) returns (alert: string)
      ensures alert == TradeAlertAsWritten(action)
      ensures action == DeclineTrade ==> alert == "Trade declineed successfully!"
    {
      alert := TradeAlertAsWritten(action);
      DeclineAlertMisspelt();
    }
  }
}
