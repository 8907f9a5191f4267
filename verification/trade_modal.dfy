/** The trade-offer dialog: the user picks cards of their own to offer for
    one target card, sees the offer valued and classified as fair or not,
    and submits it through a callback. */
module TradeModal {
  import opened Wrappers
  import opened Seqs
  import opened MockData

  // ---------------------------------------------------------------- selection

  /** No two selected cards share an id. */
  predicate UniqueIds(sel: seq<Card>)
  {
    forall i, j :: 0 <= i < j < |sel| ==> sel[i].id != sel[j].id
  }

  predicate HasId(sel: seq<Card>, id: string)
  {
    exists i :: 0 <= i < |sel| && sel[i].id == id
  }

  function SameId(id: string): Card -> bool
  {
    (c: Card) => c.id == id
  }

  function OtherId(id: string): Card -> bool
  {
    (c: Card) => c.id != id
  }

  /** The updater of `toggleCardSelection`: when some selected card has the
      clicked card's id, every such card is removed; otherwise the clicked
      card is appended. */
  function ToggleCard(sel: seq<Card>, card: Card): (r: seq<Card>)
    ensures !HasId(sel, card.id) ==> r == sel + [card]
    ensures HasId(sel, card.id) ==>
      IsSubsequence(r, sel) && !HasId(r, card.id) &&
      forall c :: c in r <==> c in sel && c.id != card.id
  {
    if Find(sel, SameId(card.id)).Some? then
      var r := Filter(sel, OtherId(card.id));
      FilterIsSubsequence(sel, OtherId(card.id));
      assert !HasId(r, card.id) by {
        forall i | 0 <= i < |r| ensures r[i].id != card.id {
          assert r[i] in r;
        }
      }
      r
    else
      assert !HasId(sel, card.id) by {
        forall i | 0 <= i < |sel| ensures sel[i].id != card.id {
          assert sel[i] in sel;
        }
      }
      sel + [card]
  }

  lemma {:induction false} UniqueIdsCons(x: Card, t: seq<Card>)
    ensures UniqueIds([x] + t) <==> UniqueIds(t) && !HasId(t, x.id)
  {
    var s := [x] + t;
    assert forall i :: 0 <= i < |t| ==> s[i + 1] == t[i];
    if UniqueIds(s) {
      forall i | 0 <= i < |t| ensures t[i].id != x.id {
        assert s[0] == x;
      }
    }
    if UniqueIds(t) && !HasId(t, x.id) {
      forall i, j | 0 <= i < j < |s| ensures s[i].id != s[j].id {
        if i > 0 {
          assert s[i] == t[i - 1] && s[j] == t[j - 1];
        } else {
          assert s[j] == t[j - 1];
        }
      }
    }
  }

  /** Filtering a selection with unique ids keeps its ids unique. */
  lemma {:induction false} FilterKeepsUniqueIds(sel: seq<Card>, p: Card -> bool)
    requires UniqueIds(sel)
    ensures UniqueIds(Filter(sel, p))
  {
    if sel != [] {
      assert sel == [sel[0]] + sel[1..];
      UniqueIdsCons(sel[0], sel[1..]);
      FilterKeepsUniqueIds(sel[1..], p);
      if p(sel[0]) {
        var t := Filter(sel[1..], p);
        forall i | 0 <= i < |t| ensures t[i].id != sel[0].id {
          assert t[i] in sel[1..];
        }
        UniqueIdsCons(sel[0], t);
      }
    }
  }

  /** Starting from the empty selection, toggling keeps ids unique. */
  lemma ToggleKeepsUniqueIds(sel: seq<Card>, card: Card)
    requires UniqueIds(sel)
    ensures UniqueIds(ToggleCard(sel, card))
  {
    if HasId(sel, card.id) {
      FilterKeepsUniqueIds(sel, OtherId(card.id));
    } else {
      var r := sel + [card];
      forall i, j | 0 <= i < j < |r| ensures r[i].id != r[j].id {
      }
    }
  }

  /** Toggling a card that is not selected, then toggling it again, gives
      back the selection exactly. */
  lemma ToggleTwiceAbsent(sel: seq<Card>, card: Card)
    requires !HasId(sel, card.id)
    ensures ToggleCard(ToggleCard(sel, card), card) == sel
  {
    var p := OtherId(card.id);
    assert HasId(sel + [card], card.id) by {
      assert (sel + [card])[|sel|] == card;
    }
    FilterAppend(sel, [card], p);
    forall c | c in sel ensures p(c) {
    }
    FilterKeepsAll(sel, p);
    assert Filter([card], p) == [];
  }

  /** Toggling a selected card twice moves it to the end: with unique ids
      the selection is restored up to order. */
  lemma ToggleTwicePresent(sel: seq<Card>, card: Card)
    requires UniqueIds(sel) && card in sel
    ensures multiset(ToggleCard(ToggleCard(sel, card), card)) == multiset(sel)
    ensures |ToggleCard(ToggleCard(sel, card), card)| == |sel|
    ensures var r := ToggleCard(ToggleCard(sel, card), card);
      r[|r| - 1] == card && r[..|r| - 1] == ToggleCard(sel, card)
  {
    var k :| 0 <= k < |sel| && sel[k] == card;
    assert HasId(sel, card.id);
    var once := ToggleCard(sel, card);
    RemoveUniqueId(sel, card);
    assert !HasId(once, card.id);
    assert ToggleCard(once, card) == once + [card];
    assert (once + [card])[..|once|] == once;
    assert multiset(once + [card]) == multiset(once) + multiset{card};
  }

  /** With unique ids, removing every card with `card`'s id removes exactly
      one occurrence of `card`. */
  lemma {:induction false} RemoveUniqueId(sel: seq<Card>, card: Card)
    requires UniqueIds(sel) && card in sel
    ensures multiset(Filter(sel, OtherId(card.id))) + multiset{card} == multiset(sel)
  {
    assert sel == [sel[0]] + sel[1..];
    UniqueIdsCons(sel[0], sel[1..]);
    if sel[0] == card {
      FilterKeepsAll(sel[1..], OtherId(card.id));
    } else {
      RemoveUniqueId(sel[1..], card);
    }
  }

  // ---------------------------------------------------------------- value

  function Abs(x: int): (r: nat)
    ensures r == x || r == -x
  {
    if x < 0 then -x else x
  }

  /** `selectedValue`: the offered cards' total trade value. */
  function SelectedValue(sel: seq<Card>): (r: int)
    ensures sel == [] ==> r == 0
    ensures |sel| == 1 ==> r == sel[0].tradeValue
    ensures NonNegativeValues(sel) ==> r >= 0
  {
    var total := TotalValue(sel);
    assert NonNegativeValues(sel) ==> total >= 0 by {
      if NonNegativeValues(sel) {
        TotalValueNonNegative(sel);
      }
    }
    total
  }

  /** `fairTrade`, in exact arithmetic: the difference is at most a tenth of
      the target's value. */
  predicate IsFair(offered: int, target: int)
    ensures IsFair(offered, target) <==> 9 * target <= 10 * offered <= 11 * target
    ensures IsFair(offered, target) ==> target >= 0
  {
    10 * Abs(offered - target) <= target
  }

  /** The exact test is the source's `|difference| <= target * 0.1`, read
      over the reals. */
  lemma IsFairMeansWithinTenPercent(offered: int, target: int)
    ensures IsFair(offered, target) <==> (Abs(offered - target) as real) <= (target as real) * 0.1
  {
  }

  /** Against a target worth nothing, an offer of non-negative values is fair
      only when it is worth nothing too, that is, when every offered card is
      worth nothing. */
  lemma FairAgainstZeroTarget(sel: seq<Card>)
    requires NonNegativeValues(sel)
    ensures IsFair(SelectedValue(sel), 0) <==> forall i :: 0 <= i < |sel| ==> sel[i].tradeValue == 0
  {
    TotalValueNonNegative(sel);
  }

  /** What the fairness indicator shows. */
  datatype Banner = FairTrade | Unfair(difference: nat, offersMore: bool)

  /** The fairness indicator: "Fair Trade", or the absolute difference with
      "(You offer more)" or "(You offer less)". */
  function FairnessBanner(sel: seq<Card>, target: Card): (b: Banner)
    ensures b.FairTrade? <==> IsFair(SelectedValue(sel), target.tradeValue)
    ensures b.Unfair? ==> b.difference == Abs(SelectedValue(sel) - target.tradeValue)
    ensures b.Unfair? ==> (b.offersMore <==> SelectedValue(sel) > target.tradeValue)
  {
    var valueDifference := SelectedValue(sel) - target.tradeValue;
    if IsFair(SelectedValue(sel), target.tradeValue) then FairTrade
    else Unfair(Abs(valueDifference), valueDifference > 0)
  }

  /** Toggling a card in adds its value; toggling it out subtracts it. */
  lemma ToggleValue(sel: seq<Card>, card: Card)
    requires UniqueIds(sel)
    ensures !HasId(sel, card.id) ==> SelectedValue(ToggleCard(sel, card)) == SelectedValue(sel) + card.tradeValue
    ensures card in sel ==> SelectedValue(ToggleCard(sel, card)) == SelectedValue(sel) - card.tradeValue
  {
    if !HasId(sel, card.id) {
      TotalValueAppend(sel, [card]);
    }
    if card in sel {
      assert HasId(sel, card.id) by {
        var k :| 0 <= k < |sel| && sel[k] == card;
      }
      var p, q := OtherId(card.id), SameId(card.id);
      TotalValueSplit(sel, q, p);
      assert Filter(sel, q) == [card] by {
        SameIdIsOnly(sel, card);
      }
      assert TotalValue([card]) == card.tradeValue;
    }
  }

  /** With unique ids, the only selected card with `card`'s id is `card`. */
  lemma {:induction false} SameIdIsOnly(sel: seq<Card>, card: Card)
    requires UniqueIds(sel) && card in sel
    ensures Filter(sel, SameId(card.id)) == [card]
  {
    assert sel == [sel[0]] + sel[1..];
    UniqueIdsCons(sel[0], sel[1..]);
    if sel[0] == card {
      forall c | c in sel[1..] ensures !SameId(card.id)(c) {
        var k :| 0 <= k < |sel[1..]| && sel[1..][k] == c;
      }
      FilterKeepsNone(sel[1..], SameId(card.id));
    } else {
      SameIdIsOnly(sel[1..], card);
    }
  }

  /** The "Propose Trade" button is enabled only with a nonempty selection
      and no submission in progress. */
  predicate SubmitEnabled(sel: seq<Card>, isSubmitting: bool)
    ensures SubmitEnabled(sel, isSubmitting) ==> !isSubmitting
    ensures !isSubmitting ==> (SubmitEnabled(sel, isSubmitting) <==> exists c :: c in sel)
  {
    assert sel != [] ==> sel[0] in sel;
    |sel| != 0 && !isSubmitting
  }

  // ---------------------------------------------------------------- dialog

  /** What is handed to `onSubmitTrade`. */
  datatype Offer = Offer(offeredCards: seq<Card>, message: string)

  /** The dialog's state. */
  class OfferDialog {
    const targetCard: Card
    var selectedCards: seq<Card>
    var tradeMessage: string
    var isSubmitting: bool

    /** Between two handlers ids are unique and nothing is being submitted. */
    ghost predicate Valid()
      reads this
    {
      UniqueIds(selectedCards) && !isSubmitting
    }

    constructor (target: Card)
      ensures Valid()
      ensures targetCard == target && selectedCards == [] && tradeMessage == "" && !isSubmitting
    {
      targetCard := target;
      selectedCards := [];
      tradeMessage := "";
      isSubmitting := false;
    }

    /** A click on a card of the user's collection. */
    method ToggleCardSelection(card: Card)
      requires Valid()
      modifies this
      ensures Valid()
      ensures selectedCards == ToggleCard(old(selectedCards), card)
      ensures tradeMessage == old(tradeMessage) && isSubmitting == old(isSubmitting)
    {
      ToggleKeepsUniqueIds(selectedCards, card);
      selectedCards := ToggleCard(selectedCards, card);
    }

    /** A change of the message text area. */
    method SetTradeMessage(message: string)
      requires Valid()
      modifies this
      ensures Valid()
      ensures tradeMessage == message
      ensures selectedCards == old(selectedCards) && isSubmitting == old(isSubmitting)
    {
      tradeMessage := message;
    }

    /** `handleSubmit`. The callback is outside the model: `callbackSucceeds`
        says whether it returned or threw. `submitted` is what the callback
        was called with, if it was called; `closed` says whether `onClose`
        was called. */
    method HandleSubmit(callbackSucceeds: bool) returns (submitted: Option<Offer>, closed: bool)
      requires Valid()
      modifies this
      ensures Valid()
      ensures old(selectedCards) == [] ==>
        submitted == None && !closed &&
        selectedCards == old(selectedCards) && tradeMessage == old(tradeMessage)
      ensures old(selectedCards) != [] ==>
        submitted == Some(Offer(old(selectedCards), old(tradeMessage))) && closed == callbackSucceeds
      ensures old(selectedCards) != [] && callbackSucceeds ==> selectedCards == [] && tradeMessage == ""
      ensures !callbackSucceeds ==> selectedCards == old(selectedCards) && tradeMessage == old(tradeMessage)
      ensures !isSubmitting
      ensures submitted.Some? <==> SubmitEnabled(old(selectedCards), old(isSubmitting))
    {
      submitted, closed := None, false;
      if |selectedCards| == 0 {
        return;
      }
      isSubmitting := true;
      submitted := Some(Offer(selectedCards, tradeMessage));
      if callbackSucceeds {
        closed := true;
        selectedCards := [];
        tradeMessage := "";
      }
      isSubmitting := false;
    }
  }

  // ---------------------------------------------------------------- scenarios

  /** Against the seed catalogue's first card (value 85): offering the
      second and fourth cards (42 + 30 = 72) falls short by 13, more than a
      tenth of 85, so the offer is unfair; offering the third and fifth
      (65 + 14 = 79) falls short by 6 and is fair. */
  lemma SeedOffers()
    ensures !IsFair(SelectedValue([MockCards[1], MockCards[3]]), MockCards[0].tradeValue)
    ensures IsFair(SelectedValue([MockCards[2], MockCards[4]]), MockCards[0].tradeValue)
  {
    var a, b := [MockCards[1], MockCards[3]], [MockCards[2], MockCards[4]];
    assert TotalValue(a) == 42 + TotalValue(a[1..]) && TotalValue(a[1..]) == 30 + TotalValue(a[2..]);
    assert TotalValue(b) == 65 + TotalValue(b[1..]) && TotalValue(b[1..]) == 14 + TotalValue(b[2..]);
  }
}
