/** The collection grid: it shows a copy of the collection sorted by name,
    value, rarity or id, the collection's total value, and tracks a card
    being dragged and the position it hovers over. Dropping does not move
    anything. */
module CollectionGrid {
  import opened Wrappers
  import opened Strings
  import opened MockData

  // ---------------------------------------------------------------- order

  datatype SortOption = ByName | ByValue | ByRarity | ByRecent

  datatype ViewMode = GridView | ListView

  /** The rarity labels from lowest to highest. */
  const RarityOrder: seq<string> := ["Common", "Uncommon", "Rare", "Ultra Rare", "Secret Rare"]

  /** `list.indexOf(v)`: the first position of `v`, or -1. */
  function IndexOf(list: seq<string>, v: string): (r: int)
    ensures -1 <= r < |list|
    ensures r == -1 <==> v !in list
    ensures r >= 0 ==> list[r] == v && v !in list[..r]
  {
    if list == [] then -1
    else if list[0] == v then 0
    else
      var k := IndexOf(list[1..], v);
      assert list[1..][..if k < 0 then 0 else k] == list[1..if k < 0 then 1 else k + 1];
      if k < 0 then -1 else k + 1
  }

  /** The position of a rarity in `RarityOrder`. */
  function Rank(r: Rarity): nat
  {
    match r
    case Common => 0
    case Uncommon => 1
    case Rare => 2
    case UltraRare => 3
    case SecretRare => 4
  }

  /** Every rarity's label is found in `RarityOrder`, at its rank. */
  lemma IndexOfRarity(r: Rarity)
    ensures IndexOf(RarityOrder, r.Label()) == Rank(r)
  {
    assert RarityOrder[Rank(r)] == r.Label();
    var k := IndexOf(RarityOrder, r.Label());
    assert 0 <= k && RarityOrder[k] == r.Label();
  }

  /** The rarity case of the comparator subtracts ranks, and distinct
      rarities have distinct ranks. */
  lemma RarityDifference(a: Rarity, b: Rarity)
    ensures IndexOf(RarityOrder, b.Label()) - IndexOf(RarityOrder, a.Label()) == Rank(b) - Rank(a)
    ensures Rank(a) == Rank(b) <==> a == b
  {
    IndexOfRarity(a);
    IndexOfRarity(b);
  }

  /** The comparator of `sortedCards`: negative when `a` goes first. */
  function Compare(order: SortOption, a: Card, b: Card): (r: int)
    ensures order == ByName ==> (r == 0 <==> a.name == b.name)
    ensures order == ByValue ==> (r < 0 <==> a.tradeValue > b.tradeValue) && (r == 0 <==> a.tradeValue == b.tradeValue)
    ensures order == ByRarity ==> (r < 0 <==> Rank(a.rarity) > Rank(b.rarity)) && (r == 0 <==> a.rarity == b.rarity)
    ensures order == ByRecent ==> (r == 0 <==> a.id == b.id)
  {
    match order
    case ByName =>
      StrCompareAntisymmetric(a.name, b.name);
      StrCompare(a.name, b.name)
    case ByValue => b.tradeValue - a.tradeValue
    case ByRarity =>
      RarityDifference(a.rarity, b.rarity);
      IndexOf(RarityOrder, b.rarity.Label()) - IndexOf(RarityOrder, a.rarity.Label())
    case ByRecent =>
      StrCompareAntisymmetric(a.id, b.id);
      StrCompare(a.id, b.id)
  }

  /** `a` may stand before `b`. */
  predicate InOrder(order: SortOption, a: Card, b: Card)
  {
    Compare(order, a, b) <= 0
  }

  /** Each option orders by the key its menu entry names: name and id
      ascending, value and rarity descending. */
  lemma InOrderMeans(order: SortOption, a: Card, b: Card)
    ensures order == ByName ==> (InOrder(order, a, b) <==> StrCompare(a.name, b.name) <= 0)
    ensures order == ByValue ==> (InOrder(order, a, b) <==> a.tradeValue >= b.tradeValue)
    ensures order == ByRarity ==> (InOrder(order, a, b) <==> Rank(a.rarity) >= Rank(b.rarity))
    ensures order == ByRecent ==> (InOrder(order, a, b) <==> StrCompare(a.id, b.id) <= 0)
  {
    IndexOfRarity(a.rarity);
    IndexOfRarity(b.rarity);
  }

  /** Any two cards can be put in order. */
  lemma InOrderTotal(order: SortOption, a: Card, b: Card)
    ensures InOrder(order, a, b) || InOrder(order, b, a)
    ensures !InOrder(order, a, b) ==> InOrder(order, b, a)
  {
    match order
    case ByName => StrCompareAntisymmetric(a.name, b.name);
    case ByRecent => StrCompareAntisymmetric(a.id, b.id);
    case _ =>
  }

  lemma InOrderTransitive(order: SortOption, a: Card, b: Card, c: Card)
    requires InOrder(order, a, b) && InOrder(order, b, c)
    ensures InOrder(order, a, c)
  {
    match order
    case ByName => StrCompareTransitive(a.name, b.name, c.name);
    case ByRecent => StrCompareTransitive(a.id, b.id, c.id);
    case _ =>
  }

  predicate Sorted(order: SortOption, s: seq<Card>)
  {
    forall i, j :: 0 <= i < j < |s| ==> InOrder(order, s[i], s[j])
  }

  // ---------------------------------------------------------------- sort

  /** Exchanges two elements of `a`. */
  method Swap(a: array<Card>, i: nat, j: nat)
    requires i < a.Length && j < a.Length
    modifies a
    ensures a[..] == old(a[..])[i := old(a[j])][j := old(a[i])]
    ensures multiset(a[..]) == multiset(old(a[..]))
  {
    a[i], a[j] := a[j], a[i];
  }

  /** While `s[j]` moves down through `s[..i + 1]`: every other pair in
      that prefix is in order ... */
  predicate SortedExcept(order: SortOption, s: seq<Card>, i: nat, j: nat)
    requires i < |s|
  {
    forall k, l :: 0 <= k < l <= i && k != j && l != j ==> InOrder(order, s[k], s[l])
  }

  /** ... and `s[j]` may stand before everything above it. */
  predicate BeforeAbove(order: SortOption, s: seq<Card>, i: nat, j: nat)
    requires j <= i < |s|
  {
    forall l :: j < l <= i ==> InOrder(order, s[j], s[l])
  }

  /** A sorted prefix `s[..i]` with `s[i]` not yet placed. */
  lemma InsertStart(order: SortOption, s: seq<Card>, i: nat)
    requires i < |s| && Sorted(order, s[..i])
    ensures SortedExcept(order, s, i, i) && BeforeAbove(order, s, i, i)
  {
    forall k, l | 0 <= k < l <= i && k != i && l != i
      ensures InOrder(order, s[k], s[l])
    {
      assert s[k] == s[..i][k] && s[l] == s[..i][l];
    }
  }

  /** Swapping `s[j]` with a predecessor that must follow it moves the
      element one place down and keeps both facts. */
  lemma InsertStep(order: SortOption, s: seq<Card>, t: seq<Card>, i: nat, j: nat)
    requires 0 < j <= i < |s| && SortedExcept(order, s, i, j) && BeforeAbove(order, s, i, j)
    requires !InOrder(order, s[j - 1], s[j])
    requires t == s[j - 1 := s[j]][j := s[j - 1]]
    ensures SortedExcept(order, t, i, j - 1) && BeforeAbove(order, t, i, j - 1)
  {
    InOrderTotal(order, s[j - 1], s[j]);
    forall l | j - 1 < l <= i
      ensures InOrder(order, t[j - 1], t[l])
    {
      if l > j {
        assert t[l] == s[l];
      }
    }
  }

  /** Once `s[j]` may follow its predecessor, the whole prefix is sorted. */
  lemma InsertEnd(order: SortOption, s: seq<Card>, i: nat, j: nat)
    requires j <= i < |s| && SortedExcept(order, s, i, j) && BeforeAbove(order, s, i, j)
    requires j == 0 || InOrder(order, s[j - 1], s[j])
    ensures Sorted(order, s[..i + 1])
  {
    forall k, l | 0 <= k < l <= i
      ensures InOrder(order, s[k], s[l])
    {
      if l == j && k < j - 1 {
        InOrderTransitive(order, s[k], s[j - 1], s[j]);
      }
    }
  }

  /** Moves `a[i]` down into the sorted prefix `a[..i]`: it is swapped
      past every element that must follow it. */
  method Insert(a: array<Card>, i: nat, order: SortOption)
    requires i < a.Length && Sorted(order, a[..i])
    modifies a
    ensures Sorted(order, a[..i + 1])
    ensures multiset(a[..]) == multiset(old(a[..]))
  {
    InsertStart(order, a[..], i);
    var j := i;
    while j > 0 && !InOrder(order, a[j - 1], a[j])
      invariant 0 <= j <= i
      invariant SortedExcept(order, a[..], i, j) && BeforeAbove(order, a[..], i, j)
      invariant multiset(a[..]) == multiset(old(a[..]))
    {
      ghost var s := a[..];
      Swap(a, j - 1, j);
      InsertStep(order, s, a[..], i, j);
      j := j - 1;
    }
    InsertEnd(order, a[..], i, j);
  }

  /** Sorts `a` in place by insertion. */
  method SortInPlace(a: array<Card>, order: SortOption)
    modifies a
    ensures Sorted(order, a[..])
    ensures multiset(a[..]) == multiset(old(a[..]))
  {
    var i := 0;
    while i < a.Length
      invariant 0 <= i <= a.Length
      invariant Sorted(order, a[..i])
      invariant multiset(a[..]) == multiset(old(a[..]))
    {
      Insert(a, i, order);
      i := i + 1;
    }
    assert a[..a.Length] == a[..];
  }

  /** `sortedCards`: a sorted copy; `cards` itself is a value and is not
      reordered. */
  method SortedCards(cards: seq<Card>, order: SortOption) returns (r: seq<Card>)
    ensures Sorted(order, r)
    ensures multiset(r) == multiset(cards) && |r| == |cards|
  {
    var a := new Card[|cards|](i requires 0 <= i < |cards| => cards[i]);
    assert a[..] == cards;
    SortInPlace(a, order);
    r := a[..];
    assert |multiset(r)| == |multiset(cards)|;
  }

  /** Taking one card out of a list takes its value out of the total. */
  lemma {:induction false} TotalValueRemove(b: seq<Card>, k: nat)
    requires k < |b|
    ensures TotalValue(b) == b[k].tradeValue + TotalValue(b[..k] + b[k + 1..])
  {
    var before, after := b[..k], b[k + 1..];
    assert b == before + ([b[k]] + after);
    TotalValueAppend(before, [b[k]] + after);
    TotalValueCons(b[k], after);
    TotalValueAppend(before, after);
  }

  lemma {:induction false} TotalValueCons(c: Card, rest: seq<Card>)
    ensures TotalValue([c] + rest) == c.tradeValue + TotalValue(rest)
  {
    assert ([c] + rest)[1..] == rest;
  }

  /** Taking one card out of a list takes one copy of it out of the
      multiset. */
  lemma MultisetRemove(b: seq<Card>, k: nat)
    requires k < |b|
    ensures multiset(b[..k] + b[k + 1..]) == multiset(b) - multiset{b[k]}
  {
    assert b == b[..k] + [b[k]] + b[k + 1..];
    assert multiset(b) == multiset(b[..k]) + multiset{b[k]} + multiset(b[k + 1..]);
  }

  /** Matching the head of `a` with a copy in `b` leaves two permutations of
      each other. */
  lemma {:induction false} PermutationTail(a: seq<Card>, b: seq<Card>, k: nat)
    requires multiset(a) == multiset(b) && a != [] && k < |b| && b[k] == a[0]
    ensures multiset(a[1..]) == multiset(b[..k] + b[k + 1..])
  {
    MultisetRemove(b, k);
    assert multiset(a) == multiset{a[0]} + multiset(a[1..]) by {
      assert a == [a[0]] + a[1..];
    }
    assert multiset(a[1..]) == multiset(a) - multiset{a[0]};
  }

  /** Sorting keeps the total value. */
  lemma {:induction false} TotalValuePermutation(a: seq<Card>, b: seq<Card>)
    requires multiset(a) == multiset(b)
    ensures TotalValue(a) == TotalValue(b)
    decreases |a|
  {
    if a != [] {
      assert a[0] in multiset(b);
      var k :| 0 <= k < |b| && b[k] == a[0];
      PermutationTail(a, b, k);
      TotalValuePermutation(a[1..], b[..k] + b[k + 1..]);
      TotalValueRemove(b, k);
    } else {
      assert |multiset(b)| == 0;
    }
  }

  // ---------------------------------------------------------------- drag

  /** The grid's state over a collection it never reorders. */
  class Grid {
    const cards: seq<Card>
    const editable: bool
    var sortBy: SortOption
    var viewMode: ViewMode
    var draggedCard: Option<Card>
    var dragOverIndex: Option<nat>

    /** A position is hovered only while a card is being dragged. */
    predicate Valid()
      reads this
    {
      dragOverIndex.Some? ==> draggedCard.Some?
    }

    constructor (cards: seq<Card>, editable: bool)
      ensures Valid()
      ensures this.cards == cards && this.editable == editable
      ensures sortBy == ByName && viewMode == GridView && draggedCard == None && dragOverIndex == None
    {
      this.cards := cards;
      this.editable := editable;
      sortBy := ByName;
      viewMode := GridView;
      draggedCard := None;
      dragOverIndex := None;
    }

    /** `totalValue`, over the collection as given. */
    function TotalValueShown(): (r: int)
      reads this
      ensures cards == [] ==> r == 0
      ensures NonNegativeValues(cards) ==> r >= 0
    {
      var total := TotalValue(cards);
      assert NonNegativeValues(cards) ==> total >= 0 by {
        if NonNegativeValues(cards) {
          TotalValueNonNegative(cards);
        }
      }
      total
    }

    /** A sort menu entry. */
    method SetSortBy(option: SortOption)
      modifies this
      ensures sortBy == option
      ensures viewMode == old(viewMode) && draggedCard == old(draggedCard) && dragOverIndex == old(dragOverIndex)
    {
      sortBy := option;
    }

    /** The grid and list buttons. */
    method SetViewMode(mode: ViewMode)
      modifies this
      ensures viewMode == mode
      ensures sortBy == old(sortBy) && draggedCard == old(draggedCard) && dragOverIndex == old(dragOverIndex)
    {
      viewMode := mode;
    }

    /** `handleDragStart`: an editable grid remembers the dragged card. */
    method HandleDragStart(card: Card)
      requires Valid()
      modifies this
      ensures Valid()
      ensures draggedCard == (if editable then Some(card) else old(draggedCard))
      ensures dragOverIndex == old(dragOverIndex) && sortBy == old(sortBy) && viewMode == old(viewMode)
    {
      if !editable {
        return;
      }
      draggedCard := Some(card);
    }

    /** `handleDragOver`: the hovered position is recorded only in an
        editable grid while a card is being dragged. */
    method HandleDragOver(index: nat)
      requires Valid()
      modifies this
      ensures Valid()
      ensures dragOverIndex == (if editable && draggedCard.Some? then Some(index) else old(dragOverIndex))
      ensures draggedCard == old(draggedCard) && sortBy == old(sortBy) && viewMode == old(viewMode)
    {
      if !editable || draggedCard.None? {
        return;
      }
      dragOverIndex := Some(index);
    }

    /** `handleDragLeave`: an editable grid forgets the hovered position. */
    method HandleDragLeave()
      requires Valid()
      modifies this
      ensures Valid()
      ensures dragOverIndex == (if editable then None else old(dragOverIndex))
      ensures draggedCard == old(draggedCard) && sortBy == old(sortBy) && viewMode == old(viewMode)
    {
      if !editable {
        return;
      }
      dragOverIndex := None;
    }

    /** `handleDrop`: in an editable grid with a dragged card, both drag
        fields are reset and the move is only reported (returned here as
        the card and the target position); the cards keep their order. */
    method HandleDrop(targetIndex: nat) returns (reported: Option<(Card, nat)>)
      requires Valid()
      modifies this
      ensures Valid()
      ensures editable && old(draggedCard).Some? ==>
        reported == Some((old(draggedCard).value, targetIndex)) && draggedCard == None && dragOverIndex == None
      ensures !(editable && old(draggedCard).Some?) ==>
        reported == None && draggedCard == old(draggedCard) && dragOverIndex == old(dragOverIndex)
      ensures sortBy == old(sortBy) && viewMode == old(viewMode)
    {
      reported := None;
      if !editable || draggedCard.None? {
        return;
      }
      reported := Some((draggedCard.value, targetIndex));
      draggedCard := None;
      dragOverIndex := None;
    }

    /** `handleDragEnd`: both drag fields are reset, editable or not. */
    method HandleDragEnd()
      modifies this
      ensures Valid()
      ensures draggedCard == None && dragOverIndex == None
      ensures sortBy == old(sortBy) && viewMode == old(viewMode)
    {
      draggedCard := None;
      dragOverIndex := None;
    }
  }

  /** The total the grid shows does not depend on the order the cards are
      displayed in, whichever sort option is chosen. */
  lemma TotalValueShownIgnoresOrder(g: Grid, shown: seq<Card>)
    requires multiset(shown) == multiset(g.cards)
    ensures g.TotalValueShown() == TotalValue(shown)
  {
    TotalValuePermutation(g.cards, shown);
  }
}
