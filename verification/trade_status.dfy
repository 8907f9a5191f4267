/** The rules behind the trade-status card: which cards a trade names, what
    they are worth, how far its escrow has come, which colour its status
    badge takes, and which of accept, decline and cancel the viewer is
    offered. The card renders; these functions decide what it renders. */
module TradeStatus {
  import opened Wrappers
  import opened Seqs
  import opened MockData

  // ---------------------------------------------------------------- cards

  function IdIn(ids: seq<string>): Card -> bool
  {
    (c: Card) => c.id in ids
  }

  /** `userCards.filter(c => ids.includes(c.id))`: the catalogue cards a trade
      names, in catalogue order (not in the order of `ids`). */
  function ResolveCards(userCards: seq<Card>, ids: seq<string>): (r: seq<Card>)
    ensures forall c :: c in r <==> c in userCards && c.id in ids
    ensures IsSubsequence(r, userCards)
  {
    FilterIsSubsequence(userCards, IdIn(ids));
    Filter(userCards, IdIn(ids))
  }

  /** The "Offering" list. */
  function FromCards(t: Trade, userCards: seq<Card>): (r: seq<Card>)
    ensures forall c :: c in r <==> c in userCards && c.id in t.fromCards
    ensures IsSubsequence(r, userCards)
  {
    ResolveCards(userCards, t.fromCards)
  }

  /** The "Requesting" list. */
  function ToCards(t: Trade, userCards: seq<Card>): (r: seq<Card>)
    ensures forall c :: c in r <==> c in userCards && c.id in t.toCards
    ensures IsSubsequence(r, userCards)
  {
    ResolveCards(userCards, t.toCards)
  }

  /** The catalogue cards a trade does not name and the ones it names add up
      to the catalogue's value; with non-negative values, either side of a
      trade is worth at most the whole catalogue. */
  lemma ResolvedValueBounded(userCards: seq<Card>, ids: seq<string>)
    requires NonNegativeValues(userCards)
    ensures 0 <= TotalValue(ResolveCards(userCards, ids)) <= TotalValue(userCards)
  {
    var p := IdIn(ids);
    var q := (c: Card) => c.id !in ids;
    TotalValueSplit(userCards, p, q);
    NonNegativeFilter(userCards, p);
    NonNegativeFilter(userCards, q);
    TotalValueNonNegative(Filter(userCards, p));
    TotalValueNonNegative(Filter(userCards, q));
  }

  lemma NonNegativeFilter(cards: seq<Card>, p: Card -> bool)
    requires NonNegativeValues(cards)
    ensures NonNegativeValues(Filter(cards, p))
  {
    var r := Filter(cards, p);
    forall i | 0 <= i < |r| ensures r[i].tradeValue >= 0 {
      assert r[i] in cards;
    }
  }

  /** A trade naming no card shows an empty list worth 0. */
  lemma ResolveNoIds(userCards: seq<Card>)
    ensures ResolveCards(userCards, []) == []
    ensures TotalValue(ResolveCards(userCards, [])) == 0
  {
    FilterKeepsNone(userCards, IdIn([]));
  }

  /** A list in which no card carries `id` resolves `[id]` to nothing. */
  lemma ResolveAbsentId(cards: seq<Card>, id: string)
    requires forall j :: 0 <= j < |cards| ==> cards[j].id != id
    ensures Filter(cards, IdIn([id])) == []
  {
    forall c | c in cards ensures !IdIn([id])(c) {
    }
    FilterKeepsNone(cards, IdIn([id]));
  }

  /** A single id that exactly one catalogue card carries resolves to that
      card alone. */
  lemma ResolveUniqueId(userCards: seq<Card>, id: string, k: nat)
    requires k < |userCards| && userCards[k].id == id
    requires forall j :: 0 <= j < |userCards| && j != k ==> userCards[j].id != id
    ensures ResolveCards(userCards, [id]) == [userCards[k]]
  {
    var p := IdIn([id]);
    var before, after := userCards[..k], userCards[k + 1..];
    assert userCards == before + ([userCards[k]] + after);
    FilterAppend(before, [userCards[k]] + after, p);
    FilterAppend([userCards[k]], after, p);
    assert forall j :: 0 <= j < |before| ==> before[j] == userCards[j];
    assert forall j :: 0 <= j < |after| ==> after[j] == userCards[k + 1 + j];
    ResolveAbsentId(before, id);
    ResolveAbsentId(after, id);
  }

  /** The seed trade offers Charizard, worth 85 ... */
  lemma SeedTradeOffers()
    ensures FromCards(MockTrades[0], MockCards) == [MockCards[0]]
    ensures TotalValue(FromCards(MockTrades[0], MockCards)) == 85
  {
    ResolveUniqueId(MockCards, "1", 0);
    assert TotalValue([MockCards[0]]) == 85;
  }

  /** ... for Pikachu, worth 42. */
  lemma SeedTradeRequests()
    ensures ToCards(MockTrades[0], MockCards) == [MockCards[1]]
    ensures TotalValue(ToCards(MockTrades[0], MockCards)) == 42
  {
    ResolveUniqueId(MockCards, "2", 1);
    assert TotalValue([MockCards[1]]) == 42;
  }

  // ---------------------------------------------------------------- badge

  /** `getStatusColor`. */
  function StatusColor(s: Status): (r: string)
    ensures r == "bg-red-500" <==> s == Declined || s == Cancelled
    ensures r == "bg-yellow-500" <==> s == Pending
  {
    match s
    case Pending => "bg-yellow-500"
    case Accepted => "bg-blue-500"
    case Completed => "bg-green-500"
    case Declined | Cancelled => "bg-red-500"
  }

  /** Two statuses share a colour exactly when they are equal or both are
      closed without a trade (declined, cancelled). */
  lemma StatusColorShared(s: Status, t: Status)
    ensures StatusColor(s) == StatusColor(t) <==> s == t || ({s, t} <= {Declined, Cancelled})
  {
  }

  datatype Shape = ClockIcon | CheckCircleIcon | XCircleIcon

  /** `getStatusIcon`: the shape and the colour of the status icon. */
  function StatusIcon(s: Status): (r: (Shape, string))
    ensures r.0 == CheckCircleIcon <==> s == Accepted || s == Completed
    ensures r.0 == XCircleIcon <==> r.1 == "text-red-500"
  {
    match s
    case Pending => (ClockIcon, "text-yellow-500")
    case Accepted => (CheckCircleIcon, "text-green-500")
    case Declined => (XCircleIcon, "text-red-500")
    case Completed => (CheckCircleIcon, "text-green-500")
    case Cancelled => (XCircleIcon, "text-red-500")
  }

  /** The icon and the badge agree on red; an accepted trade has a green
      icon but a blue badge. */
  lemma IconAndBadge(s: Status)
    ensures StatusIcon(s).1 == "text-red-500" <==> StatusColor(s) == "bg-red-500"
    ensures s == Accepted ==> StatusIcon(s).1 == "text-green-500" && StatusColor(s) == "bg-blue-500"
  {
  }

  // ---------------------------------------------------------------- escrow

  /** The position of an escrow stage in its order. */
  function Stage(e: Escrow): nat
  {
    match e
    case EscrowPending => 0
    case ReceivedFrom => 1
    case ReceivedTo => 2
    case EscrowCompleted => 3
  }

  /** `getEscrowProgress`: the value of the progress bar. */
  function EscrowProgress(e: Option<Escrow>): (r: int)
    ensures 0 <= r <= 100
    ensures r == 0 <==> e.None? || e == Some(EscrowPending)
    ensures r == 100 <==> e == Some(EscrowCompleted)
  {
    match e
    case None => 0
    case Some(EscrowPending) => 0
    case Some(ReceivedFrom) => 50
    case Some(ReceivedTo) => 75
    case Some(EscrowCompleted) => 100
  }

  /** Progress never goes back along the escrow order, and strictly grows
      after the first stage. */
  lemma EscrowProgressMonotone(a: Escrow, b: Escrow)
    ensures Stage(a) <= Stage(b) ==> EscrowProgress(Some(a)) <= EscrowProgress(Some(b))
    ensures 1 <= Stage(a) < Stage(b) ==> EscrowProgress(Some(a)) < EscrowProgress(Some(b))
  {
  }

  /** `getEscrowText`, for the trade as seen by `viewer`. The initiator is
      the viewer who sent the trade, and the sender is looked up among
      `users` by the trade's `fromUser`. A sender missing from `users`
      renders as "undefined", which is what the template literal makes of
      `fromUser?.username`. */
  function EscrowText(t: Trade, users: seq<User>, viewer: Option<string>): (r: string)
    ensures t.escrowStatus.None? <==> r == "Not started"
    ensures t.escrowStatus == Some(ReceivedFrom) ==> "Received cards from " <= r
  {
    match t.escrowStatus
    case None => "Not started"
    case Some(EscrowPending) => "Waiting for cards to be sent"
    case Some(ReceivedFrom) =>
      var fromUser := UserById(users, t.fromUser);
      "Received cards from " + (if IsInitiator(t, viewer) then "you" else if fromUser.Some? then fromUser.value.username else "undefined")
    case Some(ReceivedTo) => "Both sets of cards received"
    case Some(EscrowCompleted) => "Trade completed successfully"
  }

  /** After the fixed prefix the received-from text names the sender: "you"
      when the viewer sent the trade, otherwise the username of the first
      user whose id is the trade's `fromUser`, and "undefined" when there is
      no such user. */
  lemma EscrowTextNamesSender(t: Trade, users: seq<User>, viewer: Option<string>)
    requires t.escrowStatus == Some(ReceivedFrom)
    ensures viewer == Some(t.fromUser) ==> EscrowText(t, users, viewer)[20..] == "you"
    ensures viewer != Some(t.fromUser) ==>
      forall k | 0 <= k < |users| && users[k].id == t.fromUser && (forall j :: 0 <= j < k ==> users[j].id != t.fromUser) ::
        EscrowText(t, users, viewer)[20..] == users[k].username
    ensures viewer != Some(t.fromUser) && (forall k :: 0 <= k < |users| ==> users[k].id != t.fromUser) ==>
      EscrowText(t, users, viewer)[20..] == "undefined"
  {
  }

  /** The escrow panel is shown for an accepted trade with an escrow stage,
      and so never beside the accept, decline and cancel buttons. */
  predicate EscrowPanelShown(t: Trade)
    ensures EscrowPanelShown(t) ==> forall viewer, hasHandler :: Actions(t, viewer, hasHandler) == {}
  {
    t.status == Accepted && t.escrowStatus.Some?
  }

  /** The "send your cards" warning is shown inside the panel, at the
      pending stage: exactly when the panel's progress bar stands at 0. */
  predicate SendCardsWarningShown(t: Trade)
    ensures SendCardsWarningShown(t) <==> EscrowPanelShown(t) && EscrowProgress(t.escrowStatus) == 0
  {
    EscrowPanelShown(t) && t.escrowStatus == Some(EscrowPending)
  }

  // ---------------------------------------------------------------- actions

  /** The viewer is the sender or the receiver; with no signed-in viewer,
      nobody is involved. */
  predicate Involved(t: Trade, viewer: Option<string>)
  {
    viewer == Some(t.fromUser) || viewer == Some(t.toUser)
  }

  predicate IsInitiator(t: Trade, viewer: Option<string>)
  {
    viewer == Some(t.fromUser)
  }

  datatype Action = Accept | Decline | Cancel

  /** The action buttons: the panel is drawn only for an involved viewer with
      a handler; on a pending trade the receiver may accept or decline and
      the initiator may cancel. */
  function Actions(t: Trade, viewer: Option<string>, hasHandler: bool): (r: set<Action>)
    ensures r != {} ==> Involved(t, viewer) && hasHandler && t.status == Pending
    ensures Accept in r <==> Decline in r
    ensures Accept in r <==> t.status == Pending && hasHandler && viewer == Some(t.toUser) && t.toUser != t.fromUser
    ensures Cancel in r <==> t.status == Pending && hasHandler && viewer == Some(t.fromUser)
    ensures !(Accept in r && Cancel in r)
  {
    if !(Involved(t, viewer) && hasHandler) then {}
    else
      (if t.status == Pending && !IsInitiator(t, viewer) then {Accept, Decline} else {})
      + (if t.status == Pending && IsInitiator(t, viewer) then {Cancel} else {})
  }

  /** Declined, cancelled and completed trades offer no action, and neither
      does an accepted one. */
  lemma NoActionsOnceDecided(t: Trade, viewer: Option<string>, hasHandler: bool)
    requires t.status != Pending
    ensures Actions(t, viewer, hasHandler) == {}
  {
  }

  /** A viewer who is not a party, or a card without a handler, gets no
      action. */
  lemma NoActionsForOutsiders(t: Trade, viewer: Option<string>, hasHandler: bool)
    requires !Involved(t, viewer) || !hasHandler
    ensures Actions(t, viewer, hasHandler) == {}
  {
  }

  /** The "Trade in progress" note: inside the action panel, for an
      accepted trade. The note and the buttons never appear together. */
  predicate InProgressNoteShown(t: Trade, viewer: Option<string>, hasHandler: bool)
    ensures InProgressNoteShown(t, viewer, hasHandler) ==> Actions(t, viewer, hasHandler) == {}
  {
    Involved(t, viewer) && hasHandler && t.status == Accepted
  }

  /** On the seed trade, user2 may accept or decline, user1 may cancel, and
      user3 sees nothing. */
  lemma SeedTradeActions()
    ensures Actions(MockTrades[0], Some("user2"), true) == {Accept, Decline}
    ensures Actions(MockTrades[0], Some("user1"), true) == {Cancel}
    ensures Actions(MockTrades[0], Some("user3"), true) == {}
  {
  }
}
