/** Dealing (src/BlackjackLogic/DealerLogic.cpp). Each method that deals returns whether the
    shoe had the cards; where it had not, the source throws NotEnoughCards. */
module DealerLogic {
  import opened Cards
  import PointsTools
  import opened Rules
  import opened GameTable
  import opened Invariant
  import opened DataLayer

  method Init(db: BjDatabase) returns (ghost cards: seq<Card>)
    requires db.Valid()
    modifies db
    ensures db.Valid() && fresh(db.Repr - old(db.Repr))
    ensures IsDecks(cards, 5)
    ensures db.Model() == old(db.Model()).(shoe := Some(cards), dealer := Some([]))
  {
    ghost var t := db.Model();
    db.shoe := new Shoe(SHOE_SIZE);
    db.dealersHand := new Hand();
    db.Repr := db.Repr + {db.shoe, db.dealersHand};
    cards := db.shoe.cards;
    db.Shows(t.(shoe := Some(cards), dealer := Some([])));
  }

  /** The first cards to come out of a shoe. */
  function Drawn(shoe: seq<Card>, n: nat): seq<Card>
    requires n <= 2 && n <= |shoe|
  {
    if n == 0 then [] else if n == 1 then [shoe[|shoe| - 1]] else LastTwo(shoe)
  }

  lemma DrawnOneMore(shoe: seq<Card>, n: nat, hand: seq<Card>)
    requires n < 2 && n < |shoe|
    ensures hand + Drawn(shoe, n) + [shoe[|shoe| - 1 - n]] == hand + Drawn(shoe, n + 1)
    ensures shoe[..|shoe| - n] == shoe[..|shoe| - n - 1] + [shoe[|shoe| - 1 - n]]
  {}

  method DealFirstDealersCards(shoe: Shoe, dealersHand: Hand) returns (ok: bool)
    modifies shoe, dealersHand
    ensures ok <==> |old(shoe.cards)| >= 2
    ensures ok ==> shoe.cards == old(shoe.cards)[..|old(shoe.cards)| - 2]
    ensures ok ==> dealersHand.cards == old(dealersHand.cards) + LastTwo(old(shoe.cards))
  {
    ghost var all := shoe.cards;
    for i := 0 to 2
      invariant i <= |all| && shoe.cards == all[..|all| - i]
      invariant dealersHand.cards == old(dealersHand.cards) + Drawn(all, i)
    {
      var card := shoe.DealCard();
      if card.None? {
        return false;
      }
      dealersHand.cards := dealersHand.cards + [card.value];
      DrawnOneMore(all, i, old(dealersHand.cards));
    }
    return true;
  }

  method DealTwo(shoe: Shoe, hand: PlayerHand) returns (ok: bool)
    modifies shoe, hand
    ensures ok <==> |old(shoe.cards)| >= 2
    ensures ok ==> shoe.cards == old(shoe.cards)[..|old(shoe.cards)| - 2]
    ensures ok ==> hand.Value() == old(hand.Value()).(cards := old(hand.cards) + LastTwo(old(shoe.cards)))
  {
    ghost var all := shoe.cards;
    for i := 0 to 2
      invariant i <= |all| && shoe.cards == all[..|all| - i]
      invariant hand.bet == old(hand.bet) && hand.state == old(hand.state)
      invariant hand.cards == old(hand.cards) + Drawn(all, i)
    {
      var card := shoe.DealCard();
      if card.None? {
        return false;
      }
      hand.cards := hand.cards + [card.value];
      DrawnOneMore(all, i, old(hand.cards));
    }
    return true;
  }

  function DealOne(seats: map<int, Seat>, k: int, shoe: seq<Card>): map<int, Seat>
    requires k in seats && |shoe| >= 2
  {
    seats[k := seats[k].(cards := seats[k].cards + LastTwo(shoe))]
  }

  method DealToPlayer(db: BjDatabase, k: int) returns (ok: bool)
    requires db.Valid() && k in db.players && db.shoe != null
    modifies db.Repr - {db}
    ensures db.Valid()
    ensures var t, shoe := old(db.Model()), old(db.shoe.cards);
      && (ok <==> |shoe| >= 2)
      && (ok ==> db.Model() == t.(seats := DealOne(t.seats, k, shoe), shoe := Some(shoe[..|shoe| - 2])))
  {
    ghost var t, shoe := db.Model(), db.shoe.cards;
    assert db.ValidPlayer(k);
    ok := DealTwo(db.shoe, db.players[k].hands[0]);
    if ok {
      ghost var after := t.(seats := DealOne(t.seats, k, shoe), shoe := Some(shoe[..|shoe| - 2]));
      forall j | j in db.players ensures db.players[j].hands[0].Value() == after.seats[j] {
        assert db.ValidPlayer(j);
      }
      forall j | j in db.users ensures db.users[j].Value() == after.users[j] {
        assert db.ValidUser(j);
      }
      db.Shows(after);
    }
  }

  /** Two cards to every player, in the order in which the map is walked. */
  method DealPlayersCards(db: BjDatabase) returns (ok: bool, ghost order: seq<int>)
    requires db.Valid() && db.shoe != null
    modifies db.Repr - {db}
    ensures db.Valid()
    ensures IsOrder(order, db.players.Keys) && forall k :: k in order ==> k in old(db.Model()).seats
    ensures var t := old(db.Model());
      var dealt := DealPlayers(t.seats, order, old(db.shoe.cards));
      && (ok <==> dealt.Some?)
      && (ok ==> db.Model() == t.(seats := dealt.value.0, shoe := Some(dealt.value.1)))
  {
    var keys := IterationOrder(db.players.Keys);
    order := keys;
    ghost var t, cards := db.Model(), db.shoe.cards;
    ghost var seats, rest := t.seats, cards;
    for i := 0 to |keys|
      invariant db.Valid()
      invariant DealPlayers(t.seats, keys[..i], cards) == Some((seats, rest))
      invariant db.shoe.cards == rest && db.Model() == t.(seats := seats, shoe := Some(rest))
    {
      DealOneMore(t.seats, keys, i, cards, seats, rest);
      ok := DealToPlayer(db, keys[i]);
      if !ok {
        return;
      }
      seats, rest := DealOne(seats, keys[i], rest), rest[..|rest| - 2];
    }
    assert keys[..|keys|] == keys;
    ok := true;
  }

  /** One step of the walk over the players; if it fails, so does the whole walk. */
  lemma DealOneMore(seats: map<int, Seat>, keys: seq<int>, i: nat, cards: seq<Card>, dealt: map<int, Seat>, rest: seq<Card>)
    requires NoDuplicates(keys) && i < |keys| && forall j :: 0 <= j < |keys| ==> keys[j] in seats
    requires DealPlayers(seats, keys[..i], cards) == Some((dealt, rest))
    ensures |rest| >= 2 ==>
      DealPlayers(seats, keys[..i + 1], cards)
      == Some((DealOne(dealt, keys[i], rest), rest[..|rest| - 2]))
    ensures |rest| < 2 ==> DealPlayers(seats, keys, cards).None?
  {
    assert keys[..i + 1][..i] == keys[..i];
    DealGivesTwo(seats, keys[..i], cards);
    DealGivesTwo(seats, keys, cards);
  }

  method DealersHandPoints(dealersHand: Hand) returns (points: int)
    ensures points == PointsTools.Points(dealersHand.cards)
  {
    points := PointsTools.GetHandPoints(dealersHand.cards);
  }

  /** The dealer draws while he has fewer than 17 points. The smart total can fall on the way,
      so it is the total with aces as 1 that shows the loop ends. */
  method DealFinalDealersCards(shoe: Shoe, dealersHand: Hand) returns (ok: bool)
    modifies shoe, dealersHand
    ensures var drawn := DealDealer(old(dealersHand.cards), old(shoe.cards));
      && (ok <==> drawn.Some?)
      && (ok ==> dealersHand.cards == drawn.value.0 && shoe.cards == drawn.value.1)
  {
    var points := DealersHandPoints(dealersHand);
    while points < PointsTools.DEALER_POINTS_LIMIT
      invariant points == PointsTools.Points(dealersHand.cards)
      invariant DealDealer(dealersHand.cards, shoe.cards) == DealDealer(old(dealersHand.cards), old(shoe.cards))
      decreases PointsTools.DEALER_POINTS_LIMIT - PointsTools.Hard(dealersHand.cards)
    {
      var card := shoe.DealCard();
      if card.None? {
        return false;
      }
      PointsTools.Push(dealersHand.cards, card.value);
      dealersHand.cards := dealersHand.cards + [card.value];
      points := DealersHandPoints(dealersHand);
    }
    return true;
  }
}
