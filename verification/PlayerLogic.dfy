/** Operations on a player's hands (src/BlackjackLogic/PlayerLogic.cpp, GameStatusLogic.cpp). */
module PlayerLogic {
  import opened Cards
  import PointsTools
  import Rules
  import opened GameTable
  import opened DataLayer

  method HasPlacedHisBets(player: PlayerModel) returns (placed: bool)
    ensures placed <==> forall i :: 0 <= i < |player.hands| ==> Rules.ABetIsPlaced(player.hands[i].Value())
  {
    for i := 0 to |player.hands|
      invariant forall j :: 0 <= j < i ==> Rules.ABetIsPlaced(player.hands[j].Value())
    {
      if !(player.hands[i].bet > Rules.EPSILON) {
        assert !Rules.ABetIsPlaced(player.hands[i].Value());
        return false;
      }
    }
    return true;
  }

  method AllHandsAreStanding(player: PlayerModel) returns (standing: bool)
    ensures standing <==> forall i :: 0 <= i < |player.hands| ==> player.hands[i].state == Rules.Standing
  {
    for i := 0 to |player.hands|
      invariant forall j :: 0 <= j < i ==> player.hands[j].state == Rules.Standing
    {
      if player.hands[i].state != Rules.Standing {
        return false;
      }
    }
    return true;
  }

  /** Moves the bet from the user's money to the hand, or says which exception was thrown and
      changes nothing. */
  method ExecuteBet(player: PlayerModel, bet: Rules.Wager) returns (error: Option<Rules.HandError>)
    requires |player.hands| == 1
    modifies player.userModel, player.hands[0]
    ensures error == Rules.BetError(old(player.userModel.Value()), old(player.hands[0].Value()), bet)
    ensures var money, placed, eps := old(player.userModel.money), old(player.hands[0].bet), 1.0 / 4503599627370496.0;
      error.None? <==>
        && bet.handIndex == 0 && old(player.hands[0].state) == Rules.Sitting
        && eps < bet.amount <= money + eps && placed <= eps
    ensures error.Some? ==> unchanged(player.userModel) && unchanged(player.hands[0])
    ensures error.None? ==>
      && player.userModel.Value() == old(player.userModel.Value()).(money := old(player.userModel.money) - bet.amount)
      && player.hands[0].Value() == old(player.hands[0].Value()).(bet := old(player.hands[0].bet) + bet.amount)
  {
    Rules.BetErrorsByValue(player.userModel.Value(), player.hands[0].Value(), bet);
    if bet.handIndex >= |player.hands| {
      return Some(Rules.NoSuchHand);
    }
    var hand := player.hands[bet.handIndex];
    if hand.state != Rules.Sitting {
      return Some(Rules.HandIsNotSitting);
    }
    if bet.amount <= Rules.EPSILON {
      return Some(Rules.InvalidBet);
    }
    if bet.amount > player.userModel.money + Rules.EPSILON {
      return Some(Rules.NotEnoughMoney);
    }
    if hand.bet > Rules.EPSILON {
      return Some(Rules.AlreadyPlacedABet);
    }
    player.userModel.money := player.userModel.money - bet.amount;
    hand.bet := hand.bet + bet.amount;
    return None;
  }

  datatype HitResult = Refused(error: Rules.HandError) | ShoeEmpty | Dealt(card: Card)

  /** Draws a card for a sitting hand, which stands when that busts it. */
  method ExecuteHit(player: PlayerModel, shoe: Shoe) returns (result: HitResult)
    requires |player.hands| == 1
    modifies player.hands[0], shoe
    ensures result.Refused? <==> old(player.hands[0].state) != Rules.Sitting
    ensures result.Refused? ==> unchanged(player.hands[0]) && unchanged(shoe)
    ensures result.ShoeEmpty? <==> old(player.hands[0].state) == Rules.Sitting && old(shoe.cards) == []
    ensures result.Dealt? ==>
      && old(shoe.cards) == shoe.cards + [result.card]
      && player.hands[0].Value() == Rules.AfterHit(old(player.hands[0].Value()), result.card)
  {
    var hand := player.hands[0];
    if hand.state != Rules.Sitting {
      return Refused(Rules.HandIsNotSitting);
    }
    var card := shoe.DealCard();
    if card.None? {
      return ShoeEmpty;
    }
    hand.cards := hand.cards + [card.value];
    var points := PointsTools.GetHandPoints(hand.cards);
    if PointsTools.IsBusted(points) || (|hand.cards| == 2 && points == PointsTools.BLACKJACK_POINTS) {
      hand.state := Rules.Standing;
    }
    return Dealt(card.value);
  }

  method ExecuteStand(player: PlayerModel) returns (error: Option<Rules.HandError>)
    requires |player.hands| == 1
    modifies player.hands[0]
    ensures error.Some? <==> old(player.hands[0].state) != Rules.Sitting
    ensures error.Some? ==> unchanged(player.hands[0])
    ensures error.None? ==> player.hands[0].Value() == old(player.hands[0].Value()).(state := Rules.Standing)
  {
    var hand := player.hands[0];
    if hand.state != Rules.Sitting {
      return Some(Rules.HandIsNotSitting);
    }
    hand.state := Rules.Standing;
    return None;
  }

  method Cash(hand: PlayerHand, dealersPoints: int) returns (result: Rules.CashResult)
    ensures result == Rules.Cash(hand.Value(), dealersPoints)
    ensures Rules.IsPaid(hand.Value(), dealersPoints, result)
  {
    Rules.CashFollowsThePayTable(hand.Value(), dealersPoints);
    var points := PointsTools.GetHandPoints(hand.cards);
    if PointsTools.IsBusted(points) {
      result := SetCashResultMoney(Rules.Lost, hand.bet, -1.0);
    } else if |hand.cards| == 2 && points == PointsTools.BLACKJACK_POINTS {
      result := SetCashResultMoney(Rules.Blackjack, hand.bet, Rules.BLACKJACK_WIN_MULTIPLIER);
    } else if PointsTools.IsBusted(dealersPoints) || points > dealersPoints {
      result := SetCashResultMoney(Rules.Win, hand.bet, Rules.SIMPLE_WIN_MULTIPLIER);
    } else if points < dealersPoints {
      result := SetCashResultMoney(Rules.Lost, hand.bet, -1.0);
    } else {
      result := SetCashResultMoney(Rules.Draw, hand.bet, 0.0);
    }
  }

  method SetCashResultMoney(state: Rules.CashState, bet: real, multiplier: real) returns (result: Rules.CashResult)
    ensures result == Rules.CashMoney(state, bet, multiplier)
  {
    var income := bet * multiplier;
    result := Rules.CashResult(state, bet, bet + income, income, multiplier);
  }

  // ---- GameStatusLogic ----

  method AllPlayersHavePlacedTheirBets(db: BjDatabase) returns (all: bool)
    requires db.Valid()
    ensures all <==> AllBetsPlaced(db.Model().seats)
  {
    ghost var seats := db.Model().seats;
    var order := IterationOrder(db.players.Keys);
    for i := 0 to |order|
      invariant forall j :: 0 <= j < i ==> order[j] in seats && Rules.ABetIsPlaced(seats[order[j]])
    {
      assert order[i] in order;
      assert db.ValidPlayer(order[i]);
      var placed := HasPlacedHisBets(db.players[order[i]]);
      assert placed <==> Rules.ABetIsPlaced(db.players[order[i]].hands[0].Value());
      assert seats[order[i]] == db.players[order[i]].hands[0].Value();
      if !placed {
        assert order[i] in seats;
        return false;
      }
    }
    forall k | k in seats ensures Rules.ABetIsPlaced(seats[k]) {
      assert k in order;
    }
    return true;
  }

  method AllPlayersAreStanding(db: BjDatabase) returns (all: bool)
    requires db.Valid()
    ensures all <==> AllHandsStanding(db.Model().seats)
  {
    ghost var seats := db.Model().seats;
    var order := IterationOrder(db.players.Keys);
    for i := 0 to |order|
      invariant forall j :: 0 <= j < i ==> order[j] in seats && seats[order[j]].state == Rules.Standing
    {
      assert order[i] in order;
      assert db.ValidPlayer(order[i]);
      var standing := AllHandsAreStanding(db.players[order[i]]);
      assert standing <==> db.players[order[i]].hands[0].state == Rules.Standing;
      assert seats[order[i]] == db.players[order[i]].hands[0].Value();
      if !standing {
        assert order[i] in seats;
        return false;
      }
    }
    forall k | k in seats ensures seats[k].state == Rules.Standing {
      assert k in order;
    }
    return true;
  }
}
