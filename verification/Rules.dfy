/** What one player's hand does: betting, hitting, standing, cashing
    (src/BlackjackLogic/PlayerLogic.cpp, PlayerHandLogic.cpp), on values. */
module Rules {
  import opened Cards
  import opened PointsTools

  // std::numeric_limits<double>::epsilon()
  const EPSILON: real := 1.0 / 4503599627370496.0
  const INITIAL_MONEY: real := 1000.0
  const BLACKJACK_WIN_MULTIPLIER: real := 1.5
  const SIMPLE_WIN_MULTIPLIER: real := 1.0

  datatype User = User(money: real, isReady: bool)

  datatype HandState = Sitting | Standing

  /** The one hand of a player. */
  datatype Seat = Seat(cards: seq<Card>, bet: real, state: HandState)

  const FRESH_SEAT := Seat([], 0.0, Sitting)

  datatype Wager = Wager(amount: real, handIndex: nat)

  datatype HandError = NoSuchHand | HandIsNotSitting | InvalidBet | NotEnoughMoney | AlreadyPlacedABet

  datatype CashState = Win | Blackjack | Draw | Lost

  datatype CashResult = CashResult(state: CashState, bet: real, receivedMoney: real, income: real, winMultiplier: real)

  predicate ABetIsPlaced(seat: Seat) {
    seat.bet > EPSILON
  }

  predicate IsSolvent(u: User) {
    u.money > EPSILON
  }

  /** The exception executeBet throws, in the order in which it checks. */
  function BetError(u: User, seat: Seat, bet: Wager): Option<HandError> {
    if bet.handIndex >= 1 then Some(NoSuchHand)
    else if seat.state != Sitting then Some(HandIsNotSitting)
    else if bet.amount <= EPSILON then Some(InvalidBet)
    else if bet.amount > u.money + EPSILON then Some(NotEnoughMoney)
    else if seat.bet > EPSILON then Some(AlreadyPlacedABet)
    else None
  }

  function AfterHit(seat: Seat, card: Card): Seat {
    var cards := seat.cards + [card];
    Seat(cards, seat.bet, if IsBusted(Points(cards)) || IsBlackjack(cards) then Standing else seat.state)
  }

  function CashMoney(state: CashState, bet: real, multiplier: real): CashResult {
    CashResult(state, bet, bet + bet * multiplier, bet * multiplier, multiplier)
  }

  function Cash(seat: Seat, dealersPoints: int): CashResult {
    var points := Points(seat.cards);
    if IsBusted(points) then CashMoney(Lost, seat.bet, -1.0)
    else if IsBlackjack(seat.cards) then CashMoney(Blackjack, seat.bet, BLACKJACK_WIN_MULTIPLIER)
    else if IsBusted(dealersPoints) || points > dealersPoints then CashMoney(Win, seat.bet, SIMPLE_WIN_MULTIPLIER)
    else if points < dealersPoints then CashMoney(Lost, seat.bet, -1.0)
    else CashMoney(Draw, seat.bet, 0.0)
  }

  /** A player never pays more than the bet and never gains more than one and a half times it;
      the money handed back is never negative. */
  lemma CashBounds(seat: Seat, dealersPoints: int)
    requires seat.bet >= 0.0
    ensures var r := Cash(seat, dealersPoints);
      && r.receivedMoney == seat.bet + r.income >= 0.0
      && -seat.bet <= r.income <= 1.5 * seat.bet
  {}

  /** The stakes, said over the ways of counting aces: a player loses the bet exactly when every
      count of the hand busts, or when the dealer has not busted and every count that stays
      within 21 is below the dealer's points. A two-card 21 always pays three to two, even
      against a dealer who has one too. */
  lemma LostMeansBeaten(seat: Seat, dealersPoints: int)
    ensures Cash(seat, dealersPoints).state == Lost <==>
      (forall total :: Possible(seat.cards, total) && !IsBusted(total) ==>
         !IsBusted(dealersPoints) && total < dealersPoints && !IsBlackjack(seat.cards))
  {
    SmartScoringIsOptimal(seat.cards);
    BustedMeansEveryChoiceBusts(seat.cards);
  }

  /** Some way of counting the aces makes these two cards 21. */
  ghost predicate IsTwoCard21(cards: seq<Card>) {
    |cards| == 2 && Possible(cards, 21)
  }

  /** The pay table, said over the totals a hand can count as. A two-card 21 pays three to two.
      Any other hand wins its bet if some total within 21 meets a dealer beyond 21 or beats him,
      has it back if its best total within 21 is the dealer's, and otherwise loses it. */
  ghost predicate IsPaid(seat: Seat, dealersPoints: int, r: CashResult) {
    && (r.state == Blackjack <==> IsTwoCard21(seat.cards))
    && (r.state == Win <==>
          && !IsTwoCard21(seat.cards)
          && exists total :: Possible(seat.cards, total) && total <= 21 && (dealersPoints > 21 || total > dealersPoints))
    && (r.state == Draw <==>
          && !IsTwoCard21(seat.cards) && dealersPoints <= 21 && Possible(seat.cards, dealersPoints)
          && forall total :: Possible(seat.cards, total) && total <= 21 ==> total <= dealersPoints)
    && r.bet == seat.bet
    && (r.state == Blackjack ==> r.receivedMoney == 2.5 * seat.bet && r.income == 1.5 * seat.bet && r.winMultiplier == 1.5)
    && (r.state == Win ==> r.receivedMoney == 2.0 * seat.bet && r.income == seat.bet && r.winMultiplier == 1.0)
    && (r.state == Draw ==> r.receivedMoney == seat.bet && r.income == 0.0 && r.winMultiplier == 0.0)
    && (r.state == Lost ==> r.receivedMoney == 0.0 && r.income == -seat.bet && r.winMultiplier == -1.0)
  }

  lemma CashFollowsThePayTable(seat: Seat, dealersPoints: int)
    ensures IsPaid(seat, dealersPoints, Cash(seat, dealersPoints))
  {
    SmartScoringIsOptimal(seat.cards);
  }

  /** Which exception a bet meets, by the values alone. None of them exactly when the bet is on
      the first hand, which sits and has no bet yet, and the amount lies above the machine epsilon
      and at most that much above the money. */
  lemma BetErrorsByValue(u: User, seat: Seat, bet: Wager)
    ensures var e, eps := BetError(u, seat, bet), 1.0 / 4503599627370496.0;
      && (e.None? <==> bet.handIndex == 0 && seat.state == Sitting && eps < bet.amount <= u.money + eps && seat.bet <= eps)
      && (e == Some(NoSuchHand) <==> bet.handIndex > 0)
      && (e == Some(HandIsNotSitting) <==> bet.handIndex == 0 && seat.state == Standing)
      && (e == Some(InvalidBet) <==> bet.handIndex == 0 && seat.state == Sitting && bet.amount <= eps)
      && (e == Some(NotEnoughMoney) <==>
            bet.handIndex == 0 && seat.state == Sitting && bet.amount > eps && bet.amount > u.money + eps)
      && (e == Some(AlreadyPlacedABet) <==>
            bet.handIndex == 0 && seat.state == Sitting && eps < bet.amount <= u.money + eps && seat.bet > eps)
  {}

  /** Against the same dealer and with the same bet, a hand that is not busted and scores at least
      as much never receives less, provided it is a two-card 21 if the other one is. */
  lemma BetterHandsNeverReceiveLess(a: Seat, b: Seat, dealersPoints: int)
    requires a.bet == b.bet >= 0.0
    requires !IsBusted(Points(b.cards)) && (IsBlackjack(a.cards) ==> IsBlackjack(b.cards))
    requires IsBusted(Points(a.cards)) || Points(a.cards) <= Points(b.cards)
    ensures Cash(a, dealersPoints).receivedMoney <= Cash(b, dealersPoints).receivedMoney
  {}
}
