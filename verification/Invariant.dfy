/** The invariant every handler keeps, and what it says about the branches they take. */
module Invariant {
  import opened Cards
  import opened PointsTools
  import opened Rules
  import opened Sums
  import opened GameTable

  /** Phase, players, bets and hands fit together, so that no lookup fails. */
  ghost predicate Shape(t: Table) {
    && t.phase != Cashing
    && (t.seats == map[] <==> t.phase == NotStarted)
    && t.seats.Keys <= t.users.Keys
    && (t.phase == Betting ==>
          && (forall k :: k in t.seats ==> t.seats[k].state == Sitting && t.seats[k].cards == [])
          && !AllBetsPlaced(t.seats))
    && (t.phase == HitStand ==>
          && t.shoe.Some? && t.dealer.Some? && |t.dealer.value| == 2
          && AllBetsPlaced(t.seats)
          && (forall k :: k in t.seats ==> |t.seats[k].cards| >= 2)
          && !AllHandsStanding(t.seats))
  }

  /** A bet may exceed the money by up to epsilon, so balances are bounded by -epsilon, not 0. */
  ghost predicate Funds(t: Table) {
    && (forall k :: k in t.users ==> t.users[k].money >= -EPSILON)
    && (t.phase == Betting ==> forall k :: k in t.seats && k in t.users ==> BetOrSolvent(t.seats[k], t.users[k]))
  }

  ghost predicate BetOrSolvent(seat: Seat, u: User) {
    ABetIsPlaced(seat) || (seat.bet == 0.0 && IsSolvent(u))
  }

  /** During a game the ready users are the players; before one they are all solvent. */
  ghost predicate Readiness(t: Table) {
    forall k :: k in t.users ==>
      if t.phase == NotStarted then t.users[k].isReady ==> IsSolvent(t.users[k])
      else t.users[k].isReady <==> k in t.seats
  }

  ghost predicate Inv(t: Table) {
    Shape(t) && Funds(t) && Readiness(t)
  }

  lemma SomePlayer(seats: map<int, Seat>) returns (k: int)
    requires seats != map[]
    ensures k in seats
  {
    HasKey(seats);
    k :| k in seats;
  }

  // ---- Dealing ----

  /** `after` is `before` with two more cards in the hand. */
  ghost predicate GotTwo(before: Seat, after: Seat) {
    && |after.cards| == |before.cards| + 2
    && before.cards <= after.cards
    && after.bet == before.bet && after.state == before.state
  }

  lemma {:induction false} DealGivesTwo(seats: map<int, Seat>, order: seq<int>, shoe: seq<Card>)
    requires NoDuplicates(order) && forall k :: k in order ==> k in seats
    ensures DealPlayers(seats, order, shoe).None? <==> |shoe| < 2 * |order|
    ensures DealPlayers(seats, order, shoe).Some? ==>
      var (dealt, rest) := DealPlayers(seats, order, shoe).value;
      && dealt.Keys == seats.Keys
      && rest == shoe[..|shoe| - 2 * |order|]
      && (forall k :: k in seats ==> if k in order then GotTwo(seats[k], dealt[k]) else dealt[k] == seats[k])
  {
    if order != [] {
      var n := |order| - 1;
      DealGivesTwo(seats, order[..n], shoe);
      assert order == order[..n] + [order[n]];
      assert order[n] !in order[..n];
    }
  }

  /** What is needed for the hit/stand phase to start well. */
  ghost predicate ReadyToDeal(t: Table) {
    && t.seats != map[] && t.seats.Keys <= t.users.Keys
    && AllBetsPlaced(t.seats)
    && (forall k :: k in t.users ==> t.users[k].money >= -EPSILON && (t.users[k].isReady <==> k in t.seats))
  }

  ghost predicate AllGotTwo(seats: map<int, Seat>, dealt: map<int, Seat>) {
    dealt.Keys == seats.Keys && forall k :: k in seats ==> GotTwo(seats[k], dealt[k])
  }

  /** The opening deal takes two cards for the dealer and two for each player off the shoe. */
  lemma OpeningGivesTwo(seats: map<int, Seat>, order: seq<int>, shoe: seq<Card>)
    requires IsOrder(order, seats.Keys)
    ensures OpeningDeal(seats, order, shoe).None? <==> |shoe| < 2 + 2 * |order|
    ensures OpeningDeal(seats, order, shoe).Some? ==>
      var (dealt, rest) := OpeningDeal(seats, order, shoe).value;
      AllGotTwo(seats, dealt) && rest == shoe[..|shoe| - 2 - 2 * |order|]
  {
    if |shoe| >= 2 {
      DealGivesTwo(seats, order, shoe[..|shoe| - 2]);
    }
  }

  lemma StartHitStandKeepsInv(t: Table, ch: Chance)
    requires ReadyToDeal(t) && IsOrder(ch.order, t.seats.Keys)
    ensures StartHitStand(t, ch).Done? ==> Inv(StartHitStand(t, ch).table) && UnreadyIfOver(StartHitStand(t, ch).table)
    ensures StartHitStand(t, ch).Thrown? ==> StartHitStand(t, ch).error == NotEnoughCards
  {
    OpeningGivesTwo(t.seats, ch.order, ch.shoe);
    match OpeningDeal(t.seats, ch.order, ch.shoe)
    case None =>
    case Some((seats, rest)) => DealtKeepsInv(t, seats, rest, LastTwo(ch.shoe));
  }

  /** If somebody sits, dealing does not start the cashing. */
  lemma SittersGoOn(t: Table, ch: Chance, s: int)
    requires s in t.seats && t.seats[s].state == Sitting && IsOrder(ch.order, t.seats.Keys)
    ensures var o := StartHitStand(t, ch); o.Done? ==> o.table.phase == HitStand && o.cashed == map[]
  {
    OpeningGivesTwo(t.seats, ch.order, ch.shoe);
    match OpeningDeal(t.seats, ch.order, ch.shoe)
    case None =>
    case Some((seats, rest)) => assert GotTwo(t.seats[s], seats[s]) && seats[s].state != Standing;
  }

  lemma DealtKeepsInv(t: Table, seats: map<int, Seat>, shoe: seq<Card>, dealer: seq<Card>)
    requires ReadyToDeal(t) && |dealer| == 2
    requires AllGotTwo(t.seats, seats)
    ensures var o := CashIfAllStanding(Dealt(t, seats, shoe, dealer));
      && (o.Done? ==> Inv(o.table) && UnreadyIfOver(o.table))
      && (o.Thrown? ==> o.error == NotEnoughCards)
  {
    var k := SomePlayer(t.seats);
    assert k in seats;
    if AllHandsStanding(seats) {
      StartCashingKeepsInv(Dealt(t, seats, shoe, dealer));
    }
  }

  lemma StartCashingKeepsInv(t: Table)
    requires t.shoe.Some? && t.dealer.Some?
    requires t.seats.Keys <= t.users.Keys && AllBetsPlaced(t.seats)
    requires forall k :: k in t.users ==> t.users[k].money >= -EPSILON && (t.users[k].isReady <==> k in t.seats)
    ensures StartCashing(t).Done? ==> Inv(StartCashing(t).table) && UnreadyIfOver(StartCashing(t).table)
    ensures StartCashing(t).Thrown? ==> StartCashing(t).error == NotEnoughCards
  {
    if StartCashing(t).Done? {
      var (dealer, _) := DealDealer(t.dealer.value, t.shoe.value).value;
      var after := StartCashing(t).table;
      forall k | k in after.users ensures !after.users[k].isReady && after.users[k].money >= -EPSILON {
        assert k in t.users;
        if k in t.seats {
          CashBounds(t.seats[k], Points(dealer));
        }
      }
    }
  }

  ghost predicate NobodyIsReady(t: Table) {
    forall k :: k in t.users ==> !t.users[k].isReady
  }

  ghost predicate UnreadyIfOver(t: Table) {
    t.phase == NotStarted ==> NobodyIsReady(t)
  }

  // ---- Departures ----

  /** An outcome without a user who has no seat. */
  ghost function Forget(o: Outcome, s: int): Outcome {
    match o
    case Thrown(_) => o
    case Done(t, code, cashed) => Done(t.(users := t.users - {s}), code, cashed)
  }

  lemma CashingIgnores(t: Table, s: int)
    requires s !in t.seats
    ensures CashIfAllStanding(t.(users := t.users - {s})) == Forget(CashIfAllStanding(t), s)
  {
    if StartCashing(t).Done? {
      var cashed := StartCashing(t).cashed;
      assert PayAndUnready(t.users, cashed) - {s} == PayAndUnready(t.users - {s}, cashed);
    }
  }

  lemma DealingIgnores(t: Table, s: int, ch: Chance)
    requires s !in t.seats && forall k :: k in ch.order ==> k in t.seats
    ensures StartHitStand(t.(users := t.users - {s}), ch) == Forget(StartHitStand(t, ch), s)
  {
    match OpeningDeal(t.seats, ch.order, ch.shoe)
    case None =>
    case Some((seats, shoe)) => CashingIgnores(Dealt(t, seats, shoe, LastTwo(ch.shoe)), s);
  }

  lemma ResolvingIgnores(t: Table, s: int, ch: Chance)
    requires s !in t.seats && forall k :: k in ch.order ==> k in t.seats
    ensures ResolveDeparture(t.(users := t.users - {s}), ch) == Forget(ResolveDeparture(t, ch), s)
  {
    if AllBetsPlaced(t.seats) {
      DealingIgnores(t, s, ch);
    } else {
      CashingIgnores(t, s);
    }
  }

  /** Erasing the departing user before the game resolves the departure would make no
      difference: nothing the game does then looks at that user. */
  lemma DepartedUserIsNotLookedAt(t: Table, s: int, ch: Chance)
    requires s in t.users && s in t.seats
    requires forall k :: k in ch.order ==> k in t.seats && k != s
    ensures ClientLeave(t, s, ch) == LeaveGame(t.(users := t.users - {s}), s, ch)
  {
    ResolvingIgnores(t.(seats := t.seats - {s}), s, ch);
  }

  lemma NonemptyNotStanding(t: Table)
    requires t.seats != map[] && forall k :: k in t.seats ==> t.seats[k].state == Sitting
    ensures !AllHandsStanding(t.seats)
  {
    var k := SomePlayer(t.seats);
    assert t.seats[k].state != Standing;
  }

  /** What a player's departure can lead to. The last one ends the game; while a bet is missing
      the others go on; and otherwise, so always in the hit/stand phase, the server deals again:
      new shoe, new dealer's hand, two more cards even to hands that already stand, bets kept.
      The cashing branch of leaveGame is never taken. */
  lemma DepartureDealsAgain(t: Table, s: int, ch: Chance)
    requires Inv(t) && s in t.seats && ValidChance(t, Leave(s), ch)
    ensures var left := t.(users := t.users - {s}, seats := t.seats - {s});
      && ClientLeave(t, s, ch) == (if left.seats == map[] then Done(EndGame(left), 0, map[])
                                   else if AllBetsPlaced(left.seats) then StartHitStand(left, ch)
                                   else Done(left, 0, map[]))
      && (t.phase == HitStand ==> AllBetsPlaced(left.seats))
  {
    DepartedUserIsNotLookedAt(t, s, ch);
    var left := t.(users := t.users - {s}, seats := t.seats - {s});
    if left.seats != map[] && !AllBetsPlaced(left.seats) {
      NonemptyNotStanding(left);
    }
  }

  lemma LeaveKeepsInv(t: Table, s: int, ch: Chance)
    requires Inv(t) && ValidChance(t, Leave(s), ch) && s in t.users
    ensures var o := ClientLeave(t, s, ch);
      if o.Done? then Inv(o.table) && (t.phase != NotStarted ==> UnreadyIfOver(o.table)) else o.error == NotEnoughCards
  {
    if s in t.seats {
      DepartureDealsAgain(t, s, ch);
      var left := t.(users := t.users - {s}, seats := t.seats - {s});
      if left.seats != map[] && AllBetsPlaced(left.seats) {
        StartHitStandKeepsInv(left, ch);
      } else if left.seats == map[] {
        forall k | k in left.users ensures !left.users[k].isReady {
          assert k !in left.seats;
          assert k !in t.seats;
        }
      }
    }
  }

  // ---- The other events ----

  lemma ReadyKeepsInv(t: Table, s: int)
    requires Inv(t) && s in t.users
    ensures ReadyUser(t, s).Done? && Inv(ReadyUser(t, s).table)
    ensures ReadyUser(t, s).table.phase != t.phase ==>
      ReadyUser(t, s).table.seats == map k | k in Joinables(t.users) :: FRESH_SEAT
  {
    var ready := t.(users := t.users[s := t.users[s].(isReady := true)]);
    assert Joinables(ready.users) == Joinables(t.users);
    if ReadyUser(t, s).table.phase != t.phase {
      var k :| k in Joinables(ready.users);
      var started := ReadyUser(t, s).table;
      assert started.seats == map k | k in Joinables(t.users) :: FRESH_SEAT;
      assert k in started.seats && !ABetIsPlaced(started.seats[k]);
      forall k | k in started.users ensures started.users[k].isReady <==> k in started.seats {
        assert k !in UsersToWait(ready.users);
      }
    }
  }

  lemma AcceptedBetMovesMoney(t: Table, s: int, wager: Wager)
    requires Inv(t) && t.phase == Betting && s in t.seats
    requires BetError(t.users[s], t.seats[s], wager).None?
    ensures var b := AcceptBet(t, s, wager);
      && Funds(b) && Readiness(b)
      && (if AllBetsPlaced(b.seats) then ReadyToDeal(b) else Shape(b))
  {
    var b := AcceptBet(t, s, wager);
    assert s in b.seats && b.seats.Keys == t.seats.Keys && b.users.Keys == t.users.Keys;
    assert BetOrSolvent(t.seats[s], t.users[s]);
    assert ABetIsPlaced(b.seats[s]);
    forall k | k in b.seats ensures k == s || (b.seats[k] == t.seats[k] && BetOrSolvent(b.seats[k], b.users[k])) {}
    forall k | k in b.users
      ensures b.users[k].money >= -EPSILON && b.users[k].isReady == t.users[k].isReady {}
  }

  lemma BetKeepsInv(t: Table, s: int, wager: Wager, ch: Chance)
    requires Inv(t) && ValidChance(t, Bet(s, wager), ch) && s in t.users
    ensures var o := PlaceBet(t, s, wager, ch);
      if o.Done? then Inv(o.table) && (t.phase != NotStarted ==> UnreadyIfOver(o.table)) else o.error == NotEnoughCards
  {
    if BasicRequestValidation(t, Betting, s).None? && BetError(t.users[s], t.seats[s], wager).None? {
      AcceptedBetMovesMoney(t, s, wager);
      var b := AcceptBet(t, s, wager);
      if AllBetsPlaced(b.seats) {
        StartHitStandKeepsInv(b, ch);
      }
    }
  }

  /** A bet never ends a game: when the last one makes the server deal, everybody still sits. */
  lemma BetsCashNothing(t: Table, s: int, wager: Wager, ch: Chance)
    requires Inv(t) && ValidChance(t, Bet(s, wager), ch) && s in t.users
    ensures var o := PlaceBet(t, s, wager, ch);
      o.Done? ==> o.cashed == map[] && (o.table.phase == NotStarted <==> t.phase == NotStarted)
  {
    if BasicRequestValidation(t, Betting, s).None? && BetError(t.users[s], t.seats[s], wager).None? {
      var b := AcceptBet(t, s, wager);
      assert b.seats[s].state == Sitting && b.seats.Keys == t.seats.Keys;
      SittersGoOn(b, ch, s);
    }
  }

  lemma CashIfAllStandingKeepsInv(t: Table, s: int, seat: Seat, shoe: seq<Card>)
    requires Inv(t) && t.phase == HitStand && s in t.seats
    requires |seat.cards| >= 2 && seat.bet == t.seats[s].bet
    ensures var o := CashIfAllStanding(t.(seats := t.seats[s := seat], shoe := Some(shoe)));
      && (o.Done? ==> Inv(o.table) && UnreadyIfOver(o.table))
      && (o.Thrown? ==> o.error == NotEnoughCards)
  {
    var acted := t.(seats := t.seats[s := seat], shoe := Some(shoe));
    assert s in acted.seats;
    assert acted.seats.Keys == t.seats.Keys;
    if AllHandsStanding(acted.seats) {
      StartCashingKeepsInv(acted);
    }
  }

  lemma {:induction false} HitOrStandKeepsInv(t: Table, e: Event, ch: Chance)
    requires Inv(t) && ValidChance(t, e, ch) && (e.Hit? || e.Stand?) && e.socket in t.users
    ensures var o := Step(t, e, ch);
      if o.Done? then Inv(o.table) && (t.phase != NotStarted ==> UnreadyIfOver(o.table)) else o.error == NotEnoughCards
  {
    if BasicRequestValidation(t, HitStand, e.socket).None? {
      var seat := t.seats[e.socket];
      if e.Stand? {
        CashIfAllStandingKeepsInv(t, e.socket, seat.(state := Standing), t.shoe.value);
      } else if t.shoe.value != [] {
        var n := |t.shoe.value| - 1;
        CashIfAllStandingKeepsInv(t, e.socket, AfterHit(seat, t.shoe.value[n]), t.shoe.value[..n]);
      }
    }
  }

  /** Every event from a connected user keeps the invariant, and the only way it can bring the
      server down is by emptying the shoe: no lookup fails and no null pointer is followed.
      When an event ends a game nobody is left ready, so the next one waits for everybody. */
  lemma StepKeepsInv(t: Table, i: Input)
    requires Inv(t) && Legal(t, i)
    ensures var o := Step(t, i.event, i.chance);
      if o.Done? then Inv(o.table) && (t.phase != NotStarted ==> UnreadyIfOver(o.table)) else o.error == NotEnoughCards
  {
    match i.event
    case Join(s) =>
    case Leave(s) => LeaveKeepsInv(t, s, i.chance);
    case SetReady(s) => ReadyKeepsInv(t, s);
    case Bet(s, wager) => BetKeepsInv(t, s, wager, i.chance);
    case Hit(s) => HitOrStandKeepsInv(t, i.event, i.chance);
    case Stand(s) => HitOrStandKeepsInv(t, i.event, i.chance);
  }

  lemma {:induction false} RunsKeepInv(inputs: seq<Input>)
    ensures Play(EMPTY_TABLE, inputs).Some? ==> Inv(Play(EMPTY_TABLE, inputs).value)
  {
    if inputs != [] {
      var n := |inputs| - 1;
      RunsKeepInv(inputs[..n]);
      match Play(EMPTY_TABLE, inputs[..n])
      case None =>
      case Some(before) =>
        if Legal(before, inputs[n]) { StepKeepsInv(before, inputs[n]); }
    }
  }

  // ---- What the invariant says about the branches ----

  /** The blackjack test in executeHit never fires: a hit makes a hand stand exactly when the
      total with every ace as 1 exceeds 21. */
  lemma HitStandsOnlyWhenBusted(t: Table, s: int, card: Card)
    requires Inv(t) && t.phase == HitStand && s in t.seats && t.seats[s].state == Sitting
    ensures AfterHit(t.seats[s], card).state == Standing <==> Hard(t.seats[s].cards) + HardValue(card) > 21
  {
    Push(t.seats[s].cards, card);
    BustedMeansEveryChoiceBusts(t.seats[s].cards + [card]);
  }
}
