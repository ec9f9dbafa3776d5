/** Where the cards are: conservation over whole runs, and the shoe that never runs out. */
module Conservation {
  import opened Cards
  import opened PointsTools
  import opened Rules
  import opened GameTable
  import opened Sums
  import opened Invariant

  /** Three ways to weigh some cards: copies of one card, total with aces as 1, how many. */
  datatype Scale = Copies(card: Card) | Weight | Size

  ghost function Weigh(scale: Scale, cards: seq<Card>): nat {
    match scale
    case Copies(c) => multiset(cards)[c]
    case Weight => Hard(cards)
    case Size => |cards|
  }

  ghost function WholeShoe(scale: Scale): nat {
    match scale
    case Copies(_) => 5
    case Weight => 1700
    case Size => 260
  }

  lemma WeighConcat(scale: Scale, a: seq<Card>, b: seq<Card>)
    ensures Weigh(scale, a + b) == Weigh(scale, a) + Weigh(scale, b)
  {
    Concat(a, b);
  }

  lemma FiveDecksWeigh(scale: Scale, shoe: seq<Card>)
    requires IsDecks(shoe, SHOE_SIZE)
    ensures Weigh(scale, shoe) == WholeShoe(scale)
  {
    WeightOfDecks(shoe, SHOE_SIZE);
  }

  /** The cards a hand received since the shoe was made, given how many it had then. */
  function Since(seat: Seat, had: nat): seq<Card> {
    if had <= |seat.cards| then seat.cards[had..] else []
  }

  /** What the hands received since the shoe was made; `base` says how many cards each had. */
  ghost function Weights(scale: Scale, seats: map<int, Seat>, base: map<int, nat>): map<int, int> {
    map k | k in seats :: Weigh(scale, Since(seats[k], if k in base then base[k] else 0))
  }

  /** Cards received since the shoe was made weigh at most 21 in a hand that still sits and 31
      in one that stands: one more card, worth at most 10, can follow a weight of 21. */
  ghost predicate WithinLimit(seat: Seat, had: nat) {
    had <= |seat.cards| && Hard(Since(seat, had)) <= if seat.state == Sitting then 21 else 31
  }

  /** Shoe, dealer and the cards the hands received since the shoe was made are five whole decks. */
  ghost predicate Conserved(t: Table, base: map<int, nat>) {
    && t.shoe.Some? && t.dealer.Some?
    && AllWithinLimit(t.seats, base)
    && AllBalanced(t.shoe.value, t.dealer.value, t.seats, base)
  }

  ghost predicate AllWithinLimit(seats: map<int, Seat>, base: map<int, nat>) {
    base.Keys == seats.Keys && forall k :: k in seats ==> WithinLimit(seats[k], base[k])
  }

  ghost predicate AllBalanced(shoe: seq<Card>, dealer: seq<Card>, seats: map<int, Seat>, base: map<int, nat>) {
    forall scale :: Balanced(scale, shoe, dealer, seats, base)
  }

  ghost predicate Balanced(scale: Scale, shoe: seq<Card>, dealer: seq<Card>, seats: map<int, Seat>, base: map<int, nat>) {
    Weigh(scale, shoe) + Weigh(scale, dealer) + Total(Weights(scale, seats, base)) == WholeShoe(scale)
  }

  ghost predicate Accounted(t: Table, base: map<int, nat>) {
    t.phase == HitStand ==> Conserved(t, base)
  }

  /** How many cards each hand holds. */
  function Lengths(seats: map<int, Seat>): map<int, nat> {
    map k | k in seats :: |seats[k].cards|
  }

  // ---- Dealing conserves ----

  lemma NothingSinceNow(scale: Scale, seats: map<int, Seat>)
    ensures Total(Weights(scale, seats, Lengths(seats))) == 0
  {
    TotalOf(Weights(scale, seats, Lengths(seats)), 0);
  }

  /** Changing one hand changes the total by what that hand gained. */
  lemma Reseat(scale: Scale, seats: map<int, Seat>, base: map<int, nat>, s: int, seat: Seat)
    requires s in seats && s in base
    ensures Total(Weights(scale, seats[s := seat], base))
         == Total(Weights(scale, seats, base)) - Weigh(scale, Since(seats[s], base[s])) + Weigh(scale, Since(seat, base[s]))
  {
    var w := Weights(scale, seats, base);
    assert Weights(scale, seats[s := seat], base) == w[s := Weigh(scale, Since(seat, base[s]))];
    TotalUpdate(w, s, Weigh(scale, Since(seat, base[s])));
  }

  lemma TwoMoreBalance(scale: Scale, seats: map<int, Seat>, base: map<int, nat>, k: int, shoe: seq<Card>)
    requires k in seats && k in base && |seats[k].cards| == base[k] && |shoe| >= 2
    ensures var dealt := seats[k := seats[k].(cards := seats[k].cards + LastTwo(shoe))];
      Total(Weights(scale, dealt, base)) + Weigh(scale, shoe[..|shoe| - 2])
      == Total(Weights(scale, seats, base)) + Weigh(scale, shoe)
  {
    var seat := seats[k].(cards := seats[k].cards + LastTwo(shoe));
    assert Since(seat, base[k]) == LastTwo(shoe);
    assert Since(seats[k], base[k]) == [];
    Reseat(scale, seats, base, k, seat);
    TakeTwo(scale, shoe);
  }

  lemma {:induction false} DealConserves(scale: Scale, seats: map<int, Seat>, order: seq<int>, shoe: seq<Card>)
    requires NoDuplicates(order) && forall k :: k in order ==> k in seats
    requires DealPlayers(seats, order, shoe).Some?
    ensures var (dealt, rest) := DealPlayers(seats, order, shoe).value;
      Total(Weights(scale, dealt, Lengths(seats))) + Weigh(scale, rest) == Weigh(scale, shoe)
  {
    if order == [] {
      NothingSinceNow(scale, seats);
    } else {
      var n := |order| - 1;
      DealConserves(scale, seats, order[..n], shoe);
      DealGivesTwo(seats, order[..n], shoe);
      assert order[n] !in order[..n];
      var (dealt, rest) := DealPlayers(seats, order[..n], shoe).value;
      TwoMoreBalance(scale, dealt, Lengths(seats), order[n], rest);
    }
  }

  lemma TakeTwo(scale: Scale, shoe: seq<Card>)
    requires |shoe| >= 2
    ensures Weigh(scale, shoe) == Weigh(scale, shoe[..|shoe| - 2]) + Weigh(scale, LastTwo(shoe))
  {
    var n := |shoe| - 2;
    var a, b := shoe[n], shoe[n + 1];
    assert shoe == shoe[..n] + ([a] + [b]);
    assert LastTwo(shoe) == [b] + [a];
    WeighConcat(scale, shoe[..n], [a] + [b]);
    WeighConcat(scale, [a], [b]);
    WeighConcat(scale, [b], [a]);
  }

  lemma TwoCardsWeighAtMost20(seat: Seat, after: Seat)
    requires GotTwo(seat, after)
    ensures WithinLimit(after, |seat.cards|)
  {}

  lemma DealStaysWithinLimit(seats: map<int, Seat>, dealt: map<int, Seat>)
    requires AllGotTwo(seats, dealt)
    ensures AllWithinLimit(dealt, Lengths(seats))
  {
    forall k | k in dealt ensures WithinLimit(dealt[k], |seats[k].cards|) {
      TwoCardsWeighAtMost20(seats[k], dealt[k]);
    }
  }

  lemma DealBalances(scale: Scale, seats: map<int, Seat>, order: seq<int>, shoe: seq<Card>)
    requires IsOrder(order, seats.Keys) && IsDecks(shoe, SHOE_SIZE) && OpeningDeal(seats, order, shoe).Some?
    ensures var (dealt, rest) := OpeningDeal(seats, order, shoe).value;
      Balanced(scale, rest, LastTwo(shoe), dealt, Lengths(seats))
  {
    FiveDecksWeigh(scale, shoe);
    TakeTwo(scale, shoe);
    DealConserves(scale, seats, order, shoe[..|shoe| - 2]);
  }

  lemma {:induction false} DealBalancesAll(seats: map<int, Seat>, order: seq<int>, shoe: seq<Card>)
    requires IsOrder(order, seats.Keys) && IsDecks(shoe, SHOE_SIZE) && OpeningDeal(seats, order, shoe).Some?
    ensures var (dealt, rest) := OpeningDeal(seats, order, shoe).value;
      AllBalanced(rest, LastTwo(shoe), dealt, Lengths(seats))
  {
    var (dealt, rest) := OpeningDeal(seats, order, shoe).value;
    forall scale ensures Balanced(scale, rest, LastTwo(shoe), dealt, Lengths(seats)) {
      DealBalances(scale, seats, order, shoe);
    }
  }

  lemma ConservedIf(t: Table, seats: map<int, Seat>, shoe: seq<Card>, dealer: seq<Card>, base: map<int, nat>)
    requires AllWithinLimit(seats, base) && AllBalanced(shoe, dealer, seats, base)
    ensures Conserved(Dealt(t, seats, shoe, dealer), base)
  {}

  lemma OpeningConserves(t: Table, ch: Chance)
    requires IsDecks(ch.shoe, SHOE_SIZE) && IsOrder(ch.order, t.seats.Keys)
    requires OpeningDeal(t.seats, ch.order, ch.shoe).Some?
    ensures var (seats, shoe) := OpeningDeal(t.seats, ch.order, ch.shoe).value;
      Conserved(Dealt(t, seats, shoe, LastTwo(ch.shoe)), Lengths(t.seats))
  {
    var (seats, shoe) := OpeningDeal(t.seats, ch.order, ch.shoe).value;
    OpeningGivesTwo(t.seats, ch.order, ch.shoe);
    DealStaysWithinLimit(t.seats, seats);
    DealBalancesAll(t.seats, ch.order, ch.shoe);
    ConservedIf(t, seats, shoe, LastTwo(ch.shoe), Lengths(t.seats));
  }

  lemma SinceGrows(seat: Seat, card: Card, had: nat)
    requires had <= |seat.cards|
    ensures Since(AfterHit(seat, card), had) == Since(seat, had) + [card]
  {
    assert (seat.cards + [card])[had..] == seat.cards[had..] + [card];
  }

  lemma {:induction false} HitBalances(scale: Scale, rest: seq<Card>, card: Card, dealer: seq<Card>, seats: map<int, Seat>, base: map<int, nat>, s: int)
    requires s in seats && s in base && base[s] <= |seats[s].cards|
    requires Balanced(scale, rest + [card], dealer, seats, base)
    ensures Balanced(scale, rest, dealer, seats[s := AfterHit(seats[s], card)], base)
  {
    SinceGrows(seats[s], card, base[s]);
    WeighConcat(scale, rest, [card]);
    WeighConcat(scale, Since(seats[s], base[s]), [card]);
    Reseat(scale, seats, base, s, AfterHit(seats[s], card));
  }

  lemma HitBalancesAll(rest: seq<Card>, card: Card, dealer: seq<Card>, seats: map<int, Seat>, base: map<int, nat>, s: int)
    requires s in seats && s in base && base[s] <= |seats[s].cards|
    requires AllBalanced(rest + [card], dealer, seats, base)
    ensures AllBalanced(rest, dealer, seats[s := AfterHit(seats[s], card)], base)
  {
    var after := seats[s := AfterHit(seats[s], card)];
    forall scale ensures Balanced(scale, rest, dealer, after, base) {
      assert Balanced(scale, rest + [card], dealer, seats, base);
      HitBalances(scale, rest, card, dealer, seats, base, s);
    }
  }

  lemma HitStaysWithinLimit(seat: Seat, card: Card, had: nat)
    requires WithinLimit(seat, had) && seat.state == Sitting
    ensures WithinLimit(AfterHit(seat, card), had)
  {
    var hit := AfterHit(seat, card);
    SinceGrows(seat, card, had);
    Push(Since(seat, had), card);
    assert hit.cards == hit.cards[..had] + Since(hit, had);
    Concat(hit.cards[..had], Since(hit, had));
    BustedMeansEveryChoiceBusts(hit.cards);
  }

  lemma OneStaysWithinLimit(seats: map<int, Seat>, base: map<int, nat>, s: int, seat: Seat)
    requires AllWithinLimit(seats, base) && s in seats && WithinLimit(seat, base[s])
    ensures AllWithinLimit(seats[s := seat], base)
  {
    assert seats[s := seat].Keys == seats.Keys;
  }

  lemma HitConserves(t: Table, base: map<int, nat>, s: int)
    requires Conserved(t, base)
    requires s in t.seats && t.seats[s].state == Sitting && t.shoe.value != []
    ensures var n := |t.shoe.value| - 1;
      Conserved(t.(seats := t.seats[s := AfterHit(t.seats[s], t.shoe.value[n])], shoe := Some(t.shoe.value[..n])), base)
  {
    var n := |t.shoe.value| - 1;
    var card, rest := t.shoe.value[n], t.shoe.value[..n];
    assert t.shoe.value == rest + [card];
    HitStaysWithinLimit(t.seats[s], card, base[s]);
    OneStaysWithinLimit(t.seats, base, s, AfterHit(t.seats[s], card));
    HitBalancesAll(rest, card, t.dealer.value, t.seats, base, s);
  }

  lemma StandBalances(scale: Scale, shoe: seq<Card>, dealer: seq<Card>, seats: map<int, Seat>, base: map<int, nat>, s: int)
    requires s in seats && s in base && Balanced(scale, shoe, dealer, seats, base)
    ensures Balanced(scale, shoe, dealer, seats[s := seats[s].(state := Standing)], base)
  {
    Reseat(scale, seats, base, s, seats[s].(state := Standing));
  }

  lemma StandBalancesAll(shoe: seq<Card>, dealer: seq<Card>, seats: map<int, Seat>, base: map<int, nat>, s: int)
    requires s in seats && s in base && AllBalanced(shoe, dealer, seats, base)
    ensures AllBalanced(shoe, dealer, seats[s := seats[s].(state := Standing)], base)
  {
    var after := seats[s := seats[s].(state := Standing)];
    forall scale ensures Balanced(scale, shoe, dealer, after, base) {
      assert Balanced(scale, shoe, dealer, seats, base);
      StandBalances(scale, shoe, dealer, seats, base, s);
    }
  }

  lemma StandConserves(t: Table, base: map<int, nat>, s: int)
    requires Conserved(t, base) && s in t.seats
    ensures Conserved(t.(seats := t.seats[s := t.seats[s].(state := Standing)]), base)
  {
    OneStaysWithinLimit(t.seats, base, s, t.seats[s].(state := Standing));
    StandBalancesAll(t.shoe.value, t.dealer.value, t.seats, base, s);
  }

  // ---- Runs ----

  /** The event made a new shoe and dealt from it. */
  predicate DealtAfresh(t: Table, e: Event) {
    t.phase != HitStand || (e.Leave? && e.socket in t.seats)
  }

  /** How many cards each hand had when the latest shoe was made. */
  function NextBase(t: Table, e: Event, base: map<int, nat>): map<int, nat> {
    if DealtAfresh(t, e) then Lengths(if e.Leave? then t.seats - {e.socket} else t.seats) else base
  }

  lemma CashingOrGoingOn(t: Table, base: map<int, nat>)
    requires Conserved(t, base)
    ensures CashIfAllStanding(t).Done? ==> Accounted(CashIfAllStanding(t).table, base)
  {}

  lemma DealingAccounts(t: Table, ch: Chance)
    requires IsDecks(ch.shoe, SHOE_SIZE) && IsOrder(ch.order, t.seats.Keys)
    ensures StartHitStand(t, ch).Done? ==> Accounted(StartHitStand(t, ch).table, Lengths(t.seats))
  {
    match OpeningDeal(t.seats, ch.order, ch.shoe)
    case None =>
    case Some((seats, shoe)) =>
      OpeningConserves(t, ch);
      CashingOrGoingOn(Dealt(t, seats, shoe, LastTwo(ch.shoe)), Lengths(t.seats));
  }

  lemma LeaveConserves(t: Table, base: map<int, nat>, s: int, ch: Chance)
    requires Inv(t) && Accounted(t, base) && s in t.users && ValidChance(t, Leave(s), ch)
    ensures var o := ClientLeave(t, s, ch);
      o.Done? ==> Accounted(o.table, NextBase(t, Leave(s), base))
  {
    if s in t.seats {
      DepartureDealsAgain(t, s, ch);
      var left := t.(users := t.users - {s}, seats := t.seats - {s});
      DealingAccounts(left, ch);
    }
  }

  lemma BetConserves(t: Table, base: map<int, nat>, s: int, wager: Wager, ch: Chance)
    requires t.phase != HitStand && ValidChance(t, Bet(s, wager), ch)
    ensures var o := PlaceBet(t, s, wager, ch);
      o.Done? ==> Accounted(o.table, NextBase(t, Bet(s, wager), base))
  {
    if BasicRequestValidation(t, Betting, s).None? && BetError(t.users[s], t.seats[s], wager).None? {
      var b := AcceptBet(t, s, wager);
      DealingAccounts(b, ch);
      assert Lengths(b.seats) == Lengths(t.seats) by {
        assert b.seats.Keys == t.seats.Keys;
      }
    }
  }

  lemma HitActionConserves(t: Table, base: map<int, nat>, s: int)
    requires Inv(t) && Accounted(t, base) && t.phase == HitStand
    ensures HitCard(t, s).Done? ==> Accounted(HitCard(t, s).table, base)
  {
    if BasicRequestValidation(t, HitStand, s).None? && t.seats[s].state == Sitting && t.shoe.value != [] {
      var n := |t.shoe.value| - 1;
      var hit := t.(seats := t.seats[s := AfterHit(t.seats[s], t.shoe.value[n])], shoe := Some(t.shoe.value[..n]));
      assert HitCard(t, s) == CashIfAllStanding(hit);
      HitConserves(t, base, s);
      CashingOrGoingOn(hit, base);
    }
  }

  lemma StandActionConserves(t: Table, base: map<int, nat>, s: int)
    requires Inv(t) && Accounted(t, base) && t.phase == HitStand
    ensures StandHand(t, s).Done? ==> Accounted(StandHand(t, s).table, base)
  {
    if BasicRequestValidation(t, HitStand, s).None? && t.seats[s].state == Sitting {
      var stood := t.(seats := t.seats[s := t.seats[s].(state := Standing)]);
      assert StandHand(t, s) == CashIfAllStanding(stood);
      StandConserves(t, base, s);
      CashingOrGoingOn(stood, base);
    }
  }

  lemma StepConserves(t: Table, base: map<int, nat>, i: Input)
    requires Inv(t) && Accounted(t, base) && Legal(t, i)
    ensures var o := Step(t, i.event, i.chance);
      o.Done? ==> Accounted(o.table, NextBase(t, i.event, base))
  {
    match i.event
    case Join(s) =>
    case SetReady(s) =>
    case Leave(s) => LeaveConserves(t, base, s, i.chance);
    case Bet(s, wager) =>
      if t.phase != HitStand {
        BetConserves(t, base, s, wager, i.chance);
      }
    case Hit(s) => if t.phase == HitStand { HitActionConserves(t, base, s); }
    case Stand(s) => if t.phase == HitStand { StandActionConserves(t, base, s); }
  }

  /** How many cards each hand had when the latest shoe of a run was made: what it holds beyond
      them came from that shoe. */
  ghost function BaseAfter(t: Table, inputs: seq<Input>): map<int, nat> {
    if inputs == [] then map[]
    else
      var n := |inputs| - 1;
      match Play(t, inputs[..n])
      case None => map[]
      case Some(before) => NextBase(before, inputs[n].event, BaseAfter(t, inputs[..n]))
  }

  /** In every reachable table every card of the five decks is accounted for: shoe, dealer and
      what the hands got since that shoe was made. */
  lemma {:induction false} RunsConserve(inputs: seq<Input>)
    ensures Play(EMPTY_TABLE, inputs).Some? ==> Accounted(Play(EMPTY_TABLE, inputs).value, BaseAfter(EMPTY_TABLE, inputs))
  {
    if inputs != [] {
      var n := |inputs| - 1;
      RunsConserve(inputs[..n]);
      RunsKeepInv(inputs[..n]);
      match Play(EMPTY_TABLE, inputs[..n])
      case None =>
      case Some(before) =>
        if Legal(before, inputs[n]) {
          StepConserves(before, BaseAfter(EMPTY_TABLE, inputs[..n]), inputs[n]);
        }
    }
  }

  /** No player departs in a run from t. */
  ghost predicate NoDepartures(t: Table, inputs: seq<Input>)
    decreases |inputs|
  {
    inputs != [] ==>
      var n := |inputs| - 1;
      && NoDepartures(t, inputs[..n])
      && (Play(t, inputs[..n]).Some? && inputs[n].event.Leave? ==> inputs[n].event.socket !in Play(t, inputs[..n]).value.seats)
  }

  ghost predicate NoCardsBefore(t: Table, base: map<int, nat>) {
    && (t.phase == HitStand ==> forall k :: k in base ==> base[k] == 0)
    && (t.phase != HitStand ==> forall k :: k in t.seats ==> t.seats[k].cards == [])
  }

  lemma {:induction false} WholeHandsFrom(t: Table, inputs: seq<Input>)
    requires Inv(t) && t.phase != HitStand && NoDepartures(t, inputs)
    ensures Play(t, inputs).Some? ==>
      var after, base := Play(t, inputs).value, BaseAfter(t, inputs);
      Inv(after) && Accounted(after, base) && NoCardsBefore(after, base)
  {
    if inputs != [] {
      var n := |inputs| - 1;
      WholeHandsFrom(t, inputs[..n]);
      match Play(t, inputs[..n])
      case None =>
      case Some(before) =>
        if Legal(before, inputs[n]) {
          StepKeepsInv(before, inputs[n]);
          StepConserves(before, BaseAfter(t, inputs[..n]), inputs[n]);
        }
    }
  }

  /** Each of the 52 cards is found exactly five times in the shoe, the dealer's hand and the
      players' whole hands. */
  ghost predicate AllCardsOnTable(t: Table) {
    && t.shoe.Some? && t.dealer.Some?
    && forall card: Card ::
         multiset(t.shoe.value)[card] + multiset(t.dealer.value)[card] + Total(Holdings(t.seats, card)) == 5
  }

  /** How many copies of a card each hand holds. */
  ghost function Holdings(seats: map<int, Seat>, card: Card): map<int, int> {
    map k | k in seats :: multiset(seats[k].cards)[card]
  }

  lemma WholeHands(seats: map<int, Seat>, base: map<int, nat>, card: Card)
    requires base.Keys == seats.Keys && forall k :: k in base ==> base[k] == 0
    ensures Weights(Copies(card), seats, base) == Holdings(seats, card)
  {
    forall k | k in seats
      ensures Weights(Copies(card), seats, base)[k] == Holdings(seats, card)[k]
    {
      assert base[k] == 0 && seats[k].cards[0..] == seats[k].cards;
    }
  }

  lemma NothingHeldBefore(t: Table, base: map<int, nat>)
    requires Conserved(t, base) && forall k :: k in base ==> base[k] == 0
    ensures AllCardsOnTable(t)
  {
    forall card: Card
      ensures multiset(t.shoe.value)[card] + multiset(t.dealer.value)[card] + Total(Holdings(t.seats, card)) == 5
    {
      assert Balanced(Copies(card), t.shoe.value, t.dealer.value, t.seats, base);
      WholeHands(t.seats, base, card);
    }
  }

  /** As long as no player has left since the game began, no card is lost or doubled. */
  lemma {:induction false} CardsAreConserved(t: Table, inputs: seq<Input>)
    requires Inv(t) && t.phase != HitStand && NoDepartures(t, inputs)
    requires Play(t, inputs).Some? && Play(t, inputs).value.phase == HitStand
    ensures AllCardsOnTable(Play(t, inputs).value)
  {
    WholeHandsFrom(t, inputs);
    NothingHeldBefore(Play(t, inputs).value, BaseAfter(t, inputs));
  }

  // ---- The shoe never runs out ----

  const SAFE_PLAYERS := 54

  lemma {:induction false} DealerRunsOutLight(dealer: seq<Card>, shoe: seq<Card>)
    requires DealDealer(dealer, shoe).None?
    ensures Hard(dealer) + Hard(shoe) <= 16
    decreases |shoe|
  {
    if shoe != [] {
      var n := |shoe| - 1;
      DealerRunsOutLight(dealer + [shoe[n]], shoe[..n]);
      Push(dealer, shoe[n]);
      assert shoe == shoe[..n] + [shoe[n]];
    }
  }

  /** The most the hands can weigh since the shoe was made. */
  lemma HandsWeighAtMost(t: Table, base: map<int, nat>)
    requires Conserved(t, base)
    ensures Total(Weights(Weight, t.seats, base)) <= 31 * |t.seats|
  {
    var limit: map<int, int> := map k | k in t.seats :: 31;
    TotalAtMost(Weights(Weight, t.seats, base), limit);
    TotalOf(limit, 31);
    assert limit.Keys == t.seats.Keys;
    assert |limit| == |limit.Keys| == |t.seats|;
  }

  lemma SittingHandWeighsLess(t: Table, base: map<int, nat>, s: int)
    requires Conserved(t, base) && s in t.seats && t.seats[s].state == Sitting
    ensures Total(Weights(Weight, t.seats, base)) <= 31 * |t.seats| - 10
  {
    var limit: map<int, int> := map k | k in t.seats :: 31;
    TotalAtMost(Weights(Weight, t.seats, base), limit[s := 21]);
    TotalOf(limit, 31);
    TotalUpdate(limit, s, 21);
    assert limit.Keys == t.seats.Keys;
    assert |limit| == |limit.Keys| == |t.seats|;
  }

  lemma CashingDealsSafely(t: Table, base: map<int, nat>)
    requires Conserved(t, base) && |t.seats| <= SAFE_PLAYERS
    ensures StartCashing(t).Done?
  {
    HandsWeighAtMost(t, base);
    assert Balanced(Weight, t.shoe.value, t.dealer.value, t.seats, base);
    if DealDealer(t.dealer.value, t.shoe.value).None? {
      DealerRunsOutLight(t.dealer.value, t.shoe.value);
    }
  }

  lemma StartHitStandDealsSafely(t: Table, ch: Chance)
    requires IsDecks(ch.shoe, SHOE_SIZE) && IsOrder(ch.order, t.seats.Keys) && |t.seats| <= SAFE_PLAYERS
    ensures StartHitStand(t, ch).Done?
  {
    WeightOfDecks(ch.shoe, SHOE_SIZE);
    OrderLength(ch.order, t.seats.Keys);
    OpeningGivesTwo(t.seats, ch.order, ch.shoe);
    OpeningConserves(t, ch);
    var (seats, shoe) := OpeningDeal(t.seats, ch.order, ch.shoe).value;
    assert |seats| == |seats.Keys| == |t.seats.Keys| == |t.seats|;
    CashingDealsSafely(Dealt(t, seats, shoe, LastTwo(ch.shoe)), Lengths(t.seats));
  }

  lemma {:induction false} OrderLength(order: seq<int>, keys: set<int>)
    requires IsOrder(order, keys)
    ensures |order| == |keys|
  {
    if order == [] {
      assert forall k :: k !in keys;
      assert keys == {};
    } else {
      var n := |order| - 1;
      var last := order[n];
      assert last in order && last in keys;
      assert order == order[..n] + [last];
      OrderLength(order[..n], keys - {last});
    }
  }

  lemma HitDealsSafely(t: Table, base: map<int, nat>, s: int)
    requires Inv(t) && t.phase == HitStand && Conserved(t, base) && |t.seats| <= SAFE_PLAYERS
    requires s in t.seats && t.seats[s].state == Sitting
    ensures t.shoe.value != []
  {
    SittingHandWeighsLess(t, base, s);
    assert Balanced(Weight, t.shoe.value, t.dealer.value, t.seats, base);
  }

  lemma LeaveIsSafe(t: Table, s: int, ch: Chance)
    requires Inv(t) && s in t.users && ValidChance(t, Leave(s), ch) && |t.seats| <= SAFE_PLAYERS
    ensures ClientLeave(t, s, ch).Done?
  {
    if s in t.seats {
      DepartureDealsAgain(t, s, ch);
      FewerKeys(t.seats, s);
      var left := t.(users := t.users - {s}, seats := t.seats - {s});
      if left.seats != map[] && AllBetsPlaced(left.seats) {
        StartHitStandDealsSafely(left, ch);
      }
    }
  }

  lemma BetIsSafe(t: Table, s: int, wager: Wager, ch: Chance)
    requires s in t.users && ValidChance(t, Bet(s, wager), ch) && |t.seats| <= SAFE_PLAYERS
    ensures PlaceBet(t, s, wager, ch).Done?
  {
    if BasicRequestValidation(t, Betting, s).None? && BetError(t.users[s], t.seats[s], wager).None? {
      var b := AcceptBet(t, s, wager);
      SameKeys(t.seats, s, b.seats[s]);
      if AllBetsPlaced(b.seats) {
        StartHitStandDealsSafely(b, ch);
      }
    }
  }

  lemma ActionIsSafe(t: Table, base: map<int, nat>, s: int, seat: Seat, shoe: seq<Card>)
    requires s in t.seats && |t.seats| <= SAFE_PLAYERS
    requires Conserved(t.(seats := t.seats[s := seat], shoe := Some(shoe)), base)
    ensures CashIfAllStanding(t.(seats := t.seats[s := seat], shoe := Some(shoe))).Done?
  {
    SameKeys(t.seats, s, seat);
    CashingDealsSafely(t.(seats := t.seats[s := seat], shoe := Some(shoe)), base);
  }

  lemma StepIsSafe(t: Table, base: map<int, nat>, i: Input)
    requires Inv(t) && Accounted(t, base) && Legal(t, i) && |t.seats| <= SAFE_PLAYERS
    ensures Step(t, i.event, i.chance).Done?
  {
    match i.event
    case Join(s) =>
    case SetReady(s) =>
    case Leave(s) => LeaveIsSafe(t, s, i.chance);
    case Bet(s, wager) => BetIsSafe(t, s, wager, i.chance);
    case Hit(s) =>
      if BasicRequestValidation(t, HitStand, s).None? && t.seats[s].state == Sitting {
        HitDealsSafely(t, base, s);
        HitConserves(t, base, s);
        var n := |t.shoe.value| - 1;
        ActionIsSafe(t, base, s, AfterHit(t.seats[s], t.shoe.value[n]), t.shoe.value[..n]);
      }
    case Stand(s) =>
      if BasicRequestValidation(t, HitStand, s).None? && t.seats[s].state == Sitting {
        StandConserves(t, base, s);
        ActionIsSafe(t, base, s, t.seats[s].(state := Standing), t.shoe.value);
      }
  }

  lemma SameKeys(seats: map<int, Seat>, s: int, seat: Seat)
    requires s in seats
    ensures seats[s := seat].Keys == seats.Keys && |seats[s := seat]| == |seats|
  {
    assert seats[s := seat].Keys == seats.Keys;
    assert |seats[s := seat]| == |seats[s := seat].Keys|;
  }

  lemma FewerKeys(seats: map<int, Seat>, s: int)
    ensures |(seats - {s}).Keys| <= |seats.Keys|
    ensures s in seats ==> |seats - {s}| == |seats| - 1
  {
    assert (seats - {s}).Keys == seats.Keys - {s};
    if s in seats {
      assert seats.Keys == (seats.Keys - {s}) + {s};
    }
  }

  /** With at most 54 players the server never goes down: in every reachable table, whatever a
      connected user does and however the cards fall, every card asked for is there. */
  lemma {:induction false} ShoeNeverRunsOut(inputs: seq<Input>, i: Input)
    requires Play(EMPTY_TABLE, inputs).Some?
    requires var t := Play(EMPTY_TABLE, inputs).value; Legal(t, i) && |t.seats| <= SAFE_PLAYERS
    ensures Play(EMPTY_TABLE, inputs + [i]).Some?
  {
    var t := Play(EMPTY_TABLE, inputs).value;
    RunsConserve(inputs);
    RunsKeepInv(inputs);
    StepIsSafe(t, BaseAfter(EMPTY_TABLE, inputs), i);
    assert (inputs + [i])[..|inputs|] == inputs;
  }
}
