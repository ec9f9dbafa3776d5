/** One game from its first bet to its cashing: who is cashed, with which hand, and what each
    user's money does. */
module Rounds {
  import opened Cards
  import opened PointsTools
  import opened Rules
  import opened GameTable
  import opened Invariant
  import opened Dealer
  import opened Termination
  import opened Ledger

  // ---- How a game ends ----

  /** The hand that player k of `t` is cashed with when event i ends the game. */
  ghost predicate FinalHand(t: Table, i: Input, k: int, hand: Seat)
    requires k in t.seats
  {
    match i.event
    case Stand(s) => hand == if k == s then t.seats[k].(state := Standing) else t.seats[k]
    case Hit(s) =>
      && t.shoe.Some? && t.shoe.value != []
      && hand == if k == s then AfterHit(t.seats[k], t.shoe.value[|t.shoe.value| - 1]) else t.seats[k]
    case Leave(_) => GotTwo(t.seats[k], hand)
    case _ => false
  }

  /** Every player whom event i leaves in the game has a hand there, and all of them stand. */
  ghost predicate FinalHands(t: Table, i: Input, finals: map<int, Seat>) {
    && finals.Keys == Remaining(t, i.event).seats.Keys && finals.Keys <= t.seats.Keys
    && AllHandsStanding(finals)
    && forall k :: k in finals ==> FinalHand(t, i, k, finals[k])
  }

  /** The dealer's first two cards, and the shoe he draws from. */
  function DealerBegins(t: Table, i: Input): (seq<Card>, seq<Card>)
    requires if i.event.Leave? then |i.chance.shoe| >= 2 + 2 * |i.chance.order| else t.dealer.Some? && t.shoe.Some?
    requires i.event.Hit? ==> t.shoe.value != []
  {
    match i.event
    case Leave(_) => (LastTwo(i.chance.shoe), i.chance.shoe[..|i.chance.shoe| - 2 - 2 * |i.chance.order|])
    case Hit(_) => (t.dealer.value, t.shoe.value[..|t.shoe.value| - 1])
    case _ => (t.dealer.value, t.shoe.value)
  }

  /** The dealer has played to the end: from his two cards to 17 points or more. */
  ghost predicate DealerHasPlayed(t: Table, i: Input, after: Table) {
    && (if i.event.Leave? then |i.chance.shoe| >= 2 + 2 * |i.chance.order| else t.dealer.Some? && t.shoe.Some?)
    && (i.event.Hit? ==> t.shoe.value != [])
    && after.dealer.Some? && after.shoe.Some?
    && StopsWith(DealerBegins(t, i).0, DealerBegins(t, i).1, after.dealer.value, after.shoe.value)
  }

  /** The game ended, and each of these hands was cashed against the dealer's. */
  ghost predicate Cashes(t: Table, i: Input, o: Outcome, finals: map<int, Seat>)
    requires o.Done?
  {
    && o.table.phase == NotStarted && FinalHands(t, i, finals) && DealerHasPlayed(t, i, o.table)
    && o.cashed == CashAll(finals, Points(o.table.dealer.value))
  }

  lemma CashingFollowsTheDealer(t: Table)
    requires t.dealer.Some? && t.shoe.Some? && |t.dealer.value| == 2 && CashIfAllStanding(t).Done?
    ensures var o := CashIfAllStanding(t);
      if AllHandsStanding(t.seats) then
        && o.table.phase == NotStarted && o.table.dealer.Some? && o.table.shoe.Some?
        && StopsWith(t.dealer.value, t.shoe.value, o.table.dealer.value, o.table.shoe.value)
        && o.cashed == CashAll(t.seats, Points(o.table.dealer.value))
      else o.table == t && o.cashed == map[]
  {
    DealerStops(t.dealer.value, t.shoe.value);
  }

  lemma StandEnds(t: Table, i: Input) returns (finals: map<int, Seat>)
    requires Inv(t) && Legal(t, i) && i.event.Stand? && t.phase == HitStand
    ensures var o := Step(t, i.event, i.chance);
      o.Done? ==> if o.table.phase == NotStarted then Cashes(t, i, o, finals) else o.cashed == map[]
  {
    var s := i.event.socket;
    finals := map[];
    if s in t.seats && t.seats[s].state == Sitting {
      finals := t.seats[s := t.seats[s].(state := Standing)];
      var stood := t.(seats := finals);
      assert Step(t, i.event, i.chance) == CashIfAllStanding(stood);
      if CashIfAllStanding(stood).Done? {
        CashingFollowsTheDealer(stood);
        assert finals.Keys == t.seats.Keys;
      }
    }
  }

  lemma HitEnds(t: Table, i: Input) returns (finals: map<int, Seat>)
    requires Inv(t) && Legal(t, i) && i.event.Hit? && t.phase == HitStand
    ensures var o := Step(t, i.event, i.chance);
      o.Done? ==> if o.table.phase == NotStarted then Cashes(t, i, o, finals) else o.cashed == map[]
  {
    var s := i.event.socket;
    finals := map[];
    if s in t.seats && t.seats[s].state == Sitting && t.shoe.value != [] {
      var n := |t.shoe.value| - 1;
      finals := t.seats[s := AfterHit(t.seats[s], t.shoe.value[n])];
      var hit := t.(seats := finals, shoe := Some(t.shoe.value[..n]));
      assert Step(t, i.event, i.chance) == CashIfAllStanding(hit);
      if CashIfAllStanding(hit).Done? {
        CashingFollowsTheDealer(hit);
        assert finals.Keys == t.seats.Keys;
      }
    }
  }

  /** The cashing that may follow the opening deal. */
  ghost predicate CashesTheDealt(seats: map<int, Seat>, ch: Chance, o: Outcome, finals: map<int, Seat>)
    requires o.Done?
  {
    && o.table.phase == NotStarted && AllGotTwo(seats, finals) && AllHandsStanding(finals)
    && |ch.shoe| >= 2 + 2 * |ch.order| && o.table.dealer.Some? && o.table.shoe.Some?
    && StopsWith(LastTwo(ch.shoe), ch.shoe[..|ch.shoe| - 2 - 2 * |ch.order|], o.table.dealer.value, o.table.shoe.value)
    && o.cashed == CashAll(finals, Points(o.table.dealer.value))
  }

  lemma DealingEnds(t: Table, ch: Chance) returns (finals: map<int, Seat>)
    requires IsOrder(ch.order, t.seats.Keys) && StartHitStand(t, ch).Done?
    ensures var o := StartHitStand(t, ch);
      if o.table.phase == NotStarted then CashesTheDealt(t.seats, ch, o, finals) else o.cashed == map[]
  {
    OpeningGivesTwo(t.seats, ch.order, ch.shoe);
    var (seats, rest) := OpeningDeal(t.seats, ch.order, ch.shoe).value;
    finals := seats;
    CashingFollowsTheDealer(Dealt(t, seats, rest, LastTwo(ch.shoe)));
  }

  lemma DealtHandsAreFinal(t: Table, i: Input, o: Outcome, finals: map<int, Seat>)
    requires i.event.Leave? && o.Done? && CashesTheDealt(t.seats - {i.event.socket}, i.chance, o, finals)
    ensures Cashes(t, i, o, finals)
  {}

  lemma LeaveEnds(t: Table, i: Input) returns (finals: map<int, Seat>)
    requires Inv(t) && Legal(t, i) && i.event.Leave? && t.phase != NotStarted
    ensures var o := Step(t, i.event, i.chance);
      o.Done? ==>
        if Remaining(t, i.event).seats == map[] then o.table.phase == NotStarted && o.cashed == map[]
        else if o.table.phase == NotStarted then Cashes(t, i, o, finals)
        else o.cashed == map[]
  {
    var s := i.event.socket;
    finals := map[];
    var left := Remaining(t, i.event);
    if s in t.seats {
      DepartureDealsAgain(t, s, i.chance);
      if left.seats != map[] && AllBetsPlaced(left.seats) {
        var o := StartHitStand(left, i.chance);
        assert Step(t, i.event, i.chance) == o;
        if o.Done? {
          finals := DealingEnds(left, i.chance);
          if o.table.phase == NotStarted {
            DealtHandsAreFinal(t, i, o, finals);
          }
        }
      }
    } else {
      assert left.seats == t.seats;
    }
  }

  /** What an event does to the hands: if it ends the game then either the last player has left
      and nothing is cashed, or every remaining player is cashed with the final hand, against a
      dealer who drew under 17 and stopped. Until then nothing is cashed. */
  lemma GameEndsWithTheCashing(t: Table, i: Input) returns (finals: map<int, Seat>)
    requires Inv(t) && t.phase != NotStarted && Legal(t, i) && Step(t, i.event, i.chance).Done?
    ensures var o := Step(t, i.event, i.chance);
      if Remaining(t, i.event).seats == map[] then o.table.phase == NotStarted && o.cashed == map[]
      else if o.table.phase == NotStarted then Cashes(t, i, o, finals)
      else o.cashed == map[]
  {
    finals := map[];
    match i.event
    case Join(s) =>
    case SetReady(s) =>
    case Leave(s) => finals := LeaveEnds(t, i);
    case Bet(s, wager) => BetsCashNothing(t, s, wager, i.chance);
    case Hit(s) => if t.phase == HitStand { finals := HitEnds(t, i); }
    case Stand(s) => if t.phase == HitStand { finals := StandEnds(t, i); }
  }

  /** Hands are cashed only by an event that ends the game. */
  lemma CashedMeansOver(t: Table, i: Input)
    requires Inv(t) && Legal(t, i)
    ensures var o := Step(t, i.event, i.chance);
      o.Done? && o.cashed != map[] ==> t.phase != NotStarted && o.table.phase == NotStarted
  {
    if t.phase != NotStarted && Step(t, i.event, i.chance).Done? {
      var finals := GameEndsWithTheCashing(t, i);
    }
  }

  /** Over every run: whenever hands are cashed, they are the final hands of exactly the players
      left in the game, each paid by the rules against the hand the dealer stopped with. */
  lemma RunsCashTheFinalHands(inputs: seq<Input>, i: Input) returns (finals: map<int, Seat>)
    requires Play(EMPTY_TABLE, inputs).Some? && Legal(Play(EMPTY_TABLE, inputs).value, i)
    ensures var t := Play(EMPTY_TABLE, inputs).value;
      var o := Step(t, i.event, i.chance);
      o.Done? && o.cashed != map[] ==>
        && Cashes(t, i, o, finals)
        && forall k :: k in finals ==> IsPaid(finals[k], Points(o.table.dealer.value), o.cashed[k])
  {
    RunsKeepInv(inputs);
    var t := Play(EMPTY_TABLE, inputs).value;
    finals := map[];
    if Step(t, i.event, i.chance).Done? && t.phase != NotStarted {
      finals := GameEndsWithTheCashing(t, i);
      PaidByTheTable(Step(t, i.event, i.chance), finals);
    }
  }

  lemma PaidByTheTable(o: Outcome, finals: map<int, Seat>)
    ensures o.Done? && o.table.dealer.Some? && o.cashed == CashAll(finals, Points(o.table.dealer.value)) ==>
      forall k :: k in finals ==> IsPaid(finals[k], Points(o.table.dealer.value), o.cashed[k])
  {
    forall k | o.Done? && o.table.dealer.Some? && k in finals
      ensures IsPaid(finals[k], Points(o.table.dealer.value), Cash(finals[k], Points(o.table.dealer.value)))
    {
      CashFollowsThePayTable(finals[k], Points(o.table.dealer.value));
    }
  }

  // ---- The money of one game ----

  /** User k sends no departure. */
  ghost predicate Stays(inputs: seq<Input>, k: int) {
    forall i :: 0 <= i < |inputs| ==> inputs[i].event != Leave(k)
  }

  /** Whoever has money and bet in the game keeps their sum until it is over. */
  lemma StaysInTheGame(t: Table, i: Input, k: int)
    requires Inv(t) && t.phase != NotStarted && Legal(t, i) && Step(t, i.event, i.chance).Done?
    requires k in t.seats && i.event != Leave(k)
    ensures var o := Step(t, i.event, i.chance);
      && k in o.table.users && k in Remaining(t, i.event).seats
      && Wealth(o.table, k) == Wealth(t, k) + IncomeOf(o.cashed, k)
      && (o.table.phase != NotStarted ==> k in o.table.seats && o.cashed == map[])
  {
    StepSettles(t, i);
    CashedMeansOver(t, i);
    assert Wealth(Remaining(t, i.event), k) == Wealth(t, k);
    if i.event.Leave? && i.event.socket in t.seats {
      DepartureDealsAgain(t, i.event.socket, i.chance);
    } else {
      SeatsShrink(t, i);
    }
  }

  /** A player who stays holds the opening balance as money and bet until the game is over. */
  lemma {:induction false} HoldsOpening(t: Table, inputs: seq<Input>, k: int)
    requires Inv(t) && k in t.seats && OneGame(t, inputs) && Stays(inputs, k)
    requires Play(t, inputs).value.phase != NotStarted
    ensures var after := Play(t, inputs).value;
      k in after.seats && k in after.users && Wealth(after, k) == Wealth(t, k)
  {
    if inputs != [] {
      var n := |inputs| - 1;
      HoldsOpening(t, inputs[..n], k);
      MovesAreBoundedByRank(t, inputs[..n]);
      StaysInTheGame(Play(t, inputs[..n]).value, inputs[n], k);
    }
  }

  /** The last event of a game, and the table it came upon. */
  ghost predicate EndsWith(t: Table, inputs: seq<Input>, before: Table, i: Input) {
    inputs != [] && Play(t, inputs[..|inputs| - 1]) == Some(before) && i == inputs[|inputs| - 1]
  }

  /** Who comes to the cashing with the opening balance leaves it with that balance plus the
      income of the own hand. */
  lemma CashedFrom(t: Table, before: Table, i: Input, finals: map<int, Seat>, k: int)
    requires Inv(before) && before.phase != NotStarted && Legal(before, i) && Step(before, i.event, i.chance).Done?
    requires k in t.users && k in before.seats && Wealth(before, k) == t.users[k].money && i.event != Leave(k)
    requires Cashes(before, i, Step(before, i.event, i.chance), finals)
    ensures var after := Step(before, i.event, i.chance).table;
      && k in after.users && k in finals && after.dealer.Some?
      && after.users[k].money == t.users[k].money + Cash(finals[k], Points(after.dealer.value)).income
  {
    StaysInTheGame(before, i, k);
    StepKeepsInv(before, i);
  }

  /** One whole game. Until it is over every player who stays holds exactly the opening balance,
      as money and bet. When it is over every player who stayed has the opening balance plus the
      income of the own final hand against the dealer's final hand. */
  lemma {:induction false} RoundAccounting(t: Table, inputs: seq<Input>) returns (before: Table, i: Input, finals: map<int, Seat>)
    requires JustStarted(t) && OneGame(t, inputs)
    ensures var after := Play(t, inputs).value;
      forall k :: k in t.seats && Stays(inputs, k) ==>
        && k in t.users && k in after.users
        && if after.phase != NotStarted then k in after.seats && Wealth(after, k) == t.users[k].money
           else
             && EndsWith(t, inputs, before, i)
             && FinalHands(before, i, finals) && k in finals && DealerHasPlayed(before, i, after)
             && after.users[k].money == t.users[k].money + Cash(finals[k], Points(after.dealer.value)).income
  {
    var after := Play(t, inputs).value;
    before, finals := t, map[];
    i := Input(Join(0), Chance([], []));
    if after.phase == NotStarted {
      i := inputs[|inputs| - 1];
      before := Play(t, inputs[..|inputs| - 1]).value;
      MovesAreBoundedByRank(t, inputs[..|inputs| - 1]);
      finals := GameEndsWithTheCashing(before, i);
    }
    forall k | k in t.seats && Stays(inputs, k)
      ensures k in t.users && k in after.users
      ensures if after.phase != NotStarted then k in after.seats && Wealth(after, k) == t.users[k].money
              else
                && EndsWith(t, inputs, before, i)
                && FinalHands(before, i, finals) && k in finals && DealerHasPlayed(before, i, after)
                && after.users[k].money == t.users[k].money + Cash(finals[k], Points(after.dealer.value)).income
    {
      if after.phase != NotStarted {
        HoldsOpening(t, inputs, k);
      } else {
        HoldsOpening(t, inputs[..|inputs| - 1], k);
        StaysInTheGame(before, i, k);
        CashedFrom(t, before, i, finals, k);
      }
    }
  }

  /** Whoever does not play keeps the same money through a whole game. */
  lemma {:induction false} OthersKeepTheirMoney(t: Table, inputs: seq<Input>, k: int)
    requires Inv(t) && OneGame(t, inputs) && k in t.users && k !in t.seats && Stays(inputs, k)
    ensures var after := Play(t, inputs).value;
      k in after.users && k !in after.seats && after.users[k].money == t.users[k].money
  {
    if inputs != [] {
      var n := |inputs| - 1;
      OthersKeepTheirMoney(t, inputs[..n], k);
      MovesAreBoundedByRank(t, inputs[..n]);
      StaysOut(Play(t, inputs[..n]).value, inputs[n], k);
    }
  }

  lemma StaysOut(t: Table, i: Input, k: int)
    requires Inv(t) && t.phase != NotStarted && Legal(t, i) && Step(t, i.event, i.chance).Done?
    requires k in t.users && k !in t.seats && i.event != Leave(k)
    ensures var after := Step(t, i.event, i.chance).table;
      k in after.users && k !in after.seats && after.users[k].money == t.users[k].money
  {
    StepSettles(t, i);
    if i.event.Leave? && i.event.socket in t.seats {
      DepartureDealsAgain(t, i.event.socket, i.chance);
    } else {
      SeatsShrink(t, i);
    }
  }
}
