/** Every game ends, and the players alone can always end it. */
module Termination {
  import opened Cards
  import opened PointsTools
  import opened Rules
  import opened GameTable
  import opened Sums
  import opened Invariant
  import opened Conservation

  /** How many more moves a sitting hand can make: each hit raises the hard total. */
  function SittingRank(seat: Seat): nat {
    if seat.state == Standing then 0 else if Hard(seat.cards) < 21 then 22 - Hard(seat.cards) else 1
  }

  function SeatRank(phase: Phase, seat: Seat): nat {
    if phase == Betting then (if ABetIsPlaced(seat) then 21 else 22) else 1 + SittingRank(seat)
  }

  ghost function Ranks(phase: Phase, seats: map<int, Seat>): map<int, int> {
    map k | k in seats :: SeatRank(phase, seats[k])
  }

  /** An upper bound on the moves left in the game; no game, no moves. */
  ghost function Rank(t: Table): int {
    Total(Ranks(t.phase, t.seats))
  }

  /** An accepted bet, hit or stand, or the departure of a player. */
  ghost predicate IsMove(t: Table, i: Input)
    requires Legal(t, i)
  {
    match i.event
    case Join(_) => false
    case SetReady(_) => false
    case Leave(s) => s in t.seats
    case _ => var o := Step(t, i.event, i.chance); o.Done? && o.code == 0
  }

  /** A refused request changes nothing at all. */
  lemma RefusalChangesNothing(t: Table, i: Input)
    requires Legal(t, i)
    ensures var o := Step(t, i.event, i.chance);
      o.Done? && o.code != 0 ==> o.code == -1 && o.table == t && o.cashed == map[]
  {
    match i.event
    case Join(s) =>
    case Leave(s) =>
    case SetReady(s) =>
    case Bet(s, wager) =>
    case Hit(s) =>
    case Stand(s) =>
  }

  // ---- The rank falls ----

  lemma RankIsAtLeastPlayers(phase: Phase, seats: map<int, Seat>)
    ensures Total(Ranks(phase, seats)) >= |seats|
    ensures (exists k :: k in seats && seats[k].state == Sitting) ==> Total(Ranks(phase, seats)) >= |seats| + 1
  {
    var ones: map<int, int> := map k | k in seats :: 1;
    assert ones.Keys == seats.Keys;
    assert |ones| == |ones.Keys| == |seats|;
    TotalOf(ones, 1);
    TotalAtMost(ones, Ranks(phase, seats));
    if s :| s in seats && seats[s].state == Sitting {
      TotalAtMost(ones[s := 2], Ranks(phase, seats));
      TotalUpdate(ones, s, 2);
    }
  }

  lemma ChangeSeat(phase: Phase, seats: map<int, Seat>, s: int, seat: Seat)
    requires s in seats
    ensures Total(Ranks(phase, seats[s := seat]))
         == Total(Ranks(phase, seats)) - SeatRank(phase, seats[s]) + SeatRank(phase, seat)
  {
    var r := Ranks(phase, seats);
    assert Ranks(phase, seats[s := seat]) == r[s := SeatRank(phase, seat)];
    TotalUpdate(r, s, SeatRank(phase, seat));
  }

  lemma NobodyRanksZero(t: Table)
    requires t.seats == map[]
    ensures Rank(t) == 0
  {}

  lemma CashingLowersRank(t: Table, bound: int)
    requires Rank(t) <= bound
    ensures StartCashing(t).Done? ==> Rank(StartCashing(t).table) <= bound
    ensures CashIfAllStanding(t).Done? ==> Rank(CashIfAllStanding(t).table) <= bound
  {
    RankIsAtLeastPlayers(t.phase, t.seats);
    if StartCashing(t).Done? {
      NobodyRanksZero(StartCashing(t).table);
    }
  }

  lemma TwoCardsKeepRank(phase: Phase, seat: Seat, after: Seat)
    requires GotTwo(seat, after) && (phase == HitStand || (phase == Betting && ABetIsPlaced(seat)))
    ensures SeatRank(HitStand, after) <= SeatRank(phase, seat)
  {
    var n := |seat.cards|;
    assert after.cards == seat.cards + after.cards[n..];
    Concat(seat.cards, after.cards[n..]);
  }

  lemma DealtRanks(phase: Phase, seats: map<int, Seat>, dealt: map<int, Seat>)
    requires phase == HitStand || (phase == Betting && AllBetsPlaced(seats))
    requires AllGotTwo(seats, dealt)
    ensures Total(Ranks(HitStand, dealt)) <= Total(Ranks(phase, seats))
  {
    forall k | k in dealt ensures SeatRank(HitStand, dealt[k]) <= SeatRank(phase, seats[k]) {
      TwoCardsKeepRank(phase, seats[k], dealt[k]);
    }
    TotalAtMost(Ranks(HitStand, dealt), Ranks(phase, seats));
  }

  /** Two more cards never raise a hand's rank, and an empty hand that has bet ranks 21 before
      and at most 21 after. */
  lemma DealingKeepsRank(t: Table, ch: Chance)
    requires t.phase == Betting || t.phase == HitStand
    requires t.phase == Betting ==> AllBetsPlaced(t.seats)
    requires IsOrder(ch.order, t.seats.Keys)
    ensures StartHitStand(t, ch).Done? ==> Rank(StartHitStand(t, ch).table) <= Rank(t)
  {
    OpeningGivesTwo(t.seats, ch.order, ch.shoe);
    match OpeningDeal(t.seats, ch.order, ch.shoe)
    case None =>
    case Some((seats, rest)) =>
      DealtRanks(t.phase, t.seats, seats);
      CashingLowersRank(Dealt(t, seats, rest, LastTwo(ch.shoe)), Rank(t));
  }

  lemma LeaveLowersRank(t: Table, s: int, ch: Chance)
    requires Inv(t) && s in t.seats && ValidChance(t, Leave(s), ch)
    ensures ClientLeave(t, s, ch).Done? ==> Rank(ClientLeave(t, s, ch).table) < Rank(t)
  {
    DepartureDealsAgain(t, s, ch);
    var left := t.(users := t.users - {s}, seats := t.seats - {s});
    assert Ranks(t.phase, left.seats) == Ranks(t.phase, t.seats) - {s};
    TotalRemove(Ranks(t.phase, t.seats), s);
    RankIsAtLeastPlayers(t.phase, left.seats);
    if left.seats == map[] {
      NobodyRanksZero(ClientLeave(t, s, ch).table);
    } else if AllBetsPlaced(left.seats) {
      DealingKeepsRank(left, ch);
    }
  }

  lemma BetLowersRank(t: Table, s: int, wager: Wager, ch: Chance)
    requires Inv(t) && t.phase == Betting && s in t.seats && ValidChance(t, Bet(s, wager), ch)
    requires BetError(t.users[s], t.seats[s], wager).None?
    ensures PlaceBet(t, s, wager, ch).Done? ==> Rank(PlaceBet(t, s, wager, ch).table) < Rank(t)
  {
    AcceptedBetMovesMoney(t, s, wager);
    var b := AcceptBet(t, s, wager);
    assert BetOrSolvent(t.seats[s], t.users[s]);
    ChangeSeat(Betting, t.seats, s, b.seats[s]);
    if AllBetsPlaced(b.seats) {
      DealingKeepsRank(b, ch);
    }
  }

  lemma ActionLowersRank(t: Table, i: Input)
    requires Inv(t) && Legal(t, i) && (i.event.Hit? || i.event.Stand?) && IsMove(t, i)
    ensures Rank(Step(t, i.event, i.chance).table) < Rank(t)
  {
    var s := i.event.socket;
    var seat := t.seats[s];
    if i.event.Stand? {
      var stood := seat.(state := Standing);
      ChangeSeat(HitStand, t.seats, s, stood);
      CashingLowersRank(t.(seats := t.seats[s := stood]), Rank(t) - 1);
    } else {
      var n := |t.shoe.value| - 1;
      var hit := AfterHit(seat, t.shoe.value[n]);
      HitStandsOnlyWhenBusted(t, s, t.shoe.value[n]);
      Push(seat.cards, t.shoe.value[n]);
      ChangeSeat(HitStand, t.seats, s, hit);
      CashingLowersRank(t.(seats := t.seats[s := hit], shoe := Some(t.shoe.value[..n])), Rank(t) - 1);
    }
  }

  /** During a game every move lowers the rank, and everything else leaves it alone. */
  lemma MovesLowerRank(t: Table, i: Input)
    requires Inv(t) && t.phase != NotStarted && Legal(t, i) && Step(t, i.event, i.chance).Done?
    ensures var after := Step(t, i.event, i.chance).table;
      if IsMove(t, i) then Rank(after) < Rank(t) else after.seats == t.seats && after.phase == t.phase
  {
    RefusalChangesNothing(t, i);
    match i.event
    case Join(s) =>
    case SetReady(s) =>
    case Leave(s) => if s in t.seats { LeaveLowersRank(t, s, i.chance); }
    case Bet(s, wager) => if IsMove(t, i) { BetLowersRank(t, s, wager, i.chance); }
    case Hit(s) => if IsMove(t, i) { ActionLowersRank(t, i); }
    case Stand(s) => if IsMove(t, i) { ActionLowersRank(t, i); }
  }

  // ---- Whole games ----

  /** A run from t during which the game goes on at least until its last input. */
  ghost predicate OneGame(t: Table, inputs: seq<Input>)
    decreases |inputs|
  {
    && Play(t, inputs).Some?
    && (inputs != [] ==>
          var before := inputs[..|inputs| - 1];
          OneGame(t, before) && Play(t, before).value.phase != NotStarted)
  }

  ghost function Moves(t: Table, inputs: seq<Input>): nat
    requires OneGame(t, inputs)
  {
    if inputs == [] then 0
    else
      var n := |inputs| - 1;
      Moves(t, inputs[..n]) + if IsMove(Play(t, inputs[..n]).value, inputs[n]) then 1 else 0
  }

  lemma {:induction false} MovesAreBoundedByRank(t: Table, inputs: seq<Input>)
    requires Inv(t) && OneGame(t, inputs)
    ensures Inv(Play(t, inputs).value)
    ensures Moves(t, inputs) + Rank(Play(t, inputs).value) <= Rank(t)
  {
    if inputs != [] {
      var n := |inputs| - 1;
      MovesAreBoundedByRank(t, inputs[..n]);
      StepKeepsInv(Play(t, inputs[..n]).value, inputs[n]);
      MovesLowerRank(Play(t, inputs[..n]).value, inputs[n]);
    }
  }

  /** A game nobody has bet in yet. */
  ghost predicate JustStarted(t: Table) {
    Inv(t) && t.phase == Betting && forall k :: k in t.seats ==> t.seats[k] == FRESH_SEAT
  }

  lemma StartingRank(t: Table)
    requires JustStarted(t)
    ensures Rank(t) == 22 * |t.seats|
  {
    var r := Ranks(Betting, t.seats);
    TotalOf(r, 22);
    assert r.Keys == t.seats.Keys;
    assert |r| == |r.Keys|;
  }

  /** Players come from the start of the game only: nobody joins one, and without departures
      nobody leaves it before it is over. */
  lemma {:induction false} PlayersStay(t: Table, inputs: seq<Input>)
    requires Inv(t) && OneGame(t, inputs) && NoDepartures(t, inputs)
    ensures var after := Play(t, inputs).value; after.phase == NotStarted || after.seats.Keys == t.seats.Keys
  {
    if inputs != [] {
      var n := |inputs| - 1;
      PlayersStay(t, inputs[..n]);
      MovesAreBoundedByRank(t, inputs[..n]);
      SeatsShrink(Play(t, inputs[..n]).value, inputs[n]);
    }
  }

  lemma SeatsShrink(t: Table, i: Input)
    requires Inv(t) && t.phase != NotStarted && Legal(t, i) && Step(t, i.event, i.chance).Done?
    requires i.event.Leave? ==> i.event.socket !in t.seats
    ensures var after := Step(t, i.event, i.chance).table;
      if after.phase == NotStarted then after.seats == map[] else after.seats.Keys == t.seats.Keys
  {
    match i.event
    case Join(s) =>
    case Leave(s) =>
    case SetReady(s) =>
    case Bet(s, wager) => BetSeatsShrink(t, s, wager, i.chance);
    case Hit(s) => ActionSeatsShrink(t, i);
    case Stand(s) => ActionSeatsShrink(t, i);
  }

  /** Either the game is over and the seats are empty, or the same players go on. */
  ghost predicate SamePlayersOrOver(seats: map<int, Seat>, o: Outcome) {
    o.Done? ==> if o.table.phase == NotStarted then o.table.seats == map[] else o.table.seats.Keys == seats.Keys
  }

  lemma CashingSeats(t: Table)
    requires t.phase != NotStarted
    ensures SamePlayersOrOver(t.seats, CashIfAllStanding(t))
  {}

  lemma DealingSeats(t: Table, ch: Chance)
    requires t.phase != NotStarted && forall k :: k in ch.order ==> k in t.seats
    ensures SamePlayersOrOver(t.seats, DealIfAllBetsPlaced(t, ch))
  {}

  lemma BetSeatsShrink(t: Table, s: int, wager: Wager, ch: Chance)
    requires t.phase != NotStarted && s in t.users && ValidChance(t, Bet(s, wager), ch)
    ensures SamePlayersOrOver(t.seats, PlaceBet(t, s, wager, ch))
  {
    if BasicRequestValidation(t, Betting, s).None? && BetError(t.users[s], t.seats[s], wager).None? {
      var b := AcceptBet(t, s, wager);
      assert b.seats.Keys == t.seats.Keys;
      DealingSeats(b, ch);
    }
  }

  lemma ActionSeatsShrink(t: Table, i: Input)
    requires Inv(t) && t.phase != NotStarted && Legal(t, i) && (i.event.Hit? || i.event.Stand?)
    ensures SamePlayersOrOver(t.seats, Step(t, i.event, i.chance))
  {
    var s := i.event.socket;
    if BasicRequestValidation(t, HitStand, s).None? && t.seats[s].state == Sitting {
      if i.event.Stand? {
        var stood := t.seats[s := t.seats[s].(state := Standing)];
        assert stood.Keys == t.seats.Keys;
        CashingSeats(t.(seats := stood));
      } else if t.shoe.value != [] {
        var n := |t.shoe.value| - 1;
        var hit := t.seats[s := AfterHit(t.seats[s], t.shoe.value[n])];
        assert hit.Keys == t.seats.Keys;
        CashingSeats(t.(seats := hit, shoe := Some(t.shoe.value[..n])));
      }
    }
  }

  /** Every game ends: with n players at its start there are at most 22 n accepted bets, hits,
      stands and departures, and at most 21 n if nobody leaves. */
  lemma EveryGameEnds(t: Table, inputs: seq<Input>)
    requires JustStarted(t) && OneGame(t, inputs)
    ensures Moves(t, inputs) <= 22 * |t.seats|
    ensures NoDepartures(t, inputs) ==> Moves(t, inputs) <= 21 * |t.seats|
  {
    StartingRank(t);
    MovesAreBoundedByRank(t, inputs);
    RankIsAtLeastPlayers(Play(t, inputs).value.phase, Play(t, inputs).value.seats);
    if NoDepartures(t, inputs) && inputs != [] {
      var before := inputs[..|inputs| - 1];
      GoingGame(t, before);
    }
  }

  lemma {:induction false} GoingGame(t: Table, inputs: seq<Input>)
    requires JustStarted(t) && OneGame(t, inputs) && NoDepartures(t, inputs)
    requires Play(t, inputs).value.phase != NotStarted
    ensures Moves(t, inputs) < 21 * |t.seats|
  {
    StartingRank(t);
    MovesAreBoundedByRank(t, inputs);
    PlayersStay(t, inputs);
    var after := Play(t, inputs).value;
    assert |after.seats| == |after.seats.Keys| == |t.seats.Keys| == |t.seats|;
    var s := SomebodySits(after);
    RankIsAtLeastPlayers(after.phase, after.seats);
  }

  lemma SomebodySits(t: Table) returns (s: int)
    requires Inv(t) && t.phase != NotStarted
    ensures s in t.seats && t.seats[s].state == Sitting
    ensures t.phase == Betting ==> !ABetIsPlaced(t.seats[s]) && IsSolvent(t.users[s])
  {
    if t.phase == Betting {
      s :| s in t.seats && !ABetIsPlaced(t.seats[s]);
      assert BetOrSolvent(t.seats[s], t.users[s]);
    } else {
      s :| s in t.seats && t.seats[s].state != Standing;
    }
  }

  // ---- The players can always finish ----

  /** The players can bring the game to its end within n accepted bets and stands, however the
      cards fall. */
  ghost predicate CanFinish(t: Table, n: nat)
    decreases n, 0
  {
    t.phase == NotStarted || (n > 0 && exists e: Event :: Finishes(t, e, n))
  }

  ghost predicate Finishes(t: Table, e: Event, n: nat)
    requires n > 0
    decreases n - 1, 1
  {
    && (e.Bet? || e.Stand?) && e.socket in t.users
    && forall ch :: ValidChance(t, e, ch) ==>
         var o := Step(t, e, ch);
         o.Done? && o.code == 0 && CanFinish(o.table, n - 1)
  }

  /** The move that always works: bet everything, or stand. */
  lemma AcceptedMove(t: Table) returns (e: Event)
    requires Inv(t) && t.phase != NotStarted
    ensures (e.Bet? || e.Stand?) && e.socket in t.users
    ensures forall ch :: ValidChance(t, e, ch) && Step(t, e, ch).Done? ==> Step(t, e, ch).code == 0
  {
    var s := SomebodySits(t);
    e := if t.phase == Betting then Bet(s, Wager(t.users[s].money, 0)) else Stand(s);
  }

  lemma AcceptedMoveGoesOn(t: Table, base: map<int, nat>, e: Event, ch: Chance)
    requires Inv(t) && t.phase != NotStarted && Accounted(t, base) && |t.seats| <= SAFE_PLAYERS
    requires (e.Bet? || e.Stand?) && e.socket in t.users && ValidChance(t, e, ch)
    requires Step(t, e, ch).Done? ==> Step(t, e, ch).code == 0
    ensures var o := Step(t, e, ch);
      && o.Done? && Inv(o.table) && Accounted(o.table, NextBase(t, e, base))
      && |o.table.seats| <= SAFE_PLAYERS && Rank(o.table) < Rank(t)
  {
    var i := Input(e, ch);
    StepIsSafe(t, base, i);
    StepKeepsInv(t, i);
    StepConserves(t, base, i);
    MovesLowerRank(t, i);
    SeatsShrink(t, i);
    var after := Step(t, e, ch).table;
    assert |after.seats| == |after.seats.Keys| && |t.seats| == |t.seats.Keys|;
  }

  lemma {:induction false} PlayersCanFinish(t: Table, base: map<int, nat>, n: nat)
    requires Inv(t) && Accounted(t, base) && |t.seats| <= SAFE_PLAYERS && Rank(t) <= n
    ensures CanFinish(t, n)
    decreases n, 1
  {
    if t.phase != NotStarted {
      RankIsAtLeastPlayers(t.phase, t.seats);
      var e := AcceptedMove(t);
      MoveFinishes(t, base, e, n);
    }
  }

  lemma {:induction false} MoveFinishes(t: Table, base: map<int, nat>, e: Event, n: nat)
    requires Inv(t) && t.phase != NotStarted && Accounted(t, base) && |t.seats| <= SAFE_PLAYERS
    requires n > 0 && Rank(t) <= n && (e.Bet? || e.Stand?) && e.socket in t.users
    requires forall ch :: ValidChance(t, e, ch) && Step(t, e, ch).Done? ==> Step(t, e, ch).code == 0
    ensures Finishes(t, e, n)
    decreases n, 0
  {
    forall ch | ValidChance(t, e, ch)
      ensures var o := Step(t, e, ch); o.Done? && o.code == 0 && CanFinish(o.table, n - 1)
    {
      AcceptedMoveGoesOn(t, base, e, ch);
      PlayersCanFinish(Step(t, e, ch).table, NextBase(t, e, base), n - 1);
    }
  }

  /** From every reachable table with at most 54 players, the players can end the game within
      22 accepted moves each, whatever cards the shoe gives. */
  lemma {:induction false} ReachableGamesCanFinish(inputs: seq<Input>)
    requires Play(EMPTY_TABLE, inputs).Some? && |Play(EMPTY_TABLE, inputs).value.seats| <= SAFE_PLAYERS
    ensures var t := Play(EMPTY_TABLE, inputs).value; CanFinish(t, 22 * |t.seats|)
  {
    var t := Play(EMPTY_TABLE, inputs).value;
    RunsKeepInv(inputs);
    RunsConserve(inputs);
    RankIsAtMost22(t);
    PlayersCanFinish(t, BaseAfter(EMPTY_TABLE, inputs), 22 * |t.seats|);
  }

  lemma RankIsAtMost22(t: Table)
    requires Inv(t)
    ensures Rank(t) <= 22 * |t.seats|
  {
    var limit: map<int, int> := map k | k in t.seats :: 22;
    forall k | k in t.seats ensures SeatRank(t.phase, t.seats[k]) <= 22 {}
    TotalAtMost(Ranks(t.phase, t.seats), limit);
    TotalOf(limit, 22);
    assert limit.Keys == t.seats.Keys;
    assert |limit| == |limit.Keys|;
  }
}
