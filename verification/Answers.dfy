/** What each request is answered and what it leaves behind, said on the values themselves: whose
    record changes and by how much, and that nothing else does. */
module Answers {
  import opened Cards
  import opened PointsTools
  import opened Rules
  import opened GameTable
  import opened Invariant

  /** Players, phase and cards are as they were. */
  ghost predicate SameGame(a: Table, b: Table) {
    a.seats == b.seats && a.phase == b.phase && a.shoe == b.shoe && a.dealer == b.dealer
  }

  ghost predicate SameOthers(a: map<int, User>, b: map<int, User>, s: int) {
    b.Keys - {s} == a.Keys - {s} && forall k :: k in a && k != s ==> k in b && b[k] == a[k]
  }

  // ---- The lobby ----

  /** A newcomer has 1000 and is not ready; whoever has that socket already is left alone. */
  lemma JoinLeavesBehind(t: Table, i: Input)
    requires Legal(t, i) && i.event.Join?
    ensures var s, o := i.event.socket, Step(t, i.event, i.chance);
      && o.Done? && o.code == 0 && o.cashed == map[]
      && SameGame(t, o.table) && SameOthers(t.users, o.table.users, s)
      && s in o.table.users
      && (if s in t.users then o.table.users[s] == t.users[s]
          else o.table.users[s].money == 1000.0 && !o.table.users[s].isReady)
  {}

  /** A departure between games, or of somebody who does not play, removes the user and nothing
      else. */
  lemma DepartureLeavesBehind(t: Table, i: Input)
    requires Inv(t) && Legal(t, i) && i.event.Leave? && (t.phase == NotStarted || i.event.socket !in t.seats)
    ensures var s, o := i.event.socket, Step(t, i.event, i.chance);
      && o.Done? && o.code == 0 && o.cashed == map[]
      && SameGame(t, o.table) && SameOthers(t.users, o.table.users, s) && s !in o.table.users
  {}

  /** A request to be ready is accepted exactly from a user who is not ready yet, between games,
      and has more than the machine epsilon. It makes that user ready and, when everybody else
      with so much money is ready, starts a game with exactly these users, each with an empty
      hand and no bet. */
  lemma ReadyIsAnswered(t: Table, i: Input)
    requires Inv(t) && Legal(t, i) && i.event.SetReady?
    ensures var s, o, eps := i.event.socket, Step(t, i.event, i.chance), 1.0 / 4503599627370496.0;
      && o.Done? && o.cashed == map[]
      && (o.code == 0 <==> t.phase == NotStarted && !t.users[s].isReady && t.users[s].money > eps)
      && (o.code != 0 ==> o.code == -1 && o.table == t)
      && (o.code == 0 ==>
            && SameOthers(t.users, o.table.users, s)
            && s in o.table.users && o.table.users[s].money == t.users[s].money && o.table.users[s].isReady
            && o.table.shoe == t.shoe && o.table.dealer == t.dealer
            && if forall k :: k in t.users && k != s && t.users[k].money > eps ==> t.users[k].isReady
               then
                 && o.table.phase == Betting
                 && (forall k :: k in o.table.seats <==> k in t.users && t.users[k].money > eps)
                 && (forall k :: k in o.table.seats ==>
                       o.table.seats[k].cards == [] && o.table.seats[k].bet == 0.0 && o.table.seats[k].state == Sitting)
               else o.table.phase == NotStarted && o.table.seats == map[])
  {
    var s := i.event.socket;
    ReadyKeepsInv(t, s);
    if ReadyUser(t, s).code == 0 {
      var users := t.users[s := t.users[s].(isReady := true)];
      assert s in Joinables(users);
      NobodyWaited(users);
    }
  }

  lemma NobodyWaited(users: map<int, User>)
    ensures UsersToWait(users) == {} <==>
      forall k :: k in users && users[k].money > 1.0 / 4503599627370496.0 ==> users[k].isReady
  {
    assert (forall k :: k !in UsersToWait(users)) ==> UsersToWait(users) == {};
    assert UsersToWait(users) == {} ==> forall k :: k !in UsersToWait(users);
    forall k ensures k in UsersToWait(users) <==> k in users && users[k].money > 1.0 / 4503599627370496.0 && !users[k].isReady {}
  }

  /** During a game, requests and departures of those who do not play leave the game alone. */
  lemma OutsidersDoNotTouchTheGame(t: Table, i: Input)
    requires Inv(t) && Legal(t, i) && t.phase != NotStarted && i.event.socket !in t.seats
    ensures var o := Step(t, i.event, i.chance);
      && o.Done? && o.cashed == map[] && SameGame(t, o.table) && SameOthers(t.users, o.table.users, i.event.socket)
  {}

  // ---- Dealing ----

  function PlusTwo(seat: Seat, first: Card, second: Card): Seat {
    Seat(seat.cards + [first, second], seat.bet, seat.state)
  }

  /** Two cards for each player in turn, when n cards lie in the shoe. */
  ghost predicate TwoEach(before: map<int, Seat>, order: seq<int>, shoe: seq<Card>, n: nat, after: map<int, Seat>) {
    && 2 * |order| <= n <= |shoe|
    && (forall k :: k in order ==> k in before && k in after)
    && forall j :: 0 <= j < |order| ==>
         after[order[j]] == PlusTwo(before[order[j]], shoe[n - 1 - 2 * j], shoe[n - 2 - 2 * j])
  }

  /** From the back of the shoe: two cards for the dealer, then two for each player in turn. */
  ghost predicate DealtInOrder(before: map<int, Seat>, ch: Chance, after: Table) {
    var n := |ch.shoe|;
    && n >= 2 && after.phase == HitStand && after.seats.Keys == before.Keys
    && after.dealer == Some([ch.shoe[n - 1], ch.shoe[n - 2]])
    && TwoEach(before, ch.order, ch.shoe, n - 2, after.seats)
    && after.shoe == Some(ch.shoe[..n - 2 - 2 * |ch.order|])
  }

  lemma OneMoreInOrder(seats: map<int, Seat>, order: seq<int>, p: nat, shoe: seq<Card>, n: nat, dealt: map<int, Seat>)
    requires NoDuplicates(order) && p < |order| && 2 * (p + 1) <= n <= |shoe|
    requires TwoEach(seats, order[..p], shoe, n, dealt)
    requires order[p] in seats && order[p] in dealt && dealt[order[p]] == seats[order[p]]
    ensures TwoEach(seats, order[..p + 1], shoe, n,
                    dealt[order[p] := PlusTwo(seats[order[p]], shoe[n - 1 - 2 * p], shoe[n - 2 - 2 * p])])
  {
    assert order[..p + 1] == order[..p] + [order[p]];
    forall j | 0 <= j < p ensures order[..p + 1][j] == order[..p][j] != order[p] {}
  }

  /** The last player dealt to gets the next two cards from the back. */
  lemma LastInOrder(seats: map<int, Seat>, order: seq<int>, shoe: seq<Card>) returns (dealt: map<int, Seat>)
    requires NoDuplicates(order) && order != [] && (forall k :: k in order ==> k in seats) && |shoe| >= 2 * |order|
    ensures var p, n := |order| - 1, |shoe|;
      && (exists rest :: DealPlayers(seats, order[..p], shoe) == Some((dealt, rest)))
      && order[p] in dealt && dealt[order[p]] == seats[order[p]] && DealPlayers(seats, order, shoe).Some?
      && DealPlayers(seats, order, shoe).value.0
         == dealt[order[p] := PlusTwo(seats[order[p]], shoe[n - 1 - 2 * p], shoe[n - 2 - 2 * p])]
  {
    var p := |order| - 1;
    DealGivesTwo(seats, order[..p], shoe);
    assert order[p] in order && order[p] !in order[..p];
    var rest := DealPlayers(seats, order[..p], shoe).value.1;
    dealt := DealPlayers(seats, order[..p], shoe).value.0;
    assert LastTwo(rest) == [shoe[|shoe| - 1 - 2 * p], shoe[|shoe| - 2 - 2 * p]];
  }

  lemma {:induction false} PlayersInOrder(seats: map<int, Seat>, order: seq<int>, shoe: seq<Card>)
    requires NoDuplicates(order) && (forall k :: k in order ==> k in seats) && |shoe| >= 2 * |order|
    ensures DealPlayers(seats, order, shoe).Some?
    ensures TwoEach(seats, order, shoe, |shoe|, DealPlayers(seats, order, shoe).value.0)
  {
    if order != [] {
      var p := |order| - 1;
      PlayersInOrder(seats, order[..p], shoe);
      var dealt := LastInOrder(seats, order, shoe);
      assert order[p] in order;
      OneMoreInOrder(seats, order, p, shoe, |shoe|, dealt);
      assert order[..p + 1] == order;
    }
  }

  lemma SameBack(before: map<int, Seat>, order: seq<int>, shoe: seq<Card>, n: nat, after: map<int, Seat>)
    requires n <= |shoe| && TwoEach(before, order, shoe[..n], n, after)
    ensures TwoEach(before, order, shoe, n, after)
  {}

  lemma OpeningSizes(seats: map<int, Seat>, order: seq<int>, shoe: seq<Card>)
    requires IsOrder(order, seats.Keys)
    ensures OpeningDeal(seats, order, shoe).None? <==> |shoe| < 2 + 2 * |order|
    ensures OpeningDeal(seats, order, shoe).Some? ==>
      var (dealt, rest) := OpeningDeal(seats, order, shoe).value;
      dealt.Keys == seats.Keys && rest == shoe[..|shoe| - 2 - 2 * |order|]
  {
    OpeningGivesTwo(seats, order, shoe);
  }

  lemma OpeningTwoEach(seats: map<int, Seat>, order: seq<int>, shoe: seq<Card>)
    requires IsOrder(order, seats.Keys) && |shoe| >= 2 + 2 * |order| && OpeningDeal(seats, order, shoe).Some?
    ensures TwoEach(seats, order, shoe, |shoe| - 2, OpeningDeal(seats, order, shoe).value.0)
  {
    var n := |shoe| - 2;
    PlayersInOrder(seats, order, shoe[..n]);
    SameBack(seats, order, shoe, n, DealPlayers(seats, order, shoe[..n]).value.0);
  }

  lemma DealerFirst(t: Table, ch: Chance, seats: map<int, Seat>, shoe: seq<Card>)
    requires var n := |ch.shoe|; n >= 2 + 2 * |ch.order| && shoe == ch.shoe[..n - 2 - 2 * |ch.order|]
    requires seats.Keys == t.seats.Keys && TwoEach(t.seats, ch.order, ch.shoe, |ch.shoe| - 2, seats)
    ensures DealtInOrder(t.seats, ch, Dealt(t, seats, shoe, LastTwo(ch.shoe)))
  {}

  lemma OpeningInOrder(t: Table, ch: Chance, seats: map<int, Seat>, shoe: seq<Card>)
    requires IsOrder(ch.order, t.seats.Keys) && OpeningDeal(t.seats, ch.order, ch.shoe) == Some((seats, shoe))
    ensures DealtInOrder(t.seats, ch, Dealt(t, seats, shoe, LastTwo(ch.shoe)))
  {
    OpeningSizes(t.seats, ch.order, ch.shoe);
    OpeningTwoEach(t.seats, ch.order, ch.shoe);
    DealerFirst(t, ch, seats, shoe);
  }

  lemma DealingInOrder(t: Table, ch: Chance)
    requires IsOrder(ch.order, t.seats.Keys)
    ensures var o := StartHitStand(t, ch);
      o.Done? && o.table.phase == HitStand ==> DealtInOrder(t.seats, ch, o.table) && o.table.users == t.users
  {
    match OpeningDeal(t.seats, ch.order, ch.shoe)
    case None =>
    case Some((seats, shoe)) => OpeningInOrder(t, ch, seats, shoe);
  }

  // ---- Bets ----

  /** A bet is accepted exactly from a player of the betting phase who has none yet, on the first
      hand, when its amount lies above the machine epsilon and at most that much above the
      player's money. The server only goes down on an accepted one. */
  lemma BetIsAnswered(t: Table, i: Input)
    requires Inv(t) && Legal(t, i) && i.event.Bet?
    ensures var s, w, o, eps := i.event.socket, i.event.wager, Step(t, i.event, i.chance), 1.0 / 4503599627370496.0;
      && (o.Thrown? || o.code == 0 <==>
            && t.phase == Betting && s in t.seats && t.seats[s].bet == 0.0
            && w.handIndex == 0 && eps < w.amount <= t.users[s].money + eps)
      && (o.Done? && o.code != 0 ==> o.code == -1 && o.table == t && o.cashed == map[])
  {
    var s, w := i.event.socket, i.event.wager;
    if t.phase == Betting && s in t.seats {
      BetErrorsByValue(t.users[s], t.seats[s], w);
      assert BetOrSolvent(t.seats[s], t.users[s]);
    }
  }

  /** An accepted bet moves its amount from the money to the hand. While another player has no bet
      that is all; with the last bet the cards are dealt, and everybody still decides. */
  lemma BetLeavesBehind(t: Table, i: Input)
    requires Inv(t) && Legal(t, i) && i.event.Bet? && Step(t, i.event, i.chance).Done?
    requires Step(t, i.event, i.chance).code == 0
    ensures var s, amount, o := i.event.socket, i.event.wager.amount, Step(t, i.event, i.chance);
      && s in t.seats && s in o.table.users && o.cashed == map[]
      && o.table.users.Keys == t.users.Keys && SameOthers(t.users, o.table.users, s)
      && o.table.users[s] == User(t.users[s].money - amount, t.users[s].isReady)
      && var seats := t.seats[s := Seat([], amount, Sitting)];
         if exists k :: k in t.seats && k != s && t.seats[k].bet == 0.0
         then o.table.phase == Betting && o.table.seats == seats && o.table.shoe == t.shoe && o.table.dealer == t.dealer
         else DealtInOrder(seats, i.chance, o.table)
  {
    var s, w := i.event.socket, i.event.wager;
    BetIsAnswered(t, i);
    BetsCashNothing(t, s, w, i.chance);
    var b := AcceptBet(t, s, w);
    assert b.seats == t.seats[s := Seat([], w.amount, Sitting)];
    assert b.seats.Keys == t.seats.Keys;
    AllHaveBet(t, s, b.seats);
    if AllBetsPlaced(b.seats) {
      SittersGoOn(b, i.chance, s);
      DealingInOrder(b, i.chance);
    }
  }

  lemma AllHaveBet(t: Table, s: int, seats: map<int, Seat>)
    requires Inv(t) && t.phase == Betting && s in t.seats && seats.Keys == t.seats.Keys && ABetIsPlaced(seats[s])
    requires forall k :: k in t.seats && k != s ==> seats[k] == t.seats[k]
    ensures AllBetsPlaced(seats) <==> !exists k :: k in t.seats && k != s && t.seats[k].bet == 0.0
  {
    forall k | k in t.seats && k != s ensures ABetIsPlaced(seats[k]) <==> t.seats[k].bet != 0.0 {
      assert BetOrSolvent(t.seats[k], t.users[k]);
    }
  }

  // ---- Hitting and standing ----

  /** A hit or stand is accepted exactly from a player of the hit/stand phase whose hand sits. The
      server only goes down on an accepted one. */
  lemma ActionIsAnswered(t: Table, i: Input)
    requires Inv(t) && Legal(t, i) && (i.event.Hit? || i.event.Stand?)
    ensures var s, o := i.event.socket, Step(t, i.event, i.chance);
      && (o.Thrown? || o.code == 0 <==> t.phase == HitStand && s in t.seats && t.seats[s].state == Sitting)
      && (o.Done? && o.code != 0 ==> o.code == -1 && o.table == t && o.cashed == map[])
  {}

  /** What becomes of the hand of a player who hits or stands: a stand ends its turn, a hit adds a
      card and ends it when every way of counting the aces exceeds 21. */
  ghost predicate Acted(e: Event, before: Seat, shoe: seq<Card>, after: Seat) {
    if e.Stand? then after == Seat(before.cards, before.bet, Standing)
    else
      && shoe != [] && after.cards == before.cards + [shoe[|shoe| - 1]] && after.bet == before.bet
      && (after.state == Standing <==> forall total :: Possible(after.cards, total) ==> total > 21)
  }

  lemma HandAfter(t: Table, e: Event) returns (after: Seat)
    requires Inv(t) && t.phase == HitStand && (e.Hit? || e.Stand?) && e.socket in t.seats
    requires t.seats[e.socket].state == Sitting && (e.Hit? ==> t.shoe.value != [])
    ensures Acted(e, t.seats[e.socket], t.shoe.value, after)
    ensures after == if e.Stand? then t.seats[e.socket].(state := Standing)
                     else AfterHit(t.seats[e.socket], t.shoe.value[|t.shoe.value| - 1])
  {
    var seat := t.seats[e.socket];
    if e.Stand? {
      after := seat.(state := Standing);
    } else {
      var card := t.shoe.value[|t.shoe.value| - 1];
      after := AfterHit(seat, card);
      HitStandsOnlyWhenBusted(t, e.socket, card);
      Push(seat.cards, card);
      BustedMeansEveryChoiceBusts(after.cards);
    }
  }

  /** An accepted hit or stand changes the sender's hand, and a hit takes the last card of the
      shoe. If that leaves nobody sitting the game is over, otherwise that is all. */
  ghost predicate GoesOnWith(t: Table, e: Event, after: Seat, o: Outcome)
    requires o.Done? && t.shoe.Some? && (e.Hit? ==> t.shoe.value != [])
  {
    if after.state == Standing && forall k :: k in t.seats && k != e.socket ==> t.seats[k].state == Standing
    then o.table.phase == NotStarted && o.table.seats == map[]
    else
      && o.cashed == map[] && o.table.phase == HitStand
      && o.table.users == t.users && o.table.dealer == t.dealer && o.table.seats == t.seats[e.socket := after]
      && o.table.shoe == Some(if e.Hit? then t.shoe.value[..|t.shoe.value| - 1] else t.shoe.value)
  }

  lemma ActedTable(t: Table, e: Event, after: Seat, acted: Table)
    requires t.phase == HitStand && e.socket in t.seats && t.shoe.Some? && (e.Hit? ==> t.shoe.value != [])
    requires acted == t.(seats := t.seats[e.socket := after],
                         shoe := Some(if e.Hit? then t.shoe.value[..|t.shoe.value| - 1] else t.shoe.value))
    ensures CashIfAllStanding(acted).Done? ==> GoesOnWith(t, e, after, CashIfAllStanding(acted))
  {
    assert acted.seats.Keys == t.seats.Keys;
    assert AllHandsStanding(acted.seats) <==>
      after.state == Standing && forall k :: k in t.seats && k != e.socket ==> t.seats[k].state == Standing;
  }

  lemma ActionLeavesBehind(t: Table, i: Input) returns (after: Seat)
    requires Inv(t) && Legal(t, i) && (i.event.Hit? || i.event.Stand?) && Step(t, i.event, i.chance).Done?
    requires Step(t, i.event, i.chance).code == 0
    ensures var s, o := i.event.socket, Step(t, i.event, i.chance);
      && s in t.seats && t.shoe.Some? && Acted(i.event, t.seats[s], t.shoe.value, after)
      && GoesOnWith(t, i.event, after, o)
  {
    ActionIsAnswered(t, i);
    after := HandAfter(t, i.event);
    var shoe := if i.event.Hit? then t.shoe.value[..|t.shoe.value| - 1] else t.shoe.value;
    var acted := t.(seats := t.seats[i.event.socket := after], shoe := Some(shoe));
    assert Step(t, i.event, i.chance) == CashIfAllStanding(acted);
    ActedTable(t, i.event, after, acted);
  }

  // ---- Departures from a game ----

  /** What a departure leaves of the game: nothing if nobody is left; the game as it is while
      somebody left has no bet; otherwise the cards are dealt again, and unless all hands left
      stand already the game goes on with them. */
  ghost predicate GoesOnWithout(t: Table, ch: Chance, users: map<int, User>, left: map<int, Seat>, o: Outcome)
    requires o.Done?
  {
    if left == map[] then
      && o.table.phase == NotStarted && o.table.seats == map[] && o.cashed == map[]
      && o.table.shoe == t.shoe && o.table.dealer == t.dealer && o.table.users == users
    else if exists k :: k in left && left[k].bet == 0.0 then
      && o.table.phase == Betting && o.table.seats == left && o.cashed == map[]
      && o.table.shoe == t.shoe && o.table.dealer == t.dealer && o.table.users == users
    else if forall k :: k in left ==> left[k].state == Standing then
      o.table.phase == NotStarted && o.table.seats == map[]
    else DealtInOrder(left, ch, o.table) && o.cashed == map[] && o.table.users == users
  }

  lemma DealingGoesOn(t: Table, ch: Chance)
    requires IsOrder(ch.order, t.seats.Keys) && t.seats != map[] && !exists k :: k in t.seats && t.seats[k].bet == 0.0
    ensures StartHitStand(t, ch).Done? ==> GoesOnWithout(t, ch, t.users, t.seats, StartHitStand(t, ch))
  {
    DealingInOrder(t, ch);
    DealingEndsWhenAllStand(t, ch);
  }

  /** A player's departure removes user and hand. */
  lemma PlayerLeavesBehind(t: Table, i: Input)
    requires Inv(t) && Legal(t, i) && i.event.Leave? && i.event.socket in t.seats && Step(t, i.event, i.chance).Done?
    ensures var s := i.event.socket;
      GoesOnWithout(t, i.chance, t.users - {s}, t.seats - {s}, Step(t, i.event, i.chance))
  {
    var s := i.event.socket;
    var left := t.(users := t.users - {s}, seats := t.seats - {s});
    DepartureDealsAgain(t, s, i.chance);
    SomebodyHasNoBet(t, left.seats);
    if left.seats != map[] && AllBetsPlaced(left.seats) {
      DealingGoesOn(left, i.chance);
      SameButForTheOldCards(t, left, i.chance, StartHitStand(left, i.chance));
    }
  }

  lemma SameButForTheOldCards(t: Table, left: Table, ch: Chance, o: Outcome)
    requires t.shoe == left.shoe && t.dealer == left.dealer && o.Done? && GoesOnWithout(left, ch, left.users, left.seats, o)
    ensures GoesOnWithout(t, ch, left.users, left.seats, o)
  {}

  lemma SomebodyHasNoBet(t: Table, left: map<int, Seat>)
    requires Inv(t) && t.phase != NotStarted && left.Keys <= t.seats.Keys && forall k :: k in left ==> left[k] == t.seats[k]
    ensures AllBetsPlaced(left) <==> !exists k :: k in left && left[k].bet == 0.0
  {
    forall k | k in left ensures ABetIsPlaced(left[k]) <==> left[k].bet != 0.0 {
      assert t.phase == Betting ==> BetOrSolvent(t.seats[k], t.users[k]);
    }
  }

  lemma DealingEndsWhenAllStand(t: Table, ch: Chance)
    requires IsOrder(ch.order, t.seats.Keys)
    ensures var o := StartHitStand(t, ch);
      o.Done? ==>
        if forall k :: k in t.seats ==> t.seats[k].state == Standing
        then o.table.phase == NotStarted && o.table.seats == map[]
        else o.table.phase == HitStand && o.cashed == map[]
  {
    OpeningGivesTwo(t.seats, ch.order, ch.shoe);
    match OpeningDeal(t.seats, ch.order, ch.shoe)
    case None =>
    case Some((seats, _)) =>
      assert AllHandsStanding(seats) <==> forall k :: k in t.seats ==> t.seats[k].state == Standing;
  }

  // ---- Cashing ----

  /** When a game ends, whoever is cashed receives the money of the result and is unready again;
      the records of all others stay as they are. */
  ghost predicate PaidAndUnready(before: map<int, User>, cashed: map<int, CashResult>, after: map<int, User>) {
    && after.Keys == before.Keys
    && forall k :: k in before ==>
         after[k] == if k in cashed then User(before[k].money + cashed[k].receivedMoney, false) else before[k]
  }

  /** The users and seats of an outcome that ends a game. */
  ghost predicate Ends(users: map<int, User>, o: Outcome) {
    o.Done? && o.table.phase == NotStarted ==>
      o.table.seats == map[] && PaidAndUnready(users, o.cashed, o.table.users)
  }

  lemma CashingEnds(t: Table)
    requires t.phase != NotStarted
    ensures Ends(t.users, CashIfAllStanding(t))
  {
    if AllHandsStanding(t.seats) && StartCashing(t).Done? {
      assert PaidAndUnready(t.users, StartCashing(t).cashed, PayAndUnready(t.users, StartCashing(t).cashed));
    }
  }

  lemma DealingEnds(t: Table, ch: Chance)
    requires IsOrder(ch.order, t.seats.Keys)
    ensures Ends(t.users, StartHitStand(t, ch))
  {
    match OpeningDeal(t.seats, ch.order, ch.shoe)
    case None =>
    case Some((seats, shoe)) => CashingEnds(Dealt(t, seats, shoe, LastTwo(ch.shoe)));
  }

  lemma ActionEnds(t: Table, i: Input)
    requires Inv(t) && t.phase == HitStand && Legal(t, i) && (i.event.Hit? || i.event.Stand?)
    ensures Ends(t.users, Step(t, i.event, i.chance))
  {
    if i.event.socket in t.seats && t.seats[i.event.socket].state == Sitting && (i.event.Hit? ==> t.shoe.value != []) {
      var after := HandAfter(t, i.event);
      var seats := t.seats[i.event.socket := after];
      var acted := if i.event.Stand? then t.(seats := seats)
                   else t.(seats := seats, shoe := Some(t.shoe.value[..|t.shoe.value| - 1]));
      assert Step(t, i.event, i.chance) == CashIfAllStanding(acted);
      CashingEnds(acted);
    }
  }

  lemma DepartureEnds(t: Table, i: Input)
    requires Inv(t) && t.phase != NotStarted && Legal(t, i) && i.event.Leave?
    ensures Ends(t.users - {i.event.socket}, Step(t, i.event, i.chance))
  {
    var s := i.event.socket;
    if s in t.seats {
      DepartureDealsAgain(t, s, i.chance);
      DealingEnds(t.(users := t.users - {s}, seats := t.seats - {s}), i.chance);
    }
  }

  lemma EndLeavesBehind(t: Table, i: Input)
    requires Inv(t) && Legal(t, i) && t.phase != NotStarted && Step(t, i.event, i.chance).Done?
    requires Step(t, i.event, i.chance).table.phase == NotStarted
    ensures var o := Step(t, i.event, i.chance);
      && (i.event.Leave? || i.event.Hit? || i.event.Stand?) && o.table.seats == map[]
      && PaidAndUnready(if i.event.Leave? then t.users - {i.event.socket} else t.users, o.cashed, o.table.users)
  {
    match i.event
    case Join(s) =>
    case SetReady(s) =>
    case Leave(s) => DepartureEnds(t, i);
    case Bet(s, wager) => BetsCashNothing(t, s, wager, i.chance);
    case Hit(s) => if t.phase == HitStand { ActionEnds(t, i); }
    case Stand(s) => if t.phase == HitStand { ActionEnds(t, i); }
  }
}
