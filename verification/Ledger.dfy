/** Where the money is: every balance against a bank book that sees only joins, departures
    and cash results. */
module Ledger {
  import opened Cards
  import opened PointsTools
  import opened Rules
  import opened GameTable
  import opened Sums
  import opened Invariant

  /** A user's money together with the bet that lies on the table. */
  function Wealth(t: Table, k: int): real
    requires k in t.users
  {
    t.users[k].money + if k in t.seats then t.seats[k].bet else 0.0
  }

  function IncomeOf(cashed: map<int, CashResult>, k: int): real {
    if k in cashed then cashed[k].income else 0.0
  }

  /** From `t` to `after` every user still there gained exactly the income of the hand cashed,
      and whoever did not play kept the same money. */
  ghost predicate Settles(t: Table, after: Table, cashed: map<int, CashResult>) {
    && cashed.Keys <= t.seats.Keys
    && after.users.Keys == t.users.Keys
    && (forall k :: k in t.users ==> Wealth(after, k) == Wealth(t, k) + IncomeOf(cashed, k))
    && (forall k :: k in t.users && k !in t.seats ==> after.users[k].money == t.users[k].money)
    && (forall k :: k in cashed ==> FairResult(cashed[k], t, k))
  }

  /** A cash result is for the bet on the table, which the user's wealth covers up to epsilon. */
  ghost predicate FairResult(r: CashResult, t: Table, k: int) {
    && k in t.users && k in t.seats
    && r.bet == t.seats[k].bet && 0.0 <= r.bet <= Wealth(t, k) + EPSILON
    && -r.bet <= r.income <= 1.5 * r.bet
  }

  /** Bets are placed, and no balance is below -epsilon. */
  ghost predicate Staked(t: Table) {
    && t.seats.Keys <= t.users.Keys && AllBetsPlaced(t.seats)
    && (forall k :: k in t.users ==> t.users[k].money >= -EPSILON)
  }

  lemma CashingSettles(t: Table)
    requires Staked(t)
    ensures var o := StartCashing(t);
      o.Done? ==> Settles(t, o.table, o.cashed) && o.cashed.Keys == t.seats.Keys
  {
    var o := StartCashing(t);
    if o.Done? {
      var (dealer, _) := DealDealer(t.dealer.value, t.shoe.value).value;
      forall k | k in t.seats ensures FairResult(o.cashed[k], t, k) {
        CashBounds(t.seats[k], Points(dealer));
      }
      forall k | k in t.users ensures Wealth(o.table, k) == Wealth(t, k) + IncomeOf(o.cashed, k) {
        if k in t.seats {
          CashBounds(t.seats[k], Points(dealer));
        }
      }
    }
  }

  /** Money moved between balance and bet of a player is still that player's wealth. */
  lemma SettlesLikewise(a: Table, b: Table, after: Table)
    requires a.users.Keys == b.users.Keys && a.seats.Keys == b.seats.Keys
    requires forall k :: k in a.users ==> Wealth(a, k) == Wealth(b, k)
    requires forall k :: k in a.users && k !in a.seats ==> a.users[k].money == b.users[k].money
    requires Settles(b, after, map[])
    ensures Settles(a, after, map[])
  {}

  /** Same users, and the same bet on every seat. */
  ghost predicate SameMoney(a: Table, b: Table) {
    && a.users == b.users && a.seats.Keys == b.seats.Keys
    && (forall k :: k in a.seats ==> a.seats[k].bet == b.seats[k].bet)
  }

  lemma SettlesFrom(a: Table, b: Table, after: Table, cashed: map<int, CashResult>)
    requires SameMoney(a, b) && Settles(b, after, cashed)
    ensures Settles(a, after, cashed)
  {
    forall k | k in a.users ensures Wealth(a, k) == Wealth(b, k) {}
  }

  lemma NothingCashed(a: Table, b: Table)
    requires SameMoney(a, b)
    ensures Settles(a, b, map[])
  {}

  lemma CashIfAllStandingSettles(a: Table, b: Table)
    requires SameMoney(a, b) && Staked(b)
    ensures var o := CashIfAllStanding(b); o.Done? ==> Settles(a, o.table, o.cashed)
  {
    if AllHandsStanding(b.seats) {
      CashingSettles(b);
      if StartCashing(b).Done? {
        SettlesFrom(a, b, StartCashing(b).table, StartCashing(b).cashed);
      }
    } else {
      NothingCashed(a, b);
    }
  }

  lemma DealingSettles(t: Table, ch: Chance)
    requires Staked(t) && IsOrder(ch.order, t.seats.Keys)
    ensures var o := StartHitStand(t, ch); o.Done? ==> Settles(t, o.table, o.cashed)
  {
    OpeningGivesTwo(t.seats, ch.order, ch.shoe);
    match OpeningDeal(t.seats, ch.order, ch.shoe)
    case None =>
    case Some((seats, rest)) => CashIfAllStandingSettles(t, Dealt(t, seats, rest, LastTwo(ch.shoe)));
  }

  /** The users an event leaves in place, with whom the money is compared. */
  function Remaining(t: Table, e: Event): Table {
    if e.Leave? then t.(users := t.users - {e.socket}, seats := t.seats - {e.socket})
    else if IsNewcomer(t, e) then t.(users := t.users[e.socket := User(INITIAL_MONEY, false)])
    else t
  }

  predicate IsNewcomer(t: Table, e: Event) {
    e.Join? && e.socket !in t.users
  }

  lemma {:induction false} BetSettles(t: Table, s: int, wager: Wager, ch: Chance)
    requires Inv(t) && ValidChance(t, Bet(s, wager), ch) && s in t.users
    ensures var o := PlaceBet(t, s, wager, ch); o.Done? ==> Settles(t, o.table, o.cashed)
  {
    NothingCashed(t, t);
    if BasicRequestValidation(t, Betting, s).None? && BetError(t.users[s], t.seats[s], wager).None? {
      AcceptedBetMovesMoney(t, s, wager);
      var b := AcceptBet(t, s, wager);
      assert b.users.Keys == t.users.Keys && b.seats.Keys == t.seats.Keys;
      assert forall k :: k in t.users ==> Wealth(b, k) == Wealth(t, k);
      if AllBetsPlaced(b.seats) {
        DealingSettles(b, ch);
        BetsCashNothing(t, s, wager, ch);
        if StartHitStand(b, ch).Done? {
          SettlesLikewise(t, b, StartHitStand(b, ch).table);
        }
      }
    }
  }

  lemma LeaveSettles(t: Table, s: int, ch: Chance)
    requires Inv(t) && ValidChance(t, Leave(s), ch) && s in t.users
    ensures var o := ClientLeave(t, s, ch); o.Done? ==> Settles(Remaining(t, Leave(s)), o.table, o.cashed)
  {
    var left := Remaining(t, Leave(s));
    NothingCashed(left, left);
    if s in t.seats {
      DepartureDealsAgain(t, s, ch);
      if left.seats != map[] && AllBetsPlaced(left.seats) {
        DealingSettles(left, ch);
      }
    } else {
      assert t.seats - {s} == t.seats;
    }
  }

  lemma {:induction false} ActionSettles(t: Table, i: Input)
    requires Inv(t) && Legal(t, i) && (i.event.Hit? || i.event.Stand?)
    ensures var o := Step(t, i.event, i.chance); o.Done? ==> Settles(t, o.table, o.cashed)
  {
    var s := i.event.socket;
    NothingCashed(t, t);
    if BasicRequestValidation(t, HitStand, s).None? && t.seats[s].state == Sitting {
      if i.event.Stand? {
        CashIfAllStandingSettles(t, t.(seats := t.seats[s := t.seats[s].(state := Standing)]));
      } else if t.shoe.value != [] {
        var n := |t.shoe.value| - 1;
        CashIfAllStandingSettles(t, t.(seats := t.seats[s := AfterHit(t.seats[s], t.shoe.value[n])], shoe := Some(t.shoe.value[..n])));
      }
    }
  }

  lemma ReadySettles(t: Table, s: int)
    requires Inv(t) && s in t.users
    ensures var o := ReadyUser(t, s); o.Done? && Settles(t, o.table, o.cashed)
  {}

  /** Every event: money moves between a user's balance and bet, and otherwise only by the
      income of the hands cashed. */
  lemma {:induction false} StepSettles(t: Table, i: Input)
    requires Inv(t) && Legal(t, i)
    ensures var o := Step(t, i.event, i.chance);
      o.Done? ==> Settles(Remaining(t, i.event), o.table, o.cashed)
  {
    match i.event
    case Join(s) => NothingCashed(Remaining(t, i.event), Remaining(t, i.event));
    case Leave(s) => LeaveSettles(t, s, i.chance);
    case SetReady(s) => ReadySettles(t, s);
    case Bet(s, wager) => BetSettles(t, s, wager, i.chance);
    case Hit(s) => ActionSettles(t, i);
    case Stand(s) => ActionSettles(t, i);
  }

  // ---- The bank book ----

  datatype Account = Account(balance: real, rounds: nat)

  /** What a bank knows: 1000 on joining, the account closed on leaving, and the income of each
      hand cashed. It sees neither bets nor cards nor phases. */
  ghost function PostEntry(book: map<int, Account>, e: Event, cashed: map<int, CashResult>): map<int, Account> {
    var accounts := if e.Join? && e.socket !in book then book[e.socket := Account(1000.0, 0)]
                  else if e.Leave? then book - {e.socket} else book;
    map k | k in accounts ::
      if k in cashed then Account(accounts[k].balance + cashed[k].income, accounts[k].rounds + 1) else accounts[k]
  }

  ghost function Book(inputs: seq<Input>): map<int, Account> {
    if inputs == [] then map[]
    else
      var n := |inputs| - 1;
      match Play(EMPTY_TABLE, inputs[..n])
      case None => map[]
      case Some(before) =>
        if !Legal(before, inputs[n]) then map[]
        else
          match Step(before, inputs[n].event, inputs[n].chance)
          case Thrown(_) => map[]
          case Done(_, _, cashed) => PostEntry(Book(inputs[..n]), inputs[n].event, cashed)
  }

  ghost predicate BookMatches(book: map<int, Account>, t: Table) {
    book.Keys == t.users.Keys && forall k :: k in book ==> book[k].balance == Wealth(t, k)
  }

  ghost function Growth(rounds: nat): real {
    if rounds == 0 then 1.0 else 2.5 * Growth(rounds - 1)
  }

  ghost predicate WithinGrowth(a: Account) {
    a.balance + EPSILON <= Growth(a.rounds) * (1000.0 + EPSILON)
  }

  lemma EntryMatches(t: Table, e: Event, book: map<int, Account>, after: Table, cashed: map<int, CashResult>)
    requires t.seats.Keys <= t.users.Keys
    requires BookMatches(book, t) && forall k :: k in book ==> WithinGrowth(book[k])
    requires Settles(Remaining(t, e), after, cashed)
    ensures BookMatches(PostEntry(book, e, cashed), after)
    ensures forall k :: k in PostEntry(book, e, cashed) ==> WithinGrowth(PostEntry(book, e, cashed)[k])
  {
    var entry := PostEntry(book, e, cashed);
    var left := Remaining(t, e);
    assert entry.Keys == left.users.Keys;
    forall k | k in entry ensures entry[k].balance == Wealth(after, k) && WithinGrowth(entry[k]) {
      if IsNewcomer(t, e) && k == e.socket {
        assert k !in t.seats && k !in cashed;
        assert Growth(0) == 1.0;
      } else {
        assert Wealth(left, k) == Wealth(t, k) == book[k].balance;
        if k in cashed {
          assert FairResult(cashed[k], left, k);
          GrowsAtMost(book[k], cashed[k]);
        }
      }
    }
  }

  lemma GrowsAtMost(a: Account, r: CashResult)
    requires WithinGrowth(a)
    requires 0.0 <= r.bet <= a.balance + EPSILON && r.income <= 1.5 * r.bet
    ensures WithinGrowth(Account(a.balance + r.income, a.rounds + 1))
  {
    assert a.balance + r.income + EPSILON <= 2.5 * (a.balance + EPSILON);
    assert Growth(a.rounds + 1) * (INITIAL_MONEY + EPSILON) == 2.5 * (Growth(a.rounds) * (INITIAL_MONEY + EPSILON));
  }

  /** Over every run, each user's money plus bet is what the bank book says, and after n rounds
      cashed it is at most 2.5^n (1000 + epsilon) - epsilon. */
  lemma {:induction false} MoneyMatchesTheBook(inputs: seq<Input>)
    requires Play(EMPTY_TABLE, inputs).Some?
    ensures BookMatches(Book(inputs), Play(EMPTY_TABLE, inputs).value)
    ensures forall k :: k in Book(inputs) ==> WithinGrowth(Book(inputs)[k])
  {
    if inputs != [] {
      var n := |inputs| - 1;
      MoneyMatchesTheBook(inputs[..n]);
      RunsKeepInv(inputs[..n]);
      var before, i := Play(EMPTY_TABLE, inputs[..n]).value, inputs[n];
      StepSettles(before, i);
      EntryMatches(before, i.event, Book(inputs[..n]), Play(EMPTY_TABLE, inputs).value, Step(before, i.event, i.chance).cashed);
    }
  }

  // ---- The whole house ----

  ghost function Sum(m: map<int, real>): real
    decreases m.Keys
  {
    if m == map[] then 0.0
    else
      HasKey(m);
      var k :| k in m;
      m[k] + Sum(m - {k})
  }

  lemma {:induction false} SumRemove(m: map<int, real>, k: int)
    requires k in m
    ensures Sum(m) == m[k] + Sum(m - {k})
    decreases m.Keys
  {
    var j :| j in m && Sum(m) == m[j] + Sum(m - {j});
    if j != k {
      assert (m - {j}) - {k} == (m - {k}) - {j};
      SumRemove(m - {j}, k);
      SumRemove(m - {k}, j);
    }
  }

  /** Keys missing from one of the maps count as zero there. */
  lemma {:induction false} SumAdds(m: map<int, real>, a: map<int, real>, b: map<int, real>)
    requires a.Keys <= m.Keys && b.Keys <= m.Keys
    requires forall k :: k in m ==> m[k] == (if k in a then a[k] else 0.0) + (if k in b then b[k] else 0.0)
    ensures Sum(m) == Sum(a) + Sum(b)
    decreases m.Keys
  {
    if m == map[] {
      assert a == map[] && b == map[];
    } else {
      HasKey(m);
      var k :| k in m;
      SumRemove(m, k);
      if k in a { SumRemove(a, k); } else { assert a - {k} == a; }
      if k in b { SumRemove(b, k); } else { assert b - {k} == b; }
      SumAdds(m - {k}, a - {k}, b - {k});
    }
  }

  ghost function AllMoney(t: Table): real {
    Sum(map k | k in t.users :: t.users[k].money)
  }

  ghost function OutstandingBets(t: Table): real {
    Sum(map k | k in t.seats :: t.seats[k].bet)
  }

  ghost function Wealths(t: Table): map<int, real> {
    map k | k in t.users :: Wealth(t, k)
  }

  ghost function Incomes(cashed: map<int, CashResult>): map<int, real> {
    map k | k in cashed :: cashed[k].income
  }

  lemma WealthIsMoneyAndBets(t: Table)
    requires t.seats.Keys <= t.users.Keys
    ensures Sum(Wealths(t)) == AllMoney(t) + OutstandingBets(t)
  {
    SumAdds(Wealths(t), map k | k in t.users :: t.users[k].money, map k | k in t.seats :: t.seats[k].bet);
  }

  datatype House = House(newcomers: nat, carriedAway: real, incomes: real)

  /** Newcomers, the money and bets departing users took with them, and all cash incomes. */
  ghost function HouseBook(inputs: seq<Input>): House {
    if inputs == [] then House(0, 0.0, 0.0)
    else
      var n := |inputs| - 1;
      var h, e := HouseBook(inputs[..n]), inputs[n].event;
      match Play(EMPTY_TABLE, inputs[..n])
      case None => h
      case Some(before) =>
        if !Legal(before, inputs[n]) then h
        else
          match Step(before, e, inputs[n].chance)
          case Thrown(_) => h
          case Done(_, _, cashed) =>
            House(h.newcomers + (if IsNewcomer(before, e) then 1 else 0),
                  h.carriedAway + (if e.Leave? then Wealth(before, e.socket) else 0.0),
                  h.incomes + Sum(Incomes(cashed)))
  }

  lemma SettlingAddsIncomes(t: Table, after: Table, cashed: map<int, CashResult>)
    requires t.seats.Keys <= t.users.Keys && Settles(t, after, cashed)
    ensures Sum(Wealths(after)) == Sum(Wealths(t)) + Sum(Incomes(cashed))
  {
    SumAdds(Wealths(after), Wealths(t), Incomes(cashed));
  }

  lemma RemainingWealth(t: Table, i: Input)
    requires Inv(t) && Legal(t, i)
    ensures Sum(Wealths(Remaining(t, i.event))) == Sum(Wealths(t))
      + (if IsNewcomer(t, i.event) then INITIAL_MONEY else 0.0) - (if i.event.Leave? then Wealth(t, i.event.socket) else 0.0)
  {
    var left, s := Remaining(t, i.event), i.event.socket;
    if i.event.Leave? {
      SumRemove(Wealths(t), s);
      assert Wealths(left) == Wealths(t) - {s};
    } else if IsNewcomer(t, i.event) {
      SumRemove(Wealths(left), s);
      assert Wealths(left) - {s} == Wealths(t);
    }
  }

  /** Over every run: all money plus all outstanding bets is 1000 for every newcomer, less what the
      departed took with them, plus the incomes of all hands cashed. */
  lemma {:induction false} HouseBalances(inputs: seq<Input>)
    requires Play(EMPTY_TABLE, inputs).Some?
    ensures var t, h := Play(EMPTY_TABLE, inputs).value, HouseBook(inputs);
      AllMoney(t) + OutstandingBets(t) == 1000.0 * h.newcomers as real - h.carriedAway + h.incomes
  {
    var t := Play(EMPTY_TABLE, inputs).value;
    if inputs == [] {
      assert AllMoney(t) == 0.0 && OutstandingBets(t) == 0.0;
    } else {
      var n := |inputs| - 1;
      var before := Play(EMPTY_TABLE, inputs[..n]).value;
      HouseBalances(inputs[..n]);
      RunsKeepInv(inputs[..n]);
      RunsKeepInv(inputs);
      StepSettles(before, inputs[n]);
      RemainingWealth(before, inputs[n]);
      SettlingAddsIncomes(Remaining(before, inputs[n].event), t, Step(before, inputs[n].event, inputs[n].chance).cashed);
      WealthIsMoneyAndBets(before);
      WealthIsMoneyAndBets(t);
    }
  }
}
