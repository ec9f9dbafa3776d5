/** Reaching tables: n users join, get ready and bet one by one, until only the last bet is
    missing. */
module Reaching {
  import opened Cards
  import opened Rules
  import opened GameTable

  // R stands for reachability below: it holds of the empty table and is kept by every step.

  ghost predicate Closed(R: Table -> bool) {
    R(EMPTY_TABLE) && forall t, i {:trigger R(t), Legal(t, i)} ::
      R(t) && Legal(t, i) && Step(t, i.event, i.chance).Done? ==> R(Step(t, i.event, i.chance).table)
  }

  lemma NextJoin(R: Table -> bool, t: Table, s: int)
    requires Closed(R) && R(t) && s !in t.users
    ensures R(ClientJoin(t, s).table)
  {
    var ch := SomeChance(t, Join(s));
    assert Legal(t, Input(Join(s), ch));
  }

  lemma NextReady(R: Table -> bool, t: Table, s: int)
    requires Closed(R) && R(t) && s in t.users
    ensures R(ReadyUser(t, s).table)
  {
    var ch := SomeChance(t, SetReady(s));
    assert Legal(t, Input(SetReady(s), ch));
  }

  const ONE := Wager(1.0, 0)

  lemma NextBet(R: Table -> bool, t: Table, s: int)
    requires Closed(R) && R(t) && BasicRequestValidation(t, Betting, s).None? && BetError(t.users[s], t.seats[s], ONE).None?
    requires !AllBetsPlaced(AcceptBet(t, s, ONE).seats)
    ensures R(AcceptBet(t, s, ONE))
  {
    var ch := SomeChance(t, Bet(s, ONE));
    assert Legal(t, Input(Bet(s, ONE), ch));
  }

  lemma NextLastBet(R: Table -> bool, t: Table, s: int, ch: Chance, seats: map<int, Seat>, rest: seq<Card>)
    requires Closed(R) && R(t) && BasicRequestValidation(t, Betting, s).None? && BetError(t.users[s], t.seats[s], ONE).None?
    requires var b := AcceptBet(t, s, ONE);
      && AllBetsPlaced(b.seats) && ValidChance(t, Bet(s, ONE), ch) && |ch.shoe| >= 2
      && (forall k :: k in ch.order ==> k in b.seats)
      && OpeningDeal(b.seats, ch.order, ch.shoe) == Some((seats, rest)) && !AllHandsStanding(seats)
    ensures R(Dealt(AcceptBet(t, s, ONE), seats, rest, LastTwo(ch.shoe)))
  {
    assert Legal(t, Input(Bet(s, ONE), ch));
  }

  lemma NextHit(R: Table -> bool, t: Table, s: int, rest: seq<Card>, card: Card)
    requires Closed(R) && R(t) && t.phase == HitStand && s in t.users && s in t.seats && t.seats[s].state == Sitting
    requires t.shoe == Some(rest + [card])
    requires !AllHandsStanding(t.seats[s := AfterHit(t.seats[s], card)])
    ensures R(t.(seats := t.seats[s := AfterHit(t.seats[s], card)], shoe := Some(rest)))
  {
    var ch := SomeChance(t, Hit(s));
    assert Legal(t, Input(Hit(s), ch));
    assert (rest + [card])[..|rest|] == rest;
  }

  ghost predicate KeysAre(keys: set<int>, n: nat) {
    forall k :: k in keys <==> 0 <= k < n
  }

  /** n users have joined and the first k of them are ready. */
  ghost predicate InLobby(t: Table, n: nat, k: nat) {
    && t.phase == NotStarted && t.seats == map[] && KeysAre(t.users.Keys, n)
    && forall p :: p in t.users ==> t.users[p] == User(INITIAL_MONEY, p < k)
  }

  lemma {:induction false} AllJoin(R: Table -> bool, n: nat) returns (t: Table)
    requires Closed(R)
    ensures R(t) && InLobby(t, n, 0)
  {
    if n == 0 {
      t := EMPTY_TABLE;
    } else {
      var before := AllJoin(R, n - 1);
      NextJoin(R, before, n - 1);
      t := ClientJoin(before, n - 1).table;
    }
  }

  lemma {:induction false} AllButOneReady(R: Table -> bool, n: nat, k: nat) returns (t: Table)
    requires Closed(R) && k < n
    ensures R(t) && InLobby(t, n, k)
  {
    if k == 0 {
      t := AllJoin(R, n);
    } else {
      var before := AllButOneReady(R, n, k - 1);
      NextReady(R, before, k - 1);
      t := ReadyUser(before, k - 1).table;
      assert n - 1 in UsersToWait(before.users[k - 1 := User(INITIAL_MONEY, true)]);
    }
  }

  /** n players are betting and the first k of them have bet one. */
  ghost predicate AreBetting(t: Table, n: nat, k: nat) {
    && t.phase == Betting && KeysAre(t.users.Keys, n) && t.seats.Keys == t.users.Keys
    && (forall p :: p in t.seats ==> t.seats[p] == if p < k then Seat([], 1.0, Sitting) else FRESH_SEAT)
    && (forall p :: p in t.users && p >= k ==> t.users[p].money == INITIAL_MONEY)
  }

  lemma LastReady(R: Table -> bool, n: nat) returns (t: Table)
    requires Closed(R) && n > 0
    ensures R(t) && AreBetting(t, n, 0)
  {
    var before := AllButOneReady(R, n, n - 1);
    var ready := before.(users := before.users[n - 1 := User(INITIAL_MONEY, true)]);
    forall p | p in ready.users ensures ready.users[p] == User(INITIAL_MONEY, true) {
      assert p in before.users;
    }
    forall p ensures p !in UsersToWait(ready.users) {
      assert p in ready.users ==> ready.users[p].isReady;
    }
    assert UsersToWait(ready.users) == {};
    assert n - 1 in Joinables(ready.users);
    assert Joinables(ready.users) == ready.users.Keys;
    NextReady(R, before, n - 1);
    t := ReadyUser(before, n - 1).table;
  }

  lemma OneBets(t: Table, n: nat, k: nat)
    requires AreBetting(t, n, k) && k < n
    ensures BasicRequestValidation(t, Betting, k).None? && BetError(t.users[k], t.seats[k], ONE).None?
    ensures AreBetting(AcceptBet(t, k, ONE), n, k + 1)
  {
    assert k in t.users;
  }

  lemma {:induction false} AllButOneBet(R: Table -> bool, n: nat, k: nat) returns (t: Table)
    requires Closed(R) && k < n
    ensures R(t) && AreBetting(t, n, k)
  {
    if k == 0 {
      t := LastReady(R, n);
    } else {
      var before := AllButOneBet(R, n, k - 1);
      OneBets(before, n, k - 1);
      t := AcceptBet(before, k - 1, ONE);
      assert n - 1 in t.seats && !ABetIsPlaced(t.seats[n - 1]);
      NextBet(R, before, k - 1);
    }
  }

  ghost predicate Reachable(t: Table) {
    exists inputs :: Play(EMPTY_TABLE, inputs) == Some(t)
  }

  lemma StepsReach(t: Table, i: Input)
    requires Reachable(t) && Legal(t, i) && Step(t, i.event, i.chance).Done?
    ensures Reachable(Step(t, i.event, i.chance).table)
  {
    var inputs :| Play(EMPTY_TABLE, inputs) == Some(t);
    var longer := inputs + [i];
    assert longer[..|inputs|] == inputs;
    assert Play(EMPTY_TABLE, longer) == After(t, i);
  }

  lemma ReachableIsClosed()
    ensures Closed(t => Reachable(t))
  {
    assert Play(EMPTY_TABLE, []) == Some(EMPTY_TABLE);
    forall t, i | Reachable(t) && Legal(t, i) && Step(t, i.event, i.chance).Done?
      ensures Reachable(Step(t, i.event, i.chance).table)
    {
      StepsReach(t, i);
    }
  }

  /** After these inputs n users are playing, and i may come next. */
  function Upto(n: nat): (order: seq<int>)
    ensures |order| == n && forall i :: 0 <= i < n ==> order[i] == i
    ensures forall k :: k in order <==> 0 <= k < n
  {
    if n == 0 then [] else Upto(n - 1) + [n - 1]
  }

  lemma DealNext(seats: map<int, Seat>, order: seq<int>, k: int, shoe: seq<Card>, dealt: map<int, Seat>, rest: seq<Card>)
    requires (forall j :: j in order ==> j in seats) && k in seats && |rest| >= 2
    requires DealPlayers(seats, order, shoe) == Some((dealt, rest))
    ensures forall j :: j in order + [k] ==> j in seats
    ensures DealPlayers(seats, order + [k], shoe)
      == Some((dealt[k := dealt[k].(cards := dealt[k].cards + LastTwo(rest))], rest[..|rest| - 2]))
  {
    assert (order + [k])[..|order|] == order;
  }
}
