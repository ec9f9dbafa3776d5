/** The request handlers (src/BlackjackServer/Controllers), each proved to do to the objects
    what GameTable says it does to the table. */
module Controllers {
  import opened Cards
  import opened PointsTools
  import opened Rules
  import opened GameTable
  import opened DataLayer
  import PlayerLogic
  import DealerLogic
  import UserManager
  import Invariant

  /** What a handler returns, or the exception that escapes it. */
  datatype Reply = Returned(code: int) | Threw(error: Error)

  /** The outcome a handler's reply stands for, given the table it left and the results it cashed. */
  ghost function Outcome(reply: Reply, db: BjDatabase, cashed: map<int, CashResult>): GameTable.Outcome
    requires reply.Returned? ==> db.Valid()
    reads if reply.Returned? then {db} + db.Repr else {db}
  {
    match reply
    case Returned(code) => Done(db.Model(), code, cashed)
    case Threw(error) => Thrown(error)
  }

  // ---- GameSessionController: phases ----

  ghost function Paid(users: map<int, User>, cashed: map<int, CashResult>): map<int, User> {
    map k | k in users ::
      if k in cashed then users[k].(money := users[k].money + cashed[k].receivedMoney) else users[k]
  }

  method CashPlayer(db: BjDatabase, k: int, dealersPoints: int) returns (result: CashResult)
    requires db.Valid() && k in db.players
    modifies db.Repr - {db}
    ensures db.Valid()
    ensures var t := old(db.Model());
      && result == Cash(t.seats[k], dealersPoints)
      && db.Model() == t.(users := t.users[k := t.users[k].(money := t.users[k].money + result.receivedMoney)])
  {
    ghost var t := db.Model();
    assert db.ValidPlayer(k);
    var player := db.players[k];
    result := PlayerLogic.Cash(player.hands[0], dealersPoints);
    player.userModel.money := player.userModel.money + result.receivedMoney;
    ghost var after := t.(users := t.users[k := t.users[k].(money := t.users[k].money + result.receivedMoney)]);
    forall j | j in db.users ensures db.users[j].Value() == after.users[j] {
      assert db.ValidUser(j);
    }
    forall j | j in db.players ensures db.players[j].hands[0].Value() == after.seats[j] {
      assert db.ValidPlayer(j);
    }
    db.Shows(after);
  }

  /** One round of the walk over the players, when those in `cashed` have been paid. */
  method CashNext(db: BjDatabase, ghost t: Table, ghost cashed: map<int, CashResult>, k: int, dealersPoints: int) returns (result: CashResult)
    requires db.Valid() && k in db.players && k in t.seats && k !in cashed
    requires db.Model() == t.(users := Paid(t.users, cashed))
    modifies db.Repr - {db}
    ensures db.Valid() && result == Cash(t.seats[k], dealersPoints)
    ensures db.Model() == t.(users := Paid(t.users, cashed[k := result]))
  {
    assert db.ValidPlayer(k) && k in db.Model().users;
    result := CashPlayer(db, k, dealersPoints);
    PaidOneMore(t.users, cashed, k, result);
  }

  method CashPlayers(db: BjDatabase, dealersPoints: int) returns (ghost cashed: map<int, CashResult>)
    requires db.Valid()
    modifies db.Repr - {db}
    ensures db.Valid()
    ensures var t := old(db.Model());
      cashed == CashAll(t.seats, dealersPoints) && db.Model() == t.(users := Paid(t.users, cashed))
  {
    cashed := map[];
    ghost var t := db.Model();
    var order := IterationOrder(db.players.Keys);
    NobodyPaid(t.users);
    for i := 0 to |order|
      invariant db.Valid() && AreCashed(cashed, t.seats, order[..i], dealersPoints)
      invariant db.Model() == t.(users := Paid(t.users, cashed))
    {
      CashedOneMore(cashed, t.seats, order, i, dealersPoints);
      var result := CashNext(db, t, cashed, order[i], dealersPoints);
      cashed := cashed[order[i] := result];
    }
    assert order[..|order|] == order;
    AllCashed(cashed, t.seats, order, dealersPoints);
  }

  lemma NobodyPaid(users: map<int, User>)
    ensures Paid(users, map[]) == users
  {}

  lemma AllCashed(cashed: map<int, CashResult>, seats: map<int, Seat>, order: seq<int>, dealersPoints: int)
    requires AreCashed(cashed, seats, order, dealersPoints) && (set k | k in order) == seats.Keys
    ensures cashed == CashAll(seats, dealersPoints)
  {
    var all := CashAll(seats, dealersPoints);
    assert all.Keys == seats.Keys == cashed.Keys;
    assert forall k :: k in all ==> all[k] == cashed[k];
  }

  /** The hands of exactly these players have been cashed. */
  ghost predicate AreCashed(cashed: map<int, CashResult>, seats: map<int, Seat>, order: seq<int>, dealersPoints: int) {
    && cashed.Keys == (set k | k in order) && cashed.Keys <= seats.Keys
    && forall k :: k in cashed ==> cashed[k] == Cash(seats[k], dealersPoints)
  }

  lemma CashedOneMore(cashed: map<int, CashResult>, seats: map<int, Seat>, order: seq<int>, i: nat, dealersPoints: int)
    requires NoDuplicates(order) && i < |order| && order[i] in seats
    requires AreCashed(cashed, seats, order[..i], dealersPoints)
    ensures order[i] !in cashed
    ensures AreCashed(cashed[order[i] := Cash(seats[order[i]], dealersPoints)], seats, order[..i + 1], dealersPoints)
  {
    assert order[i] !in order[..i];
    assert order[..i + 1] == order[..i] + [order[i]];
  }

  lemma PaidOneMore(users: map<int, User>, cashed: map<int, CashResult>, k: int, result: CashResult)
    requires k in users && k !in cashed
    ensures var p := Paid(users, cashed);
      p[k := p[k].(money := p[k].money + result.receivedMoney)] == Paid(users, cashed[k := result])
  {}

  lemma PaidAndUnready(users: map<int, User>, cashed: map<int, CashResult>)
    ensures UserManager.Unready(Paid(users, cashed), cashed.Keys) == PayAndUnready(users, cashed)
  {}

  method EndGame(db: BjDatabase)
    requires db.Valid()
    modifies db
    ensures db.Valid() && db.Repr == old(db.Repr)
    ensures db.Model() == GameTable.EndGame(old(db.Model()))
  {
    ghost var t := db.Model();
    db.state := NotStarted;
    db.players := map[];
    db.Shows(GameTable.EndGame(t));
  }

  method StartCashing(db: BjDatabase) returns (reply: Reply, ghost cashed: map<int, CashResult>)
    requires db.Valid()
    modifies db.Repr
    ensures reply.Returned? ==> db.Valid() && db.Repr == old(db.Repr)
    ensures Outcome(reply, db, cashed) == GameTable.StartCashing(old(db.Model()))
  {
    cashed := map[];
    if db.dealersHand == null || db.shoe == null {
      return Threw(NullDereference), cashed;
    }
    var ok := DrawForDealer(db);
    if !ok {
      return Threw(NotEnoughCards), cashed;
    }
    cashed := PayOut(db);
    return Returned(0), cashed;
  }

  method PayOut(db: BjDatabase) returns (ghost cashed: map<int, CashResult>)
    requires db.Valid() && db.dealersHand != null
    modifies db.Repr
    ensures db.Valid() && db.Repr == old(db.Repr)
    ensures var t := old(db.Model());
      && cashed == CashAll(t.seats, Points(t.dealer.value))
      && db.Model() == GameTable.EndGame(t.(users := PayAndUnready(t.users, cashed)))
  {
    var points := DealerLogic.DealersHandPoints(db.dealersHand);
    cashed := PayAndUnreadyPlayers(db, points);
    EndGame(db);
  }

  method PayAndUnreadyPlayers(db: BjDatabase, points: int) returns (ghost cashed: map<int, CashResult>)
    requires db.Valid()
    modifies db.Repr - {db}
    ensures db.Valid()
    ensures var t := old(db.Model());
      cashed == CashAll(t.seats, points) && db.Model() == t.(users := PayAndUnready(t.users, cashed))
  {
    ghost var users := db.Model().users;
    cashed := CashPlayers(db, points);
    UserManager.UnreadyAllPlayers(db);
    PaidAndUnready(users, cashed);
  }

  method DrawForDealer(db: BjDatabase) returns (ok: bool)
    requires db.Valid() && db.dealersHand != null && db.shoe != null
    modifies db.Repr - {db}
    ensures db.Valid()
    ensures var t := old(db.Model());
      var drawn := DealDealer(t.dealer.value, t.shoe.value);
      && (ok <==> drawn.Some?)
      && (ok ==> db.dealersHand.cards == drawn.value.0
                 && db.Model() == t.(dealer := Some(drawn.value.0), shoe := Some(drawn.value.1)))
  {
    ghost var t := db.Model();
    ok := DealerLogic.DealFinalDealersCards(db.shoe, db.dealersHand);
    if ok {
      ghost var drawn := DealDealer(t.dealer.value, t.shoe.value).value;
      forall j | j in db.users ensures db.users[j].Value() == t.users[j] {
        assert db.ValidUser(j);
      }
      forall j | j in db.players ensures db.players[j].hands[0].Value() == t.seats[j] {
        assert db.ValidPlayer(j);
      }
      db.Shows(t.(dealer := Some(drawn.0), shoe := Some(drawn.1)));
    }
  }

  method CashIfAllAreStanding(db: BjDatabase) returns (reply: Reply, ghost cashed: map<int, CashResult>)
    requires db.Valid()
    modifies db.Repr
    ensures reply.Returned? ==> db.Valid() && db.Repr == old(db.Repr)
    ensures Outcome(reply, db, cashed) == CashIfAllStanding(old(db.Model()))
  {
    var standing := PlayerLogic.AllPlayersAreStanding(db);
    if standing {
      reply, cashed := StartCashing(db);
    } else {
      reply, cashed := Returned(0), map[];
    }
  }

  method DealFirstCards(db: BjDatabase) returns (ok: bool, ghost ch: Chance)
    requires db.Valid()
    modifies db.Repr
    ensures db.Valid() && fresh(db.Repr - old(db.Repr))
    ensures IsDecks(ch.shoe, SHOE_SIZE) && IsOrder(ch.order, old(db.Model()).seats.Keys)
    ensures forall k :: k in ch.order ==> k in old(db.Model()).seats
    ensures var t := old(db.Model());
      match OpeningDeal(t.seats, ch.order, ch.shoe)
      case None => !ok
      case Some((seats, shoe)) => ok && db.Model() == Dealt(t, seats, shoe, LastTwo(ch.shoe))
  {
    ch := SomeChance(db.Model(), Join(0));
    SetPhase(db, HitStand);
    ghost var cards := DealerLogic.Init(db);
    ch := ch.(shoe := cards);
    ok := FirstCards(db, cards);
    if !ok {
      return;
    }
    ghost var order;
    ok, order := DealerLogic.DealPlayersCards(db);
    ch := ch.(order := order);
  }

  method StartHitStandPhase(db: BjDatabase) returns (reply: Reply, ghost ch: Chance, ghost cashed: map<int, CashResult>)
    requires db.Valid()
    modifies db.Repr
    ensures IsDecks(ch.shoe, SHOE_SIZE) && IsOrder(ch.order, old(db.Model()).seats.Keys)
    ensures forall k :: k in ch.order ==> k in old(db.Model()).seats
    ensures reply.Returned? ==> db.Valid() && fresh(db.Repr - old(db.Repr))
    ensures Outcome(reply, db, cashed) == StartHitStand(old(db.Model()), ch)
  {
    cashed := map[];
    var ok;
    ok, ch := DealFirstCards(db);
    if !ok {
      return Threw(NotEnoughCards), ch, cashed;
    }
    reply, cashed := CashIfAllAreStanding(db);
  }

  method SetPhase(db: BjDatabase, phase: Phase)
    requires db.Valid()
    modifies db
    ensures db.Valid() && db.Repr == old(db.Repr) && db.users == old(db.users)
    ensures db.Model() == old(db.Model()).(phase := phase)
  {
    ghost var t := db.Model();
    db.state := phase;
    db.Shows(t.(phase := phase));
  }

  method FirstCards(db: BjDatabase, ghost cards: seq<Card>) returns (ok: bool)
    requires db.Valid() && db.Model().shoe == Some(cards) && db.Model().dealer == Some([])
    modifies db.Repr - {db}
    ensures db.Valid() && db.shoe != null
    ensures ok <==> |cards| >= 2
    ensures ok ==> db.Model() == old(db.Model()).(shoe := Some(cards[..|cards| - 2]), dealer := Some(LastTwo(cards)))
  {
    ghost var t := db.Model();
    ok := DealerLogic.DealFirstDealersCards(db.shoe, db.dealersHand);
    if ok {
      forall j | j in db.users ensures db.users[j].Value() == t.users[j] {
        assert db.ValidUser(j);
      }
      forall j | j in db.players ensures db.players[j].hands[0].Value() == t.seats[j] {
        assert db.ValidPlayer(j);
      }
      assert [] + LastTwo(cards) == LastTwo(cards);
      db.Shows(t.(shoe := Some(cards[..|cards| - 2]), dealer := Some(LastTwo(cards))));
    }
  }

  method CreateThePlayer(db: BjDatabase, user: UserModel)
    requires db.Valid() && user.uniqueId in db.users && db.users[user.uniqueId] == user
    modifies db
    ensures db.Valid() && fresh(db.Repr - old(db.Repr)) && db.users == old(db.users)
    ensures var t := old(db.Model()); db.Model() == t.(seats := map[user.uniqueId := FRESH_SEAT] + t.seats)
  {
    ghost var t := db.Model();
    var hand := new PlayerHand(user.uniqueId);
    var player := new PlayerModel(user, hand);
    ghost var after := t.(seats := map[user.uniqueId := FRESH_SEAT] + t.seats);
    if user.uniqueId !in db.players {
      InsertPlayer(db, user.uniqueId, player);
    } else {
      assert after.seats == t.seats;
    }
  }

  method InsertPlayer(db: BjDatabase, k: int, player: PlayerModel)
    requires db.Valid() && k in db.users && k !in db.players
    requires player.userModel == db.users[k] && |player.hands| == 1
    requires player.hands[0].owner == k && player.hands[0].Value() == FRESH_SEAT
    modifies db
    ensures db.Valid() && db.Repr == old(db.Repr) + {player.hands[0]} && db.users == old(db.users)
    ensures var t := old(db.Model()); db.Model() == t.(seats := map[k := FRESH_SEAT] + t.seats)
  {
    ghost var t := db.Model();
    db.players := db.players[k := player];
    db.Repr := db.Repr + {player.hands[0]};
    forall j | j in db.players ensures db.ValidPlayer(j) {
      assert j != k ==> old(db.ValidPlayer(j));
    }
    db.Shows(t.(seats := map[k := FRESH_SEAT] + t.seats));
  }

  method CreateThePlayers(db: BjDatabase, joined: seq<UserModel>, ghost keys: set<int>)
    requires db.Valid() && UserManager.AreUsers(db, joined, keys)
    modifies db
    ensures db.Valid() && fresh(db.Repr - old(db.Repr))
    ensures var t := old(db.Model()); db.Model() == t.(seats := Seated(keys, t.seats))
  {
    ghost var t := db.Model();
    ghost var seats := t.seats;
    assert Seated(Ids([]), t.seats) == t.seats;
    for i := 0 to |joined|
      invariant db.Valid() && fresh(db.Repr - old(db.Repr)) && db.users == old(db.users)
      invariant seats == Seated(Ids(joined[..i]), t.seats)
      invariant db.Model() == t.(seats := seats)
    {
      assert joined[i] in joined;
      CreateThePlayer(db, joined[i]);
      SeatedOneMore(joined, i, t.seats);
      seats := map[joined[i].uniqueId := FRESH_SEAT] + seats;
    }
    assert joined[..|joined|] == joined;
    EverybodyListed(db, joined, keys);
  }

  ghost function Ids(us: seq<UserModel>): set<int> {
    set u | u in us :: u.uniqueId
  }

  function Seated(keys: set<int>, seats: map<int, Seat>): map<int, Seat> {
    (map k | k in keys :: FRESH_SEAT) + seats
  }

  lemma SeatedOneMore(us: seq<UserModel>, i: nat, seats: map<int, Seat>)
    requires i < |us|
    ensures map[us[i].uniqueId := FRESH_SEAT] + Seated(Ids(us[..i]), seats) == Seated(Ids(us[..i + 1]), seats)
  {
    assert us[..i + 1] == us[..i] + [us[i]];
    assert Ids(us[..i + 1]) == Ids(us[..i]) + {us[i].uniqueId};
    SeatedWith(Ids(us[..i]), us[i].uniqueId, seats);
  }

  lemma SeatedWith(keys: set<int>, k: int, seats: map<int, Seat>)
    ensures map[k := FRESH_SEAT] + Seated(keys, seats) == Seated(keys + {k}, seats)
  {}

  lemma EverybodyListed(db: BjDatabase, us: seq<UserModel>, keys: set<int>)
    requires db.Valid() && UserManager.AreUsers(db, us, keys)
    ensures Ids(us) == keys
  {
    forall k | k in keys ensures k in Ids(us) {
      assert db.ValidUser(k) && db.users[k] in us;
    }
  }

  method StartGame(db: BjDatabase, joined: seq<UserModel>, ghost keys: set<int>)
    requires db.Valid() && UserManager.AreUsers(db, joined, keys)
    modifies db
    ensures db.Valid() && fresh(db.Repr - old(db.Repr))
    ensures db.Model() == GameTable.StartGame(old(db.Model()), keys)
  {
    SetPhase(db, Betting);
    CreateThePlayers(db, joined, keys);
  }

  // ---- GameSessionController: requests ----

  method ErasePlayer(db: BjDatabase, s: int)
    requires db.Valid()
    modifies db
    ensures db.Valid() && db.Repr == old(db.Repr) && db.users == old(db.users) && s !in db.players
    ensures var t := old(db.Model()); db.Model() == t.(seats := t.seats - {s})
  {
    ghost var t := db.Model();
    db.players := db.players - {s};
    db.Shows(t.(seats := t.seats - {s}));
  }

  method LeaveGame(db: BjDatabase, s: int) returns (reply: Reply, ghost ch: Chance, ghost cashed: map<int, CashResult>)
    requires db.Valid() && s in db.players
    modifies db.Repr
    ensures ValidChance(old(db.Model()), Leave(s), ch)
    ensures reply.Returned? ==> db.Valid() && fresh(db.Repr - old(db.Repr))
    ensures Outcome(reply, db, cashed) == GameTable.LeaveGame(old(db.Model()), s, ch)
  {
    ghost var t := db.Model();
    ErasePlayer(db, s);
    assert (t.seats - {s}).Keys == DealtKeys(t, Leave(s));
    reply, ch, cashed := ResolveDeparture(db);
  }

  method ResolveDeparture(db: BjDatabase) returns (reply: Reply, ghost ch: Chance, ghost cashed: map<int, CashResult>)
    requires db.Valid()
    modifies db.Repr
    ensures IsDecks(ch.shoe, SHOE_SIZE) && IsOrder(ch.order, old(db.Model()).seats.Keys)
    ensures reply.Returned? ==> db.Valid() && fresh(db.Repr - old(db.Repr))
    ensures Outcome(reply, db, cashed) == GameTable.ResolveDeparture(old(db.Model()), ch)
  {
    cashed := map[];
    ch := SomeChance(db.Model(), Join(0));
    NoPlayersNoSeats(db);
    if db.state != NotStarted && |db.players| == 0 {
      EndGame(db);
      return Returned(0), ch, cashed;
    }
    var placed := PlayerLogic.AllPlayersHavePlacedTheirBets(db);
    if placed {
      reply, ch, cashed := StartHitStandPhase(db);
    } else {
      reply, cashed := CashIfAllAreStanding(db);
    }
  }

  lemma NoPlayersNoSeats(db: BjDatabase)
    requires db.Valid()
    ensures |db.players| == 0 <==> db.Model().seats == map[]
  {
    var seats := db.Seats();
    assert seats.Keys == db.players.Keys;
    assert |seats| == |seats.Keys| && |db.players| == |db.players.Keys|;
  }

  method DealIfAllHaveBet(db: BjDatabase) returns (reply: Reply, ghost ch: Chance, ghost cashed: map<int, CashResult>)
    requires db.Valid()
    modifies db.Repr
    ensures IsDecks(ch.shoe, SHOE_SIZE) && IsOrder(ch.order, old(db.Model()).seats.Keys)
    ensures reply.Returned? ==> db.Valid() && fresh(db.Repr - old(db.Repr))
    ensures Outcome(reply, db, cashed) == DealIfAllBetsPlaced(old(db.Model()), ch)
  {
    var placed := PlayerLogic.AllPlayersHavePlacedTheirBets(db);
    if placed {
      reply, ch, cashed := StartHitStandPhase(db);
    } else {
      ch := SomeChance(db.Model(), Join(0));
      reply, cashed := Returned(0), map[];
    }
  }

  datatype Validity = Ok | Refused | NoUser

  method BasicRequestValidation(db: BjDatabase, required: Phase, s: int) returns (validity: Validity)
    requires db.Valid()
    ensures match GameTable.BasicRequestValidation(db.Model(), required, s)
      case None => validity == Ok && s in db.players && s in db.users
      case Some(Done(_, _, _)) => validity == Refused
      case Some(Thrown(_)) => validity == NoUser
  {
    if db.state == NotStarted || db.state != required {
      return Refused;
    }
    if s !in db.users {
      return NoUser;
    }
    assert db.ValidUser(s);
    var isPlayer := UserManager.UserIsAPlayer(db, db.users[s]);
    return if isPlayer then Ok else Refused;
  }

  method TryExecuteBet(db: BjDatabase, s: int, wager: Wager) returns (ok: bool)
    requires db.Valid() && s in db.players
    modifies db.Repr - {db}
    ensures db.Valid()
    ensures var t := old(db.Model());
      && (ok <==> BetError(t.users[s], t.seats[s], wager).None?)
      && db.Model() == if ok then AcceptBet(t, s, wager) else t
  {
    ghost var t := db.Model();
    assert db.ValidPlayer(s);
    var error := PlayerLogic.ExecuteBet(db.players[s], wager);
    ok := error.None?;
    ghost var after := if ok then AcceptBet(t, s, wager) else t;
    forall j | j in db.users ensures db.users[j].Value() == after.users[j] {
      assert db.ValidUser(j);
    }
    forall j | j in db.players ensures db.players[j].hands[0].Value() == after.seats[j] {
      assert db.ValidPlayer(j);
    }
    db.Shows(after);
  }

  method BetRequest(db: BjDatabase, s: int, wager: Wager) returns (reply: Reply, ghost ch: Chance, ghost cashed: map<int, CashResult>)
    requires db.Valid()
    modifies db.Repr
    ensures ValidChance(old(db.Model()), Bet(s, wager), ch)
    ensures reply.Returned? ==> db.Valid() && fresh(db.Repr - old(db.Repr))
    ensures Outcome(reply, db, cashed) == PlaceBet(old(db.Model()), s, wager, ch)
  {
    cashed := map[];
    ghost var t := db.Model();
    ch := SomeChance(t, Bet(s, wager));
    var validity := BasicRequestValidation(db, Betting, s);
    if validity != Ok {
      return if validity == NoUser then Threw(NoSuchConnection) else Returned(-1), ch, cashed;
    }
    var ok := TryExecuteBet(db, s, wager);
    if !ok {
      return Returned(-1), ch, cashed;
    }
    assert AcceptBet(t, s, wager).seats.Keys == t.seats.Keys;
    reply, ch, cashed := DealIfAllHaveBet(db);
  }

  datatype HitReply = DidHit | NotSitting | Failed(error: Error)

  method TryExecuteHit(db: BjDatabase, s: int) returns (result: HitReply)
    requires db.Valid() && s in db.players
    modifies db.Repr - {db}
    ensures db.Valid()
    ensures var t := old(db.Model());
      if t.seats[s].state != Sitting then result == NotSitting && db.Model() == t
      else if t.shoe.None? then result == Failed(NullDereference)
      else if t.shoe.value == [] then result == Failed(NotEnoughCards)
      else
        var n := |t.shoe.value| - 1;
        && result == DidHit
        && db.Model() == t.(seats := t.seats[s := AfterHit(t.seats[s], t.shoe.value[n])], shoe := Some(t.shoe.value[..n]))
  {
    ghost var t := db.Model();
    assert db.ValidPlayer(s);
    if db.shoe == null {
      return if db.players[s].hands[0].state != Sitting then NotSitting else Failed(NullDereference);
    }
    var hit := PlayerLogic.ExecuteHit(db.players[s], db.shoe);
    if hit.ShoeEmpty? {
      return Failed(NotEnoughCards);
    }
    ghost var after := t;
    if hit.Dealt? {
      assert t.shoe.value[..|t.shoe.value| - 1] == db.shoe.cards;
      after := t.(seats := t.seats[s := AfterHit(t.seats[s], hit.card)], shoe := Some(db.shoe.cards));
    }
    forall j | j in db.users ensures db.users[j].Value() == after.users[j] {
      assert db.ValidUser(j);
    }
    forall j | j in db.players ensures db.players[j].hands[0].Value() == after.seats[j] {
      assert db.ValidPlayer(j);
    }
    db.Shows(after);
    return if hit.Dealt? then DidHit else NotSitting;
  }

  method HitRequest(db: BjDatabase, s: int) returns (reply: Reply, ghost cashed: map<int, CashResult>)
    requires db.Valid()
    modifies db.Repr
    ensures reply.Returned? ==> db.Valid() && fresh(db.Repr - old(db.Repr))
    ensures Outcome(reply, db, cashed) == HitCard(old(db.Model()), s)
  {
    cashed := map[];
    var validity := BasicRequestValidation(db, HitStand, s);
    if validity != Ok {
      return if validity == NoUser then Threw(NoSuchConnection) else Returned(-1), cashed;
    }
    var hit := TryExecuteHit(db, s);
    match hit
    case NotSitting => reply := Returned(-1);
    case Failed(error) => reply := Threw(error);
    case DidHit => reply, cashed := CashIfAllAreStanding(db);
  }

  method TryExecuteStand(db: BjDatabase, s: int) returns (ok: bool)
    requires db.Valid() && s in db.players
    modifies db.Repr - {db}
    ensures db.Valid()
    ensures var t := old(db.Model());
      && (ok <==> t.seats[s].state == Sitting)
      && db.Model() == if ok then t.(seats := t.seats[s := t.seats[s].(state := Standing)]) else t
  {
    ghost var t := db.Model();
    assert db.ValidPlayer(s);
    var error := PlayerLogic.ExecuteStand(db.players[s]);
    ok := error.None?;
    ghost var after := if ok then t.(seats := t.seats[s := t.seats[s].(state := Standing)]) else t;
    forall j | j in db.users ensures db.users[j].Value() == after.users[j] {
      assert db.ValidUser(j);
    }
    forall j | j in db.players ensures db.players[j].hands[0].Value() == after.seats[j] {
      assert db.ValidPlayer(j);
    }
    db.Shows(after);
  }

  method StandRequest(db: BjDatabase, s: int) returns (reply: Reply, ghost cashed: map<int, CashResult>)
    requires db.Valid()
    modifies db.Repr
    ensures reply.Returned? ==> db.Valid() && fresh(db.Repr - old(db.Repr))
    ensures Outcome(reply, db, cashed) == StandHand(old(db.Model()), s)
  {
    cashed := map[];
    var validity := BasicRequestValidation(db, HitStand, s);
    if validity != Ok {
      return if validity == NoUser then Threw(NoSuchConnection) else Returned(-1), cashed;
    }
    var ok := TryExecuteStand(db, s);
    if ok {
      reply, cashed := CashIfAllAreStanding(db);
    } else {
      reply := Returned(-1);
    }
  }

  // ---- LobbyController ----

  method ClientJoin(db: BjDatabase, s: int) returns (code: int)
    requires db.Valid()
    modifies db
    ensures db.Valid() && fresh(db.Repr - old(db.Repr))
    ensures Done(db.Model(), code, map[]) == GameTable.ClientJoin(old(db.Model()), s)
    ensures db.users.Keys == old(db.users.Keys) + {s} && db.players == old(db.players)
    ensures s !in old(db.users) ==> fresh(db.users[s]) && db.users[s].money == 1000.0 && !db.users[s].isReady
    ensures forall k :: k in old(db.users) ==> db.users[k] == old(db.users[k])
  {
    var user := new UserModel(s, INITIAL_MONEY);
    if s !in db.users {
      InsertUser(db, s, user);
    }
    return 0;
  }

  method InsertUser(db: BjDatabase, s: int, user: UserModel)
    requires db.Valid() && s !in db.users && user.uniqueId == s
    modifies db
    ensures db.Valid() && db.Repr == old(db.Repr) + {user}
    ensures db.users == old(db.users)[s := user] && db.players == old(db.players)
    ensures var t := old(db.Model()); db.Model() == t.(users := t.users[s := user.Value()])
  {
    ghost var t := db.Model();
    forall k | k in db.players ensures k != s {
      assert db.ValidPlayer(k);
    }
    db.users := db.users[s := user];
    db.Repr := db.Repr + {user};
    forall k | k in db.players ensures db.ValidPlayer(k) {
      assert old(db.ValidPlayer(k));
    }
    db.Shows(t.(users := t.users[s := user.Value()]));
  }

  method EraseUser(db: BjDatabase, s: int)
    requires db.Valid() && s !in db.players
    modifies db
    ensures db.Valid() && db.Repr == old(db.Repr)
    ensures var t := old(db.Model()); db.Model() == t.(users := t.users - {s})
  {
    ghost var t := db.Model();
    db.users := db.users - {s};
    forall k | k in db.players ensures db.ValidPlayer(k) {
      assert old(db.ValidPlayer(k));
    }
    db.Shows(t.(users := t.users - {s}));
  }

  lemma {:induction false} NobodyReturns(t: Table, s: int, ch: Chance)
    requires s in t.seats && ValidChance(t, Leave(s), ch)
    ensures var o := GameTable.LeaveGame(t, s, ch); o.Done? ==> s !in o.table.seats
  {
    Invariant.OpeningGivesTwo(t.seats - {s}, ch.order, ch.shoe);
  }

  method ClientLeave(db: BjDatabase, s: int) returns (reply: Reply, ghost ch: Chance, ghost cashed: map<int, CashResult>)
    requires db.Valid()
    modifies db.Repr
    ensures ValidChance(old(db.Model()), Leave(s), ch)
    ensures reply.Returned? ==> db.Valid() && fresh(db.Repr - old(db.Repr))
    ensures Outcome(reply, db, cashed) == GameTable.ClientLeave(old(db.Model()), s, ch)
  {
    cashed := map[];
    ghost var t := db.Model();
    ch := SomeChance(t, Leave(s));
    if s !in db.users {
      return Threw(NoSuchConnection), ch, cashed;
    }
    assert db.ValidUser(s);
    var isPlayer := UserManager.UserIsAPlayer(db, db.users[s]);
    if isPlayer {
      reply, ch, cashed := LeaveGame(db, s);
      if reply.Threw? {
        return;
      }
      NobodyReturns(t, s, ch);
      assert s !in db.Model().seats;
    }
    EraseUser(db, s);
    reply := Returned(0);
  }

  method MarkReady(db: BjDatabase, s: int)
    requires db.Valid() && s in db.users
    modifies db.Repr - {db}
    ensures db.Valid()
    ensures var t := old(db.Model()); db.Model() == t.(users := t.users[s := t.users[s].(isReady := true)])
  {
    ghost var t := db.Model();
    assert db.ValidUser(s);
    db.users[s].isReady := true;
    ghost var after := t.(users := t.users[s := t.users[s].(isReady := true)]);
    forall j | j in db.users ensures db.users[j].Value() == after.users[j] {
      assert db.ValidUser(j);
    }
    forall j | j in db.players ensures db.players[j].hands[0].Value() == after.seats[j] {
      assert db.ValidPlayer(j);
    }
    db.Shows(after);
  }

  method SetReady(db: BjDatabase, s: int) returns (reply: Reply)
    requires db.Valid()
    modifies db.Repr
    ensures reply.Returned? ==> db.Valid() && fresh(db.Repr - old(db.Repr))
    ensures Outcome(reply, db, map[]) == ReadyUser(old(db.Model()), s)
  {
    if s !in db.users {
      return Threw(NoSuchConnection);
    }
    if db.users[s].isReady || db.state != NotStarted {
      return Returned(-1);
    }
    var canJoin := UserManager.UserCanJoin(db.users[s]);
    if !canJoin {
      return Returned(-1);
    }
    MarkReady(db, s);
    StartIfReady(db);
    return Returned(0);
  }

  method StartIfReady(db: BjDatabase)
    requires db.Valid()
    modifies db
    ensures db.Valid() && fresh(db.Repr - old(db.Repr))
    ensures var t := old(db.Model());
      db.Model() == if GameIsReady(t) then GameTable.StartGame(t, Joinables(t.users)) else t
  {
    var ready := UserManager.GameIsReady(db);
    if ready {
      var joinables := UserManager.GetJoinables(db);
      StartGame(db, joinables, Joinables(db.Model().users));
    }
  }

  // ---- The request mapper ----

  /** One event handled. The objects do exactly a step of the table; so from the empty database
      on, everything proved of the tables' runs holds of the objects. */
  method Handle(db: BjDatabase, e: Event) returns (reply: Reply, ghost ch: Chance, ghost cashed: map<int, CashResult>)
    requires db.Valid()
    modifies db.Repr
    ensures ValidChance(old(db.Model()), e, ch)
    ensures reply.Returned? ==> db.Valid() && fresh(db.Repr - old(db.Repr))
    ensures Outcome(reply, db, cashed) == Step(old(db.Model()), e, ch)
  {
    cashed := map[];
    ch := SomeChance(db.Model(), e);
    match e
    case Join(s) =>
      var code := ClientJoin(db, s);
      reply := Returned(code);
    case Leave(s) => reply, ch, cashed := ClientLeave(db, s);
    case SetReady(s) => reply := SetReady(db, s);
    case Bet(s, wager) => reply, ch, cashed := BetRequest(db, s, wager);
    case Hit(s) => reply, cashed := HitRequest(db, s);
    case Stand(s) => reply, cashed := StandRequest(db, s);
  }
}
