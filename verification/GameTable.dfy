/** The server's database as a value, and what each client event does to it
    (src/BlackjackServer/Controllers, src/BlackjackLogic, src/Services/UserManager.cpp). */
module GameTable {
  import opened Cards
  import opened PointsTools
  import opened Rules

  datatype Phase = NotStarted | Betting | HitStand | Cashing

  /** `users` and `seats` are the two tables keyed by socket; the shoe and the dealer's hand are
      the session's two pointers, null until the first game deals. */
  datatype Table = Table(
    users: map<int, User>,
    seats: map<int, Seat>,
    phase: Phase,
    shoe: Option<seq<Card>>,
    dealer: Option<seq<Card>>)

  const EMPTY_TABLE := Table(map[], map[], NotStarted, None, None)

  datatype Event =
    | Join(socket: int)
    | Leave(socket: int)
    | SetReady(socket: int)
    | Bet(socket: int, wager: Wager)
    | Hit(socket: int)
    | Stand(socket: int)

  /** What the code leaves open: the shuffled shoe, should this event start the hit/stand phase,
      and the order in which the unordered map of players is then walked. */
  datatype Chance = Chance(shoe: seq<Card>, order: seq<int>)

  /** Exceptions nothing catches, and dereferences of a null pointer: the server is gone. */
  datatype Error = NoSuchConnection | NotEnoughCards | NullDereference

  /** `code` is what the handler returns to the request mapper, 0 or -1; `cashed` holds the
      result of every hand the handler cashed. */
  datatype Outcome =
    | Done(table: Table, code: int, cashed: map<int, CashResult>)
    | Thrown(error: Error)

  ghost predicate IsOrder(order: seq<int>, keys: set<int>) {
    NoDuplicates(order) && forall k :: k in order <==> k in keys
  }

  // ---- Guards (GameStatusLogic, UserManager) ----

  predicate AllBetsPlaced(seats: map<int, Seat>) {
    forall k :: k in seats ==> ABetIsPlaced(seats[k])
  }

  predicate AllHandsStanding(seats: map<int, Seat>) {
    forall k :: k in seats ==> seats[k].state == Standing
  }

  function Joinables(users: map<int, User>): set<int> {
    set k | k in users && IsSolvent(users[k])
  }

  function UsersToWait(users: map<int, User>): set<int> {
    set k | k in Joinables(users) && !users[k].isReady
  }

  predicate GameIsReady(t: Table) {
    t.phase == NotStarted && Joinables(t.users) != {} && UsersToWait(t.users) == {}
  }

  // ---- Dealing (DealerLogic) ----

  /** Two cards from the back of the shoe to every player in turn. */
  function DealPlayers(seats: map<int, Seat>, order: seq<int>, shoe: seq<Card>): Option<(map<int, Seat>, seq<Card>)>
    requires forall k :: k in order ==> k in seats
    ensures DealPlayers(seats, order, shoe).Some? ==> DealPlayers(seats, order, shoe).value.0.Keys == seats.Keys
  {
    if order == [] then Some((seats, shoe))
    else
      var k := order[|order| - 1];
      match DealPlayers(seats, order[..|order| - 1], shoe)
      case None => None
      case Some((dealt, rest)) =>
        if |rest| < 2 then None
        else Some((dealt[k := dealt[k].(cards := dealt[k].cards + LastTwo(rest))], rest[..|rest| - 2]))
  }

  /** The dealer's two cards first, then everybody else's. */
  function OpeningDeal(seats: map<int, Seat>, order: seq<int>, shoe: seq<Card>): Option<(map<int, Seat>, seq<Card>)>
    requires forall k :: k in order ==> k in seats
    ensures OpeningDeal(seats, order, shoe).Some? ==> |shoe| >= 2
  {
    if |shoe| < 2 then None else DealPlayers(seats, order, shoe[..|shoe| - 2])
  }

  function LastTwo(shoe: seq<Card>): seq<Card>
    requires |shoe| >= 2
  {
    [shoe[|shoe| - 1], shoe[|shoe| - 2]]
  }

  /** The dealer draws while his points are under 17; None when the shoe runs out first. */
  function DealDealer(dealer: seq<Card>, shoe: seq<Card>): Option<(seq<Card>, seq<Card>)>
    decreases |shoe|
  {
    if Points(dealer) >= DEALER_POINTS_LIMIT then Some((dealer, shoe))
    else if shoe == [] then None
    else DealDealer(dealer + [shoe[|shoe| - 1]], shoe[..|shoe| - 1])
  }

  // ---- Phases (GameSessionController) ----

  function StartGame(t: Table, joined: set<int>): Table {
    t.(phase := Betting, seats := (map k | k in joined :: FRESH_SEAT) + t.seats)
  }

  function EndGame(t: Table): Table {
    t.(phase := NotStarted, seats := map[])
  }

  function StartHitStand(t: Table, ch: Chance): Outcome
    requires forall k :: k in ch.order ==> k in t.seats
  {
    match OpeningDeal(t.seats, ch.order, ch.shoe)
    case None => Thrown(NotEnoughCards)
    case Some((seats, shoe)) => CashIfAllStanding(Dealt(t, seats, shoe, LastTwo(ch.shoe)))
  }

  /** The table once the first cards are dealt. */
  function Dealt(t: Table, seats: map<int, Seat>, shoe: seq<Card>, dealer: seq<Card>): Table {
    t.(phase := HitStand, seats := seats, shoe := Some(shoe), dealer := Some(dealer))
  }

  function StartCashing(t: Table): Outcome {
    if t.dealer.None? || t.shoe.None? then Thrown(NullDereference)
    else
      match DealDealer(t.dealer.value, t.shoe.value)
      case None => Thrown(NotEnoughCards)
      case Some((dealer, shoe)) =>
        var cashed := CashAll(t.seats, Points(dealer));
        Done(EndGame(t.(users := PayAndUnready(t.users, cashed), shoe := Some(shoe), dealer := Some(dealer))), 0, cashed)
  }

  function CashAll(seats: map<int, Seat>, dealersPoints: int): map<int, CashResult> {
    map k | k in seats :: Cash(seats[k], dealersPoints)
  }

  function PayAndUnready(users: map<int, User>, cashed: map<int, CashResult>): map<int, User> {
    map k | k in users ::
      if k in cashed then User(users[k].money + cashed[k].receivedMoney, false) else users[k]
  }

  function CashIfAllStanding(t: Table): Outcome {
    if AllHandsStanding(t.seats) then StartCashing(t) else Done(t, 0, map[])
  }

  function DealIfAllBetsPlaced(t: Table, ch: Chance): Outcome
    requires forall k :: k in ch.order ==> k in t.seats
  {
    if AllBetsPlaced(t.seats) then StartHitStand(t, ch) else Done(t, 0, map[])
  }

  /** What leaveGame does once the player is erased. The phase is looked at only to end the game. */
  function ResolveDeparture(left: Table, ch: Chance): Outcome
    requires forall k :: k in ch.order ==> k in left.seats
  {
    if left.phase != NotStarted && left.seats == map[] then Done(EndGame(left), 0, map[])
    else if AllBetsPlaced(left.seats) then StartHitStand(left, ch)
    else CashIfAllStanding(left)
  }

  function LeaveGame(t: Table, s: int, ch: Chance): Outcome
    requires forall k :: k in ch.order ==> k in t.seats && k != s
  {
    ResolveDeparture(t.(seats := t.seats - {s}), ch)
  }

  // ---- Events ----

  /** A socket that is already in the table keeps its user: the insertion does nothing. */
  function ClientJoin(t: Table, s: int): Outcome {
    Done(if s in t.users then t else t.(users := t.users[s := User(INITIAL_MONEY, false)]), 0, map[])
  }

  function ClientLeave(t: Table, s: int, ch: Chance): Outcome
    requires forall k :: k in ch.order ==> k in t.seats && k != s
  {
    if s !in t.users then Thrown(NoSuchConnection)
    else
      var o := if s in t.seats then LeaveGame(t, s, ch) else Done(t, 0, map[]);
      if o.Thrown? then o else Done(o.table.(users := o.table.users - {s}), 0, o.cashed)
  }

  function ReadyUser(t: Table, s: int): Outcome {
    if s !in t.users then Thrown(NoSuchConnection)
    else if t.users[s].isReady || t.phase != NotStarted || !IsSolvent(t.users[s]) then Done(t, -1, map[])
    else
      var ready := t.(users := t.users[s := t.users[s].(isReady := true)]);
      Done(if GameIsReady(ready) then StartGame(ready, Joinables(ready.users)) else ready, 0, map[])
  }

  /** None when the request may go on. */
  function BasicRequestValidation(t: Table, required: Phase, s: int): Option<Outcome> {
    if t.phase == NotStarted || t.phase != required then Some(Done(t, -1, map[]))
    else if s !in t.users then Some(Thrown(NoSuchConnection))
    else if s !in t.seats then Some(Done(t, -1, map[]))
    else None
  }

  /** The table once an accepted bet has moved the money. */
  function AcceptBet(t: Table, s: int, wager: Wager): Table
    requires s in t.users && s in t.seats
  {
    t.(users := t.users[s := t.users[s].(money := t.users[s].money - wager.amount)],
       seats := t.seats[s := t.seats[s].(bet := t.seats[s].bet + wager.amount)])
  }

  function PlaceBet(t: Table, s: int, wager: Wager, ch: Chance): Outcome
    requires forall k :: k in ch.order ==> k in t.seats
  {
    match BasicRequestValidation(t, Betting, s)
    case Some(refused) => refused
    case None =>
      if BetError(t.users[s], t.seats[s], wager).Some? then Done(t, -1, map[])
      else DealIfAllBetsPlaced(AcceptBet(t, s, wager), ch)
  }

  function HitCard(t: Table, s: int): Outcome {
    match BasicRequestValidation(t, HitStand, s)
    case Some(refused) => refused
    case None =>
      if t.seats[s].state != Sitting then Done(t, -1, map[])
      else if t.shoe.None? then Thrown(NullDereference)
      else if t.shoe.value == [] then Thrown(NotEnoughCards)
      else
        var n := |t.shoe.value| - 1;
        CashIfAllStanding(t.(seats := t.seats[s := AfterHit(t.seats[s], t.shoe.value[n])], shoe := Some(t.shoe.value[..n])))
  }

  function StandHand(t: Table, s: int): Outcome {
    match BasicRequestValidation(t, HitStand, s)
    case Some(refused) => refused
    case None =>
      if t.seats[s].state != Sitting then Done(t, -1, map[])
      else CashIfAllStanding(t.(seats := t.seats[s := t.seats[s].(state := Standing)]))
  }

  /** The players dealt to should this event start the hit/stand phase. */
  function DealtKeys(t: Table, e: Event): set<int> {
    if e.Leave? then t.seats.Keys - {e.socket} else t.seats.Keys
  }

  ghost predicate ValidChance(t: Table, e: Event, ch: Chance) {
    IsDecks(ch.shoe, SHOE_SIZE) && IsOrder(ch.order, DealtKeys(t, e))
  }

  /** Some chance is always possible, so that quantifying over chances is never empty. */
  lemma SomeChance(t: Table, e: Event) returns (ch: Chance)
    ensures ValidChance(t, e, ch)
  {
    var shoe := SomeDecks(SHOE_SIZE);
    var order := SomeOrder(DealtKeys(t, e));
    ch := Chance(shoe, order);
  }

  lemma {:induction false} SomeOrder(keys: set<int>) returns (order: seq<int>)
    ensures IsOrder(order, keys)
  {
    if keys == {} {
      order := [];
    } else {
      assert (forall k :: k !in keys) ==> keys == {};
      var k :| k in keys;
      var rest := SomeOrder(keys - {k});
      order := rest + [k];
    }
  }

  ghost function Step(t: Table, e: Event, ch: Chance): Outcome
    requires ValidChance(t, e, ch)
  {
    match e
    case Join(s) => ClientJoin(t, s)
    case Leave(s) => ClientLeave(t, s, ch)
    case SetReady(s) => ReadyUser(t, s)
    case Bet(s, wager) => PlaceBet(t, s, wager, ch)
    case Hit(s) => HitCard(t, s)
    case Stand(s) => StandHand(t, s)
  }

  // ---- Runs ----

  datatype Input = Input(event: Event, chance: Chance)

  /** The environment: everything but a join comes from a connected user. */
  ghost predicate Legal(t: Table, i: Input) {
    (i.event.Join? || i.event.socket in t.users) && ValidChance(t, i.event, i.chance)
  }

  /** The table after some inputs, or None if one of them is not legal or kills the server. */
  ghost function Play(t: Table, inputs: seq<Input>): Option<Table> {
    if inputs == [] then Some(t)
    else
      match Play(t, inputs[..|inputs| - 1])
      case None => None
      case Some(before) => After(before, inputs[|inputs| - 1])
  }

  ghost function After(t: Table, i: Input): Option<Table> {
    if !Legal(t, i) then None
    else match Step(t, i.event, i.chance) case Done(after, _, _) => Some(after) case Thrown(_) => None
  }
}
