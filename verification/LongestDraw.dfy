/** The dealer's bound of twelve cards is reached by a run of the server. */
module LongestDraw {
  import opened Cards
  import opened PointsTools
  import opened Rules
  import opened GameTable
  import opened Dealer
  import opened Reaching

  // ---- Some shoe of five decks ends in any cards that five decks hold ----

  lemma TakeOne(deck: seq<Card>, x: Card) returns (rest: seq<Card>)
    requires multiset(deck)[x] > 0
    ensures forall c: Card :: multiset(rest)[c] == multiset(deck)[c] - if c == x then 1 else 0
  {
    var front, back := PickOut(deck, x);
    rest := front + back;
  }

  lemma LastCounts(cards: seq<Card>, c: Card)
    requires cards != []
    ensures var n := |cards| - 1;
      multiset(cards)[c] == multiset(cards[..n])[c] + if c == cards[n] then 1 else 0
  {
    var n := |cards| - 1;
    assert cards == cards[..n] + [cards[n]];
  }

  lemma {:induction false} TakeOut(deck: seq<Card>, cards: seq<Card>) returns (rest: seq<Card>)
    requires forall c: Card :: multiset(cards)[c] <= multiset(deck)[c]
    ensures forall c: Card :: multiset(rest)[c] == multiset(deck)[c] - multiset(cards)[c]
    decreases |cards|
  {
    rest := deck;
    if cards != [] {
      var n := |cards| - 1;
      LastCounts(cards, cards[n]);
      var fewer := TakeOne(deck, cards[n]);
      forall c: Card ensures multiset(cards[..n])[c] <= multiset(fewer)[c] {
        LastCounts(cards, c);
      }
      rest := TakeOut(fewer, cards[..n]);
      forall c: Card ensures multiset(rest)[c] == multiset(deck)[c] - multiset(cards)[c] {
        LastCounts(cards, c);
      }
    }
  }

  lemma ShoeEndingIn(cards: seq<Card>) returns (rest: seq<Card>)
    requires forall c: Card :: multiset(cards)[c] <= SHOE_SIZE
    ensures IsDecks(rest + cards, SHOE_SIZE)
  {
    var decks := SomeDecks(SHOE_SIZE);
    forall c: Card ensures multiset(cards)[c] <= multiset(decks)[c] {}
    rest := TakeOut(decks, cards);
    forall c: Card ensures multiset(rest + cards)[c] == SHOE_SIZE {
      assert multiset(rest + cards)[c] == multiset(rest)[c] + multiset(cards)[c];
    }
  }

  function Copies(x: Card, n: nat): (s: seq<Card>)
    ensures |s| == n && forall i :: 0 <= i < n ==> s[i] == x
    ensures forall c: Card :: multiset(s)[c] == if x == c then n else 0
  {
    if n == 0 then [] else Copies(x, n - 1) + [x]
  }

  // ---- The run ----

  const CLUBS_ACE := Card(Clubs, Ace)
  const TEN := Card(Diamonds, Ten)
  const SIX := Card(Spades, Six)

  /** What the dealer draws, then the player's and the dealer's first two, from the back. */
  function LastCards(): seq<Card> {
    Copies(Card(Spades, Ace), 5) + [SIX] + Copies(Card(Hearts, Ace), 4) + Copies(TEN, 2) + Copies(CLUBS_ACE, 2)
  }

  lemma FiveDecksHoldThem()
    ensures forall c: Card :: multiset(LastCards())[c] <= SHOE_SIZE
  {}

  /** From two aces the dealer draws ten cards off this shoe. */
  ghost predicate MakesTwelve(shoe: seq<Card>) {
    var o := DealDealer([CLUBS_ACE] + [CLUBS_ACE], shoe);
    o.Some? && |o.value.0| == 12
  }

  ghost predicate IsTheShoe(shoe: seq<Card>, drawn: seq<Card>) {
    shoe == drawn + Copies(TEN, 2) + Copies(CLUBS_ACE, 2) && IsDecks(shoe, SHOE_SIZE)
  }

  lemma Regroup(a: seq<Card>, b: seq<Card>, c: seq<Card>, d: seq<Card>, e: seq<Card>, f: seq<Card>)
    ensures a + b + c + d + e + f == a + (b + c + d + e + f)
  {}

  lemma TheShoe() returns (shoe: seq<Card>, drawn: seq<Card>)
    ensures IsTheShoe(shoe, drawn) && MakesTwelve(drawn)
  {
    FiveDecksHoldThem();
    var rest := ShoeEndingIn(LastCards());
    drawn := rest + Copies(Card(Spades, Ace), 5) + [SIX] + Copies(Card(Hearts, Ace), 4);
    shoe := drawn + Copies(TEN, 2) + Copies(CLUBS_ACE, 2);
    Regroup(rest, Copies(Card(Spades, Ace), 5), [SIX], Copies(Card(Hearts, Ace), 4), Copies(TEN, 2), Copies(CLUBS_ACE, 2));
    TwelveFrom(CLUBS_ACE, CLUBS_ACE, rest, Copies(Card(Spades, Ace), 5), SIX, Copies(Card(Hearts, Ace), 4));
  }

  lemma OnlyPlayerIsDealt(seats: map<int, Seat>, drawn: seq<Card>, shoe: seq<Card>)
    requires 0 in seats && shoe == drawn + Copies(TEN, 2) + Copies(CLUBS_ACE, 2)
    ensures OpeningDeal(seats, [0], shoe) == Some((seats[0 := seats[0].(cards := seats[0].cards + [TEN, TEN])], drawn))
    ensures LastTwo(shoe) == [CLUBS_ACE] + [CLUBS_ACE]
  {
    var left := shoe[..|shoe| - 2];
    assert left == drawn + Copies(TEN, 2);
    assert left[..|left| - 2] == drawn && LastTwo(left) == [TEN, TEN];
    DealNext(seats, [], 0, left, seats, left);
    assert [] + [0] == [0];
  }

  /** The only player has two tens and has not decided yet. */
  ghost predicate IsUp(t: Table, drawn: seq<Card>) {
    && t.phase == HitStand && t.seats.Keys == t.users.Keys == {0}
    && t.seats[0].state == Sitting && t.dealer == Some([CLUBS_ACE] + [CLUBS_ACE]) && t.shoe == Some(drawn)
  }

  lemma KeysAreZero(keys: set<int>)
    requires KeysAre(keys, 1)
    ensures keys == {0}
  {
    assert forall k :: k in keys <==> k in {0};
  }

  lemma OnlyPlayerBets(R: Table -> bool, shoe: seq<Card>, drawn: seq<Card>) returns (t: Table)
    requires Closed(R) && IsTheShoe(shoe, drawn)
    ensures R(t) && IsUp(t, drawn)
  {
    var before := AllButOneBet(R, 1, 0);
    OneBets(before, 1, 0);
    var b := AcceptBet(before, 0, ONE);
    var ch := Chance(shoe, [0]);
    KeysAreZero(before.seats.Keys);
    OnlyPlayerIsDealt(b.seats, drawn, shoe);
    var seats := OpeningDeal(b.seats, [0], shoe).value.0;
    assert seats[0].state == Sitting;
    NextLastBet(R, before, 0, ch, seats, drawn);
    t := Dealt(b, seats, drawn, LastTwo(shoe));
  }

  lemma StandMakesTheDealerDraw(t: Table, drawn: seq<Card>, ch: Chance)
    requires IsUp(t, drawn) && MakesTwelve(drawn) && ValidChance(t, Stand(0), ch)
    ensures var o := Step(t, Stand(0), ch);
      o.Done? && o.cashed != map[] && o.table.dealer.Some? && |o.table.dealer.value| == 12
  {
    var stood := t.(seats := t.seats[0 := t.seats[0].(state := Standing)]);
    assert Step(t, Stand(0), ch) == CashIfAllStanding(stood);
    assert 0 in StartCashing(stood).cashed;
  }

  /** One player bets and stands, and the dealer's aces make him draw ten times, from a shoe of
      five ordinary decks. */
  lemma TwelveCardsAreReached() returns (inputs: seq<Input>, i: Input)
    ensures Play(EMPTY_TABLE, inputs).Some? && Legal(Play(EMPTY_TABLE, inputs).value, i)
    ensures var o := Step(Play(EMPTY_TABLE, inputs).value, i.event, i.chance);
      o.Done? && o.cashed != map[] && o.table.dealer.Some? && |o.table.dealer.value| == 12
  {
    var shoe, drawn := TheShoe();
    ReachableIsClosed();
    var t := OnlyPlayerBets(t => Reachable(t), shoe, drawn);
    inputs :| Play(EMPTY_TABLE, inputs) == Some(t);
    var ch := SomeChance(t, Stand(0));
    i := Input(Stand(0), ch);
    StandMakesTheDealerDraw(t, drawn, ch);
  }
}
