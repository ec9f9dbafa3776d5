/** Scoring a hand with smart aces (src/BlackjackLogic/PointsTools.cpp). */
module PointsTools {
  import opened Cards

  const BLACKJACK_POINTS := 21
  const DEALER_POINTS_LIMIT := 17

  function CardPoints(c: Card): (p: int)
    ensures 2 <= p <= 11 && (p == 11 <==> c.rank == Ace)
  {
    match c.rank
    case Two => 2 case Three => 3 case Four => 4 case Five => 5 case Six => 6
    case Seven => 7 case Eight => 8 case Nine => 9 case Ten => 10
    case Jack => 10 case Queen => 10 case King => 10
    case Ace => 11
  }

  // What the code means: every ace is worth 1 or 11, at the player's choice.

  function ValueUnder(c: Card, aceIsEleven: bool): (v: int)
    ensures 1 <= v <= 11
  {
    if c.rank == Ace && !aceIsEleven then 1 else CardPoints(c)
  }

  /** The total of a hand under one choice for each of its cards. */
  ghost function TotalUnder(cards: seq<Card>, choice: seq<bool>): int
    requires |cards| == |choice|
  {
    if cards == [] then 0
    else TotalUnder(cards[..|cards| - 1], choice[..|cards| - 1]) + ValueUnder(cards[|cards| - 1], choice[|cards| - 1])
  }

  /** Number cards count their number, court cards ten, an ace one or eleven. */
  lemma CardValues(c: Card, aceIsEleven: bool)
    ensures var v := ValueUnder(c, aceIsEleven);
      && (RankIndex(c.rank) <= RankIndex(Ten) ==> v == RankIndex(c.rank) + 2)
      && (c.rank in {Jack, Queen, King} ==> v == 10)
      && (c.rank == Ace ==> v == if aceIsEleven then 11 else 1)
  {}

  // What the code computes: the total with every ace as 1, plus at most one promotion.

  function HardValue(c: Card): int {
    ValueUnder(c, false)
  }

  function Hard(cards: seq<Card>): (h: int)
    ensures |cards| <= h <= 10 * |cards|
  {
    if cards == [] then 0 else Hard(cards[..|cards| - 1]) + HardValue(cards[|cards| - 1])
  }

  function Aces(cards: seq<Card>): (n: nat)
    ensures n <= |cards|
  {
    if cards == [] then 0
    else Aces(cards[..|cards| - 1]) + if cards[|cards| - 1].rank == Ace then 1 else 0
  }

  function Points(cards: seq<Card>): int {
    if Aces(cards) > 0 && Hard(cards) <= 11 then Hard(cards) + 10 else Hard(cards)
  }

  predicate IsBusted(points: int) {
    points > BLACKJACK_POINTS
  }

  predicate IsBlackjack(cards: seq<Card>) {
    |cards| == 2 && Points(cards) == BLACKJACK_POINTS
  }

  /** PointsTools::getHandPoints: one pass counting aces as 11, then a greedy pass demoting them. */
  method GetHandPoints(cards: seq<Card>, isSmart: bool := true) returns (result: int)
    ensures isSmart ==> result == Points(cards)
    ensures !isSmart ==> result == Hard(cards) + 10 * Aces(cards)
  {
    result := 0;
    for i := 0 to |cards|
      invariant result == Hard(cards[..i]) + 10 * Aces(cards[..i])
    {
      PrefixStep(cards, i);
      result := result + CardPoints(cards[i]);
    }
    assert cards[..|cards|] == cards;
    if !IsBusted(result) || !isSmart {
      SmallTotalIsPoints(cards);
      return;
    }
    ghost var demoted := 0;
    for i := 0 to |cards|
      invariant result == Hard(cards) + 10 * (Aces(cards) - demoted)
      invariant 0 <= demoted <= Aces(cards[..i])
      invariant IsBusted(result) ==> demoted == Aces(cards[..i])
      invariant IsBusted(result + 10)
    {
      if !IsBusted(result) {
        AcesMonotone(cards, i);
        break;
      }
      PrefixStep(cards, i);
      if cards[i].rank == Ace {
        result := result - CardPoints(cards[i]);
        result := result + 1;
        demoted := demoted + 1;
      }
    }
    assert cards[..|cards|] == cards;
    GreedyStopsAtPoints(cards, demoted);
  }

  lemma SmallTotalIsPoints(cards: seq<Card>)
    ensures !IsBusted(Hard(cards) + 10 * Aces(cards)) ==> Points(cards) == Hard(cards) + 10 * Aces(cards)
  {
    AcesAtMostHard(cards);
  }

  /** Demoting aces only while busted ends on the closed form. */
  lemma GreedyStopsAtPoints(cards: seq<Card>, demoted: int)
    requires 0 <= demoted <= Aces(cards)
    requires IsBusted(Hard(cards) + 10 * (Aces(cards) - demoted) + 10)
    requires IsBusted(Hard(cards) + 10 * (Aces(cards) - demoted)) ==> demoted == Aces(cards)
    ensures Points(cards) == Hard(cards) + 10 * (Aces(cards) - demoted)
  {
    AcesAtMostHard(cards);
  }

  lemma PrefixStep(cards: seq<Card>, i: nat)
    requires i < |cards|
    ensures Hard(cards[..i + 1]) == Hard(cards[..i]) + HardValue(cards[i])
    ensures Aces(cards[..i + 1]) == Aces(cards[..i]) + if cards[i].rank == Ace then 1 else 0
  {
    assert cards[..i + 1][..i] == cards[..i];
  }

  lemma {:induction false} AcesAtMostHard(cards: seq<Card>)
    ensures Aces(cards) <= Hard(cards)
    ensures Aces(cards) == 0 ==> 2 * |cards| <= Hard(cards)
  {
    if cards != [] {
      AcesAtMostHard(cards[..|cards| - 1]);
    }
  }

  lemma {:induction false} AcesMonotone(cards: seq<Card>, i: nat)
    requires i <= |cards|
    ensures Aces(cards[..i]) <= Aces(cards)
    decreases |cards| - i
  {
    if i < |cards| {
      assert cards[..i + 1][..i] == cards[..i];
      AcesMonotone(cards, i + 1);
    } else {
      assert cards[..i] == cards;
    }
  }

  // ---- Optimality ----

  lemma {:induction false} AnyChoice(cards: seq<Card>, choice: seq<bool>) returns (elevens: nat)
    requires |cards| == |choice|
    ensures elevens <= Aces(cards) && TotalUnder(cards, choice) == Hard(cards) + 10 * elevens
  {
    if cards == [] {
      elevens := 0;
    } else {
      var n := |cards| - 1;
      elevens := AnyChoice(cards[..n], choice[..n]);
      if cards[n].rank == Ace && choice[n] {
        elevens := elevens + 1;
      }
    }
  }

  /** The choice that takes every ace as 1, except the last one when `promote` is set. */
  function OneAce(cards: seq<Card>, promote: bool): (choice: seq<bool>)
    ensures |choice| == |cards|
  {
    if cards == [] then []
    else
      var last := cards[|cards| - 1];
      OneAce(cards[..|cards| - 1], promote && last.rank != Ace) + [promote && last.rank == Ace]
  }

  lemma {:induction false} OneAceTotal(cards: seq<Card>, promote: bool)
    ensures TotalUnder(cards, OneAce(cards, promote)) == Hard(cards) + if promote && Aces(cards) > 0 then 10 else 0
  {
    if cards != [] {
      var n := |cards| - 1;
      var rest := OneAce(cards[..n], promote && cards[n].rank != Ace);
      assert OneAce(cards, promote)[..n] == rest;
      OneAceTotal(cards[..n], promote && cards[n].rank != Ace);
    }
  }

  /** Some way of counting the aces gives this total. */
  ghost predicate Possible(cards: seq<Card>, total: int) {
    exists choice: seq<bool> :: |choice| == |cards| && TotalUnder(cards, choice) == total
  }

  /** Smart scoring is optimal: over all ways to count the aces it is the largest total that is
      not busted if there is one, and otherwise the smallest total. */
  lemma SmartScoringIsOptimal(cards: seq<Card>)
    ensures Possible(cards, Points(cards))
    ensures forall total :: Possible(cards, total) ==>
      if Points(cards) > 21 then Points(cards) <= total else total > 21 || total <= Points(cards)
  {
    OneAceTotal(cards, Hard(cards) <= 11);
    var best := OneAce(cards, Hard(cards) <= 11);
    assert TotalUnder(cards, best) == Points(cards);
    forall total | Possible(cards, total)
      ensures if IsBusted(Points(cards)) then Points(cards) <= total else IsBusted(total) || total <= Points(cards)
    {
      var choice: seq<bool> :| |choice| == |cards| && TotalUnder(cards, choice) == total;
      var elevens := AnyChoice(cards, choice);
      AcesAtMostHard(cards);
    }
  }

  /** A hand is busted exactly when no way of counting its aces stays within 21. */
  lemma BustedMeansEveryChoiceBusts(cards: seq<Card>)
    ensures IsBusted(Points(cards)) <==> forall total :: Possible(cards, total) ==> total > 21
    ensures IsBusted(Points(cards)) <==> Hard(cards) > 21
  {
    SmartScoringIsOptimal(cards);
  }

  // ---- Order and growth ----

  lemma {:induction false} Concat(a: seq<Card>, b: seq<Card>)
    ensures Hard(a + b) == Hard(a) + Hard(b)
    ensures Aces(a + b) == Aces(a) + Aces(b)
  {
    if b == [] {
      assert a + b == a;
    } else {
      var n := |b| - 1;
      assert (a + b)[..|a + b| - 1] == a + b[..n];
      Concat(a, b[..n]);
    }
  }

  lemma Push(cards: seq<Card>, c: Card)
    ensures Hard(cards + [c]) == Hard(cards) + HardValue(c)
    ensures Aces(cards + [c]) == Aces(cards) + if c.rank == Ace then 1 else 0
  {
    assert (cards + [c])[..|cards|] == cards;
  }

  lemma OneCard(x: Card)
    ensures Hard([x]) == HardValue(x) && Aces([x]) == if x.rank == Ace then 1 else 0
  {
    Push([], x);
    assert [] + [x] == [x];
  }

  lemma TwoCards(x: Card, y: Card)
    ensures Hard([x] + [y]) == HardValue(x) + HardValue(y)
    ensures Aces([x] + [y]) == (if x.rank == Ace then 1 else 0) + if y.rank == Ace then 1 else 0
  {
    OneCard(x);
    Push([x], y);
  }

  lemma Insert(front: seq<Card>, c: Card, back: seq<Card>)
    ensures Hard(front + [c] + back) == Hard(front + back) + HardValue(c)
    ensures Aces(front + [c] + back) == Aces(front + back) + if c.rank == Ace then 1 else 0
  {
    Push(front, c);
    Concat(front + [c], back);
    Concat(front, back);
  }

  lemma PickOut(cards: seq<Card>, c: Card) returns (front: seq<Card>, back: seq<Card>)
    requires c in multiset(cards)
    ensures cards == front + [c] + back && multiset(front + back) == multiset(cards) - multiset{c}
  {
    var i :| 0 <= i < |cards| && cards[i] == c;
    front, back := cards[..i], cards[i + 1..];
    assert cards == front + [c] + back;
  }

  lemma {:induction false} HardIgnoresOrder(a: seq<Card>, b: seq<Card>)
    requires multiset(a) == multiset(b)
    ensures Hard(a) == Hard(b) && Aces(a) == Aces(b)
    decreases |a|
  {
    assert |a| == |multiset(a)| == |multiset(b)| == |b|;
    if a != [] {
      var rest, c := a[..|a| - 1], a[|a| - 1];
      assert a == rest + [c];
      var front, back := PickOut(b, c);
      HardIgnoresOrder(rest, front + back);
      Push(rest, c);
      Insert(front, c, back);
    }
  }

  /** Smart scoring depends only on which cards are held. */
  lemma PointsIgnoreOrder(a: seq<Card>, b: seq<Card>)
    requires multiset(a) == multiset(b)
    ensures Points(a) == Points(b)
  {
    HardIgnoresOrder(a, b);
  }

  /** A busted hand stays busted whatever cards are added, although the smart total itself
      can fall when a card is added to a hand that is not. */
  lemma BustedForGood(cards: seq<Card>, more: seq<Card>)
    requires IsBusted(Points(cards))
    ensures IsBusted(Points(cards + more)) && Points(cards + more) >= Points(cards)
  {
    Concat(cards, more);
  }

  lemma SmartTotalCanFall() returns (cards: seq<Card>, c: Card)
    ensures Points(cards + [c]) < Points(cards) < BLACKJACK_POINTS
  {
    var one := [] + [Card(Spades, Ace)];
    cards, c := one + [Card(Spades, Five)], Card(Hearts, Six);
    Push([], Card(Spades, Ace));
    Push(one, Card(Spades, Five));
    Push(cards, c);
  }

  // ---- The weight of whole decks ----

  /** The first n cards of a suit in rank order. */
  function SuitRun(s: Suit, n: nat): (run: seq<Card>)
    requires n <= NB_OF_RANKS
    ensures |run| == n && forall i: nat :: i < n ==> run[i] == Card(s, RankOf(i))
  {
    if n == 0 then [] else SuitRun(s, n - 1) + [Card(s, RankOf(n - 1))]
  }

  function RankWeight(i: nat): int {
    if i < 8 then i + 2 else if i < 12 then 10 else 1
  }

  function RunWeight(n: nat): int {
    if n == 0 then 0 else RunWeight(n - 1) + RankWeight(n - 1)
  }

  lemma RankWeighs(s: Suit, i: nat)
    requires i < NB_OF_RANKS
    ensures HardValue(Card(s, RankOf(i))) == RankWeight(i)
  {}

  lemma {:induction false} SuitRunHard(s: Suit, n: nat)
    requires n <= NB_OF_RANKS
    ensures Hard(SuitRun(s, n)) == RunWeight(n)
  {
    if n > 0 {
      SuitRunHard(s, n - 1);
      RankWeighs(s, n - 1);
      Push(SuitRun(s, n - 1), Card(s, RankOf(n - 1)));
    }
  }

  lemma SuitWeighs85(s: Suit)
    ensures IsRun(SuitRun(s, 13), s) && Hard(SuitRun(s, 13)) == 85
  {
    SuitRunHard(s, 13);
    assert RunWeight(4) == 14;
    assert RunWeight(8) == 44;
    assert RunWeight(10) == 64;
    assert RunWeight(12) == 84;
  }

  ghost predicate IsRun(run: seq<Card>, s: Suit) {
    |run| == NB_OF_RANKS && forall i: nat :: i < NB_OF_RANKS ==> run[i] == Card(s, RankOf(i))
  }

  lemma FourRuns(a: seq<Card>, b: seq<Card>, c: seq<Card>, d: seq<Card>)
    requires IsRun(a, Diamonds) && IsRun(b, Spades) && IsRun(c, Clubs) && IsRun(d, Hearts)
    ensures IsDecks(a + b + c + d, 1)
  {
    var deck := a + b + c + d;
    forall i: nat | i < |deck| ensures deck[i] == CardAt(i) {
      assert deck[i] == if i < 13 then a[i] else if i < 26 then b[i - 13] else if i < 39 then c[i - 26] else d[i - 39];
    }
    FreshDeckIsOneDeck(deck);
  }

  lemma FourWeights(a: seq<Card>, b: seq<Card>, c: seq<Card>, d: seq<Card>)
    ensures Hard(a + b + c + d) == Hard(a) + Hard(b) + Hard(c) + Hard(d)
  {
    Concat(a, b);
    Concat(a + b, c);
    Concat(a + b + c, d);
  }

  lemma OneDeck() returns (deck: seq<Card>)
    ensures IsDecks(deck, 1) && Hard(deck) == 340 && |deck| == NB_OF_CARDS
  {
    SuitWeighs85(Diamonds);
    SuitWeighs85(Spades);
    SuitWeighs85(Clubs);
    SuitWeighs85(Hearts);
    deck := FourSuits(SuitRun(Diamonds, 13), SuitRun(Spades, 13), SuitRun(Clubs, 13), SuitRun(Hearts, 13));
  }

  lemma {:induction false} FourSuits(a: seq<Card>, b: seq<Card>, c: seq<Card>, d: seq<Card>) returns (deck: seq<Card>)
    requires IsRun(a, Diamonds) && IsRun(b, Spades) && IsRun(c, Clubs) && IsRun(d, Hearts)
    requires Hard(a) == Hard(b) == Hard(c) == Hard(d) == 85
    ensures IsDecks(deck, 1) && Hard(deck) == 340 && |deck| == NB_OF_CARDS
  {
    deck := a + b + c + d;
    FourRuns(a, b, c, d);
    FourWeights(a, b, c, d);
  }

  lemma {:induction false} SomeDecks(n: nat) returns (cards: seq<Card>)
    ensures IsDecks(cards, n) && Hard(cards) == 340 * n && |cards| == NB_OF_CARDS * n
  {
    if n == 0 {
      cards := [];
    } else {
      var rest := SomeDecks(n - 1);
      var deck := OneDeck();
      cards := rest + deck;
      DecksAdd(rest, deck, n - 1, 1);
      Concat(rest, deck);
    }
  }

  lemma SameMultiset(a: seq<Card>, b: seq<Card>, n: nat)
    requires IsDecks(a, n) && IsDecks(b, n)
    ensures multiset(a) == multiset(b) && |a| == |b|
  {
    assert forall c: Card :: multiset(a)[c] == multiset(b)[c];
    assert multiset(a) == multiset(b);
    assert |a| == |multiset(a)| == |multiset(b)| == |b|;
  }

  /** Whatever the shuffle, n decks weigh 340 n with every ace as 1, and have 52 n cards. */
  lemma WeightOfDecks(cards: seq<Card>, n: nat)
    requires IsDecks(cards, n)
    ensures Hard(cards) == 340 * n && |cards| == NB_OF_CARDS * n
  {
    var decks := SomeDecks(n);
    SameMultiset(cards, decks, n);
    HardIgnoresOrder(cards, decks);
  }
}
