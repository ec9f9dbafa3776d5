/** 54 players is exact: with more, some run asks an empty shoe for a card. */
module Exhaustion {
  import opened Cards
  import opened PointsTools
  import opened Rules
  import opened GameTable
  import opened Invariant
  import opened Conservation
  import opened Reaching

  // ---- Plans: who is to get which cards ----

  /** A hand that hits can build: it does not bust before its last card. */
  ghost predicate Playable(hand: seq<Card>) {
    |hand| >= 2 && forall j :: 2 <= j < |hand| ==> Hard(hand[..j]) <= BLACKJACK_POINTS
  }

  ghost predicate AllPlayable(hands: seq<seq<Card>>) {
    forall k :: 0 <= k < |hands| ==> Playable(hands[k])
  }

  ghost predicate AllLong(hands: seq<seq<Card>>) {
    forall k :: 0 <= k < |hands| ==> |hands[k]| >= 2
  }

  /** Copies of a card in the hands from k on. */
  ghost function AllFrom(hands: seq<seq<Card>>, k: nat, c: Card): nat
    requires k <= |hands|
    decreases |hands| - k
  {
    if k == |hands| then 0 else multiset(hands[k])[c] + AllFrom(hands, k + 1, c)
  }

  /** Hands that use up five decks together with the dealer's two cards, one of them still sitting. */
  ghost predicate Plan(hands: seq<seq<Card>>, dealer: seq<Card>) {
    && |dealer| == 2 && AllPlayable(hands)
    && (exists k :: 0 <= k < |hands| && Hard(hands[k]) <= BLACKJACK_POINTS)
    && forall c: Card :: multiset(dealer)[c] + AllFrom(hands, 0, c) == SHOE_SIZE
  }

  // ---- The shoe that makes a plan come true ----

  /** The cards of the hits to come: hand k has j cards, the later hands have two. */
  ghost function HitShoe(hands: seq<seq<Card>>, k: nat, j: nat): seq<Card>
    requires k <= |hands| && AllLong(hands) && 2 <= j && (k < |hands| ==> j <= |hands[k]|)
    decreases |hands| - k, if k < |hands| then |hands[k]| - j else 0
  {
    if k == |hands| then []
    else if j == |hands[k]| then HitShoe(hands, k + 1, 2)
    else HitShoe(hands, k, j + 1) + [hands[k][j]]
  }

  /** The shoe when hands 0 to k - 1 have their first two cards. */
  ghost function FirstShoe(hands: seq<seq<Card>>, k: nat): seq<Card>
    requires k <= |hands| && AllLong(hands)
    decreases |hands| - k
  {
    if k == |hands| then HitShoe(hands, 0, 2)
    else FirstShoe(hands, k + 1) + [hands[k][1], hands[k][0]]
  }

  /** Copies of a card among those the hands from k on get after their first two. */
  ghost function RestFrom(hands: seq<seq<Card>>, k: nat, c: Card): nat
    requires k <= |hands| && AllLong(hands)
    decreases |hands| - k
  {
    if k == |hands| then 0 else multiset(hands[k][2..])[c] + RestFrom(hands, k + 1, c)
  }

  function Is(x: Card, c: Card): nat {
    if x == c then 1 else 0
  }

  /** Copies of a card in a sequence, counted from the back. */
  ghost function Tally(cards: seq<Card>, c: Card): nat {
    if cards == [] then 0 else Tally(cards[..|cards| - 1], c) + Is(cards[|cards| - 1], c)
  }

  lemma TallyPush(cards: seq<Card>, x: Card, c: Card)
    ensures Tally(cards + [x], c) == Tally(cards, c) + Is(x, c)
  {
    assert (cards + [x])[..|cards|] == cards;
  }

  lemma TallyPushTwo(cards: seq<Card>, x: Card, y: Card, c: Card)
    ensures Tally(cards + [y, x], c) == Tally(cards, c) + Is(x, c) + Is(y, c)
  {
    assert cards + [y, x] == cards + [y] + [x];
    TallyPush(cards, y, c);
    TallyPush(cards + [y], x, c);
  }

  lemma {:induction false} TallyCounts(cards: seq<Card>, c: Card)
    ensures Tally(cards, c) == multiset(cards)[c]
  {
    if cards != [] {
      var n := |cards| - 1;
      TallyCounts(cards[..n], c);
      assert cards == cards[..n] + [cards[n]];
      CountPush(cards[..n], cards[n], c);
    }
  }

  lemma CountPush(cards: seq<Card>, x: Card, c: Card)
    ensures multiset(cards + [x])[c] == multiset(cards)[c] + Is(x, c)
  {}

  lemma CountTail(hand: seq<Card>, j: nat, c: Card)
    requires j < |hand|
    ensures multiset(hand[j..])[c] == multiset(hand[j + 1..])[c] + Is(hand[j], c)
  {
    assert hand[j..] == [hand[j]] + hand[j + 1..];
  }

  lemma {:induction false} HitShoeHolds(hands: seq<seq<Card>>, k: nat, j: nat, c: Card)
    requires k < |hands| && AllLong(hands) && 2 <= j <= |hands[k]|
    ensures Tally(HitShoe(hands, k, j), c) == multiset(hands[k][j..])[c] + RestFrom(hands, k + 1, c)
    decreases |hands| - k, |hands[k]| - j
  {
    if j == |hands[k]| {
      assert hands[k][j..] == [];
      assert HitShoe(hands, k, j) == HitShoe(hands, k + 1, 2);
      if k + 1 < |hands| {
        HitShoeHolds(hands, k + 1, 2, c);
      }
    } else {
      var shoe := HitShoe(hands, k, j + 1);
      assert HitShoe(hands, k, j) == shoe + [hands[k][j]];
      HitShoeHolds(hands, k, j + 1, c);
      TallyPush(shoe, hands[k][j], c);
      CountTail(hands[k], j, c);
    }
  }

  lemma HandSplits(hand: seq<Card>, c: Card)
    requires |hand| >= 2
    ensures Is(hand[0], c) + Is(hand[1], c) + multiset(hand[2..])[c] == multiset(hand)[c]
  {
    CountTail(hand, 0, c);
    CountTail(hand, 1, c);
    assert hand[0..] == hand;
  }

  lemma WholeHitShoe(hands: seq<seq<Card>>, c: Card)
    requires AllLong(hands)
    ensures Tally(HitShoe(hands, 0, 2), c) == RestFrom(hands, 0, c)
  {
    if hands != [] {
      HitShoeHolds(hands, 0, 2, c);
    }
  }

  /** Copies of a card in the shoe when the hands before k have their first two. */
  ghost function FirstFrom(hands: seq<seq<Card>>, k: nat, c: Card): nat
    requires k <= |hands| && AllLong(hands)
    decreases |hands| - k
  {
    if k == |hands| then RestFrom(hands, 0, c) else FirstFrom(hands, k + 1, c) + Is(hands[k][0], c) + Is(hands[k][1], c)
  }

  lemma {:induction false} FirstShoeHolds(hands: seq<seq<Card>>, k: nat, c: Card)
    requires k <= |hands| && AllLong(hands)
    ensures Tally(FirstShoe(hands, k), c) == FirstFrom(hands, k, c)
    decreases |hands| - k
  {
    if k == |hands| {
      WholeHitShoe(hands, c);
    } else {
      FirstShoeHolds(hands, k + 1, c);
      TallyPushTwo(FirstShoe(hands, k + 1), hands[k][0], hands[k][1], c);
    }
  }

  lemma {:induction false} FirstAndRest(hands: seq<seq<Card>>, k: nat, c: Card)
    requires k <= |hands| && AllLong(hands)
    ensures FirstFrom(hands, k, c) + RestFrom(hands, k, c) == AllFrom(hands, k, c) + RestFrom(hands, 0, c)
    decreases |hands| - k
  {
    if k < |hands| {
      FirstAndRest(hands, k + 1, c);
      HandSplits(hands[k], c);
    }
  }

  ghost function PlanShoe(hands: seq<seq<Card>>, dealer: seq<Card>): seq<Card>
    requires Plan(hands, dealer)
  {
    FirstShoe(hands, 0) + [dealer[1], dealer[0]]
  }

  lemma PlanShoeIsFiveDecks(hands: seq<seq<Card>>, dealer: seq<Card>)
    requires Plan(hands, dealer)
    ensures IsDecks(PlanShoe(hands, dealer), SHOE_SIZE)
  {
    forall c: Card ensures multiset(PlanShoe(hands, dealer))[c] == SHOE_SIZE {
      FirstShoeHolds(hands, 0, c);
      FirstAndRest(hands, 0, c);
      TallyPushTwo(FirstShoe(hands, 0), dealer[0], dealer[1], c);
      TallyCounts(PlanShoe(hands, dealer), c);
      HandSplits(dealer, c);
      assert dealer[2..] == [];
    }
  }

  // ---- Reaching a table whose shoe is empty ----

  ghost predicate FirstTwoDealt(seats: map<int, Seat>, hands: seq<seq<Card>>, k: nat) {
    && KeysAre(seats.Keys, |hands|) && k <= |hands| && AllLong(hands)
    && forall p :: p in seats ==> seats[p] == Seat(if p < k then hands[p][..2] else [], 1.0, Sitting)
  }

  lemma {:induction false} FirstDeal(hands: seq<seq<Card>>, seats: map<int, Seat>, k: nat) returns (dealt: map<int, Seat>)
    requires FirstTwoDealt(seats, hands, 0) && k <= |hands|
    ensures DealPlayers(seats, Upto(k), FirstShoe(hands, 0)) == Some((dealt, FirstShoe(hands, k)))
    ensures FirstTwoDealt(dealt, hands, k)
  {
    if k == 0 {
      dealt := seats;
    } else {
      var before := FirstDeal(hands, seats, k - 1);
      var shoe := FirstShoe(hands, k - 1);
      TwoFromTheBack(FirstShoe(hands, k), hands[k - 1]);
      DealNext(seats, Upto(k - 1), k - 1, FirstShoe(hands, 0), before, shoe);
      dealt := before[k - 1 := before[k - 1].(cards := before[k - 1].cards + LastTwo(shoe))];
      OneMoreHasTwo(before, hands, k - 1);
    }
  }

  lemma OneMoreHasTwo(before: map<int, Seat>, hands: seq<seq<Card>>, k: nat)
    requires k < |hands| && FirstTwoDealt(before, hands, k)
    ensures FirstTwoDealt(before[k := before[k].(cards := before[k].cards + hands[k][..2])], hands, k + 1)
  {
    assert before[k] == Seat([], 1.0, Sitting);
    assert [] + hands[k][..2] == hands[k][..2];
  }

  lemma TwoFromTheBack(shoe: seq<Card>, hand: seq<Card>)
    requires |hand| >= 2
    ensures var s := shoe + [hand[1], hand[0]]; LastTwo(s) == hand[..2] && s[..|s| - 2] == shoe
  {}

  /** Hands before k are complete, the others have two cards, and player w sits and will stay so. */
  ghost predicate AreHitting(t: Table, hands: seq<seq<Card>>, k: nat, w: int) {
    && k <= |hands| && AllPlayable(hands) && 0 <= w < |hands| && Hard(hands[w]) <= BLACKJACK_POINTS
    && t.phase == HitStand && KeysAre(t.users.Keys, |hands|) && t.seats.Keys == t.users.Keys
    && t.shoe == Some(HitShoe(hands, k, 2))
    && (forall p :: p in t.seats && p >= k ==> t.seats[p] == Seat(hands[p][..2], 1.0, Sitting))
    && t.seats[w].state == Sitting
  }

  lemma BettingIsDealable(b: Table, hands: seq<seq<Card>>)
    requires AllLong(hands) && AreBetting(b, |hands|, |hands|)
    ensures FirstTwoDealt(b.seats, hands, 0) && AllBetsPlaced(b.seats)
  {
    assert forall p :: p in b.seats ==> p < |hands|;
  }

  lemma DealtIsHitting(t: Table, hands: seq<seq<Card>>, w: int)
    requires AllPlayable(hands) && FirstTwoDealt(t.seats, hands, |hands|) && KeysAre(t.users.Keys, |hands|)
    requires t.phase == HitStand && t.shoe == Some(HitShoe(hands, 0, 2))
    requires 0 <= w < |hands| && Hard(hands[w]) <= BLACKJACK_POINTS
    ensures AreHitting(t, hands, 0, w) && !AllHandsStanding(t.seats)
  {
    forall p | p in t.seats ensures t.seats[p] == Seat(hands[p][..2], 1.0, Sitting) {
      assert p < |hands|;
    }
    assert w in t.seats && t.seats[w].state != Standing;
    forall k ensures k in t.seats.Keys <==> k in t.users.Keys {}
  }

  lemma PlanIsAChance(t: Table, s: int, hands: seq<seq<Card>>, dealer: seq<Card>)
    requires Plan(hands, dealer) && KeysAre(t.seats.Keys, |hands|)
    ensures ValidChance(t, Bet(s, ONE), Chance(PlanShoe(hands, dealer), Upto(|hands|)))
    ensures var shoe := PlanShoe(hands, dealer); |shoe| >= 2 && shoe[..|shoe| - 2] == FirstShoe(hands, 0)
  {
    PlanShoeIsFiveDecks(hands, dealer);
    TwoFromTheBack(FirstShoe(hands, 0), dealer);
  }

  lemma PlanBegins(R: Table -> bool, hands: seq<seq<Card>>, dealer: seq<Card>, w: int) returns (t: Table)
    requires Closed(R) && Plan(hands, dealer) && 0 <= w < |hands| && Hard(hands[w]) <= BLACKJACK_POINTS
    ensures R(t) && AreHitting(t, hands, 0, w)
  {
    var n := |hands|;
    var before := AllButOneBet(R, n, n - 1);
    OneBets(before, n, n - 1);
    PlanIsAChance(before, n - 1, hands, dealer);
    t := PlanDeals(R, before, hands, w, Chance(PlanShoe(hands, dealer), Upto(n)));
  }

  lemma PlanDeals(R: Table -> bool, before: Table, hands: seq<seq<Card>>, w: int, ch: Chance) returns (t: Table)
    requires Closed(R) && R(before) && AllPlayable(hands) && 0 <= w < |hands| && Hard(hands[w]) <= BLACKJACK_POINTS
    requires var s := |hands| - 1;
      && BasicRequestValidation(before, Betting, s).None? && BetError(before.users[s], before.seats[s], ONE).None?
      && ValidChance(before, Bet(s, ONE), ch) && AreBetting(AcceptBet(before, s, ONE), |hands|, |hands|)
    requires |ch.shoe| >= 2 && ch.shoe[..|ch.shoe| - 2] == FirstShoe(hands, 0) && ch.order == Upto(|hands|)
    ensures R(t) && AreHitting(t, hands, 0, w)
  {
    var b := AcceptBet(before, |hands| - 1, ONE);
    BettingIsDealable(b, hands);
    var dealt := FirstDeal(hands, b.seats, |hands|);
    t := Dealt(b, dealt, HitShoe(hands, 0, 2), LastTwo(ch.shoe));
    DealtIsHitting(t, hands, w);
    NextLastBet(R, before, |hands| - 1, ch, dealt, HitShoe(hands, 0, 2));
  }

  lemma PrefixWeighsLess(hand: seq<Card>, j: nat)
    requires j <= |hand|
    ensures Hard(hand[..j]) <= Hard(hand)
  {
    assert hand == hand[..j] + hand[j..];
    Concat(hand[..j], hand[j..]);
  }

  lemma HitGrows(hand: seq<Card>, j: nat)
    requires Playable(hand) && 2 <= j < |hand|
    ensures var after := AfterHit(Seat(hand[..j], 1.0, Sitting), hand[j]);
      && after.cards == hand[..j + 1] && after.bet == 1.0
      && (after.state == Sitting <==> Hard(hand[..j + 1]) <= BLACKJACK_POINTS)
  {
    assert hand[..j] + [hand[j]] == hand[..j + 1];
    BustedMeansEveryChoiceBusts(hand[..j + 1]);
  }

  /** Player k has j cards and hits for the rest. */
  lemma {:induction false} PlayerHits(R: Table -> bool, t: Table, hands: seq<seq<Card>>, k: nat, j: nat, w: int) returns (after: Table)
    requires Closed(R) && R(t) && IsHitting(t, hands, k, j, w)
    ensures R(after) && AreHitting(after, hands, k + 1, w)
    decreases |hands[k]| - j
  {
    if j == |hands[k]| {
      after := t;
    } else {
      var next := OneHit(R, t, hands, k, j, w);
      after := PlayerHits(R, next, hands, k, j + 1, w);
    }
  }

  /** Player k has j cards and the rest of the plan is still to come. */
  ghost predicate IsHitting(t: Table, hands: seq<seq<Card>>, k: nat, j: nat, w: int) {
    && k < |hands| && AllPlayable(hands) && 2 <= j <= |hands[k]|
    && AreHitting(t.(shoe := Some(HitShoe(hands, k + 1, 2))), hands, k + 1, w)
    && t.shoe == Some(HitShoe(hands, k, j)) && t.seats[k].cards == hands[k][..j] && t.seats[k].bet == 1.0
    && (t.seats[k].state == Sitting <==> Hard(hands[k][..j]) <= BLACKJACK_POINTS)
  }

  lemma OneHit(R: Table -> bool, t: Table, hands: seq<seq<Card>>, k: nat, j: nat, w: int) returns (after: Table)
    requires Closed(R) && R(t) && IsHitting(t, hands, k, j, w) && j < |hands[k]|
    ensures R(after) && IsHitting(after, hands, k, j + 1, w)
  {
    var rest, card := HitShoe(hands, k, j + 1), hands[k][j];
    PrefixWeighsLess(hands[k], j + 1);
    PrefixWeighsLess(hands[k][..j + 1], j);
    assert hands[k][..j + 1][..j] == hands[k][..j];
    assert t.seats[k] == Seat(hands[k][..j], 1.0, Sitting);
    HitGrows(hands[k], j);
    var hit := AfterHit(t.seats[k], card);
    SameButOne(t, hands, k, j, w, hit, rest);
    NextHit(R, t, k, rest, card);
    after := t.(seats := t.seats[k := hit], shoe := Some(rest));
  }

  lemma SameButOne(t: Table, hands: seq<seq<Card>>, k: nat, j: nat, w: int, hit: Seat, rest: seq<Card>)
    requires IsHitting(t, hands, k, j, w) && j < |hands[k]| && rest == HitShoe(hands, k, j + 1)
    requires hit.cards == hands[k][..j + 1] && hit.bet == 1.0
    requires hit.state == Sitting <==> Hard(hands[k][..j + 1]) <= BLACKJACK_POINTS
    ensures IsHitting(t.(seats := t.seats[k := hit], shoe := Some(rest)), hands, k, j + 1, w)
    ensures !AllHandsStanding(t.seats[k := hit])
  {
    PrefixWeighsLess(hands[k], j + 1);
    var later := t.(shoe := Some(HitShoe(hands, k + 1, 2)));
    OthersStillWait(later, hands, k, w, hit);
    assert later.(seats := t.seats[k := hit]) == t.(seats := t.seats[k := hit], shoe := later.shoe);
  }

  lemma OthersStillWait(t: Table, hands: seq<seq<Card>>, k: nat, w: int, hit: Seat)
    requires k < |hands| && AreHitting(t, hands, k + 1, w) && (k == w ==> hit.state == Sitting)
    ensures AreHitting(t.(seats := t.seats[k := hit]), hands, k + 1, w)
    ensures !AllHandsStanding(t.seats[k := hit])
  {
    assert k in t.users.Keys;
    assert t.seats[k := hit].Keys == t.seats.Keys;
    assert w in t.seats && t.seats[k := hit][w].state == Sitting;
  }

  lemma {:induction false} AllHit(R: Table -> bool, hands: seq<seq<Card>>, dealer: seq<Card>, k: nat, w: int) returns (t: Table)
    requires Closed(R) && Plan(hands, dealer) && 0 <= w < |hands| && Hard(hands[w]) <= BLACKJACK_POINTS && k <= |hands|
    ensures R(t) && AreHitting(t, hands, k, w)
  {
    if k == 0 {
      t := PlanBegins(R, hands, dealer, w);
    } else {
      var before := AllHit(R, hands, dealer, k - 1, w);
      NextInLine(before, hands, k - 1, w);
      t := PlayerHits(R, before, hands, k - 1, 2, w);
    }
  }

  lemma NextInLine(t: Table, hands: seq<seq<Card>>, k: nat, w: int)
    requires k < |hands| && AreHitting(t, hands, k, w)
    ensures IsHitting(t, hands, k, 2, w)
  {
    assert k in t.users.Keys;
    assert t.seats[k] == Seat(hands[k][..2], 1.0, Sitting);
    TwoCardsAreLight(hands[k][..2]);
  }

  lemma TwoCardsAreLight(cards: seq<Card>)
    requires |cards| == 2
    ensures Hard(cards) <= BLACKJACK_POINTS
  {}

  ghost predicate Asks(inputs: seq<Input>, i: Input, n: nat) {
    Play(EMPTY_TABLE, inputs).Some? && Legal(Play(EMPTY_TABLE, inputs).value, i) && |Play(EMPTY_TABLE, inputs).value.seats| == n
  }

  /** In a run that follows a plan to its end, a hit finds the shoe empty. */
  lemma {:induction false} PlanExhausts(hands: seq<seq<Card>>, dealer: seq<Card>) returns (inputs: seq<Input>, i: Input)
    requires Plan(hands, dealer)
    ensures Asks(inputs, i, |hands|) && Play(EMPTY_TABLE, inputs + [i]).None?
  {
    var w :| 0 <= w < |hands| && Hard(hands[w]) <= BLACKJACK_POINTS;
    ReachableIsClosed();
    var t := AllHit(t => Reachable(t), hands, dealer, |hands|, w);
    inputs, i := NothingLeft(t, hands, w);
  }

  lemma NothingLeft(t: Table, hands: seq<seq<Card>>, w: int) returns (inputs: seq<Input>, i: Input)
    requires Reachable(t) && AreHitting(t, hands, |hands|, w)
    ensures Asks(inputs, i, |hands|) && Play(EMPTY_TABLE, inputs + [i]).None?
  {
    SeatCount(t.seats, |hands|);
    inputs :| Play(EMPTY_TABLE, inputs) == Some(t);
    i := HitFindsNothing(t, w);
    Stops(inputs, t, i);
  }

  lemma SeatCount(seats: map<int, Seat>, n: nat)
    requires KeysAre(seats.Keys, n)
    ensures |seats| == n
  {
    OrderLength(Upto(n), seats.Keys);
    assert |seats| == |seats.Keys|;
  }

  lemma HitFindsNothing(t: Table, s: int) returns (i: Input)
    requires t.phase == HitStand && s in t.users && s in t.seats && t.seats[s].state == Sitting && t.shoe == Some([])
    ensures Legal(t, i) && Step(t, i.event, i.chance) == Thrown(NotEnoughCards)
  {
    var ch := SomeChance(t, Hit(s));
    i := Input(Hit(s), ch);
  }

  lemma Stops(inputs: seq<Input>, t: Table, i: Input)
    requires Play(EMPTY_TABLE, inputs) == Some(t) && Legal(t, i) && Step(t, i.event, i.chance).Thrown?
    ensures Play(EMPTY_TABLE, inputs + [i]).None?
  {
    assert (inputs + [i])[..|inputs|] == inputs;
    assert After(t, i).None?;
  }

  // ---- A plan for 55 players ----

  lemma PlayableIf(hand: seq<Card>, last: Card)
    requires |hand| >= 1 && Hard(hand) <= BLACKJACK_POINTS
    ensures Playable(hand + [last])
  {
    forall j | 2 <= j < |hand + [last]| ensures Hard((hand + [last])[..j]) <= BLACKJACK_POINTS {
      assert (hand + [last])[..j] == hand[..j];
      PrefixWeighsLess(hand, j);
    }
  }

  lemma {:induction false} AllFromAppend(hands: seq<seq<Card>>, hand: seq<Card>, k: nat, c: Card)
    requires k <= |hands|
    ensures AllFrom(hands + [hand], k, c) == AllFrom(hands, k, c) + multiset(hand)[c]
    decreases |hands| - k
  {
    if k < |hands| {
      AllFromAppend(hands, hand, k + 1, c);
    } else {
      assert AllFrom(hands + [hand], k + 1, c) == 0;
    }
  }

  lemma {:induction false} Add(hands: seq<seq<Card>>, hand: seq<Card>, times: nat) returns (more: seq<seq<Card>>)
    requires AllPlayable(hands) && Playable(hand)
    ensures AllPlayable(more) && |more| == |hands| + times
    ensures forall c: Card :: AllFrom(more, 0, c) == AllFrom(hands, 0, c) + times * multiset(hand)[c]
    ensures times > 0 ==> more[|more| - 1] == hand
  {
    more := hands;
    if times > 0 {
      var fewer := Add(hands, hand, times - 1);
      more := fewer + [hand];
      forall c: Card ensures AllFrom(more, 0, c) == AllFrom(hands, 0, c) + times * multiset(hand)[c] {
        AllFromAppend(fewer, hand, 0, c);
        var m := multiset(hand)[c];
        assert (times - 1) * m + m == times * m;
      }
    }
  }

  lemma CountConcat(a: seq<Card>, b: seq<Card>, c: Card)
    ensures multiset(a + b)[c] == multiset(a)[c] + multiset(b)[c]
  {}

  lemma OneCounts(x: Card, c: Card)
    ensures multiset([x])[c] == Is(x, c)
  {}

  lemma TwoCounts(x: Card, y: Card, c: Card)
    ensures multiset([x] + [y])[c] == Is(x, c) + Is(y, c)
  {
    CountConcat([x], [y], c);
    OneCounts(x, c);
    OneCounts(y, c);
  }

  lemma FourCounts(x: Card, y: Card, z: Card, w: Card, c: Card)
    ensures multiset([x] + [y] + [z] + [w])[c] == Is(x, c) + Is(y, c) + Is(z, c) + Is(w, c)
  {
    TwoCounts(x, y, c);
    CountConcat([x] + [y], [z], c);
    CountConcat([x] + [y] + [z], [w], c);
    OneCounts(z, c);
    OneCounts(w, c);
  }

  lemma HardThree(x: Card, y: Card, z: Card)
    ensures Hard([x] + [y] + [z]) == HardValue(x) + HardValue(y) + HardValue(z)
  {
    TwoCards(x, y);
    Push([x] + [y], z);
  }

  /** A hand of three cards within 21, and one more. */
  lemma FourHand(x: Card, y: Card, z: Card, last: Card) returns (hand: seq<Card>)
    requires HardValue(x) + HardValue(y) + HardValue(z) <= BLACKJACK_POINTS
    ensures Playable(hand)
    ensures forall c: Card :: multiset(hand)[c] == Is(x, c) + Is(y, c) + Is(z, c) + Is(last, c)
  {
    hand := [x] + [y] + [z] + [last];
    HardThree(x, y, z);
    PlayableIf([x] + [y] + [z], last);
    forall c: Card ensures multiset(hand)[c] == Is(x, c) + Is(y, c) + Is(z, c) + Is(last, c) {
      FourCounts(x, y, z, last, c);
    }
  }

  lemma FiveHand(x: Card, y: Card, z: Card, w: Card, last: Card) returns (hand: seq<Card>)
    requires HardValue(x) + HardValue(y) + HardValue(z) + HardValue(w) <= BLACKJACK_POINTS
    ensures Playable(hand)
    ensures forall c: Card :: multiset(hand)[c] == Is(x, c) + Is(y, c) + Is(z, c) + Is(w, c) + Is(last, c)
  {
    var four := [x] + [y] + [z] + [w];
    hand := four + [last];
    HardThree(x, y, z);
    Push([x] + [y] + [z], w);
    PlayableIf(four, last);
    forall c: Card ensures multiset(hand)[c] == Is(x, c) + Is(y, c) + Is(z, c) + Is(w, c) + Is(last, c) {
      FourCounts(x, y, z, w, c);
      CountConcat(four, [last], c);
      OneCounts(last, c);
    }
  }

  lemma EightHand(q: Card, two: Card, a: Card, last: Card) returns (hand: seq<Card>)
    requires HardValue(q) + 5 * HardValue(two) + HardValue(a) <= BLACKJACK_POINTS
    ensures Playable(hand)
    ensures forall c: Card :: multiset(hand)[c] == Is(q, c) + 5 * Is(two, c) + Is(a, c) + Is(last, c)
  {
    var front, back := [q] + [two] + [two], [two] + [two] + [two] + [a];
    hand := front + back + [last];
    HardThree(q, two, two);
    HardThree(two, two, two);
    Push([two] + [two] + [two], a);
    Concat(front, back);
    PlayableIf(front + back, last);
    forall c: Card ensures multiset(hand)[c] == Is(q, c) + 5 * Is(two, c) + Is(a, c) + Is(last, c) {
      TwoCounts(q, two, c);
      OneCounts(two, c);
      CountConcat([q] + [two], [two], c);
      FourCounts(two, two, two, a, c);
      OneCounts(last, c);
      ThreePieces(front, back, [last], c);
    }
  }

  lemma ThreePieces(a: seq<Card>, b: seq<Card>, d: seq<Card>, c: Card)
    ensures multiset(a + b + d)[c] == multiset(a)[c] + multiset(b)[c] + multiset(d)[c]
  {
    CountConcat(a, b, c);
    CountConcat(a + b, d, c);
  }

  function SuitUse(s: Suit, c: Card): int {
    if c.suit != s then 0 else if c.rank == King || c.rank == Ace then 3 else 5
  }

  /** 13 hands that use five of every card of a suit but two kings and two aces. */
  lemma AddSuit(hands: seq<seq<Card>>, s: Suit) returns (more: seq<seq<Card>>)
    requires AllPlayable(hands)
    ensures AllPlayable(more) && |more| == |hands| + 13
    ensures forall c: Card :: AllFrom(more, 0, c) == AllFrom(hands, 0, c) + SuitUse(s, c)
  {
    var a := FourHand(Card(s, Nine), Card(s, Eight), Card(s, Four), Card(s, Ten));
    var b := FiveHand(Card(s, Seven), Card(s, Six), Card(s, Five), Card(s, Three), Card(s, Jack));
    var q := EightHand(Card(s, Queen), Card(s, Two), Card(s, Ace), Card(s, King));
    var t := FourHand(Card(s, Queen), Card(s, Queen), Card(s, Ace), Card(s, King));
    more := AddFour(hands, a, b, q, t);
    forall c: Card ensures AllFrom(more, 0, c) == AllFrom(hands, 0, c) + SuitUse(s, c) {
      SuitSum(s, c);
    }
  }

  lemma SuitSum(s: Suit, c: Card)
    ensures SuitUse(s, c)
      == 5 * (Is(Card(s, Nine), c) + Is(Card(s, Eight), c) + Is(Card(s, Four), c) + Is(Card(s, Ten), c))
      + 5 * (Is(Card(s, Seven), c) + Is(Card(s, Six), c) + Is(Card(s, Five), c) + Is(Card(s, Three), c) + Is(Card(s, Jack), c))
      + (Is(Card(s, Queen), c) + 5 * Is(Card(s, Two), c) + Is(Card(s, Ace), c) + Is(Card(s, King), c))
      + 2 * (Is(Card(s, Queen), c) + Is(Card(s, Queen), c) + Is(Card(s, Ace), c) + Is(Card(s, King), c))
  {
    if c.suit == s {
      assert c == Card(s, c.rank);
    }
  }

  lemma AddFour(hands: seq<seq<Card>>, a: seq<Card>, b: seq<Card>, q: seq<Card>, t: seq<Card>) returns (more: seq<seq<Card>>)
    requires AllPlayable(hands) && Playable(a) && Playable(b) && Playable(q) && Playable(t)
    ensures AllPlayable(more) && |more| == |hands| + 13
    ensures forall c: Card :: AllFrom(more, 0, c) == AllFrom(hands, 0, c)
                              + 5 * multiset(a)[c] + 5 * multiset(b)[c] + multiset(q)[c] + 2 * multiset(t)[c]
  {
    var one := Add(hands, a, 5);
    var two := Add(one, b, 5);
    var three := Add(two, q, 1);
    more := Add(three, t, 2);
  }

  /** 55 hands: thirteen of each suit, two of three kings and an ace, and the one that still sits. */
  lemma FiftyFivePlan() returns (hands: seq<seq<Card>>, dealer: seq<Card>)
    ensures Plan(hands, dealer) && |hands| == SAFE_PLAYERS + 1
  {
    var d := AddSuit([], Diamonds);
    var ds := AddSuit(d, Spades);
    var dsc := AddSuit(ds, Clubs);
    var all := AddSuit(dsc, Hearts);
    hands, dealer := AddLast(all);
  }

  lemma LightIsPlayable(hand: seq<Card>)
    requires |hand| >= 2 && Hard(hand) <= BLACKJACK_POINTS
    ensures Playable(hand)
  {
    forall j | 2 <= j < |hand| ensures Hard(hand[..j]) <= BLACKJACK_POINTS {
      PrefixWeighsLess(hand, j);
    }
  }

  lemma SixAces(x: Card, y: Card, z: Card) returns (aces: seq<Card>)
    requires x.rank == y.rank == z.rank == Ace
    ensures Playable(aces) && Hard(aces) <= BLACKJACK_POINTS
    ensures forall c: Card :: multiset(aces)[c] == 2 * Is(x, c) + 2 * Is(y, c) + 2 * Is(z, c)
  {
    var a := AcePair(x);
    var b := AcePair(y);
    var d := AcePair(z);
    aces := a + b + d;
    Concat(a, b);
    Concat(a + b, d);
    LightIsPlayable(aces);
    forall c: Card ensures multiset(aces)[c] == 2 * Is(x, c) + 2 * Is(y, c) + 2 * Is(z, c) {
      ThreePieces(a, b, d, c);
    }
  }

  lemma AcePair(x: Card) returns (pair: seq<Card>)
    requires x.rank == Ace
    ensures |pair| == 2 && Hard(pair) == 2 && forall c: Card :: multiset(pair)[c] == 2 * Is(x, c)
  {
    pair := Pair(x);
    TwoCards(x, x);
  }

  lemma LastHands() returns (a: seq<Card>, b: seq<Card>, aces: seq<Card>, dealer: seq<Card>)
    ensures Playable(a) && Playable(b) && Playable(aces) && Hard(aces) <= BLACKJACK_POINTS && |dealer| == 2
    ensures forall c: Card :: LastUse(c) == multiset(a)[c] + multiset(b)[c] + multiset(aces)[c] + multiset(dealer)[c]
  {
    var kd, ks, kc, ad := Card(Diamonds, King), Card(Spades, King), Card(Clubs, King), Card(Diamonds, Ace);
    a := FourHand(kd, kd, ad, ks);
    b := FourHand(ks, kc, ad, kc);
    aces := SixAces(Card(Spades, Ace), Card(Clubs, Ace), Card(Hearts, Ace));
    dealer := Pair(Card(Hearts, King));
    forall c: Card ensures LastUse(c) == multiset(a)[c] + multiset(b)[c] + multiset(aces)[c] + multiset(dealer)[c] {
      LastSum(c);
    }
  }

  lemma AddLast(all: seq<seq<Card>>) returns (hands: seq<seq<Card>>, dealer: seq<Card>)
    requires AllPlayable(all) && |all| == 52 && forall c: Card :: AllFrom(all, 0, c) == 5 - LastUse(c)
    ensures Plan(hands, dealer) && |hands| == SAFE_PLAYERS + 1
  {
    var a, b, aces;
    a, b, aces, dealer := LastHands();
    hands := AddThree(all, a, b, aces);
    LastPlan(all, a, b, aces, hands, dealer);
  }

  function LastUse(c: Card): int {
    if c.rank == King || c.rank == Ace then 2 else 0
  }

  lemma LastPlan(all: seq<seq<Card>>, a: seq<Card>, b: seq<Card>, aces: seq<Card>, hands: seq<seq<Card>>, dealer: seq<Card>)
    requires |dealer| == 2 && AllPlayable(hands) && exists k :: 0 <= k < |hands| && Hard(hands[k]) <= BLACKJACK_POINTS
    requires forall c: Card :: AllFrom(all, 0, c) == 5 - LastUse(c)
    requires forall c: Card :: AllFrom(hands, 0, c) == AllFrom(all, 0, c) + multiset(a)[c] + multiset(b)[c] + multiset(aces)[c]
    requires forall c: Card :: LastUse(c) == multiset(a)[c] + multiset(b)[c] + multiset(aces)[c] + multiset(dealer)[c]
    ensures Plan(hands, dealer)
  {}

  lemma LastSum(c: Card)
    ensures var kd, ks, kc, ad := Card(Diamonds, King), Card(Spades, King), Card(Clubs, King), Card(Diamonds, Ace);
      LastUse(c) == (Is(kd, c) + Is(kd, c) + Is(ad, c) + Is(ks, c)) + (Is(ks, c) + Is(kc, c) + Is(ad, c) + Is(kc, c))
        + (2 * Is(Card(Spades, Ace), c) + 2 * Is(Card(Clubs, Ace), c) + 2 * Is(Card(Hearts, Ace), c))
        + 2 * Is(Card(Hearts, King), c)
  {
    match c.suit
    case Diamonds => assert c == Card(Diamonds, c.rank);
    case Spades => assert c == Card(Spades, c.rank);
    case Clubs => assert c == Card(Clubs, c.rank);
    case Hearts => assert c == Card(Hearts, c.rank);
  }

  lemma AddThree(all: seq<seq<Card>>, a: seq<Card>, b: seq<Card>, last: seq<Card>) returns (hands: seq<seq<Card>>)
    requires AllPlayable(all) && Playable(a) && Playable(b) && Playable(last) && Hard(last) <= BLACKJACK_POINTS
    ensures AllPlayable(hands) && |hands| == |all| + 3
    ensures exists k :: 0 <= k < |hands| && Hard(hands[k]) <= BLACKJACK_POINTS
    ensures forall c: Card :: AllFrom(hands, 0, c) == AllFrom(all, 0, c) + multiset(a)[c] + multiset(b)[c] + multiset(last)[c]
  {
    var one := Add(all, a, 1);
    var two := Add(one, b, 1);
    hands := Add(two, last, 1);
    assert Hard(hands[|hands| - 1]) <= BLACKJACK_POINTS;
  }

  lemma Pair(x: Card) returns (pair: seq<Card>)
    ensures pair == [x] + [x] && forall c: Card :: multiset(pair)[c] == 2 * Is(x, c)
  {
    pair := [x] + [x];
    forall c: Card ensures multiset(pair)[c] == 2 * Is(x, c) {
      TwoCounts(x, x, c);
    }
  }

  // ---- More players than that ----

  /** How many cards the hands from k on get after their first two. */
  ghost function HitsFrom(hands: seq<seq<Card>>, k: nat): nat
    requires k <= |hands| && AllLong(hands)
    decreases |hands| - k
  {
    if k == |hands| then 0 else |hands[k]| - 2 + HitsFrom(hands, k + 1)
  }

  lemma {:induction false} HitShoeLength(hands: seq<seq<Card>>, k: nat, j: nat)
    requires k < |hands| && AllLong(hands) && 2 <= j <= |hands[k]|
    ensures |HitShoe(hands, k, j)| == |hands[k]| - j + HitsFrom(hands, k + 1)
    decreases |hands| - k, |hands[k]| - j
  {
    if j < |hands[k]| {
      HitShoeLength(hands, k, j + 1);
    } else if k + 1 < |hands| {
      HitShoeLength(hands, k + 1, 2);
    }
  }

  lemma {:induction false} FirstShoeLength(hands: seq<seq<Card>>, k: nat)
    requires k <= |hands| && hands != [] && AllLong(hands)
    ensures |FirstShoe(hands, k)| == 2 * (|hands| - k) + HitsFrom(hands, 0)
    decreases |hands| - k
  {
    if k == |hands| {
      HitShoeLength(hands, 0, 2);
    } else {
      FirstShoeLength(hands, k + 1);
    }
  }

  lemma PlanHitsLeft(hands: seq<seq<Card>>, dealer: seq<Card>)
    requires Plan(hands, dealer)
    ensures HitsFrom(hands, 0) == 258 - 2 * |hands|
  {
    PlanShoeIsFiveDecks(hands, dealer);
    WeightOfDecks(PlanShoe(hands, dealer), SHOE_SIZE);
    FirstShoeLength(hands, 0);
  }

  lemma {:induction false} SomeLongHand(hands: seq<seq<Card>>, k: nat) returns (p: nat)
    requires k <= |hands| && AllLong(hands) && HitsFrom(hands, k) > 0
    ensures p < |hands| && |hands[p]| > 2
    decreases |hands| - k
  {
    if |hands[k]| > 2 {
      p := k;
    } else {
      p := SomeLongHand(hands, k + 1);
    }
  }

  /** The hands without the last card of hand p. */
  function Trim(hands: seq<seq<Card>>, p: nat): seq<seq<Card>>
    requires p < |hands| && |hands[p]| > 2
  {
    hands[p := hands[p][..|hands[p]| - 1]]
  }

  lemma TrimPlayable(hands: seq<seq<Card>>, p: nat)
    requires p < |hands| && |hands[p]| > 2 && AllPlayable(hands)
    ensures AllPlayable(Trim(hands, p))
  {
    var hand := hands[p];
    var trimmed := hand[..|hand| - 1];
    forall j | 2 <= j < |trimmed| ensures Hard(trimmed[..j]) <= BLACKJACK_POINTS {
      assert trimmed[..j] == hand[..j];
    }
  }

  lemma {:induction false} TrimCounts(hands: seq<seq<Card>>, p: nat, k: nat, c: Card)
    requires k <= |hands| && p < |hands| && |hands[p]| > 2 && AllLong(hands) && AllLong(Trim(hands, p))
    ensures AllFrom(hands, k, c) == AllFrom(Trim(hands, p), k, c) + if k <= p then Is(hands[p][|hands[p]| - 1], c) else 0
    ensures HitsFrom(hands, k) == HitsFrom(Trim(hands, p), k) + if k <= p then 1 else 0
    decreases |hands| - k
  {
    if k < |hands| {
      TrimCounts(hands, p, k + 1, c);
      var hand := hands[p];
      var n := |hand| - 1;
      assert hand == hand[..n] + [hand[n]];
      CountPush(hand[..n], hand[n], c);
    }
  }

  lemma TrimOne(hands: seq<seq<Card>>) returns (fewer: seq<seq<Card>>, x: Card)
    requires AllPlayable(hands) && HitsFrom(hands, 0) > 0
    ensures AllPlayable(fewer) && |fewer| == |hands| && HitsFrom(fewer, 0) == HitsFrom(hands, 0) - 1
    ensures forall c: Card :: AllFrom(hands, 0, c) == AllFrom(fewer, 0, c) + Is(x, c)
  {
    var p := SomeLongHand(hands, 0);
    TrimPlayable(hands, p);
    fewer, x := Trim(hands, p), hands[p][|hands[p]| - 1];
    forall c: Card ensures AllFrom(hands, 0, c) == AllFrom(fewer, 0, c) + Is(x, c) {
      TrimCounts(hands, p, 0, c);
    }
    TrimCounts(hands, p, 0, x);
  }

  /** One more player can take the last cards of two hits from the others. */
  lemma OneMorePlayer(hands: seq<seq<Card>>, dealer: seq<Card>) returns (more: seq<seq<Card>>)
    requires Plan(hands, dealer) && |hands| <= 128
    ensures Plan(more, dealer) && |more| == |hands| + 1
  {
    PlanHitsLeft(hands, dealer);
    var fewer, x := TrimOne(hands);
    var fewest, y := TrimOne(fewer);
    var pair := [x] + [y];
    more := fewest + [pair];
    assert Playable(pair);
    forall c: Card ensures multiset(dealer)[c] + AllFrom(more, 0, c) == SHOE_SIZE {
      AllFromAppend(fewest, pair, 0, c);
      TwoCounts(x, y, c);
    }
    TwoCards(x, y);
    assert more[|more| - 1] == pair;
  }

  lemma {:induction false} SomePlan(n: nat) returns (hands: seq<seq<Card>>, dealer: seq<Card>)
    requires SAFE_PLAYERS < n <= 129
    ensures Plan(hands, dealer) && |hands| == n
  {
    if n == SAFE_PLAYERS + 1 {
      hands, dealer := FiftyFivePlan();
    } else {
      var fewer;
      fewer, dealer := SomePlan(n - 1);
      hands := OneMorePlayer(fewer, dealer);
    }
  }

  /** With more than 129 players the first two cards are already too many. */
  lemma TooManyToDeal(n: nat) returns (inputs: seq<Input>, i: Input)
    requires n > 129
    ensures Asks(inputs, i, n) && Play(EMPTY_TABLE, inputs + [i]).None?
  {
    ReachableIsClosed();
    var t := AllButOneBet(t => Reachable(t), n, n - 1);
    inputs, i := DealFails(t, n);
  }

  lemma DealFails(t: Table, n: nat) returns (inputs: seq<Input>, i: Input)
    requires n > 129 && Reachable(t) && AreBetting(t, n, n - 1)
    ensures Asks(inputs, i, n) && Play(EMPTY_TABLE, inputs + [i]).None?
  {
    inputs :| Play(EMPTY_TABLE, inputs) == Some(t);
    OneBets(t, n, n - 1);
    SeatCount(t.seats, n);
    i := LastBetThrows(t, n);
    Stops(inputs, t, i);
  }

  lemma LastBetThrows(t: Table, n: nat) returns (i: Input)
    requires n > 129 && AreBetting(t, n, n - 1)
    ensures Legal(t, i) && Step(t, i.event, i.chance).Thrown?
  {
    var e := Bet(n - 1, ONE);
    var ch := SomeChance(t, e);
    i := Input(e, ch);
    OneBets(t, n, n - 1);
    var b := AcceptBet(t, n - 1, ONE);
    assert AllBetsPlaced(b.seats);
    OrderLength(ch.order, t.seats.Keys);
    SeatCount(t.seats, n);
    WeightOfDecks(ch.shoe, SHOE_SIZE);
    OpeningGivesTwo(b.seats, ch.order, ch.shoe);
  }

  /** The server is safe from an empty shoe exactly up to 54 players: with so many, every event
      in every run is handled, and with any greater number some run ends in the exception. */
  lemma {:induction false} FiftyFourIsExact(n: nat)
    ensures (forall inputs, i :: Asks(inputs, i, n) ==> Play(EMPTY_TABLE, inputs + [i]).Some?) <==> n <= 54
  {
    if n <= SAFE_PLAYERS {
      forall inputs, i | Asks(inputs, i, n) ensures Play(EMPTY_TABLE, inputs + [i]).Some? {
        ShoeNeverRunsOut(inputs, i);
      }
    } else {
      var inputs, i;
      if n <= 129 {
        var hands, dealer := SomePlan(n);
        inputs, i := PlanExhausts(hands, dealer);
      } else {
        inputs, i := TooManyToDeal(n);
      }
      assert Asks(inputs, i, n);
    }
  }
}
