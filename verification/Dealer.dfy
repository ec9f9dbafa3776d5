/** How far the dealer draws (src/BlackjackLogic/DealerLogic.cpp). */
module Dealer {
  import opened Cards
  import opened PointsTools
  import opened GameTable

  /** A hand the dealer would still draw to, among those he can reach: with an ace counted as 1
      because 11 would be too much, at least one card was worth 6 or more, or there are few. */
  ghost predicate Slim(dealer: seq<Card>) {
    Aces(dealer) > 0 && Hard(dealer) >= 12 ==> |dealer| + 5 <= Hard(dealer)
  }

  lemma DrawStaysSlim(dealer: seq<Card>, c: Card)
    requires Slim(dealer) && Points(dealer) < DEALER_POINTS_LIMIT
    ensures Slim(dealer + [c]) && |dealer| <= 11 && Points(dealer + [c]) <= 26
  {
    Push(dealer, c);
    AcesAtMostHard(dealer);
  }

  /** Every hand the dealer passed through on the way still made him draw. */
  ghost predicate DrewUnder17(dealer: seq<Card>, hand: seq<Card>) {
    dealer <= hand && forall n :: |dealer| <= n < |hand| ==> Points(hand[..n]) < 17
  }

  lemma OneMoreDrawn(dealer: seq<Card>, c: Card, hand: seq<Card>)
    requires Points(dealer) < DEALER_POINTS_LIMIT && DrewUnder17(dealer + [c], hand)
    ensures DrewUnder17(dealer, hand)
  {
    assert hand[..|dealer|] == dealer;
  }

  /** The cards `hand` has beyond `dealer` are those missing from `shoe`, in the order in which
      they came off its back. */
  ghost predicate TookFrom(dealer: seq<Card>, shoe: seq<Card>, hand: seq<Card>, rest: seq<Card>) {
    && dealer <= hand && rest <= shoe && |hand| - |dealer| == |shoe| - |rest|
    && forall j :: |dealer| <= j < |hand| ==> hand[j] == shoe[|shoe| - 1 - (j - |dealer|)]
  }

  lemma OneMoreTaken(dealer: seq<Card>, shoe: seq<Card>, c: Card, hand: seq<Card>, rest: seq<Card>)
    requires TookFrom(dealer + [c], shoe, hand, rest)
    ensures TookFrom(dealer, shoe + [c], hand, rest)
  {
    assert hand[|dealer|] == (dealer + [c])[|dealer|];
    assert hand[..|dealer|] == (dealer + [c])[..|dealer|];
  }

  /** A hand the dealer stops with, having begun with `dealer` and drawn from `shoe`. */
  ghost predicate StopsWith(dealer: seq<Card>, shoe: seq<Card>, hand: seq<Card>, rest: seq<Card>) {
    && 17 <= Points(hand) <= 26 && |hand| <= 12
    && DrewUnder17(dealer, hand) && TookFrom(dealer, shoe, hand, rest)
  }

  lemma {:induction false} DrawsFrom(dealer: seq<Card>, shoe: seq<Card>)
    requires Slim(dealer) && |dealer| <= 12 && Points(dealer) <= 26
    ensures DealDealer(dealer, shoe).Some? ==>
      StopsWith(dealer, shoe, DealDealer(dealer, shoe).value.0, DealDealer(dealer, shoe).value.1)
    decreases |shoe|
  {
    if Points(dealer) < DEALER_POINTS_LIMIT && shoe != [] {
      var rest, c := shoe[..|shoe| - 1], shoe[|shoe| - 1];
      DrawStaysSlim(dealer, c);
      DrawsFrom(dealer + [c], rest);
      if DealDealer(dealer, shoe).Some? {
        var (hand, left) := DealDealer(dealer, shoe).value;
        assert shoe == rest + [c];
        OneMoreDrawn(dealer, c, hand);
        OneMoreTaken(dealer, rest, c, hand, left);
      }
    }
  }

  /** From his two cards the dealer stops with 17 to 26 points and at most 12 cards, having been
      under 17 before every card he drew, and the cards he drew are those the shoe lost. */
  lemma DealerStops(dealer: seq<Card>, shoe: seq<Card>)
    requires |dealer| == 2
    ensures DealDealer(dealer, shoe).Some? ==>
      StopsWith(dealer, shoe, DealDealer(dealer, shoe).value.0, DealDealer(dealer, shoe).value.1)
  {
    assert dealer == [dealer[0]] + [dealer[1]];
    Concat([dealer[0]], [dealer[1]]);
    DrawsFrom(dealer, shoe);
  }

  // ---- Twelve cards ----

  ghost predicate AllAces(cards: seq<Card>) {
    forall i :: 0 <= i < |cards| ==> cards[i].rank == Ace
  }

  lemma DrawOne(dealer: seq<Card>, shoe: seq<Card>, c: Card)
    requires Points(dealer) < DEALER_POINTS_LIMIT
    ensures DealDealer(dealer, shoe + [c]) == DealDealer(dealer + [c], shoe)
    ensures Hard(dealer + [c]) == Hard(dealer) + HardValue(c)
    ensures Aces(dealer + [c]) >= Aces(dealer)
  {
    Push(dealer, c);
    assert (shoe + [c])[..|shoe|] == shoe;
  }

  /** Drawing aces only, while that keeps him drawing. */
  lemma {:induction false} DrawAces(dealer: seq<Card>, shoe: seq<Card>, aces: seq<Card>) returns (drawn: seq<Card>)
    requires Aces(dealer) > 0 && AllAces(aces)
    requires aces != [] ==> Hard(dealer) + |aces| <= 7 || (Hard(dealer) >= 12 && Hard(dealer) + |aces| <= 17)
    ensures DealDealer(dealer, shoe + aces) == DealDealer(drawn, shoe)
    ensures |drawn| == |dealer| + |aces| && Hard(drawn) == Hard(dealer) + |aces| && Aces(drawn) > 0
    decreases |aces|
  {
    if aces == [] {
      drawn := dealer;
      assert shoe + aces == shoe;
    } else {
      var n := |aces| - 1;
      var fewer, ace := aces[..n], aces[n];
      assert shoe + aces == (shoe + fewer) + [ace];
      DrawOne(dealer, shoe + fewer, ace);
      drawn := DrawAces(dealer + [ace], shoe, fewer);
    }
  }

  /** Two aces, then four, a six and five more aces from the back of the shoe: twelve cards. */
  lemma TwelveFrom(a: Card, b: Card, shoe: seq<Card>, five: seq<Card>, six: Card, four: seq<Card>)
    requires a.rank == b.rank == Ace && six.rank == Six
    requires |four| == 4 && |five| == 5 && AllAces(four) && AllAces(five)
    ensures var o := DealDealer([a] + [b], shoe + five + [six] + four); o.Some? && |o.value.0| == 12
  {
    TwoCards(a, b);
    var sixAces := DrawAces([a] + [b], shoe + five + [six], four);
    DrawOne(sixAces, shoe + five, six);
    var hand := DrawAces(sixAces + [six], shoe, five);
  }
}
