/** The server's records as objects (includes/DataLayer): users, players, hands, the session. */
module DataLayer {
  import opened Cards
  import opened Rules
  import opened GameTable

  class UserModel {
    const uniqueId: int
    var money: real
    var isReady: bool

    constructor (uniqueId: int, money: real)
      ensures this.uniqueId == uniqueId && this.money == money && !isReady
    {
      this.uniqueId, this.money, this.isReady := uniqueId, money, false;
    }

    ghost function Value(): User
      reads this
    {
      User(money, isReady)
    }
  }

  class PlayerHand {
    var cards: seq<Card>
    var bet: real
    var state: HandState
    ghost const owner: int

    constructor (ghost owner: int)
      ensures this.owner == owner && Value() == FRESH_SEAT
    {
      cards, bet, state := [], 0.0, Sitting;
      this.owner := owner;
    }

    ghost function Value(): Seat
      reads this
    {
      Seat(cards, bet, state)
    }
  }

  /** A player points at the user it plays for; both fields are set once, on creation. */
  class PlayerModel {
    const userModel: UserModel
    const hands: seq<PlayerHand>

    constructor (userModel: UserModel, hand: PlayerHand)
      ensures this.userModel == userModel && hands == [hand]
    {
      this.userModel, this.hands := userModel, [hand];
    }
  }

  class Hand {
    var cards: seq<Card>

    constructor ()
      ensures cards == []
    {
      cards := [];
    }
  }

  class BjDatabase {
    var users: map<int, UserModel>
    var players: map<int, PlayerModel>
    var state: Phase
    var shoe: Shoe?
    var dealersHand: Hand?
    ghost var Repr: set<object>

    /** Keys are the users' own ids, each player plays for the user under its own key, and has
        one hand of its own. */
    ghost predicate Valid()
      reads this
    {
      && this in Repr
      && (forall k :: k in users ==> ValidUser(k))
      && (forall k :: k in players ==> ValidPlayer(k))
      && (shoe == null <==> dealersHand == null)
      && (shoe != null ==> shoe in Repr && dealersHand in Repr)
    }

    ghost predicate ValidUser(k: int)
      requires k in users
      reads this
    {
      users[k] in Repr && users[k].uniqueId == k
    }

    ghost predicate ValidPlayer(k: int)
      requires k in players
      reads this
    {
      && k in users && players[k].userModel == users[k]
      && |players[k].hands| == 1 && players[k].hands[0] in Repr && players[k].hands[0].owner == k
    }

    ghost function Users(): map<int, User>
      requires Valid()
      reads this, Repr
    {
      map k | k in users :: users[k].Value()
    }

    ghost function Seats(): map<int, Seat>
      requires Valid()
      reads this, Repr
    {
      map k | k in players :: players[k].hands[0].Value()
    }

    ghost function ShoeCards(): Option<seq<Card>>
      requires Valid()
      reads this, Repr
    {
      if shoe == null then None else Some(shoe.cards)
    }

    ghost function DealerCards(): Option<seq<Card>>
      requires Valid()
      reads this, Repr
    {
      if dealersHand == null then None else Some(dealersHand.cards)
    }

    /** The database as a value. */
    ghost function Model(): Table
      requires Valid()
      reads this, Repr
    {
      Table(Users(), Seats(), state, ShoeCards(), DealerCards())
    }

    constructor ()
      ensures Valid() && fresh(Repr) && Model() == EMPTY_TABLE
    {
      users, players, state, shoe, dealersHand := map[], map[], NotStarted, null, null;
      Repr := {this};
    }

    /** How to tell that the database is as `t` says. */
    lemma Shows(t: Table)
      requires Valid()
      requires users.Keys == t.users.Keys && forall k :: k in users ==> users[k].Value() == t.users[k]
      requires players.Keys == t.seats.Keys && forall k :: k in players ==> players[k].hands[0].Value() == t.seats[k]
      requires state == t.phase && ShoeCards() == t.shoe && DealerCards() == t.dealer
      ensures Model() == t
    {
      var us, seats := Users(), Seats();
      forall k | k in us ensures k in t.users && us[k] == t.users[k] {
        assert k in users;
      }
      assert us == t.users;
      forall k | k in seats ensures k in t.seats && seats[k] == t.seats[k] {
        assert k in players;
      }
      assert seats == t.seats;
    }
  }

  /** A range-based loop over an unordered map meets its keys in some order. */
  method IterationOrder(keys: set<int>) returns (order: seq<int>)
    ensures IsOrder(order, keys)
    ensures forall i :: 0 <= i < |order| ==> order[i] in keys
    ensures (set k | k in order) == keys
  {
    order := [];
    var rest := keys;
    while rest != {}
      invariant forall i :: 0 <= i < |order| ==> order[i] in keys
      invariant (set k | k in order) == keys - rest
      invariant NoDuplicates(order)
      invariant forall k :: k in order <==> k in keys && k !in rest
      invariant rest <= keys
      decreases rest
    {
      assert (forall k :: k !in rest) ==> rest == {};
      var k :| k in rest;
      assert forall j :: j in order + [k] <==> j in order || j == k;
      order, rest := order + [k], rest - {k};
    }
  }
}
