/** Who can play and who is waited for (src/Services/UserManager.cpp). */
module UserManager {
  import opened Rules
  import opened GameTable
  import opened DataLayer

  method UserCanJoin(user: UserModel) returns (can: bool)
    ensures can == IsSolvent(user.Value()) == (user.money > 1.0 / 4503599627370496.0)
  {
    can := !(user.money <= EPSILON);
  }

  /** `us` lists the database's users under these keys. */
  ghost predicate AreUsers(db: BjDatabase, us: seq<UserModel>, keys: set<int>)
    reads db
  {
    && keys <= db.users.Keys
    && (forall u :: u in us ==> u.uniqueId in keys && db.users[u.uniqueId] == u)
    && (forall k :: k in keys ==> db.users[k] in us)
  }

  lemma NoUsers(db: BjDatabase, us: seq<UserModel>, keys: set<int>)
    requires AreUsers(db, us, keys) && us == []
    ensures keys == {}
  {
    assert forall k :: k in keys ==> db.users[k] in us;
  }

  method GetJoinables(db: BjDatabase) returns (result: seq<UserModel>)
    requires db.Valid()
    ensures AreUsers(db, result, Joinables(db.Model().users))
    ensures forall k :: k in db.users ==> (db.users[k] in result <==> db.users[k].money > 1.0 / 4503599627370496.0)
  {
    result := [];
    ghost var joinables := Joinables(db.Model().users);
    var keys := db.users.Keys;
    var order := IterationOrder(keys);
    for i := 0 to |order|
      invariant forall u :: u in result ==> u.uniqueId in joinables && db.users[u.uniqueId] == u
      invariant forall k :: k in order[..i] && k in joinables ==> db.users[k] in result
    {
      assert order[i] in keys;
      assert order[..i + 1] == order[..i] + [order[i]];
      var user := db.users[order[i]];
      var can := UserCanJoin(user);
      assert user.uniqueId == order[i] && (can <==> order[i] in joinables);
      if can {
        result := result + [user];
      }
    }
    assert order[..|order|] == order;
    forall k | k in db.users ensures db.users[k] in result <==> db.users[k].money > 1.0 / 4503599627370496.0 {
      assert db.ValidUser(k) && db.Model().users[k] == db.users[k].Value();
    }
  }

  method GetUsersToWait(db: BjDatabase) returns (result: seq<UserModel>)
    requires db.Valid()
    ensures AreUsers(db, result, UsersToWait(db.Model().users))
  {
    result := [];
    var joinables := GetJoinables(db);
    ghost var waited := UsersToWait(db.Model().users);
    for i := 0 to |joinables|
      invariant forall u :: u in result ==> u.uniqueId in waited && db.users[u.uniqueId] == u
      invariant forall u :: u in joinables[..i] && !u.isReady ==> u in result
    {
      var user := joinables[i];
      assert user in joinables;
      assert joinables[..i + 1] == joinables[..i] + [user];
      if !user.isReady {
        result := result + [user];
      }
    }
    assert joinables[..|joinables|] == joinables;
    forall k | k in waited ensures db.users[k] in result {
      assert db.users[k] in joinables;
    }
  }

  method GameIsReady(db: BjDatabase) returns (ready: bool)
    requires db.Valid()
    ensures ready == GameTable.GameIsReady(db.Model())
  {
    if db.state != NotStarted {
      return false;
    }
    var joinables := GetJoinables(db);
    if |joinables| == 0 {
      NoUsers(db, joinables, Joinables(db.Model().users));
      return false;
    }
    assert joinables[0] in joinables;
    var waited := GetUsersToWait(db);
    if |waited| == 0 {
      NoUsers(db, waited, UsersToWait(db.Model().users));
      return true;
    }
    assert waited[0] in waited;
    return false;
  }

  method UserIsAPlayer(db: BjDatabase, user: UserModel) returns (found: bool)
    ensures found <==> user.uniqueId in db.players
  {
    var order := IterationOrder(db.players.Keys);
    for i := 0 to |order|
      invariant user.uniqueId !in order[..i]
    {
      if order[i] == user.uniqueId {
        assert order[i] in order;
        return true;
      }
    }
    assert order[..|order|] == order;
    return false;
  }

  method UnreadyPlayer(db: BjDatabase, k: int)
    requires db.Valid() && k in db.players
    modifies db.Repr - {db}
    ensures db.Valid()
    ensures var t := old(db.Model()); db.Model() == t.(users := t.users[k := t.users[k].(isReady := false)])
  {
    ghost var t := db.Model();
    assert db.ValidPlayer(k);
    db.players[k].userModel.isReady := false;
    ghost var after := t.(users := t.users[k := t.users[k].(isReady := false)]);
    forall j | j in db.users ensures db.users[j].Value() == after.users[j] {
      assert db.ValidUser(j);
    }
    forall j | j in db.players ensures db.players[j].hands[0].Value() == after.seats[j] {
      assert db.ValidPlayer(j);
    }
    db.Shows(after);
  }

  ghost function Unready(users: map<int, User>, keys: set<int>): map<int, User> {
    map k | k in users :: if k in keys then users[k].(isReady := false) else users[k]
  }

  method UnreadyAllPlayers(db: BjDatabase)
    requires db.Valid()
    modifies db.Repr - {db}
    ensures db.Valid()
    ensures var t := old(db.Model()); db.Model() == t.(users := Unready(t.users, t.seats.Keys))
  {
    ghost var t := db.Model();
    var keys := db.players.Keys;
    var order := IterationOrder(keys);
    ghost var done: set<int> := {};
    assert Unready(t.users, done) == t.users;
    for i := 0 to |order|
      invariant db.Valid() && done == set k | k in order[..i]
      invariant db.Model() == t.(users := Unready(t.users, done))
    {
      assert order[..i + 1] == order[..i] + [order[i]];
      UnreadyPlayer(db, order[i]);
      UnreadyOneMore(t.users, done, order[i]);
      done := done + {order[i]};
    }
    assert order[..|order|] == order;
    assert done == keys == t.seats.Keys;
  }

  lemma UnreadyOneMore(users: map<int, User>, done: set<int>, k: int)
    requires k in users
    ensures var u := Unready(users, done); u[k := u[k].(isReady := false)] == Unready(users, done + {k})
  {}
}
