/** When a game starts (src/BlackjackServer/Controllers/LobbyController.cpp). */
module Lobby {
  import opened Cards
  import opened Rules
  import opened GameTable
  import opened Invariant
  import opened Termination

  /** A request to be ready, when accepted, starts the game exactly when its sender was the last
      solvent user to be waited for; the players are then exactly the solvent users. */
  lemma LastReadyStartsTheGame(t: Table, s: int)
    requires Inv(t) && s in t.users
    ensures var o := ReadyUser(t, s);
      && o.Done?
      && (o.code == 0 <==> t.phase == NotStarted && s in UsersToWait(t.users))
      && (o.code == 0 ==>
            && (o.table.phase == Betting <==> UsersToWait(t.users) == {s})
            && (o.table.phase == Betting ==>
                  && o.table.seats == (map k | k in Joinables(t.users) :: FRESH_SEAT)
                  && JustStarted(o.table))
            && (o.table.phase != Betting ==> UsersToWait(o.table.users) == UsersToWait(t.users) - {s}))
  {
    ReadyKeepsInv(t, s);
    var ready := t.(users := t.users[s := t.users[s].(isReady := true)]);
    if ReadyUser(t, s).code == 0 {
      assert Joinables(ready.users) == Joinables(t.users);
      assert UsersToWait(ready.users) == UsersToWait(t.users) - {s};
      assert s in Joinables(ready.users);
    }
  }

  /** A departure while no game is on leaves the lobby all ready, with no game started, exactly
      when nobody but the user who leaves was waited for and other solvent users stay. */
  lemma DepartureCanStrandTheLobby(t: Table, s: int, ch: Chance)
    requires Inv(t) && s in t.users && t.phase == NotStarted && ValidChance(t, Leave(s), ch)
    ensures var o := ClientLeave(t, s, ch);
      o.Done? && (GameIsReady(o.table) <==> UsersToWait(t.users) <= {s} && Joinables(t.users) - {s} != {})
  {
    var after := ClientLeave(t, s, ch).table;
    assert Joinables(after.users) == Joinables(t.users) - {s};
    assert UsersToWait(after.users) == UsersToWait(t.users) - {s};
  }

  /** Every other event keeps the lobby from resting in a state where the game could start. */
  lemma LobbyWaitsForSomebody(t: Table, i: Input)
    requires Inv(t) && Legal(t, i) && !GameIsReady(t)
    requires t.phase == NotStarted ==> !i.event.Leave?
    ensures var o := Step(t, i.event, i.chance); o.Done? ==> !GameIsReady(o.table)
  {
    StepKeepsInv(t, i);
    var o := Step(t, i.event, i.chance);
    if o.Done? && o.table.phase == NotStarted {
      if t.phase != NotStarted {
        var joinables := Joinables(o.table.users);
        assert (forall k :: k !in joinables) ==> joinables == {};
        if k :| k in joinables {
          assert k in UsersToWait(o.table.users);
        }
      } else if i.event.SetReady? {
        LastReadyStartsTheGame(t, i.event.socket);
        assert o.code == 0 ==> Joinables(o.table.users) == Joinables(t.users);
      } else if i.event.Join? {
        assert i.event.socket !in t.users ==> i.event.socket in UsersToWait(o.table.users);
      }
    }
  }

  /** The last user waited for leaves between games while other solvent users stay. */
  ghost predicate Strands(t: Table, e: Event) {
    && t.phase == NotStarted && e.Leave?
    && UsersToWait(t.users) == {e.socket} && Joinables(t.users) != {e.socket}
  }

  /** Some event of the run strands the lobby. */
  ghost predicate EverStrands(inputs: seq<Input>)
    decreases |inputs|
  {
    inputs != [] &&
      var n := |inputs| - 1;
      || EverStrands(inputs[..n])
      || (Play(EMPTY_TABLE, inputs[..n]).Some? && Strands(Play(EMPTY_TABLE, inputs[..n]).value, inputs[n].event))
  }

  /** At some point of the run the lobby rests in a state where a game could start. */
  ghost predicate EverRestsReady(inputs: seq<Input>)
    decreases |inputs|
  {
    || (Play(EMPTY_TABLE, inputs).Some? && GameIsReady(Play(EMPTY_TABLE, inputs).value))
    || (inputs != [] && EverRestsReady(inputs[..|inputs| - 1]))
  }

  /** From a lobby that waits for somebody, one event leads to a lobby that is all ready exactly
      when it strands it. */
  lemma OnlyStrandingLeavesItReady(t: Table, i: Input)
    requires Inv(t) && Legal(t, i) && !GameIsReady(t) && Step(t, i.event, i.chance).Done?
    ensures GameIsReady(Step(t, i.event, i.chance).table) <==> Strands(t, i.event)
  {
    if t.phase == NotStarted && i.event.Leave? {
      var s := i.event.socket;
      DepartureCanStrandTheLobby(t, s, i.chance);
      assert Joinables(t.users) == {} ==> UsersToWait(t.users) == {};
      assert UsersToWait(t.users) <= Joinables(t.users);
      assert UsersToWait(t.users) <= {s} ==> UsersToWait(t.users) == {} || UsersToWait(t.users) == {s};
      assert UsersToWait(t.users) == {s} ==> (Joinables(t.users) - {s} != {} <==> Joinables(t.users) != {s});
    } else {
      LobbyWaitsForSomebody(t, i);
    }
  }

  /** Over every run: the lobby rests all ready with no game started at some point if and only if
      some departure stranded it. Without such a departure, whenever some user is solvent and no
      game is on, some solvent user is still waited for: the game starts with the last ready. */
  lemma {:induction false} GameStartsAtTheLastReady(inputs: seq<Input>)
    requires Play(EMPTY_TABLE, inputs).Some?
    ensures EverRestsReady(inputs) <==> EverStrands(inputs)
  {
    if inputs == [] {
      assert Joinables(EMPTY_TABLE.users) == {};
    } else {
      var n := |inputs| - 1;
      GameStartsAtTheLastReady(inputs[..n]);
      RunsKeepInv(inputs[..n]);
      var before := Play(EMPTY_TABLE, inputs[..n]).value;
      if !GameIsReady(before) {
        OnlyStrandingLeavesItReady(before, inputs[n]);
      }
    }
  }

  ghost predicate NoJoins(inputs: seq<Input>) {
    forall i :: 0 <= i < |inputs| ==> !inputs[i].event.Join?
  }

  /** Between games with nobody waited for, every request is refused, and a departure changes
      nothing about that. */
  lemma StrandedLobbyRefusesEverything(t: Table, i: Input)
    requires Inv(t) && Legal(t, i) && t.phase == NotStarted && UsersToWait(t.users) == {} && !i.event.Join?
    ensures var o := Step(t, i.event, i.chance);
      && o.Done? && o.table.phase == NotStarted && UsersToWait(o.table.users) == {}
      && (!i.event.Leave? ==> o == Done(t, -1, map[]))
  {
    var s := i.event.socket;
    if i.event.SetReady? && IsSolvent(t.users[s]) {
      assert s !in UsersToWait(t.users);
    } else if i.event.Leave? {
      forall k ensures k !in UsersToWait(t.users - {s}) {
        assert k !in UsersToWait(t.users);
      }
    }
  }

  /** From a stranded lobby no run without a join ever starts a game, whoever leaves. */
  lemma {:induction false} StrandedUntilSomebodyJoins(t: Table, inputs: seq<Input>)
    requires Inv(t) && GameIsReady(t) && NoJoins(inputs)
    ensures Play(t, inputs).Some? ==>
      var after := Play(t, inputs).value;
      Inv(after) && after.phase == NotStarted && UsersToWait(after.users) == {} && after.users.Keys <= t.users.Keys
  {
    if inputs != [] {
      var n := |inputs| - 1;
      StrandedUntilSomebodyJoins(t, inputs[..n]);
      match Play(t, inputs[..n])
      case None =>
      case Some(before) =>
        if Legal(before, inputs[n]) {
          StepKeepsInv(before, inputs[n]);
          StrandedLobbyRefusesEverything(before, inputs[n]);
        }
    }
  }

  lemma {:induction false} Extend(inputs: seq<Input>, e: Event) returns (longer: seq<Input>)
    requires Play(EMPTY_TABLE, inputs).Some?
    requires var t := Play(EMPTY_TABLE, inputs).value;
      (e.Join? || e.socket in t.users) && t.phase == NotStarted
    requires Inv(Play(EMPTY_TABLE, inputs).value)
    ensures |longer| == |inputs| + 1 && longer[..|inputs|] == inputs && longer[|inputs|].event == e
    ensures Legal(Play(EMPTY_TABLE, inputs).value, longer[|inputs|])
    ensures var o := Step(Play(EMPTY_TABLE, inputs).value, e, longer[|inputs|].chance);
      o.Done? ==> Play(EMPTY_TABLE, longer) == Some(o.table)
  {
    var t := Play(EMPTY_TABLE, inputs).value;
    var ch := SomeChance(t, e);
    longer := inputs + [Input(e, ch)];
  }

  /** Two users have joined and only the first is ready. */
  const ONE_WAITS := EMPTY_TABLE.(users := map[1 := User(INITIAL_MONEY, true), 2 := User(INITIAL_MONEY, false)])

  lemma OneWaits() returns (inputs: seq<Input>)
    ensures Play(EMPTY_TABLE, inputs) == Some(ONE_WAITS)
  {
    var one, two := User(INITIAL_MONEY, false), User(INITIAL_MONEY, true);
    inputs := Extend([], Join(1));
    assert Play(EMPTY_TABLE, inputs).value == EMPTY_TABLE.(users := map[1 := one]);
    inputs := Extend(inputs, Join(2));
    var t := EMPTY_TABLE.(users := map[1 := one, 2 := one]);
    assert Play(EMPTY_TABLE, inputs).value == t;
    assert 2 in UsersToWait(t.users[1 := two]);
    inputs := Extend(inputs, SetReady(1));
    assert Play(EMPTY_TABLE, inputs).value == ONE_WAITS;
  }

  /** A run that strands the lobby: two join, one is ready, the other leaves. */
  lemma StrandedRun() returns (inputs: seq<Input>)
    ensures Play(EMPTY_TABLE, inputs).Some?
    ensures GameIsReady(Play(EMPTY_TABLE, inputs).value)
  {
    var waiting := OneWaits();
    assert UsersToWait(ONE_WAITS.users) == {2} && Joinables(ONE_WAITS.users) == {1, 2};
    inputs := Extend(waiting, Leave(2));
    DepartureCanStrandTheLobby(ONE_WAITS, 2, inputs[|waiting|].chance);
  }
}
