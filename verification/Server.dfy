/** The running server (src/BlackjackServer/main.cpp): the objects follow the table's runs. */
module Server {
  import opened Cards
  import opened GameTable
  import opened Invariant
  import opened Conservation
  import opened Ledger
  import opened DataLayer
  import Controllers

  /** What a legal event does to the table that a history leads to. */
  lemma {:induction false} EventFromHistory(history: seq<Input>, t: Table, i: Input)
    requires Play(EMPTY_TABLE, history) == Some(t) && Legal(t, i)
    ensures var o := Step(t, i.event, i.chance);
      && (|t.seats| <= SAFE_PLAYERS ==> o.Done?)
      && (o.Thrown? ==> o.error == NotEnoughCards)
      && (o.Done? ==>
            && Play(EMPTY_TABLE, history + [i]) == Some(o.table)
            && Inv(o.table) && BookMatches(Book(history + [i]), o.table))
  {
    assert (history + [i])[..|history|] == history;
    RunsKeepInv(history);
    StepKeepsInv(t, i);
    if |t.seats| <= SAFE_PLAYERS {
      ShoeNeverRunsOut(history, i);
    }
    if Step(t, i.event, i.chance).Done? {
      MoneyMatchesTheBook(history + [i]);
    }
  }

  /** Handles an event from a connected user, or a join, after the events in `history`. Every
      lookup succeeds, as long as at most 54 users play the server never goes down, and all
      balances agree with the bank book of the events so far. */
  method Process(db: BjDatabase, e: Event, ghost history: seq<Input>) returns (reply: Controllers.Reply, ghost i: Input)
    requires db.Valid() && Play(EMPTY_TABLE, history) == Some(db.Model())
    requires e.Join? || e.socket in db.users
    modifies db.Repr
    ensures i.event == e
    ensures old(|db.Model().seats|) <= SAFE_PLAYERS ==> reply.Returned?
    ensures reply.Threw? ==> reply.error == NotEnoughCards
    ensures reply.Returned? ==>
      && db.Valid() && fresh(db.Repr - old(db.Repr))
      && Play(EMPTY_TABLE, history + [i]) == Some(db.Model())
      && Inv(db.Model()) && BookMatches(Book(history + [i]), db.Model())
  {
    ghost var t := db.Model();
    ghost var ch, cashed;
    reply, ch, cashed := Controllers.Handle(db, e);
    i := Input(e, ch);
    EventFromHistory(history, t, i);
  }
}
