/** The signed-in player's dashboard: editing personal details and
    re-registering for events (delete every pairing row of the player, then
    insert the new selection). */
module Dashboard {
  import opened Schema
  import opened Seqs
  import opened DataStore

  datatype EditMode = Viewing | EditingPersonal | EditingEvents

  datatype Outcome = Saved | Failed

  datatype Result = Result(outcome: Outcome, tables: Tables)

  /** The rows an event update inserts: `event1` first if chosen, then `event2`
      if chosen, each with a null partner exactly for the sentinel choice. */
  function Entries(userId: string, ev: EventData): (r: seq<PairingInsert>)
    ensures |r| == (if ev.event1 != "" then 1 else 0) + (if ev.event2 != "" then 1 else 0)
    ensures ev.event1 != "" ==> r[0] == PairingInsert(ev.event1, userId, PartnerIdFor(ev.partner1))
    ensures ev.event2 != "" ==> r[|r| - 1] == PairingInsert(ev.event2, userId, PartnerIdFor(ev.partner2))
    ensures forall e :: e in r ==> e.userId == userId
  {
    (if ev.event1 != "" then [PairingInsert(ev.event1, userId, PartnerIdFor(ev.partner1))] else [])
    + (if ev.event2 != "" then [PairingInsert(ev.event2, userId, PartnerIdFor(ev.partner2))] else [])
  }

  /** `handleEventUpdate` as a function of the store contents; `deleteFails`
      and `insertFails` say which of the two calls return an error. The
      delete's result is not inspected, so a failed delete leaves the old rows
      in place and the insert still goes ahead. */
  function ReRegister(t: Tables, userId: string, ev: EventData, deleteFails: bool, insertFails: bool): (r: Result)
    ensures r.tables.players == t.players
    ensures r.outcome == Failed <==> Entries(userId, ev) != [] && insertFails
    ensures r.tables.partners ==
      (if deleteFails then t.partners else RowsNotOfUser(t.partners, userId))
      + (if r.outcome == Saved then Materialize(Entries(userId, ev), t.nextId) else [])
  {
    var t1 := if deleteFails then t else DeleteRowsOfUser(t, userId);
    var entries := Entries(userId, ev);
    if |entries| == 0 then Result(Saved, t1)
    else if insertFails then Result(Failed, t1)
    else Result(Saved, AddPairings(t1, entries))
  }

  lemma ReRegisterWellFormed(t: Tables, userId: string, ev: EventData, deleteFails: bool, insertFails: bool)
    requires WellFormed(t)
    ensures WellFormed(ReRegister(t, userId, ev, deleteFails, insertFails).tables)
  {
    var t1 := if deleteFails then t else DeleteRowsOfUser(t, userId);
    if !deleteFails {
      DeleteRowsOfUserWellFormed(t, userId);
    }
    AddPairingsWellFormed(t1, Entries(userId, ev));
  }

  /** Inserted rows all belong to the user. */
  lemma MaterializedRowsOfUser(userId: string, ev: EventData, first: nat)
    ensures RowsOfUser(Materialize(Entries(userId, ev), first), userId) == Materialize(Entries(userId, ev), first)
    ensures RowsNotOfUser(Materialize(Entries(userId, ev), first), userId) == []
  {
    var m := Materialize(Entries(userId, ev), first);
    assert forall x :: x in m ==> x.userId == userId by {
      forall x | x in m ensures x.userId == userId {
        var i :| 0 <= i < |m| && m[i] == x;
        assert Entries(userId, ev)[i] in Entries(userId, ev);
      }
    }
    FilterAll(m, (x: PartnerRow) => x.userId == userId);
    FilterNone(m, (x: PartnerRow) => x.userId != userId);
  }

  /** Rows of other players are never touched: no back-fill, no deletion. */
  lemma OthersUntouched(t: Tables, userId: string, ev: EventData, deleteFails: bool, insertFails: bool)
    ensures RowsNotOfUser(ReRegister(t, userId, ev, deleteFails, insertFails).tables.partners, userId)
         == RowsNotOfUser(t.partners, userId)
  {
    var r := ReRegister(t, userId, ev, deleteFails, insertFails);
    var kept := if deleteFails then t.partners else RowsNotOfUser(t.partners, userId);
    var added := if r.outcome == Saved then Materialize(Entries(userId, ev), t.nextId) else [];
    var notU := (x: PartnerRow) => x.userId != userId;
    FilterConcat(kept, added, notU);
    MaterializedRowsOfUser(userId, ev, t.nextId);
    assert Filter(added, notU) == [];
    if !deleteFails {
      FilterAll(RowsNotOfUser(t.partners, userId), notU);
    }
    assert Filter(kept + added, notU) == Filter(kept, notU);
  }

  /** After a successful update (delete included) the player's rows are exactly
      the new entries; after a failed insert the player has none left. */
  lemma UserRowsAfterUpdate(t: Tables, userId: string, ev: EventData, insertFails: bool)
    ensures var r := ReRegister(t, userId, ev, false, insertFails);
      RowsOfUser(r.tables.partners, userId) ==
        if r.outcome == Saved then Materialize(Entries(userId, ev), t.nextId) else []
  {
    var r := ReRegister(t, userId, ev, false, insertFails);
    var kept := RowsNotOfUser(t.partners, userId);
    var added := if r.outcome == Saved then Materialize(Entries(userId, ev), t.nextId) else [];
    var isU := (x: PartnerRow) => x.userId == userId;
    FilterConcat(kept, added, isU);
    FilterNone(kept, isU);
    MaterializedRowsOfUser(userId, ev, t.nextId);
  }

  /** Choosing no event leaves the player with no pairing rows. */
  lemma NoEventsNoRows(t: Tables, userId: string, ev: EventData)
    requires ev.event1 == "" && ev.event2 == ""
    ensures var r := ReRegister(t, userId, ev, false, false);
      r.outcome == Saved && RowsOfUser(r.tables.partners, userId) == []
  {
    UserRowsAfterUpdate(t, userId, ev, false);
  }

  /** A failed delete keeps the old rows; a successful insert adds to them,
      and a failed one leaves the table exactly as it was. */
  lemma FailedDeleteKeepsRows(t: Tables, userId: string, ev: EventData, insertFails: bool)
    ensures var r := ReRegister(t, userId, ev, true, insertFails);
      RowsOfUser(r.tables.partners, userId) == RowsOfUser(t.partners, userId) +
        if r.outcome == Saved then Materialize(Entries(userId, ev), t.nextId) else []
    ensures var r := ReRegister(t, userId, ev, true, insertFails);
      r.outcome == Failed ==> r.tables == t
  {
    var r := ReRegister(t, userId, ev, true, insertFails);
    var added := if r.outcome == Saved then Materialize(Entries(userId, ev), t.nextId) else [];
    var isU := (x: PartnerRow) => x.userId == userId;
    FilterConcat(t.partners, added, isU);
    MaterializedRowsOfUser(userId, ev, t.nextId);
    assert t.partners + [] == t.partners;
  }

  /** `handlePersonalDetailsUpdate` on the store: only the signed-in player's
      row changes, and only its details. */
  function UpdateDetails(t: Tables, userId: string, data: PlayerData): (r: Tables)
    ensures r.partners == t.partners && r.nextId == t.nextId
    ensures |r.players| == |t.players|
    ensures forall i :: 0 <= i < |r.players| && t.players[i].id != userId ==> r.players[i] == t.players[i]
    ensures forall i :: 0 <= i < |r.players| && t.players[i].id == userId ==> r.players[i] == Player(userId, data)
  {
    t.(players := SetDetails(t.players, userId, data))
  }

  class UserDashboard {
    const user: Player
    const store: Store
    var editMode: EditMode
    var userEvents: seq<PartnerRow>

    /** Mount: the view starts with no edit mode and loads the player's rows. */
    constructor (user: Player, store: Store, fetchFails: bool)
      ensures this.user == user && this.store == store && editMode == Viewing
      ensures userEvents == if fetchFails then [] else RowsOfUser(store.partners, user.id)
    {
      this.user := user;
      this.store := store;
      editMode := Viewing;
      userEvents := [];
      new;
      FetchUserEvents(fetchFails);
    }

    /** `fetchUserEvents`: on an error the shown list is kept. */
    method FetchUserEvents(fetchFails: bool)
      modifies this
      ensures editMode == old(editMode)
      ensures userEvents == if fetchFails then old(userEvents) else RowsOfUser(store.partners, user.id)
    {
      if !fetchFails {
        userEvents := RowsOfUser(store.partners, user.id);
      }
    }

    /** The `partnerEntries` array built by pushes. */
    method BuildEntries(ev: EventData) returns (entries: seq<PairingInsert>)
      ensures entries == Entries(user.id, ev)
    {
      entries := [];
      if ev.event1 != "" {
        entries := entries + [PairingInsert(ev.event1, user.id, PartnerIdFor(ev.partner1))];
      }
      if ev.event2 != "" {
        entries := entries + [PairingInsert(ev.event2, user.id, PartnerIdFor(ev.partner2))];
      }
    }

    /** `handleEventUpdate`: delete, build, insert; on success leave edit mode
        and reload the list. */
    method HandleEventUpdate(ev: EventData, deleteFails: bool, insertFails: bool, refetchFails: bool) returns (outcome: Outcome)
      requires store.Valid()
      modifies this, store
      ensures store.Valid()
      ensures Result(outcome, store.Snapshot()) == ReRegister(old(store.Snapshot()), user.id, ev, deleteFails, insertFails)
      ensures outcome == Saved ==> editMode == Viewing
      ensures outcome == Saved ==>
        userEvents == if refetchFails then old(userEvents) else RowsOfUser(store.partners, user.id)
      ensures outcome == Failed ==> editMode == old(editMode) && userEvents == old(userEvents)
    {
      if !deleteFails {
        store.DeleteWhereUser(user.id);
      }
      var entries := BuildEntries(ev);
      if |entries| > 0 {
        if insertFails {
          return Failed;
        }
        store.InsertPairings(entries);
      }
      editMode := Viewing;
      FetchUserEvents(refetchFails);
      return Saved;
    }

    /** `handlePersonalDetailsUpdate`: update the player's row by id. */
    method HandlePersonalDetailsUpdate(data: PlayerData, updateFails: bool) returns (outcome: Outcome)
      requires store.Valid()
      modifies this, store
      ensures store.Valid()
      ensures store.Snapshot() == if updateFails then old(store.Snapshot()) else UpdateDetails(old(store.Snapshot()), user.id, data)
      ensures outcome == if updateFails then Failed else Saved
      ensures editMode == if updateFails then old(editMode) else Viewing
      ensures userEvents == old(userEvents)
    {
      if updateFails {
        return Failed;
      }
      store.UpdatePlayer(user.id, data);
      editMode := Viewing;
      return Saved;
    }
  }
}
