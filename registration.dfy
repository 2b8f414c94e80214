/** The two-step registration form: personal details, then event selection,
    and the registration writer behind its submit button. */
module Registration {
  import opened Schema
  import opened Seqs
  import opened DataStore

  datatype Step = PersonalDetails | EventSelection

  /** The store call that returns an error, if any; every other call succeeds. */
  datatype Fault =
    | NoFault
    | CheckPlayerFails         // the lookup of a player by WhatsApp number
    | CheckRegistrationsFails  // the lookup of that player's pairing rows
    | InsertPlayerFails        // the player insert
    | InsertPairingFails       // the pairing insert
    | BackFillFails            // the partner back-fill update

  datatype Outcome = Registered(playerId: string) | Refused | Failed

  datatype Result = Result(outcome: Outcome, tables: Tables)

  /** A partner choice that names a player: truthy and not the sentinel. */
  predicate ChosePartner(choice: string)
  {
    choice != "" && choice != PartnerNotRegisteredYet
  }

  /** The lookups before any write succeed, find at most one player with the
      number, and that player (if any) has no pairing row. */
  predicate PassesChecks(t: Tables, details: PlayerData, fault: Fault)
    ensures PassesChecks(t, details, fault) ==> !AlreadyRegistered(t, details, fault)
    ensures PassesChecks(t, details, fault) ==> forall p :: p in t.players && p.details.whatsappNumber == details.whatsappNumber ==>
      RowsOfUser(t.partners, p.id) == []
  {
    var existing := PlayersWithNumber(t.players, details.whatsappNumber);
    && fault != CheckPlayerFails
    && |existing| <= 1
    && (|existing| == 1 ==> fault != CheckRegistrationsFails && RowsOfUser(t.partners, existing[0].id) == [])
  }

  /** The refusal: exactly one player has the number and owns a pairing row. */
  predicate AlreadyRegistered(t: Tables, details: PlayerData, fault: Fault)
    ensures AlreadyRegistered(t, details, fault) ==>
      exists p :: p in t.players && p.details.whatsappNumber == details.whatsappNumber && RowsOfUser(t.partners, p.id) != []
  {
    var existing := PlayersWithNumber(t.players, details.whatsappNumber);
    && fault != CheckPlayerFails
    && |existing| == 1
    && fault != CheckRegistrationsFails
    && RowsOfUser(t.partners, existing[0].id) != []
  }

  /** The pairing row registration writes for `event1`. */
  function FirstPairing(ev: EventData, playerId: string): PairingInsert
  {
    PairingInsert(ev.event1, playerId, PartnerIdFor(ev.partner1))
  }

  /** `handleEventSubmit` as a function of the store contents. */
  function Register(t: Tables, details: PlayerData, ev: EventData, fault: Fault): (r: Result)
    // nothing is written unless the checks pass
    ensures !PassesChecks(t, details, fault) ==> r.tables == t && !r.outcome.Registered?
    ensures r.outcome == Refused <==> AlreadyRegistered(t, details, fault)
    ensures PassesChecks(t, details, fault) && fault == InsertPlayerFails ==> r == Result(Failed, t)
    // a failed pairing insert leaves the new player row and nothing else
    ensures PassesChecks(t, details, fault) && ev.event1 != "" && fault == InsertPairingFails ==>
      r == Result(Failed, AddPlayer(t, details))
    // past the checks a new player row is always written, and never removed
    ensures PassesChecks(t, details, fault) && fault != InsertPlayerFails ==>
      r.tables.players == t.players + [Player(IdOf(t.nextId), details)]
    ensures r.tables.players == t.players || r.tables.players == t.players + [Player(IdOf(t.nextId), details)]
    ensures r.outcome.Registered? <==>
      PassesChecks(t, details, fault) && fault != InsertPlayerFails && (ev.event1 == "" || fault != InsertPairingFails)
    ensures r.outcome.Registered? ==> r.outcome.playerId == IdOf(t.nextId)
    // at most one pairing row, and none without event1
    ensures |r.tables.partners| <= |t.partners| + 1
    ensures ev.event1 == "" ==> r.tables.partners == t.partners
    ensures WellFormed(t) ==> WellFormed(r.tables)
  {
    var existing := PlayersWithNumber(t.players, details.whatsappNumber);
    if fault == CheckPlayerFails || |existing| > 1 then Result(Failed, t)
    else if |existing| == 1 && fault == CheckRegistrationsFails then Result(Failed, t)
    else if |existing| == 1 && RowsOfUser(t.partners, existing[0].id) != [] then Result(Refused, t)
    else if fault == InsertPlayerFails then Result(Failed, t)
    else
      var id := IdOf(t.nextId);
      var t1 := AddPlayer(t, details);
      if ev.event1 == "" then
        AddPlayerKeepsWellFormed(t, details);
        Result(Registered(id), t1)
      else if fault == InsertPairingFails then
        AddPlayerKeepsWellFormed(t, details);
        Result(Failed, t1)
      else
        var t2 := AddPairings(t1, [FirstPairing(ev, id)]);
        AddBothKeepsWellFormed(t, details, FirstPairing(ev, id));
        if ChosePartner(ev.partner1) && fault != BackFillFails then
          Result(Registered(id), t2.(partners := BackFill(t2.partners, ev.partner1, ev.event1, id)))
        else Result(Registered(id), t2)
  }

  lemma AddPlayerKeepsWellFormed(t: Tables, details: PlayerData)
    ensures WellFormed(t) ==> WellFormed(AddPlayer(t, details))
  {
    if WellFormed(t) {
      AddPlayerWellFormed(t, details);
    }
  }

  lemma AddBothKeepsWellFormed(t: Tables, details: PlayerData, entry: PairingInsert)
    ensures var t2 := AddPairings(AddPlayer(t, details), [entry]);
      && (WellFormed(t) ==> WellFormed(t2))
      && (forall ev, p, q :: WellFormed(t) ==> WellFormed(t2.(partners := BackFill(t2.partners, p, ev, q))))
  {
    if WellFormed(t) {
      AddPlayerWellFormed(t, details);
      AddPairingsWellFormed(AddPlayer(t, details), [entry]);
    }
  }

  // ---------------------------------------------------------------------------
  // Properties of the registration writer

  /** The row written for `event1`: the new player, and a null partner exactly
      for the sentinel choice, otherwise the choice verbatim. */
  lemma RegisteredRow(t: Tables, details: PlayerData, ev: EventData, fault: Fault)
    requires ev.event1 != ""
    requires Register(t, details, ev, fault).outcome.Registered?
    ensures var r := Register(t, details, ev, fault).tables;
      && |r.partners| == |t.partners| + 1
      && var row := r.partners[|t.partners|];
      && row.id == IdOf(t.nextId + 1)
      && row.eventName == ev.event1
      && row.userId == IdOf(t.nextId)
      && (row.partnerId.None? <==> ev.partner1 == PartnerNotRegisteredYet)
      && (row.partnerId.Some? ==> row.partnerId.value == ev.partner1)
      && row.ranking.None?
  {
    var r := Register(t, details, ev, fault).tables;
    var t1 := AddPlayer(t, details);
    var row := PartnerRow(IdOf(t1.nextId), ev.event1, IdOf(t.nextId), PartnerIdFor(ev.partner1), None);
    assert Materialize([FirstPairing(ev, IdOf(t.nextId))], t1.nextId) == [row];
  }

  /** The back-fill touches only the chosen partner's open rows for `event1`,
      and only when a partner was chosen; every earlier row keeps all its other
      fields. */
  lemma BackFillOnlyOpenRows(t: Tables, details: PlayerData, ev: EventData, fault: Fault, i: nat)
    requires ev.event1 != ""
    requires Register(t, details, ev, fault).outcome.Registered?
    requires i < |t.partners|
    ensures var r := Register(t, details, ev, fault);
      && i < |r.tables.partners|
      && r.tables.partners[i].(partnerId := t.partners[i].partnerId) == t.partners[i]
      && r.tables.partners[i].partnerId ==
           if ChosePartner(ev.partner1) && fault != BackFillFails && OpenRowOf(t.partners[i], ev.partner1, ev.event1)
           then Some(r.outcome.playerId)
           else t.partners[i].partnerId
  {
    var t1 := AddPlayer(t, details);
    var t2 := AddPairings(t1, [FirstPairing(ev, IdOf(t.nextId))]);
    assert t2.partners[i] == t.partners[i];
  }

  /** The new row itself is never back-filled. */
  lemma NewRowNotBackFilled(t: Tables, details: PlayerData, ev: EventData, fault: Fault)
    requires ev.event1 != "" && ChosePartner(ev.partner1)
    requires Register(t, details, ev, fault).outcome.Registered?
    ensures Register(t, details, ev, fault).tables.partners[|t.partners|].partnerId == Some(ev.partner1)
  {
    var t1 := AddPlayer(t, details);
    var row := PartnerRow(IdOf(t1.nextId), ev.event1, IdOf(t.nextId), PartnerIdFor(ev.partner1), None);
    assert Materialize([FirstPairing(ev, IdOf(t.nextId))], t1.nextId) == [row];
  }

  /** The second event slot plays no part in registration. */
  lemma SecondSlotIgnored(t: Tables, details: PlayerData, ev: EventData, fault: Fault, event2: string, partner2: string)
    ensures Register(t, details, ev, fault) == Register(t, details, ev.(event2 := event2, partner2 := partner2), fault)
  {
    assert FirstPairing(ev, IdOf(t.nextId)) == FirstPairing(ev.(event2 := event2, partner2 := partner2), IdOf(t.nextId));
  }

  /** The new player's id is fresh in a well-formed store: no existing row of
      either table carries it. */
  lemma RegisteredIdFresh(t: Tables, details: PlayerData, ev: EventData, fault: Fault)
    requires WellFormed(t)
    requires Register(t, details, ev, fault).outcome.Registered?
    ensures forall p :: p in t.players ==> p.id != Register(t, details, ev, fault).outcome.playerId
    ensures forall x :: x in t.partners ==> x.id != Register(t, details, ev, fault).outcome.playerId
  {
    NextIdFresh(t);
  }

  /** A player whose number is taken but who has no pairing row is registered
      again as a second player with that number. */
  lemma DuplicateNumberWithoutRows(t: Tables, details: PlayerData, ev: EventData, existing: Player)
    requires PlayersWithNumber(t.players, details.whatsappNumber) == [existing]
    requires RowsOfUser(t.partners, existing.id) == []
    ensures var r := Register(t, details, ev, NoFault);
      && r.outcome.Registered?
      && |PlayersWithNumber(r.tables.players, details.whatsappNumber)| == 2
  {
    var r := Register(t, details, ev, NoFault);
    var p := Player(IdOf(t.nextId), details);
    FilterConcat(t.players, [p], (q: Player) => q.details.whatsappNumber == details.whatsappNumber);
  }

  /** Once two players share a number, every later registration with it fails
      at the lookup and writes nothing. */
  lemma SharedNumberFails(t: Tables, details: PlayerData, ev: EventData, fault: Fault)
    requires |PlayersWithNumber(t.players, details.whatsappNumber)| > 1
    ensures Register(t, details, ev, fault) == Result(Failed, t)
  {
  }

  /** A registers without a partner, then B registers for the same event
      choosing A: the two rows end up naming each other. */
  lemma MutualPairing(t0: Tables, a: PlayerData, b: PlayerData, eventName: string)
    requires eventName != ""
    requires var r1 := Register(t0, a, EventData(eventName, PartnerNotRegisteredYet, "", ""), NoFault);
      && r1.outcome.Registered?
      && Register(r1.tables, b, EventData(eventName, r1.outcome.playerId, "", ""), NoFault).outcome.Registered?
    ensures var r1 := Register(t0, a, EventData(eventName, PartnerNotRegisteredYet, "", ""), NoFault);
      var r2 := Register(r1.tables, b, EventData(eventName, r1.outcome.playerId, "", ""), NoFault);
      var idA, idB := r1.outcome.playerId, r2.outcome.playerId;
      var rows := r2.tables.partners;
      && |rows| == |t0.partners| + 2
      && rows[|t0.partners|].userId == idA && rows[|t0.partners|].eventName == eventName
      && rows[|t0.partners|].partnerId == Some(idB)
      && rows[|t0.partners| + 1].userId == idB && rows[|t0.partners| + 1].eventName == eventName
      && rows[|t0.partners| + 1].partnerId == Some(idA)
  {
    var evA := EventData(eventName, PartnerNotRegisteredYet, "", "");
    var r1 := Register(t0, a, evA, NoFault);
    var idA := r1.outcome.playerId;
    var evB := EventData(eventName, idA, "", "");
    var n := |t0.partners|;
    RegisteredRow(t0, a, evA, NoFault);
    RegisteredRow(r1.tables, b, evB, NoFault);
    assert ChosePartner(idA) by {
      assert idA[0] == 'i' && PartnerNotRegisteredYet[0] == 'P';
    }
    BackFillOnlyOpenRows(r1.tables, b, evB, NoFault, n);
    NewRowNotBackFilled(r1.tables, b, evB, NoFault);
  }

  /** The form component: its step and the details entered in step 1. */
  class RegistrationForm {
    var step: Step
    var playerData: PlayerData
    const store: Store

    constructor (store: Store)
      ensures this.store == store
      ensures step == PersonalDetails && playerData == EmptyPlayerData
    {
      this.store := store;
      step := PersonalDetails;
      playerData := EmptyPlayerData;
    }

    /** `handlePersonalDetailsSubmit`: keep the details, move to step 2. */
    method SubmitPersonalDetails(data: PlayerData)
      modifies this
      ensures playerData == data && step == EventSelection
    {
      playerData := data;
      step := EventSelection;
    }

    /** The event form's Back button: return to step 1, keeping the details. */
    method Back()
      modifies this
      ensures step == PersonalDetails && playerData == old(playerData)
    {
      step := PersonalDetails;
    }

    /** `handleEventSubmit`: the registration writer. */
    method HandleEventSubmit(eventData: EventData, fault: Fault) returns (outcome: Outcome)
      requires store.Valid()
      modifies store
      ensures store.Valid()
      ensures Result(outcome, store.Snapshot()) == Register(old(store.Snapshot()), playerData, eventData, fault)
    {
      ghost var t := store.Snapshot();
      if fault == CheckPlayerFails {
        return Failed;
      }
      var existing := PlayersWithNumber(store.players, playerData.whatsappNumber);
      if |existing| > 1 {
        // more than one match makes the single-row lookup report an error
        return Failed;
      }
      if |existing| == 1 {
        if fault == CheckRegistrationsFails {
          return Failed;
        }
        var registrations := RowsOfUser(store.partners, existing[0].id);
        if |registrations| > 0 {
          return Refused;
        }
      }
      if fault == InsertPlayerFails {
        return Failed;
      }
      var player := store.InsertPlayer(playerData);
      if eventData.event1 != "" {
        if fault == InsertPairingFails {
          return Failed;
        }
        store.InsertPairings([PairingInsert(eventData.event1, player.id, PartnerIdFor(eventData.partner1))]);
        if eventData.partner1 != "" && eventData.partner1 != PartnerNotRegisteredYet {
          // the update's result is not inspected: a failure leaves the rows as they were
          if fault != BackFillFails {
            store.UpdateOpenPartner(eventData.partner1, eventData.event1, player.id);
          }
        }
      }
      return Registered(player.id);
    }
  }
}
