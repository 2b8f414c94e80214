/** The row shapes of the hosted tables and the records the forms pass around.
    Timestamps (`created_at`, `updated_at`) are filled in by the store and are
    not part of the model. */
module Schema {

  datatype Option<+T> = None | Some(value: T)

  /** The value the partner selector offers for "no partner yet". */
  const PartnerNotRegisteredYet: string := "Partner not registered yet"

  /** The personal details a player enters (the `PlayerData` record). */
  datatype PlayerData = PlayerData(
    name: string,
    whatsappNumber: string,
    dateOfBirth: string,
    city: string,
    shirtSize: string,
    shortSize: string,
    foodPref: string,
    stayYOrN: bool,
    feePaid: bool)

  const EmptyPlayerData: PlayerData := PlayerData("", "", "", "", "", "", "", false, false)

  /** A row of `tbl_players`: the store's id and the details. */
  datatype Player = Player(id: string, details: PlayerData)

  /** A row of `tbl_partners` (a pairing row). */
  datatype PartnerRow = PartnerRow(
    id: string,
    eventName: string,
    userId: string,
    partnerId: Option<string>,
    ranking: Option<int>)

  /** A row of `tbl_eventname`. */
  datatype EventRow = EventRow(id: string, eventName: string)

  /** The event-selection record: two event slots, each with a partner choice. */
  datatype EventData = EventData(event1: string, partner1: string, event2: string, partner2: string)

  const EmptyEventData: EventData := EventData("", "", "", "")

  /** What a pairing insert sends: the store adds the id and a null ranking. */
  datatype PairingInsert = PairingInsert(eventName: string, userId: string, partnerId: Option<string>)

  /** JavaScript truthiness of a nullable string: null and "" are falsy. */
  predicate Truthy(s: Option<string>)
  {
    s.Some? && s.value != ""
  }

  /** A row that already names a partner, by the truthiness test. */
  predicate HasPartner(r: PartnerRow)
  {
    Truthy(r.partnerId)
  }

  /** The `partner_id` written for a partner choice: null for the sentinel,
      otherwise the choice verbatim (the empty string included). */
  function PartnerIdFor(choice: string): (r: Option<string>)
    ensures r.None? <==> choice == PartnerNotRegisteredYet
    ensures r.Some? ==> r.value == choice
  {
    if choice == PartnerNotRegisteredYet then None else Some(choice)
  }
}
