# Tennis rally hub: the pairing and registration core

This project models the part of the tournament portal that decides who plays with whom:

- how a player registers for an event with or without a partner;
- how a partner's open row is back-filled with the new player;
- which players are still available as partners for an event;
- how a signed-in player re-registers for events or edits their details;
- how the administrator orders the pairs of an event by ranking and writes rankings back.

The hosted database is a value `DataStore.Tables`. It holds the `tbl_players` rows, the `tbl_partners` rows and an id generator. Every query and update the portal sends is a function on that value.

`DataStore.Store` is the database as an object updated in place. Its invariant `Valid` says two things:

- ids are primary keys;
- every id was issued by the generator, so the next id is fresh.

Each component with state is a class:

- `RegistrationForm` holds the form step and the entered details.
- `EventSelectionForm` holds the four event and partner fields.
- `UserDashboard` holds the edit mode and the shown rows.
- `AdminDashboard` holds the selected event, the fetched pairs and the rankings map.

Each handler is a method that runs the source's steps against the `Store`. It is proved equal to a function on `Tables`. For example, `HandleEventSubmit` is proved equal to `Register`. The properties of each function are lemmas.

A failing database call is an explicit parameter: a `Fault` value naming which call of a registration errors, or one `bool` per call elsewhere. The model then follows the source's `throw` and `catch` paths.

Modules and files:

| module | file | what |
|---|---|---|
| `Schema` | schema.dfy | row shapes, the partner sentinel, JavaScript truthiness |
| `Seqs` | seqs.dfy | `Filter` on sequences with its lemmas |
| `Decimal` | decimal.dfy | `toString` and `parseInt` on integers |
| `DataStore` | store.dfy | the tables, the queries and updates, the `Store` class |
| `PartnerData` | partner_data.dfy | `usePartnerData`, the partner-availability resolver |
| `EventSelector` | event_selector.dfy | the `filteredEvents` exclusion filter |
| `EventSelection` | event_selection.dfy | `EventSelectionForm`: field updates and the submit guard |
| `Registration` | registration.dfy | `RegistrationForm` and the registration writer |
| `Dashboard` | dashboard.dfy | `UserDashboard`: re-registration and details update |
| `Admin` | admin.dfy | `AdminDashboard`: ordering, the rankings map and the submit loop |

### Behaviour the model follows from the code

The model follows what the code does, including these behaviours that its screens and comments do not suggest. For example, the second slot is labelled "Event 2 (Optional)" (src/components/EventSelectionForm.tsx:96), yet registration keeps only the first (RegistrationForm.tsx:102):

- **No reuse of existing players.** Registration looks up a player by WhatsApp number. The lookup only decides whether to refuse. When it finds a player without pairing rows, registration still inserts a *new* player row, so two players then share the number (`Registration.DuplicateNumberWithoutRows`).
- **Shared numbers break later registrations.** The lookup expects at most one row. When two rows match, it reports an error, so every later registration with that number fails (`Registration.SharedNumberFails`).
- **One event per registration.** Registration writes a pairing row for `event1` only; `event2` is ignored (`Registration.SecondSlotIgnored`). Choosing only `event2` passes the form's guard (`EventSelection.SecondSlotAloneSubmits`), registers the player and writes no pairing row.
- **Unchecked back-fill.** The result of the partner back-fill is not inspected, so a failing back-fill still reports success.
- **Unchecked delete, no restore.** On the dashboard, the delete that precedes re-registration is not checked. A failing delete leaves the old rows: the new ones are added beside them, or, if the insert fails too, the table is left as it was (`Dashboard.FailedDeleteKeepsRows`). A failing insert after a successful delete leaves the player with no rows at all (`Dashboard.UserRowsAfterUpdate`).
- **Partial ranking writes.** Rankings are written one row at a time. An error stops the loop with the earlier rows already written (`Admin.SubmitRankings`).

## Model

| member | source | states |
|---|---|---|
| Schema.PartnerIdFor | src/components/RegistrationForm.tsx:110 | the written `partner_id` is null exactly for the "Partner not registered yet" choice, and is otherwise the choice itself |
| DataStore.PlayersWithNumber | src/components/RegistrationForm.tsx:59-63 | a player is returned iff it is in the table and has that WhatsApp number |
| DataStore.RowsOfUser | src/components/RegistrationForm.tsx:72-75 | a row is returned iff it is in the table and belongs to the user |
| DataStore.RowsForEvent | src/hooks/usePartnerData.ts:19-26 | a row is returned iff it is in the table and is for the event |
| DataStore.AddPlayer | src/components/RegistrationForm.tsx:93-97 | the insert appends one player with the next fresh id and leaves the pairing table alone |
| DataStore.Materialize | src/components/UserDashboard.tsx:94-97 | a batch insert creates one row per entry, in order, with consecutive fresh ids and a null ranking |
| DataStore.AddPairings | src/components/UserDashboard.tsx:94-97 | the batch insert appends exactly the materialized rows and advances the generator by their number |
| DataStore.BackFill | src/components/RegistrationForm.tsx:116-123 | only `partner_id` changes, and only on rows of that user and event whose partner is null |
| DataStore.SetRanking | src/components/AdminDashboard.tsx:88-91 | only the `ranking` of rows with that id changes |
| DataStore.SetDetails | src/components/UserDashboard.tsx:45-48 | only the details of the player with that id change; ids stay in place |
| DataStore.DeleteRowsOfUser | src/components/UserDashboard.tsx:70-73 | exactly the rows of the user are removed; the players table is unchanged |
| DataStore.NextIdFresh | src/integrations/supabase/types.ts:30-39 | in a well-formed store the next id is carried by no row of either table |
| DataStore.Store.InsertPlayer | src/components/RegistrationForm.tsx:93-97 | the store becomes `AddPlayer` of its old contents and returns the new row; the invariant holds |
| DataStore.Store.InsertPairings | src/components/UserDashboard.tsx:94-97 | the store becomes `AddPairings` of its old contents; the invariant holds |
| DataStore.Store.UpdateOpenPartner | src/components/RegistrationForm.tsx:117-122 | the store's pairing rows become `BackFill` of the old ones; the invariant holds |
| DataStore.Store.DeleteWhereUser | src/components/UserDashboard.tsx:70-73 | the store becomes `DeleteRowsOfUser` of its old contents; the invariant holds |
| DataStore.Store.UpdateRanking | src/components/AdminDashboard.tsx:88-91 | the store's pairing rows become `SetRanking` of the old ones; the invariant holds |
| DataStore.Store.UpdatePlayer | src/components/UserDashboard.tsx:45-48 | the store's players become `SetDetails` of the old ones; the invariant holds |
| Decimal.IntToString | src/components/AdminDashboard.tsx:66 | the text is non-empty, starts with `-` iff the integer is negative, and is digits otherwise |
| Decimal.ParseInt | src/components/AdminDashboard.tsx:84 | no number iff no digit follows the optional sign; a negative result needs a leading `-`; an all-digit text reads as its decimal value |
| Decimal.ParseIntToString | src/components/AdminDashboard.tsx:66 | `parseInt` of an integer's `toString` gives the integer back |
| PartnerData.NameOf | src/hooks/usePartnerData.ts:24 | the name is absent iff no player has the id, and otherwise is the name of a player with that id |
| PartnerData.JoinOnUser | src/hooks/usePartnerData.ts:19-26 | the inner join yields at most one entry per row, each carrying the user and partner of some row and the user's name; every row whose user is a player yields its entry |
| PartnerData.Fetched | src/hooks/usePartnerData.ts:19-26 | the entries of an event are exactly its rows whose user is a player, each with that player's name |
| PartnerData.PartneredIds | src/hooks/usePartnerData.ts:34-41 | both sides of every entry with a truthy `partner_id` are in the set |
| PartnerData.Available | src/hooks/usePartnerData.ts:43-46 | the candidates are no more than the entries, and an entry is kept iff its user is not partnered |
| PartnerData.PartneredIdsMembership | src/hooks/usePartnerData.ts:34-41 | an id is in the partnered set iff it is the user or the partner of an entry with a truthy `partner_id` |
| PartnerData.CollectPartnered | src/hooks/usePartnerData.ts:35-41 | the `forEach` loop builds exactly the partnered set |
| PartnerData.FetchAvailablePartners | src/hooks/usePartnerData.ts:16-54 | a failed fetch gives the empty list; otherwise the result is the fetched entries whose user is not partnered |
| PartnerData.UsePartnerData | src/hooks/usePartnerData.ts:8-14 | the query runs iff the event name is non-empty; an empty name gives the empty list |
| PartnerData.AvailableExactly | src/hooks/usePartnerData.ts:43-46 | an entry is a candidate iff it was fetched and its user is neither side of any partnered entry |
| PartnerData.AvailableIsSubsequence | src/hooks/usePartnerData.ts:44-46 | the candidates keep the fetch order |
| PartnerData.AvailableExcludesPartnered | src/hooks/usePartnerData.ts:34-46 | no candidate is the user or the partner of a partnered entry |
| PartnerData.OpenEntryKept | src/hooks/usePartnerData.ts:37-46 | an entry with a null or empty partner stays unless its user is named by a partnered entry |
| PartnerData.OfferedFromTable | src/hooks/usePartnerData.ts:19-46 | a row for the event whose user is a player and is neither side of any partnered row of the event is offered as a candidate |
| PartnerData.NoRowsNoCandidates | src/hooks/usePartnerData.ts:19-46 | an event with no rows offers no candidates |
| PartnerData.CandidatesFromEvent | src/hooks/usePartnerData.ts:19-26 | every candidate comes from a row for the requested event |
| PartnerData.ExampleResolution | src/hooks/usePartnerData.ts:34-46 | with A open, B naming A and C with an empty partner, only C is offered |
| EventSelector.FilteredEvents | src/components/EventSelector.tsx:22-24 | the list only shrinks and keeps only offered events; with a truthy exclusion no listed event carries it; without one the list is unchanged |
| EventSelector.NoExclusionUnchanged | src/components/EventSelector.tsx:22-24 | without a truthy exclusion, the list is returned unchanged |
| EventSelector.ExclusionMembership | src/components/EventSelector.tsx:22-23 | with an exclusion, an event is listed iff it was offered and has a different name |
| EventSelector.ExclusionKeepsOrder | src/components/EventSelector.tsx:22-23 | the kept events are a subsequence of the offered ones |
| EventSelector.ExclusionLength | src/components/EventSelector.tsx:22-23 | exactly the events carrying the excluded name are dropped |
| EventSelection.Updated | src/components/EventSelectionForm.tsx:62-72 | the field holds the new value, the partner of a changed event is reset to "", and every other field is unchanged |
| EventSelection.Validate | src/components/EventSelectionForm.tsx:41-59 | rejected for no event iff both are empty; rejected as a duplicate iff `event1` is non-empty and equals `event2`; otherwise the record is submitted as is |
| EventSelection.SecondSlotAloneSubmits | src/components/EventSelectionForm.tsx:41-59 | a record with only `event2` filled passes the guard |
| EventSelection.EventSelectionForm.constructor | src/components/EventSelectionForm.tsx:19-36 | the record starts empty and is replaced by the initial data when given |
| EventSelection.EventSelectionForm.LoadInitialData | src/components/EventSelectionForm.tsx:31-36 | provided initial data replaces the whole record; absent data changes nothing |
| EventSelection.EventSelectionForm.UpdateField | src/components/EventSelectionForm.tsx:62-72 | the two successive state updates give `Updated` of the old record |
| EventSelection.EventSelectionForm.HandleSubmit | src/components/EventSelectionForm.tsx:38-60 | `onSubmit` receives the record iff at least one event is chosen and the two are not the same non-empty event |
| EventSelection.EventSelectionForm.SecondSlotEvents | src/components/EventSelectionForm.tsx:99-105 | the second slot offers every event not named by a non-empty first slot |
| Registration.Register | src/components/RegistrationForm.tsx:55-142 | nothing is written before the checks pass; refused iff one player has the number and has rows; past the checks a new player row is always written; registered iff no insert fails; a failed pairing insert leaves exactly the new player written; at most one pairing row; the store stays well formed |
| Registration.PassesChecks | src/components/RegistrationForm.tsx:59-89 | passing the checks means the number is not already registered: every player with it has no pairing rows |
| Registration.AlreadyRegistered | src/components/RegistrationForm.tsx:70-89 | refused as registered only when a player has the number and has pairing rows |
| Registration.RegisteredRow | src/components/RegistrationForm.tsx:104-111 | the row for `event1` belongs to the new player, has a null partner exactly for the sentinel, otherwise the choice, and has no ranking |
| Registration.BackFillOnlyOpenRows | src/components/RegistrationForm.tsx:115-123 | an existing row changes only in `partner_id`, and only when it is an open row of the chosen partner for `event1` |
| Registration.NewRowNotBackFilled | src/components/RegistrationForm.tsx:104-123 | the new row keeps the partner it was written with |
| Registration.SecondSlotIgnored | src/components/RegistrationForm.tsx:103-124 | the second event slot has no effect on registration |
| Registration.RegisteredIdFresh | src/components/RegistrationForm.tsx:93-97 | the new player's id is carried by no earlier row |
| Registration.DuplicateNumberWithoutRows | src/components/RegistrationForm.tsx:58-99 | a known number without rows registers a second player with the same number |
| Registration.SharedNumberFails | src/components/RegistrationForm.tsx:59-68 | once two players share a number, registration with it fails and writes nothing |
| Registration.MutualPairing | src/components/RegistrationForm.tsx:104-123 | A registers open, then B registers choosing A: the two rows name each other |
| Registration.RegistrationForm.constructor | src/components/RegistrationForm.tsx:35-46 | the form starts at step 1 with empty details |
| Registration.RegistrationForm.SubmitPersonalDetails | src/components/RegistrationForm.tsx:50-53 | the details are kept and the form moves to step 2 |
| Registration.RegistrationForm.Back | src/components/RegistrationForm.tsx:174 | the form returns to step 1 and keeps the details |
| Registration.RegistrationForm.HandleEventSubmit | src/components/RegistrationForm.tsx:55-142 | the outcome and the new store are those of `Register` on the old store; the invariant holds |
| Dashboard.Entries | src/components/UserDashboard.tsx:76-92 | `event1` first if chosen, then `event2` if chosen, all for the user, with a null partner exactly for the sentinel |
| Dashboard.ReRegister | src/components/UserDashboard.tsx:67-116 | players are unchanged; the outcome fails iff there are entries and the insert errors; the rows are the kept rows (all of them when the delete errors) followed by the inserted ones |
| Dashboard.ReRegisterWellFormed | src/components/UserDashboard.tsx:67-100 | the update keeps the store well formed |
| Dashboard.OthersUntouched | src/components/UserDashboard.tsx:70-100 | other players' rows are exactly as before: no back-fill, no deletion |
| Dashboard.UserRowsAfterUpdate | src/components/UserDashboard.tsx:67-100 | after a delete, the player's rows are the new entries on success and none after a failed insert |
| Dashboard.NoEventsNoRows | src/components/UserDashboard.tsx:76-100 | choosing no event succeeds and leaves the player without rows |
| Dashboard.FailedDeleteKeepsRows | src/components/UserDashboard.tsx:70-100 | a failed delete keeps the old rows and a successful insert adds the new ones after them; if the insert fails too, the store is exactly as before |
| Dashboard.UpdateDetails | src/components/UserDashboard.tsx:43-50 | only the signed-in player's row changes, to the new details; the pairing table is unchanged |
| Dashboard.UserDashboard.constructor | src/components/UserDashboard.tsx:18-25 | no edit mode; the player's rows are loaded unless the fetch fails |
| Dashboard.UserDashboard.FetchUserEvents | src/components/UserDashboard.tsx:27-41 | the shown rows become the player's rows; an error keeps the old list |
| Dashboard.UserDashboard.BuildEntries | src/components/UserDashboard.tsx:76-92 | the pushes build exactly `Entries` |
| Dashboard.UserDashboard.HandleEventUpdate | src/components/UserDashboard.tsx:67-116 | the outcome and the new store are those of `ReRegister`; success leaves edit mode and reloads; failure changes no view state |
| Dashboard.UserDashboard.HandlePersonalDetailsUpdate | src/components/UserDashboard.tsx:43-65 | on success the store becomes `UpdateDetails` and edit mode ends; on failure nothing changes |
| Admin.Embed | src/components/AdminDashboard.tsx:48-55 | one pair per row, in order, carrying the row and the names of its user and partner players; a row without a partner has no partner name |
| Admin.PartnerLabel | src/components/AdminDashboard.tsx:174 | the partner column shows a truthy partner name, and the sentinel otherwise |
| Admin.OpenRowLabel | src/components/AdminDashboard.tsx:174 | a row without a partner is shown with the sentinel |
| Admin.Insert | src/components/AdminDashboard.tsx:56 | inserting adds exactly one pair to the multiset |
| Admin.OrderByRanking | src/components/AdminDashboard.tsx:56 | the ordering is a permutation of the fetched pairs |
| Admin.InsertSorted | src/components/AdminDashboard.tsx:56 | inserting into a sorted list keeps it sorted |
| Admin.OrderByRankingSorted | src/components/AdminDashboard.tsx:56 | the order is ascending by ranking with every null after every number |
| Admin.EventPairs | src/components/AdminDashboard.tsx:47-56 | the fetched pairs are sorted; each is a row of the event and every row of the event appears |
| Admin.Lookup | src/components/AdminDashboard.tsx:178 | a key is absent iff it is not in the map; a found value is the key's entry |
| Admin.Put | src/components/AdminDashboard.tsx:73-78 | the key maps to the new value, other keys keep theirs, an existing key keeps its place and a new one goes last |
| Admin.PutDistinct | src/components/AdminDashboard.tsx:73-78 | an update never duplicates a key |
| Admin.InitialRankings | src/components/AdminDashboard.tsx:62-69 | the seeded map has no duplicate key, and its keys are exactly the ids of the pairs with a truthy ranking |
| Admin.InitialRankingsSound | src/components/AdminDashboard.tsx:62-69 | every seeded entry is a pair's id with its truthy ranking in decimal |
| Admin.ParseRanking | src/components/AdminDashboard.tsx:84 | an empty entry sends null |
| Admin.ParseRankingRoundTrip | src/components/AdminDashboard.tsx:66-84 | a ranking as seeded is read back unchanged |
| Admin.Updates | src/components/AdminDashboard.tsx:82-85 | one update per entry, in key order, with the parsed value |
| Admin.ApplyRankings | src/components/AdminDashboard.tsx:87-94 | only rankings change, and rows named by no update are untouched |
| Admin.ApplyRankingsValue | src/components/AdminDashboard.tsx:87-94 | with distinct ids, a named row ends with its update's ranking |
| Admin.ApplyRankingsIdentity | src/components/AdminDashboard.tsx:87-94 | updates that write back the held rankings change nothing |
| Admin.SubmitRankings | src/components/AdminDashboard.tsx:80-110 | players are unchanged; it fails iff the failing index is within the updates; exactly the updates before it are applied |
| Admin.SubmitTouchesOnlyListedRankings | src/components/AdminDashboard.tsx:80-94 | a submit changes at most the ranking of a row, and a row whose id is not in the map not at all |
| Admin.SubmitWritesEntries | src/components/AdminDashboard.tsx:80-94 | after a full submit each listed row holds its entry's parsed value |
| Admin.ResubmitUnchanged | src/components/AdminDashboard.tsx:62-94 | submitting the map as loaded leaves the store unchanged |
| Admin.AdminDashboard.constructor | src/components/AdminDashboard.tsx:18-21 | no event, no pairs and an empty map; the invariant `Valid` (no duplicate key in the map) holds, and every handler below keeps it |
| Admin.AdminDashboard.SeedRankings | src/components/AdminDashboard.tsx:63-68 | the `forEach` loop builds exactly `InitialRankings` |
| Admin.AdminDashboard.FetchEventPairs | src/components/AdminDashboard.tsx:47-71 | on success the pairs are `EventPairs` of the selected event and the map is seeded from them; an error keeps both |
| Admin.AdminDashboard.SelectEvent | src/components/AdminDashboard.tsx:28-32 | the fetch runs iff the choice changed to a non-empty name |
| Admin.AdminDashboard.HandleRankingChange | src/components/AdminDashboard.tsx:73-78 | the map becomes `Put` of the old one |
| Admin.AdminDashboard.HandleSubmitRankings | src/components/AdminDashboard.tsx:80-110 | the outcome and the new store are those of `SubmitRankings` on the old map; success reloads the pairs and the map; failure keeps them |

## Left out

- The database client: queries are modelled by their effect on the tables. Timestamps (`created_at`, `updated_at`) are not modelled, and neither are foreign-key and UUID checks: a `partner_id` naming no player is stored as given.
- Asynchrony and races: every handler runs to completion before the next step. A refetch that the source does not await is modelled as finishing before the handler returns.
- Toasts, console logging, navigation (`onBack`, `onLogout`) and the `isSubmitting` flag: they have no effect on the data.
- The events list (`fetchEvents`, `useEventData`): a read-only list ordered by name, used only for display; `FilteredEvents` takes it as a parameter.
- JSX rendering, except the partner label and the ranking lookup that the table shows. `PersonalDetailsForm`, `PartnerSelector` (apart from its sentinel value), `AdminLogin` and `UserLogin` are not part of this model.
- PartnerData.JoinOnUser: the embed `tbl_players!inner(id, name)` is ambiguous, because `tbl_partners` has two foreign keys to `tbl_players` (src/integrations/supabase/types.ts:58-73). The hosted database most likely rejects such an embed with an error; the hook would then always take its error path (src/hooks/usePartnerData.ts:28-31) and offer no partner, which is the model's `fetchFails` case of `FetchAvailablePartners`. The success path is modelled as an inner join on `user_id`. Neither reading was executed.
- Dashboard.UserDashboard.FetchUserEvents: the embedded partner name of each row is not kept, only the rows.
- Dashboard.UserDashboard.HandlePersonalDetailsUpdate: the source sends the whole form object; the model replaces the details and keeps the id. The `user` object shown afterwards is not refreshed, and that is not modelled either.
- Decimal.ParseInt: `parseInt` is modelled as an optional sign followed by the longest run of decimal digits. Leading whitespace and radix prefixes are not modelled.
- Admin.Lookup: object keys are kept in insertion order; the reordering JavaScript applies to integer-like keys does not arise for the store's ids and is not modelled.
- Admin.OrderByRanking: the database does not promise an order among equal rankings; the model keeps the fetch order for ties.
- Admin.SubmitRankings: the stored ranking is an unbounded integer; the column's width and any range check are not modelled.
- Deduplication of mirrored pairs (A with B and B with A both listed) and validation of ranking values: the source does neither.
