/** The partner-availability resolver of `usePartnerData`: for one event, the
    registered players who can still be picked as a partner. */
module PartnerData {
  import opened Schema
  import opened Seqs
  import opened DataStore

  /** One entry of the fetch: `user_id`, `partner_id` and the name of the
      player the row belongs to. */
  datatype Candidate = Candidate(userId: string, partnerId: Option<string>, playerName: string)

  /** The name of the first player whose id is `id`. */
  function NameOf(players: seq<Player>, id: string): (r: Option<string>)
    ensures r.None? <==> forall p :: p in players ==> p.id != id
    ensures r.Some? ==> exists p :: p in players && p.id == id && p.details.name == r.value
  {
    if players == [] then None
    else if players[0].id == id then Some(players[0].details.name)
    else NameOf(players[1..], id)
  }

  /** The inner join of pairing rows with `tbl_players` on `user_id`: a row
      whose user has no player row is dropped. */
  function JoinOnUser(rows: seq<PartnerRow>, players: seq<Player>): (r: seq<Candidate>)
    ensures |r| <= |rows|
    ensures forall c :: c in r ==> NameOf(players, c.userId) == Some(c.playerName)
    ensures forall c :: c in r ==>
      exists x :: x in rows && x.userId == c.userId && x.partnerId == c.partnerId
    ensures forall x :: x in rows && NameOf(players, x.userId).Some? ==>
      Candidate(x.userId, x.partnerId, NameOf(players, x.userId).value) in r
  {
    if rows == [] then []
    else
      var rest := JoinOnUser(rows[1..], players);
      match NameOf(players, rows[0].userId)
      case Some(name) => [Candidate(rows[0].userId, rows[0].partnerId, name)] + rest
      case None => rest
  }

  /** The rows the resolver fetches for `eventName`: one entry per row of the
      event whose user is a player, carrying that player's name. */
  function Fetched(t: Tables, eventName: string): (r: seq<Candidate>)
    ensures forall c :: c in r ==> NameOf(t.players, c.userId) == Some(c.playerName)
    ensures forall c :: c in r ==>
      exists x :: x in t.partners && x.eventName == eventName && x.userId == c.userId && x.partnerId == c.partnerId
    ensures forall x :: x in t.partners && x.eventName == eventName && NameOf(t.players, x.userId).Some? ==>
      Candidate(x.userId, x.partnerId, NameOf(t.players, x.userId).value) in r
  {
    JoinOnUser(RowsForEvent(t.partners, eventName), t.players)
  }

  /** An entry whose `partner_id` is truthy. */
  predicate Partnered(c: Candidate)
  {
    Truthy(c.partnerId)
  }

  /** The players who already have a partner: the user and the partner of every
      partnered entry. */
  function PartneredIds(entries: seq<Candidate>): (r: set<string>)
    ensures forall i :: 0 <= i < |entries| && Partnered(entries[i]) ==>
      entries[i].userId in r && entries[i].partnerId.value in r
  {
    if entries == [] then {}
    else
      var last := entries[|entries| - 1];
      assert forall i :: 0 <= i < |entries| - 1 ==> entries[..|entries| - 1][i] == entries[i];
      PartneredIds(entries[..|entries| - 1]) + if Partnered(last) then {last.userId, last.partnerId.value} else {}
  }

  /** `id` is the user or the partner of some partnered entry. */
  ghost predicate NamedInPartnership(entries: seq<Candidate>, id: string)
  {
    exists i :: 0 <= i < |entries| && Partnered(entries[i]) &&
      (entries[i].userId == id || entries[i].partnerId.value == id)
  }

  lemma {:induction false} PartneredIdsMembership(entries: seq<Candidate>, id: string)
    ensures id in PartneredIds(entries) <==> NamedInPartnership(entries, id)
  {
    if entries != [] {
      var n := |entries| - 1;
      var init := entries[..n];
      PartneredIdsMembership(init, id);
      if NamedInPartnership(init, id) {
        var i :| 0 <= i < |init| && Partnered(init[i]) && (init[i].userId == id || init[i].partnerId.value == id);
        assert entries[i] == init[i];
      }
      if NamedInPartnership(entries, id) {
        var i :| 0 <= i < |entries| && Partnered(entries[i]) &&
          (entries[i].userId == id || entries[i].partnerId.value == id);
        if i < n {
          assert init[i] == entries[i];
        }
      }
    }
  }

  /** The candidate list: the entries whose user is not in the partnered set,
      in fetch order. */
  function Available(entries: seq<Candidate>): (r: seq<Candidate>)
    ensures |r| <= |entries|
    ensures forall c :: c in r <==> c in entries && c.userId !in PartneredIds(entries)
  {
    Filter(entries, (c: Candidate) => c.userId !in PartneredIds(entries))
  }

  /** The `forEach` that fills the partnered set. */
  method CollectPartnered(entries: seq<Candidate>) returns (partnered: set<string>)
    ensures partnered == PartneredIds(entries)
  {
    partnered := {};
    var i := 0;
    while i < |entries|
      invariant 0 <= i <= |entries|
      invariant partnered == PartneredIds(entries[..i])
    {
      var entry := entries[i];
      if Truthy(entry.partnerId) {
        partnered := partnered + {entry.userId};
        partnered := partnered + {entry.partnerId.value};
      }
      assert entries[..i + 1][..i] == entries[..i];
      i := i + 1;
    }
    assert entries[..i] == entries;
  }

  /** `fetchAvailablePartners`: a failed fetch (an error result or an
      exception) yields the empty list. */
  method FetchAvailablePartners(store: Store, eventName: string, fetchFails: bool) returns (available: seq<Candidate>)
    ensures fetchFails ==> available == []
    ensures !fetchFails ==> available == Available(Fetched(store.Snapshot(), eventName))
  {
    if fetchFails {
      return [];
    }
    var registered := Fetched(store.Snapshot(), eventName);
    var partnered := CollectPartnered(registered);
    available := Filter(registered, (c: Candidate) => c.userId !in partnered);
  }

  /** The hook's effect: an empty event name clears the list without a query. */
  method UsePartnerData(store: Store, eventName: string, fetchFails: bool) returns (available: seq<Candidate>, queried: bool)
    ensures queried <==> eventName != ""
    ensures eventName == "" || fetchFails ==> available == []
    ensures eventName != "" && !fetchFails ==> available == Available(Fetched(store.Snapshot(), eventName))
  {
    queried := eventName != "";
    if queried {
      available := FetchAvailablePartners(store, eventName, fetchFails);
    } else {
      available := [];
    }
  }

  // ---------------------------------------------------------------------------
  // Properties of the candidate list

  /** An entry is a candidate exactly when it was fetched and its user is
      neither side of any partnered entry. */
  lemma AvailableExactly(entries: seq<Candidate>, c: Candidate)
    ensures c in Available(entries) <==> c in entries && !NamedInPartnership(entries, c.userId)
  {
    PartneredIdsMembership(entries, c.userId);
  }

  /** The candidates keep the fetch order: they are a subsequence of it. */
  lemma AvailableIsSubsequence(entries: seq<Candidate>)
    ensures IsSubsequence(Available(entries), entries)
  {
    FilterIsSubsequence(entries, (c: Candidate) => c.userId !in PartneredIds(entries));
  }

  /** No candidate is the user or the partner of a partnered entry. */
  lemma AvailableExcludesPartnered(entries: seq<Candidate>, c: Candidate, i: nat)
    requires c in Available(entries)
    requires i < |entries| && Partnered(entries[i])
    ensures c.userId != entries[i].userId && c.userId != entries[i].partnerId.value
  {
    AvailableExactly(entries, c);
  }

  /** A row with a null or empty `partner_id` is open: it stays a candidate
      unless its user is named by some partnered entry. */
  lemma OpenEntryKept(entries: seq<Candidate>, i: nat)
    requires i < |entries| && (entries[i].partnerId == None || entries[i].partnerId == Some(""))
    requires forall j :: 0 <= j < |entries| && Partnered(entries[j]) ==>
      entries[j].userId != entries[i].userId && entries[j].partnerId.value != entries[i].userId
    ensures entries[i] in Available(entries)
  {
    AvailableExactly(entries, entries[i]);
  }

  /** An event without pairing rows offers no candidates. */
  lemma NoRowsNoCandidates(t: Tables, eventName: string)
    requires forall x :: x in t.partners ==> x.eventName != eventName
    ensures Available(Fetched(t, eventName)) == []
  {
    FilterNone(t.partners, (x: PartnerRow) => x.eventName == eventName);
  }

  /** Every candidate comes from a row for the requested event. */
  lemma CandidatesFromEvent(t: Tables, eventName: string, c: Candidate)
    requires c in Available(Fetched(t, eventName))
    ensures exists x :: x in t.partners && x.eventName == eventName && x.userId == c.userId && x.partnerId == c.partnerId
  {
  }

  /** A row of the event with a truthy partner whose user is a player. */
  predicate PartneredPlayerRow(t: Tables, eventName: string, y: PartnerRow)
  {
    y in t.partners && y.eventName == eventName && Truthy(y.partnerId) && NameOf(t.players, y.userId).Some?
  }

  /** At the table level: a row of the event whose user is a player and is
      neither side of any partnered row of the event (among rows whose user is
      a player) is offered, with that player's name. */
  lemma OfferedFromTable(t: Tables, eventName: string, x: PartnerRow)
    requires x in t.partners && x.eventName == eventName
    requires NameOf(t.players, x.userId).Some?
    requires forall y :: PartneredPlayerRow(t, eventName, y) ==> y.userId != x.userId && y.partnerId.value != x.userId
    ensures Candidate(x.userId, x.partnerId, NameOf(t.players, x.userId).value) in Available(Fetched(t, eventName))
  {
    var entries := Fetched(t, eventName);
    var c := Candidate(x.userId, x.partnerId, NameOf(t.players, x.userId).value);
    PartneredIdsMembership(entries, x.userId);
  }

  /** A worked case: B's row names A, so A and B both drop out; C's row has an
      empty partner and stays. */
  lemma ExampleResolution()
    ensures Available([Candidate("a", None, "A"), Candidate("b", Some("a"), "B"), Candidate("c", Some(""), "C")])
         == [Candidate("c", Some(""), "C")]
  {
    var e := [Candidate("a", None, "A"), Candidate("b", Some("a"), "B"), Candidate("c", Some(""), "C")];
    assert e[..2][..1] == [e[0]] && e[..2] == [e[0], e[1]] && e[..2][..1] == e[..1];
    assert PartneredIds(e[..1]) == {};
    assert PartneredIds(e[..2]) == {"b", "a"};
    assert PartneredIds(e) == {"b", "a"};
  }
}
