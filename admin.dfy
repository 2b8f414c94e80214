/** The administrator's rankings screen: the pairs of one event ordered by
    ranking, the editable map from pair id to ranking text, and the submit
    loop that writes each ranking back one row at a time. */
module Admin {
  import opened Schema
  import opened Seqs
  import opened DataStore
  import Decimal
  import PartnerData

  /** A fetched pair: the pairing row with the names embedded through the
      `user_id` and `partner_id` foreign keys (left joins: a missing player
      gives `None`). */
  datatype Pair = Pair(row: PartnerRow, userName: Option<string>, partnerName: Option<string>)

  /** The embed of both names into each row. */
  function Embed(rows: seq<PartnerRow>, players: seq<Player>): (r: seq<Pair>)
    ensures |r| == |rows|
    ensures forall i :: 0 <= i < |r| ==> r[i].row == rows[i]
    ensures forall i :: 0 <= i < |r| ==> r[i].userName == PartnerData.NameOf(players, rows[i].userId)
    ensures forall i :: 0 <= i < |r| && rows[i].partnerId.Some? ==>
      r[i].partnerName == PartnerData.NameOf(players, rows[i].partnerId.value)
    ensures forall i :: 0 <= i < |r| && rows[i].partnerId.None? ==> r[i].partnerName.None?
  {
    seq(|rows|, i requires 0 <= i < |rows| =>
      Pair(rows[i], PartnerData.NameOf(players, rows[i].userId),
        if rows[i].partnerId.None? then None else PartnerData.NameOf(players, rows[i].partnerId.value)))
  }

  /** The text in the partner column: the partner's name, or the sentinel when
      there is none. */
  function PartnerLabel(p: Pair): (r: string)
    ensures Truthy(p.partnerName) ==> r == p.partnerName.value
    ensures !Truthy(p.partnerName) ==> r == PartnerNotRegisteredYet
  {
    if Truthy(p.partnerName) then p.partnerName.value else PartnerNotRegisteredYet
  }

  /** A row without a partner is shown with the sentinel. */
  lemma OpenRowLabel(rows: seq<PartnerRow>, players: seq<Player>, i: nat)
    requires i < |rows| && rows[i].partnerId.None?
    ensures PartnerLabel(Embed(rows, players)[i]) == PartnerNotRegisteredYet
  {
  }

  // ---------------------------------------------------------------------------
  // Ordering by ranking, ascending, nulls last

  /** `a` may be listed before `b`. */
  predicate RankedBefore(a: Option<int>, b: Option<int>)
  {
    b.None? || (a.Some? && a.value <= b.value)
  }

  ghost predicate SortedByRanking(s: seq<Pair>)
  {
    forall i, j :: 0 <= i < j < |s| ==> RankedBefore(s[i].row.ranking, s[j].row.ranking)
  }

  /** Place `p` before the first pair it may precede. */
  function Insert(p: Pair, s: seq<Pair>): (r: seq<Pair>)
    ensures multiset(r) == multiset(s) + multiset{p}
  {
    if s == [] then [p]
    else if RankedBefore(p.row.ranking, s[0].row.ranking) then [p] + s
    else
      assert s == [s[0]] + s[1..];
      [s[0]] + Insert(p, s[1..])
  }

  /** The database's ordering of the fetched pairs. Ties keep their fetch order. */
  function OrderByRanking(s: seq<Pair>): (r: seq<Pair>)
    ensures multiset(r) == multiset(s)
  {
    if s == [] then []
    else
      assert s == [s[0]] + s[1..];
      Insert(s[0], OrderByRanking(s[1..]))
  }

  lemma {:induction false} InsertSorted(p: Pair, s: seq<Pair>)
    requires SortedByRanking(s)
    ensures SortedByRanking(Insert(p, s))
  {
    if s == [] {
    } else if RankedBefore(p.row.ranking, s[0].row.ranking) {
      var r := [p] + s;
      forall i, j | 0 <= i < j < |r| ensures RankedBefore(r[i].row.ranking, r[j].row.ranking) {
        if i == 0 {
          if j > 1 {
            assert RankedBefore(s[0].row.ranking, s[j - 1].row.ranking);
          }
        } else {
          assert r[i] == s[i - 1] && r[j] == s[j - 1];
        }
      }
    } else {
      var tail := s[1..];
      assert SortedByRanking(tail) by {
        forall i, j | 0 <= i < j < |tail| ensures RankedBefore(tail[i].row.ranking, tail[j].row.ranking) {
          assert tail[i] == s[i + 1] && tail[j] == s[j + 1];
        }
      }
      InsertSorted(p, tail);
      var rt := Insert(p, tail);
      var r := [s[0]] + rt;
      forall j | 0 <= j < |rt| ensures RankedBefore(s[0].row.ranking, rt[j].row.ranking) {
        assert rt[j] in multiset(rt);
        if rt[j] != p {
          assert rt[j] in multiset(tail);
          var k :| 0 <= k < |tail| && tail[k] == rt[j];
          assert tail[k] == s[k + 1];
        }
      }
      forall i, j | 0 <= i < j < |r| ensures RankedBefore(r[i].row.ranking, r[j].row.ranking) {
        if i == 0 {
          assert r[j] == rt[j - 1];
        } else {
          assert r[i] == rt[i - 1] && r[j] == rt[j - 1];
        }
      }
    }
  }

  /** The ordering is ascending by ranking with every null after every number. */
  lemma {:induction false} OrderByRankingSorted(s: seq<Pair>)
    ensures SortedByRanking(OrderByRanking(s))
  {
    if s != [] {
      OrderByRankingSorted(s[1..]);
      InsertSorted(s[0], OrderByRanking(s[1..]));
    }
  }

  /** `fetchEventPairs`' query: the rows of the event, names embedded, ordered. */
  function EventPairs(t: Tables, eventName: string): (r: seq<Pair>)
    ensures SortedByRanking(r)
    ensures |r| == |RowsForEvent(t.partners, eventName)|
    ensures forall p :: p in r ==> p.row in t.partners && p.row.eventName == eventName
    ensures forall x :: x in t.partners && x.eventName == eventName ==> exists p :: p in r && p.row == x
  {
    var rows := RowsForEvent(t.partners, eventName);
    var e := Embed(rows, t.players);
    var r := OrderByRanking(e);
    OrderByRankingSorted(e);
    assert |r| == |multiset(r)| == |multiset(e)| == |e|;
    assert forall p :: p in r ==> p in e by {
      forall p | p in r ensures p in e {
        assert p in multiset(r);
      }
    }
    assert forall x :: x in rows ==> exists p :: p in r && p.row == x by {
      forall x | x in rows ensures exists p :: p in r && p.row == x {
        var i :| 0 <= i < |rows| && rows[i] == x;
        assert e[i] in multiset(e);
        assert e[i] in r;
      }
    }
    r
  }

  // ---------------------------------------------------------------------------
  // The rankings map: pair id to ranking text, in insertion order

  /** A JavaScript object with string keys, as its entries in insertion order. */
  type Rankings = seq<(string, string)>

  function Keys(m: Rankings): set<string>
  {
    if m == [] then {} else {m[0].0} + Keys(m[1..])
  }

  ghost predicate DistinctKeys(m: Rankings)
  {
    forall i, j :: 0 <= i < j < |m| ==> m[i].0 != m[j].0
  }

  /** `m[k]`, `undefined` as `None`. */
  function Lookup(m: Rankings, k: string): (r: Option<string>)
    ensures r.None? <==> k !in Keys(m)
    ensures r.Some? ==> (k, r.value) in m
  {
    if m == [] then None
    else if m[0].0 == k then Some(m[0].1)
    else Lookup(m[1..], k)
  }

  /** `{ ...m, [k]: v }`: an existing key keeps its place, a new one goes last. */
  function Put(m: Rankings, k: string, v: string): (r: Rankings)
    ensures Keys(r) == Keys(m) + {k}
    ensures Lookup(r, k) == Some(v)
    ensures forall j :: j != k ==> Lookup(r, j) == Lookup(m, j)
    ensures k !in Keys(m) ==> r == m + [(k, v)]
    ensures |r| == if k in Keys(m) then |m| else |m| + 1
    ensures forall i :: 0 <= i < |m| ==> r[i].0 == m[i].0
    ensures forall e :: e in r ==> e in m || e == (k, v)
  {
    if m == [] then [(k, v)]
    else if m[0].0 == k then [(k, v)] + m[1..]
    else [m[0]] + Put(m[1..], k, v)
  }

  lemma {:induction false} KeysIndex(m: Rankings, k: string)
    ensures k in Keys(m) <==> exists i :: 0 <= i < |m| && m[i].0 == k
  {
    if m != [] {
      KeysIndex(m[1..], k);
      if k in Keys(m[1..]) {
        var i :| 0 <= i < |m[1..]| && m[1..][i].0 == k;
        assert m[i + 1].0 == k;
      }
      if exists i :: 0 <= i < |m| && m[i].0 == k {
        var i :| 0 <= i < |m| && m[i].0 == k;
        if i > 0 {
          assert m[1..][i - 1].0 == k;
        }
      }
    }
  }

  /** Updating the map never creates a duplicate key. */
  lemma PutDistinct(m: Rankings, k: string, v: string)
    requires DistinctKeys(m)
    ensures DistinctKeys(Put(m, k, v))
  {
    var r := Put(m, k, v);
    KeysIndex(m, k);
    forall i, j | 0 <= i < j < |r| ensures r[i].0 != r[j].0 {
      if j >= |m| {
        assert r[j] == (k, v);
      }
    }
  }

  function TruthyRanking(ranking: Option<int>): bool
  {
    ranking.Some? && ranking.value != 0
  }

  /** The `forEach` that seeds the map: every pair with a truthy ranking,
      keyed by its id, with the ranking as decimal text. */
  function InitialRankings(pairs: seq<Pair>): (r: Rankings)
    ensures DistinctKeys(r)
    ensures forall k :: k in Keys(r) <==> exists i :: 0 <= i < |pairs| && SeedsKey(pairs[i], k)
  {
    if pairs == [] then []
    else
      var init := pairs[..|pairs| - 1];
      var m := InitialRankings(init);
      var p := pairs[|pairs| - 1];
      assert forall i :: 0 <= i < |init| ==> init[i] == pairs[i];
      if TruthyRanking(p.row.ranking) then
        PutDistinct(m, p.row.id, Decimal.IntToString(p.row.ranking.value));
        Put(m, p.row.id, Decimal.IntToString(p.row.ranking.value))
      else m
  }

  /** Pair `p` has id `k` and a truthy ranking. */
  predicate SeedsKey(p: Pair, k: string)
  {
    p.row.id == k && TruthyRanking(p.row.ranking)
  }

  /** Entry `e` of the map is the one pair `p` seeds: its id and its truthy
      ranking in decimal. */
  predicate Seeds(p: Pair, e: (string, string))
  {
    p.row.id == e.0 && TruthyRanking(p.row.ranking) && e.1 == Decimal.IntToString(p.row.ranking.value)
  }

  /** Every entry of the seeded map comes from a pair with that id and a
      truthy ranking, which it spells in decimal. */
  lemma {:induction false} InitialRankingsSound(pairs: seq<Pair>)
    ensures forall e :: e in InitialRankings(pairs) ==> exists p :: p in pairs && Seeds(p, e)
  {
    if pairs != [] {
      var init := pairs[..|pairs| - 1];
      InitialRankingsSound(init);
      forall e | e in InitialRankings(pairs)
        ensures exists p :: p in pairs && Seeds(p, e)
      {
        if e in InitialRankings(init) {
          var p :| p in init && Seeds(p, e);
          assert p in pairs;
        } else {
          assert pairs[|pairs| - 1] in pairs;
        }
      }
    }
  }

  /** The value `ranking ? parseInt(ranking) : null` sends for one entry;
      `NaN` travels as null. */
  function ParseRanking(s: string): (r: Option<int>)
    ensures s == "" ==> r.None?
  {
    if s == "" then None else Decimal.ParseInt(s)
  }

  /** A ranking shown as loaded is read back unchanged. */
  lemma ParseRankingRoundTrip(i: int)
    ensures ParseRanking(Decimal.IntToString(i)) == Some(i)
  {
    Decimal.ParseIntToString(i);
  }

  datatype RankingUpdate = RankingUpdate(id: string, ranking: Option<int>)

  /** `Object.entries(rankings).map(...)`: one update per entry, in key order. */
  function Updates(m: Rankings): (r: seq<RankingUpdate>)
    ensures |r| == |m|
    ensures forall i :: 0 <= i < |r| ==> r[i].id == m[i].0 && r[i].ranking == ParseRanking(m[i].1)
  {
    seq(|m|, i requires 0 <= i < |m| => RankingUpdate(m[i].0, ParseRanking(m[i].1)))
  }

  /** The updates applied one after the other. */
  function ApplyRankings(rows: seq<PartnerRow>, updates: seq<RankingUpdate>): (r: seq<PartnerRow>)
    ensures |r| == |rows|
    ensures forall i :: 0 <= i < |r| ==> r[i].(ranking := rows[i].ranking) == rows[i]
    ensures forall i :: 0 <= i < |r| && (forall u :: u in updates ==> u.id != rows[i].id) ==> r[i] == rows[i]
  {
    if updates == [] then rows
    else
      var init := updates[..|updates| - 1];
      var u := updates[|updates| - 1];
      assert forall v :: v in init ==> v in updates;
      SetRanking(ApplyRankings(rows, init), u.id, u.ranking)
  }

  /** With distinct ids, a row named by an update ends with that update's ranking. */
  lemma {:induction false} ApplyRankingsValue(rows: seq<PartnerRow>, updates: seq<RankingUpdate>, i: nat, k: nat)
    requires i < |rows| && k < |updates| && updates[k].id == rows[i].id
    requires forall a, b :: 0 <= a < b < |updates| ==> updates[a].id != updates[b].id
    ensures ApplyRankings(rows, updates)[i].ranking == updates[k].ranking
  {
    var n := |updates| - 1;
    var init := updates[..n];
    if k < n {
      assert init[k] == updates[k];
      ApplyRankingsValue(rows, init, i, k);
    }
  }

  /** Updates that write back what a row already holds change nothing. */
  lemma {:induction false} ApplyRankingsIdentity(rows: seq<PartnerRow>, updates: seq<RankingUpdate>)
    requires forall u, i :: u in updates && 0 <= i < |rows| && rows[i].id == u.id ==> rows[i].ranking == u.ranking
    ensures ApplyRankings(rows, updates) == rows
  {
    if updates != [] {
      var init := updates[..|updates| - 1];
      var u := updates[|updates| - 1];
      assert forall v :: v in init ==> v in updates;
      ApplyRankingsIdentity(rows, init);
      var r := SetRanking(rows, u.id, u.ranking);
      assert forall i :: 0 <= i < |rows| ==> r[i] == rows[i];
    }
  }

  datatype Outcome = Saved | Failed

  datatype Result = Result(outcome: Outcome, tables: Tables)

  /** `handleSubmitRankings` on the store: the updates are sent in order; the
      one at index `failAt`, if any, errors, and the loop stops there with the
      earlier ones already written. */
  function SubmitRankings(t: Tables, m: Rankings, failAt: Option<nat>): (r: Result)
    ensures r.tables.players == t.players && r.tables.nextId == t.nextId
    ensures r.outcome == Failed <==> failAt.Some? && failAt.value < |m|
    ensures r.tables.partners == ApplyRankings(t.partners, if r.outcome == Failed then Updates(m)[..failAt.value] else Updates(m))
  {
    var us := Updates(m);
    if failAt.Some? && failAt.value < |us| then Result(Failed, t.(partners := ApplyRankings(t.partners, us[..failAt.value])))
    else Result(Saved, t.(partners := ApplyRankings(t.partners, us)))
  }

  /** Only the ranking column of rows named in the map can change. */
  lemma SubmitTouchesOnlyListedRankings(t: Tables, m: Rankings, failAt: Option<nat>, i: nat)
    requires i < |t.partners|
    ensures var r := SubmitRankings(t, m, failAt).tables.partners;
      |r| == |t.partners| && r[i].(ranking := t.partners[i].ranking) == t.partners[i] &&
      (t.partners[i].id !in Keys(m) ==> r[i] == t.partners[i])
  {
    var r := SubmitRankings(t, m, failAt);
    var us := if r.outcome == Failed then Updates(m)[..failAt.value] else Updates(m);
    KeysIndex(m, t.partners[i].id);
    forall u | u in us ensures u in Updates(m) { }
  }

  /** After a full submit, every listed row holds the parsed value of its entry. */
  lemma SubmitWritesEntries(t: Tables, m: Rankings, i: nat, k: nat)
    requires DistinctKeys(m)
    requires i < |t.partners| && k < |m| && m[k].0 == t.partners[i].id
    ensures SubmitRankings(t, m, None).tables.partners[i].ranking == ParseRanking(m[k].1)
  {
    ApplyRankingsValue(t.partners, Updates(m), i, k);
  }

  /** Submitting the map exactly as it was loaded rewrites every ranking with
      its own value: the table is unchanged. */
  lemma ResubmitUnchanged(t: Tables, eventName: string)
    requires WellFormed(t)
    ensures var m := InitialRankings(EventPairs(t, eventName));
      SubmitRankings(t, m, None).tables == t
  {
    var pairs := EventPairs(t, eventName);
    var m := InitialRankings(pairs);
    var us := Updates(m);
    InitialRankingsSound(pairs);
    forall u, i | u in us && 0 <= i < |t.partners| && t.partners[i].id == u.id
      ensures t.partners[i].ranking == u.ranking
    {
      var k :| 0 <= k < |us| && us[k] == u;
      assert m[k] in m;
      var p :| p in pairs && Seeds(p, m[k]);
      var j :| 0 <= j < |t.partners| && t.partners[j] == p.row;
      assert j == i;
      ParseRankingRoundTrip(p.row.ranking.value);
    }
    ApplyRankingsIdentity(t.partners, us);
  }

  class AdminDashboard {
    const store: Store
    var selectedEvent: string
    var eventPairs: seq<Pair>
    var rankings: Rankings

    /** The rankings object never holds a key twice. */
    ghost predicate Valid()
      reads this
    {
      DistinctKeys(rankings)
    }

    /** Mount: no event, no pairs, an empty map. */
    constructor (store: Store)
      ensures Valid()
      ensures this.store == store
      ensures selectedEvent == "" && eventPairs == [] && rankings == []
    {
      this.store := store;
      selectedEvent, eventPairs, rankings := "", [], [];
    }

    /** The `forEach` that builds the initial map. */
    method SeedRankings(pairs: seq<Pair>) returns (seeded: Rankings)
      ensures seeded == InitialRankings(pairs)
    {
      seeded := [];
      var i := 0;
      while i < |pairs|
        invariant 0 <= i <= |pairs|
        invariant seeded == InitialRankings(pairs[..i])
      {
        var pair := pairs[i];
        if TruthyRanking(pair.row.ranking) {
          seeded := Put(seeded, pair.row.id, Decimal.IntToString(pair.row.ranking.value));
        }
        assert pairs[..i + 1][..i] == pairs[..i];
        i := i + 1;
      }
      assert pairs[..i] == pairs;
    }

    /** `fetchEventPairs`: on an error the shown pairs and the map are kept. */
    method FetchEventPairs(fetchFails: bool)
      requires Valid()
      modifies this
      ensures Valid()
      ensures selectedEvent == old(selectedEvent)
      ensures fetchFails ==> eventPairs == old(eventPairs) && rankings == old(rankings)
      ensures !fetchFails ==> eventPairs == EventPairs(store.Snapshot(), selectedEvent)
      ensures !fetchFails ==> rankings == InitialRankings(eventPairs)
    {
      if !fetchFails {
        eventPairs := EventPairs(store.Snapshot(), selectedEvent);
        rankings := SeedRankings(eventPairs);
      }
    }

    /** Choosing an event: the fetch runs when the choice changed to a
        non-empty name. */
    method SelectEvent(name: string, fetchFails: bool)
      requires Valid()
      modifies this
      ensures Valid()
      ensures selectedEvent == name
      ensures name == old(selectedEvent) || name == "" || fetchFails ==>
        eventPairs == old(eventPairs) && rankings == old(rankings)
      ensures name != old(selectedEvent) && name != "" && !fetchFails ==>
        eventPairs == EventPairs(store.Snapshot(), name)
      ensures name != old(selectedEvent) && name != "" && !fetchFails ==>
        rankings == InitialRankings(eventPairs)
    {
      var changed := name != selectedEvent;
      selectedEvent := name;
      if changed && name != "" {
        FetchEventPairs(fetchFails);
      }
    }

    /** `handleRankingChange`. */
    method HandleRankingChange(pairId: string, ranking: string)
      requires Valid()
      modifies this
      ensures Valid()
      ensures rankings == Put(old(rankings), pairId, ranking)
      ensures selectedEvent == old(selectedEvent) && eventPairs == old(eventPairs)
    {
      PutDistinct(rankings, pairId, ranking);
      rankings := Put(rankings, pairId, ranking);
    }

    /** `handleSubmitRankings`: one update per entry; the first error stops
        the loop; success reloads the pairs and the map. */
    method HandleSubmitRankings(failAt: Option<nat>, refetchFails: bool) returns (outcome: Outcome)
      requires Valid() && store.Valid()
      modifies this, store
      ensures Valid() && store.Valid()
      ensures Result(outcome, store.Snapshot()) == SubmitRankings(old(store.Snapshot()), old(rankings), failAt)
      ensures selectedEvent == old(selectedEvent)
      ensures outcome == Failed || refetchFails ==> eventPairs == old(eventPairs) && rankings == old(rankings)
      ensures outcome == Saved && !refetchFails ==>
        eventPairs == EventPairs(store.Snapshot(), selectedEvent)
      ensures outcome == Saved && !refetchFails ==> rankings == InitialRankings(eventPairs)
    {
      var updates := Updates(rankings);
      ghost var t := store.Snapshot();
      var i := 0;
      while i < |updates|
        invariant 0 <= i <= |updates|
        invariant store.Valid()
        invariant failAt.Some? ==> i <= failAt.value
        invariant store.Snapshot() == t.(partners := ApplyRankings(t.partners, updates[..i]))
        invariant rankings == old(rankings) && eventPairs == old(eventPairs) && selectedEvent == old(selectedEvent)
      {
        if failAt == Some(i) {
          return Failed;
        }
        var update := updates[i];
        store.UpdateRanking(update.id, update.ranking);
        assert updates[..i + 1][..i] == updates[..i];
        i := i + 1;
      }
      assert updates[..i] == updates;
      FetchEventPairs(refetchFails);
      return Saved;
    }
  }
}
