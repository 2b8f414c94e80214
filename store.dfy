/** An in-memory stand-in for the hosted database: the `tbl_players` and
    `tbl_partners` tables and the id generator. Every query the portal issues is
    an equality filter, an insert, or an update/delete by equality filter; each
    is a function on the table contents here, and the class `Store` applies them
    in place. */
module DataStore {
  import opened Schema
  import opened Seqs
  import Decimal

  /** The id the store gives to the `n`-th row it creates (in either table). */
  function IdOf(n: nat): string
  {
    "id-" + Decimal.Digits(n)
  }

  lemma IdOfInjective(a: nat, b: nat)
    requires IdOf(a) == IdOf(b)
    ensures a == b
  {
    assert IdOf(a)[3..] == Decimal.Digits(a);
    assert IdOf(b)[3..] == Decimal.Digits(b);
    Decimal.DigitsInjective(a, b);
  }

  /** The contents of the store. */
  datatype Tables = Tables(players: seq<Player>, partners: seq<PartnerRow>, nextId: nat)

  /** `id` is one the generator handed out before reaching `n`. */
  ghost predicate Issued(id: string, n: nat)
  {
    exists k :: 0 <= k < n && IdOf(k) == id
  }

  ghost predicate PlayerIdsIssued(players: seq<Player>, n: nat)
  {
    forall i :: 0 <= i < |players| ==> Issued(players[i].id, n)
  }

  ghost predicate RowIdsIssued(rows: seq<PartnerRow>, n: nat)
  {
    forall i :: 0 <= i < |rows| ==> Issued(rows[i].id, n)
  }

  ghost predicate UniquePlayerIds(players: seq<Player>)
  {
    forall i, j :: 0 <= i < j < |players| ==> players[i].id != players[j].id
  }

  /** No two pairing rows share an id (the table's primary key). */
  ghost predicate UniqueRowIds(rows: seq<PartnerRow>)
  {
    forall i, j :: 0 <= i < j < |rows| ==> rows[i].id != rows[j].id
  }

  /** The store invariant: ids are primary keys and every id was issued by the
      generator, so the next one is fresh. */
  ghost predicate WellFormed(t: Tables)
  {
    && PlayerIdsIssued(t.players, t.nextId)
    && RowIdsIssued(t.partners, t.nextId)
    && UniquePlayerIds(t.players)
    && UniqueRowIds(t.partners)
  }

  /** An id issued below `n` is not `IdOf(m)` for any `m >= n`. */
  lemma IssuedBelow(id: string, n: nat, m: nat)
    requires Issued(id, n) && n <= m
    ensures id != IdOf(m)
  {
    var k :| 0 <= k < n && IdOf(k) == id;
    if id == IdOf(m) {
      IdOfInjective(k, m);
    }
  }

  /** The next id is fresh: no row of a well-formed store carries it. */
  lemma {:induction false} NextIdFresh(t: Tables)
    requires WellFormed(t)
    ensures forall i :: 0 <= i < |t.players| ==> t.players[i].id != IdOf(t.nextId)
    ensures forall i :: 0 <= i < |t.partners| ==> t.partners[i].id != IdOf(t.nextId)
  {
    forall i | 0 <= i < |t.players| ensures t.players[i].id != IdOf(t.nextId) {
      IssuedBelow(t.players[i].id, t.nextId, t.nextId);
    }
    forall i | 0 <= i < |t.partners| ensures t.partners[i].id != IdOf(t.nextId) {
      IssuedBelow(t.partners[i].id, t.nextId, t.nextId);
    }
  }

  // ---------------------------------------------------------------------------
  // Queries and writes, as functions of the table contents

  /** `select ... from tbl_players where whatsapp_number = number`. */
  function PlayersWithNumber(players: seq<Player>, number: string): (r: seq<Player>)
    ensures forall p :: p in r <==> p in players && p.details.whatsappNumber == number
  {
    Filter(players, (p: Player) => p.details.whatsappNumber == number)
  }

  /** `select ... from tbl_partners where user_id = userId`. */
  function RowsOfUser(rows: seq<PartnerRow>, userId: string): (r: seq<PartnerRow>)
    ensures forall x :: x in r <==> x in rows && x.userId == userId
  {
    Filter(rows, (x: PartnerRow) => x.userId == userId)
  }

  /** The rows a filter on `user_id = userId` does not match. */
  function RowsNotOfUser(rows: seq<PartnerRow>, userId: string): (r: seq<PartnerRow>)
    ensures forall x :: x in r <==> x in rows && x.userId != userId
  {
    Filter(rows, (x: PartnerRow) => x.userId != userId)
  }

  /** `select ... from tbl_partners where event_name = eventName`. */
  function RowsForEvent(rows: seq<PartnerRow>, eventName: string): (r: seq<PartnerRow>)
    ensures forall x :: x in r <==> x in rows && x.eventName == eventName
  {
    Filter(rows, (x: PartnerRow) => x.eventName == eventName)
  }

  /** Insert one player row; the store assigns the next id. */
  function AddPlayer(t: Tables, details: PlayerData): (r: Tables)
    ensures r.partners == t.partners && r.nextId == t.nextId + 1
    ensures r.players == t.players + [Player(IdOf(t.nextId), details)]
  {
    Tables(t.players + [Player(IdOf(t.nextId), details)], t.partners, t.nextId + 1)
  }

  lemma AddPlayerWellFormed(t: Tables, details: PlayerData)
    requires WellFormed(t)
    ensures WellFormed(AddPlayer(t, details))
  {
    var r := AddPlayer(t, details);
    NextIdFresh(t);
    forall i | 0 <= i < |r.players| ensures Issued(r.players[i].id, r.nextId) {
      if i == |t.players| {
        assert IdOf(t.nextId) == r.players[i].id;
      } else {
        assert Issued(t.players[i].id, t.nextId);
      }
    }
    forall i | 0 <= i < |r.partners| ensures Issued(r.partners[i].id, r.nextId) {
      assert Issued(t.partners[i].id, t.nextId);
    }
  }

  /** The rows a batch insert creates, with ids issued from `first` on and a null ranking. */
  function Materialize(entries: seq<PairingInsert>, first: nat): (r: seq<PartnerRow>)
    ensures |r| == |entries|
    ensures forall i :: 0 <= i < |r| ==>
      r[i] == PartnerRow(IdOf(first + i), entries[i].eventName, entries[i].userId, entries[i].partnerId, None)
  {
    seq(|entries|, i requires 0 <= i < |entries| =>
      PartnerRow(IdOf(first + i), entries[i].eventName, entries[i].userId, entries[i].partnerId, None))
  }

  /** Insert a batch of pairing rows; the store assigns consecutive fresh ids. */
  function AddPairings(t: Tables, entries: seq<PairingInsert>): (r: Tables)
    ensures r.players == t.players && r.nextId == t.nextId + |entries|
    ensures r.partners == t.partners + Materialize(entries, t.nextId)
  {
    Tables(t.players, t.partners + Materialize(entries, t.nextId), t.nextId + |entries|)
  }

  lemma AddPairingsWellFormed(t: Tables, entries: seq<PairingInsert>)
    requires WellFormed(t)
    ensures WellFormed(AddPairings(t, entries))
  {
    var r := AddPairings(t, entries);
    forall i | 0 <= i < |r.players| ensures Issued(r.players[i].id, r.nextId) {
      IssuedLater(t.players[i].id, t.nextId, r.nextId);
    }
    BatchIdsIssued(t.partners, t.nextId, entries);
    BatchIdsUnique(t.partners, t.nextId, entries);
  }

  lemma IssuedLater(id: string, n: nat, m: nat)
    requires Issued(id, n) && n <= m
    ensures Issued(id, m)
  {
  }

  lemma BatchIdsIssued(rows: seq<PartnerRow>, n: nat, entries: seq<PairingInsert>)
    requires RowIdsIssued(rows, n)
    ensures RowIdsIssued(rows + Materialize(entries, n), n + |entries|)
  {
    var created := Materialize(entries, n);
    var all := rows + created;
    forall i | 0 <= i < |all| ensures Issued(all[i].id, n + |entries|) {
      if i < |rows| {
        assert all[i] == rows[i];
        IssuedLater(rows[i].id, n, n + |entries|);
      } else {
        assert all[i] == created[i - |rows|];
        assert IdOf(n + (i - |rows|)) == all[i].id;
      }
    }
  }

  lemma BatchIdsUnique(rows: seq<PartnerRow>, n: nat, entries: seq<PairingInsert>)
    requires RowIdsIssued(rows, n) && UniqueRowIds(rows)
    ensures UniqueRowIds(rows + Materialize(entries, n))
  {
    var created := Materialize(entries, n);
    var all := rows + created;
    var base := |rows|;
    forall i, j | 0 <= i < j < |all| ensures all[i].id != all[j].id {
      if j >= base {
        assert all[j].id == IdOf(n + (j - base));
        if i < base {
          assert all[i] == rows[i];
          IssuedBelow(rows[i].id, n, n + (j - base));
        } else {
          assert all[i].id == IdOf(n + (i - base));
          if all[i].id == all[j].id {
            IdOfInjective(n + (i - base), n + (j - base));
          }
        }
      } else {
        assert all[i] == rows[i] && all[j] == rows[j];
      }
    }
  }

  /** The rows the back-fill update matches: `user_id = userId`,
      `event_name = eventName` and `partner_id is null`. */
  predicate OpenRowOf(x: PartnerRow, userId: string, eventName: string)
  {
    x.userId == userId && x.eventName == eventName && x.partnerId.None?
  }

  /** `update tbl_partners set partner_id = partner where user_id = userId and
      event_name = eventName and partner_id is null`. */
  function BackFill(rows: seq<PartnerRow>, userId: string, eventName: string, partner: string): (r: seq<PartnerRow>)
    ensures |r| == |rows|
    ensures forall i :: 0 <= i < |r| ==> r[i].(partnerId := rows[i].partnerId) == rows[i]
    ensures forall i :: 0 <= i < |r| ==>
      r[i].partnerId == if OpenRowOf(rows[i], userId, eventName) then Some(partner) else rows[i].partnerId
  {
    seq(|rows|, i requires 0 <= i < |rows| =>
      if OpenRowOf(rows[i], userId, eventName) then rows[i].(partnerId := Some(partner)) else rows[i])
  }

  /** `update tbl_partners set ranking = ranking where id = id`. */
  function SetRanking(rows: seq<PartnerRow>, id: string, ranking: Option<int>): (r: seq<PartnerRow>)
    ensures |r| == |rows|
    ensures forall i :: 0 <= i < |r| ==> r[i].(ranking := rows[i].ranking) == rows[i]
    ensures forall i :: 0 <= i < |r| ==> r[i].ranking == if rows[i].id == id then ranking else rows[i].ranking
  {
    seq(|rows|, i requires 0 <= i < |rows| =>
      if rows[i].id == id then rows[i].(ranking := ranking) else rows[i])
  }

  /** `update tbl_players set <details> where id = id`. */
  function SetDetails(players: seq<Player>, id: string, details: PlayerData): (r: seq<Player>)
    ensures |r| == |players|
    ensures forall i :: 0 <= i < |r| ==> r[i].id == players[i].id
    ensures forall i :: 0 <= i < |r| ==> r[i].details == if players[i].id == id then details else players[i].details
  {
    seq(|players|, i requires 0 <= i < |players| =>
      if players[i].id == id then players[i].(details := details) else players[i])
  }

  /** A filter keeps unique ids unique and issued ids issued. */
  lemma {:induction false} FilterKeepsIds(rows: seq<PartnerRow>, p: PartnerRow -> bool, n: nat)
    requires UniqueRowIds(rows) && RowIdsIssued(rows, n)
    ensures UniqueRowIds(Filter(rows, p)) && RowIdsIssued(Filter(rows, p), n)
  {
    var r := Filter(rows, p);
    forall i | 0 <= i < |r| ensures Issued(r[i].id, n) {
      assert r[i] in rows;
      var k :| 0 <= k < |rows| && rows[k] == r[i];
      assert Issued(rows[k].id, n);
    }
    if rows != [] {
      var tail := rows[1..];
      assert UniqueRowIds(tail) && RowIdsIssued(tail, n) by {
        forall i | 0 <= i < |tail| ensures Issued(tail[i].id, n) {
          assert tail[i] == rows[i + 1];
        }
        forall i, j | 0 <= i < j < |tail| ensures tail[i].id != tail[j].id {
          assert tail[i] == rows[i + 1] && tail[j] == rows[j + 1];
        }
      }
      FilterKeepsIds(tail, p, n);
      if p(rows[0]) {
        var ft := Filter(tail, p);
        assert r == [rows[0]] + ft;
        forall j | 0 <= j < |ft| ensures rows[0].id != ft[j].id {
          assert ft[j] in tail;
          var k :| 0 <= k < |tail| && tail[k] == ft[j];
          assert tail[k] == rows[k + 1];
        }
        forall i, j | 0 <= i < j < |r| ensures r[i].id != r[j].id {
          if i == 0 {
            assert r[j] == ft[j - 1];
          } else {
            assert r[i] == ft[i - 1] && r[j] == ft[j - 1];
          }
        }
      }
    }
  }

  /** Delete the pairing rows whose `user_id` is `userId`. */
  function DeleteRowsOfUser(t: Tables, userId: string): (r: Tables)
    ensures r.players == t.players && r.nextId == t.nextId
    ensures r.partners == RowsNotOfUser(t.partners, userId)
  {
    t.(partners := RowsNotOfUser(t.partners, userId))
  }

  lemma DeleteRowsOfUserWellFormed(t: Tables, userId: string)
    requires WellFormed(t)
    ensures WellFormed(DeleteRowsOfUser(t, userId))
  {
    FilterKeepsIds(t.partners, (x: PartnerRow) => x.userId != userId, t.nextId);
  }

  /** Updates that leave every id in place keep the store well formed. */
  lemma SameIdsWellFormed(t: Tables, players: seq<Player>, partners: seq<PartnerRow>)
    requires WellFormed(t)
    requires |players| == |t.players| && forall i :: 0 <= i < |players| ==> players[i].id == t.players[i].id
    requires |partners| == |t.partners| && forall i :: 0 <= i < |partners| ==> partners[i].id == t.partners[i].id
    ensures WellFormed(Tables(players, partners, t.nextId))
  {
  }

  /** The database: the two tables and the id generator, updated in place. */
  class Store {
    var players: seq<Player>
    var partners: seq<PartnerRow>
    var nextId: nat

    function Snapshot(): Tables
      reads this
    {
      Tables(players, partners, nextId)
    }

    ghost predicate Valid()
      reads this
    {
      WellFormed(Snapshot())
    }

    constructor ()
      ensures Valid() && Snapshot() == Tables([], [], 0)
    {
      players, partners, nextId := [], [], 0;
    }

    method InsertPlayer(details: PlayerData) returns (player: Player)
      requires Valid()
      modifies this
      ensures Valid()
      ensures Snapshot() == AddPlayer(old(Snapshot()), details)
      ensures player == Player(IdOf(old(nextId)), details)
    {
      ghost var t := Snapshot();
      player := Player(IdOf(nextId), details);
      players := players + [player];
      nextId := nextId + 1;
      AddPlayerWellFormed(t, details);
    }

    method InsertPairings(entries: seq<PairingInsert>)
      requires Valid()
      modifies this
      ensures Valid()
      ensures Snapshot() == AddPairings(old(Snapshot()), entries)
    {
      ghost var t := Snapshot();
      partners := partners + Materialize(entries, nextId);
      nextId := nextId + |entries|;
      AddPairingsWellFormed(t, entries);
    }

    method UpdateOpenPartner(userId: string, eventName: string, partner: string)
      requires Valid()
      modifies this
      ensures Valid()
      ensures Snapshot() == old(Snapshot()).(partners := BackFill(old(partners), userId, eventName, partner))
    {
      ghost var t := Snapshot();
      partners := BackFill(partners, userId, eventName, partner);
      SameIdsWellFormed(t, players, partners);
    }

    method DeleteWhereUser(userId: string)
      requires Valid()
      modifies this
      ensures Valid()
      ensures Snapshot() == DeleteRowsOfUser(old(Snapshot()), userId)
    {
      ghost var t := Snapshot();
      partners := RowsNotOfUser(partners, userId);
      DeleteRowsOfUserWellFormed(t, userId);
    }

    method UpdateRanking(id: string, ranking: Option<int>)
      requires Valid()
      modifies this
      ensures Valid()
      ensures Snapshot() == old(Snapshot()).(partners := SetRanking(old(partners), id, ranking))
    {
      ghost var t := Snapshot();
      partners := SetRanking(partners, id, ranking);
      SameIdsWellFormed(t, players, partners);
    }

    method UpdatePlayer(id: string, details: PlayerData)
      requires Valid()
      modifies this
      ensures Valid()
      ensures Snapshot() == old(Snapshot()).(players := SetDetails(old(players), id, details))
    {
      ghost var t := Snapshot();
      players := SetDetails(players, id, details);
      SameIdsWellFormed(t, players, partners);
    }
  }
}
