/**
 Seat allocation for a room. The transaction lock serialises joins, so a run is a
 sequence of whole joins, of any sessions, in any order.
 */
module Seats {
  import opened Base

  datatype Role = Host | Player | Viewer

  /** `preview` is history: the table does not record which rows previews made. */
  datatype Row = Row(
    session: string, client: Option<string>, token: string, seat: nat, role: Role, preview: bool)

  datatype Issued = Issued(token: string, seat: nat, role: Role, reused: bool)

  /** The first row of a client in a session. */
  function Find(rows: seq<Row>, session: string, client: string): Option<Row> {
    if rows == [] then None
    else if rows[0].session == session && rows[0].client == Some(client) then Some(rows[0])
    else Find(rows[1..], session, client)
  }

  /** The largest seat of a session, 0 if it has none. */
  function MaxSeat(rows: seq<Row>, session: string): nat {
    if rows == [] then 0
    else
      var n := |rows| - 1;
      if rows[n].session == session then Max(MaxSeat(rows[..n], session), rows[n].seat)
      else MaxSeat(rows[..n], session)
  }

  function NewRow(rows: seq<Row>, session: string, client: string, maxSeats: nat, preview: bool, token: string): Row {
    if preview then Row(session, Some(client), token, maxSeats + 1, Viewer, true)
    else
      var seat := MaxSeat(rows, session) + 1;
      Row(session, Some(client), token, seat, if seat <= maxSeats then Player else Viewer, false)
  }

  function Joined(rows: seq<Row>, session: string, client: string, maxSeats: nat, preview: bool, token: string): seq<Row> {
    if Find(rows, session, client).Some? then rows
    else rows + [NewRow(rows, session, client, maxSeats, preview, token)]
  }

  function Answer(rows: seq<Row>, session: string, client: string, maxSeats: nat, preview: bool, token: string): Issued {
    var existing := Find(rows, session, client);
    if existing.Some? then
      Issued(existing.value.token, existing.value.seat,
             if existing.value.role == Player then Player else Viewer, true)
    else
      var row := NewRow(rows, session, client, maxSeats, preview, token);
      Issued(token, row.seat, row.role, false)
  }

  class PeerTokens {
    var rows: seq<Row>

    constructor ()
      ensures rows == []
    {
      rows := [];
    }

    method SelectExisting(session: string, client: string) returns (existing: Option<Row>)
      ensures existing == Find(rows, session, client)
    {
      var i := 0;
      while i < |rows|
        invariant 0 <= i <= |rows|
        invariant Find(rows, session, client) == Find(rows[i..], session, client)
      {
        if rows[i].session == session && rows[i].client == Some(client) {
          return Some(rows[i]);
        }
        assert rows[i..][1..] == rows[i + 1..];
        i := i + 1;
      }
      return None;
    }

    method SelectMaxSeat(session: string) returns (max: nat)
      ensures max == MaxSeat(rows, session)
    {
      max := 0;
      var i := 0;
      while i < |rows|
        invariant 0 <= i <= |rows|
        invariant max == MaxSeat(rows[..i], session)
      {
        assert rows[..i + 1][..i] == rows[..i];
        if rows[i].session == session && rows[i].seat > max {
          max := rows[i].seat;
        }
        i := i + 1;
      }
      assert rows[..i] == rows;
    }

    /** One transaction under the session lock. */
    method IssueRoomPeer(session: string, client: string, maxSeats: nat, preview: bool, token: string)
      returns (peer: Issued)
      modifies this
      ensures rows == Joined(old(rows), session, client, maxSeats, preview, token)
      ensures peer == Answer(old(rows), session, client, maxSeats, preview, token)
    {
      var existing := SelectExisting(session, client);
      if existing.Some? {
        return Issued(existing.value.token, existing.value.seat,
                      if existing.value.role == Player then Player else Viewer, true);
      }
      if preview {
        var seat := maxSeats + 1;
        rows := rows + [Row(session, Some(client), token, seat, Viewer, true)];
        return Issued(token, seat, Viewer, false);
      }
      var max := SelectMaxSeat(session);
      var seat := max + 1;
      var role := if seat <= maxSeats then Player else Viewer;
      rows := rows + [Row(session, Some(client), token, seat, role, false)];
      return Issued(token, seat, role, false);
    }
  }

  // ── Runs ───────────────────────────────────────────────────────────

  datatype Op =
    | Join(session: string, client: string, maxSeats: nat, preview: bool, token: string)
    | AddHost(session: string, token: string)

  function Apply(rows: seq<Row>, op: Op): seq<Row> {
    match op
    case Join(session, client, maxSeats, preview, token) => Joined(rows, session, client, maxSeats, preview, token)
    case AddHost(session, token) => rows + [Row(session, None, token, 0, Host, false)]
  }

  function Table(ops: seq<Op>): seq<Row> {
    if ops == [] then [] else Apply(Table(ops[..|ops| - 1]), ops[|ops| - 1])
  }

  /** Every join of this session carries its one seat count. */
  ghost predicate FixedSeats(ops: seq<Op>, session: string, maxSeats: nat) {
    forall i :: 0 <= i < |ops| && ops[i].Join? && ops[i].session == session ==> ops[i].maxSeats == maxSeats
  }

  predicate Guest(r: Row, session: string) { r.session == session && r.client.Some? }

  predicate Plays(r: Row, session: string) { r.session == session && r.role == Player }

  predicate HasPreview(rows: seq<Row>, session: string) {
    exists i :: 0 <= i < |rows| && rows[i].session == session && rows[i].preview
  }

  function CountPlayers(rows: seq<Row>, session: string): nat {
    if rows == [] then 0
    else CountPlayers(rows[..|rows| - 1], session) + (if Plays(rows[|rows| - 1], session) then 1 else 0)
  }

  function CountGuests(rows: seq<Row>, session: string): nat {
    if rows == [] then 0
    else CountGuests(rows[..|rows| - 1], session) + (if Guest(rows[|rows| - 1], session) then 1 else 0)
  }

  lemma {:induction false} MaxIsMax(rows: seq<Row>, session: string)
    ensures forall i :: 0 <= i < |rows| && rows[i].session == session ==> rows[i].seat <= MaxSeat(rows, session)
  {
    if rows != [] {
      MaxIsMax(rows[..|rows| - 1], session);
    }
  }

  lemma {:induction false} FindsClient(rows: seq<Row>, session: string, client: string)
    ensures Find(rows, session, client).None? <==>
      forall i :: 0 <= i < |rows| ==> !(rows[i].session == session && rows[i].client == Some(client))
    ensures Find(rows, session, client).Some? ==>
      var r := Find(rows, session, client).value; r in rows && r.session == session && r.client == Some(client)
  {
    if rows != [] {
      FindsClient(rows[1..], session, client);
      if Find(rows, session, client).None? {
        forall i | 0 <= i < |rows| ensures !(rows[i].session == session && rows[i].client == Some(client)) {
          assert i > 0 ==> rows[i] == rows[1..][i - 1];
        }
      }
    }
  }

  /** Guests are distinct clients, and those that are not previews have distinct seats. */
  ghost predicate GuestsDistinct(rows: seq<Row>, session: string) {
    forall i, j :: 0 <= i < j < |rows| && Guest(rows[i], session) && Guest(rows[j], session) ==>
      && rows[i].client != rows[j].client
      && (!rows[i].preview && !rows[j].preview ==> rows[i].seat != rows[j].seat)
  }

  ghost predicate PlayersSeated(rows: seq<Row>, session: string, maxSeats: nat) {
    forall i :: 0 <= i < |rows| && Plays(rows[i], session) ==>
      Guest(rows[i], session) && !rows[i].preview && 1 <= rows[i].seat <= maxSeats
  }

  ghost predicate Counted(rows: seq<Row>, session: string, maxSeats: nat) {
    && CountPlayers(rows, session) <= Min(MaxSeat(rows, session), maxSeats)
    && (if HasPreview(rows, session) then MaxSeat(rows, session) > maxSeats
        else MaxSeat(rows, session) == CountGuests(rows, session))
  }

  ghost predicate Inv(rows: seq<Row>, session: string, maxSeats: nat) {
    GuestsDistinct(rows, session) && PlayersSeated(rows, session, maxSeats) && Counted(rows, session, maxSeats)
  }

  /** What a step may append, seen from one session. */
  ghost predicate Appendable(rows: seq<Row>, row: Row, session: string, maxSeats: nat) {
    || row.session != session
    || row == Row(session, None, row.token, 0, Host, false)
    || (&& row.client.Some? && Find(rows, session, row.client.value).None?
        && row == NewRow(rows, session, row.client.value, maxSeats, row.preview, row.token))
  }

  lemma AppendKeepsDistinct(rows: seq<Row>, row: Row, session: string, maxSeats: nat)
    requires GuestsDistinct(rows, session) && Appendable(rows, row, session, maxSeats)
    ensures GuestsDistinct(rows + [row], session)
  {
    if Guest(row, session) {
      MaxIsMax(rows, session);
      FindsClient(rows, session, row.client.value);
      assert forall i :: 0 <= i < |rows| && Guest(rows[i], session) ==>
        rows[i].client != row.client && (!row.preview ==> rows[i].seat != row.seat);
    }
  }

  lemma HasPreviewOfMore(rows: seq<Row>, row: Row, session: string)
    ensures HasPreview(rows + [row], session) <==>
      HasPreview(rows, session) || (row.session == session && row.preview)
  {
    var more, n := rows + [row], |rows|;
    if HasPreview(rows, session) {
      var i :| 0 <= i < n && rows[i].session == session && rows[i].preview;
      assert more[i] == rows[i];
    }
    if row.session == session && row.preview {
      assert more[n] == row;
    }
    if HasPreview(more, session) {
      var i :| 0 <= i < |more| && more[i].session == session && more[i].preview;
      assert i < n ==> rows[i] == more[i];
    }
  }

  lemma AppendKeepsCounts(rows: seq<Row>, row: Row, session: string, maxSeats: nat)
    requires Counted(rows, session, maxSeats) && Appendable(rows, row, session, maxSeats)
    ensures Counted(rows + [row], session, maxSeats)
  {
    HasPreviewOfMore(rows, row, session);
    var more := rows + [row];
    assert more[..|more| - 1] == rows && more[|more| - 1] == row;
  }

  lemma AppendKeepsInv(rows: seq<Row>, row: Row, session: string, maxSeats: nat)
    requires Inv(rows, session, maxSeats) && Appendable(rows, row, session, maxSeats)
    ensures Inv(rows + [row], session, maxSeats)
  {
    AppendKeepsDistinct(rows, row, session, maxSeats);
    AppendKeepsCounts(rows, row, session, maxSeats);
  }

  lemma {:induction false} TableInv(ops: seq<Op>, session: string, maxSeats: nat)
    requires FixedSeats(ops, session, maxSeats)
    ensures Inv(Table(ops), session, maxSeats)
  {
    if ops != [] {
      var n := |ops| - 1;
      TableInv(ops[..n], session, maxSeats);
      var rows := Table(ops[..n]);
      if Table(ops) != rows {
        AppendKeepsInv(rows, Table(ops)[|rows|], session, maxSeats);
      }
    }
  }

  /** At any time a session has at most `maxSeats` players, in distinct seats from 1 to
      `maxSeats`; no two guests other than previews share a seat; each client has at
      most one row. */
  lemma SeatsAreExclusive(ops: seq<Op>, session: string, maxSeats: nat)
    requires FixedSeats(ops, session, maxSeats)
    ensures var rows := Table(ops);
      && CountPlayers(rows, session) <= maxSeats
      && (forall i :: 0 <= i < |rows| && Plays(rows[i], session) ==> 1 <= rows[i].seat <= maxSeats)
      && (forall i, j :: 0 <= i < j < |rows| && Guest(rows[i], session) && Guest(rows[j], session) ==>
            && rows[i].client != rows[j].client
            && (!rows[i].preview && !rows[j].preview ==> rows[i].seat != rows[j].seat)
            && (Plays(rows[i], session) && Plays(rows[j], session) ==> rows[i].seat != rows[j].seat))
  {
    TableInv(ops, session, maxSeats);
  }

  /** Who plays: a new client that is not a preview becomes a player exactly when the
      session has had no preview and fewer than `maxSeats` guests, which the table shows as
      a largest seat below `maxSeats`; without previews the k-th guest gets seat k. One
      preview closes the remaining player seats. */
  lemma NewGuestPlaysIff(ops: seq<Op>, session: string, maxSeats: nat, client: string, token: string)
    requires FixedSeats(ops, session, maxSeats) && Find(Table(ops), session, client).None?
    ensures var rows := Table(ops);
      var peer := Answer(rows, session, client, maxSeats, false, token);
      && (peer.role == Player <==> !HasPreview(rows, session) && CountGuests(rows, session) < maxSeats)
      && (peer.role == Player <==> MaxSeat(rows, session) < maxSeats)
      && (!HasPreview(rows, session) ==> peer.seat == CountGuests(rows, session) + 1)
      && !peer.reused && peer.token == token
  {
    TableInv(ops, session, maxSeats);
  }

  /** A preview costs a seat: the guest who would have played in seat 1 only watches once
      one preview has joined. */
  lemma PreviewCostsASeat(session: string, wall: string, guest: string, maxSeats: nat, t: string, u: string)
    requires maxSeats >= 1 && wall != guest
    ensures Answer(Table([]), session, guest, maxSeats, false, u) == Issued(u, 1, Player, false)
    ensures Answer(Table([Join(session, wall, maxSeats, true, t)]), session, guest, maxSeats, false, u)
            == Issued(u, maxSeats + 2, Viewer, false)
  {
    var join := Join(session, wall, maxSeats, true, t);
    var row := Row(session, Some(wall), t, maxSeats + 1, Viewer, true);
    assert [join][..0] == [];
    assert Table([join]) == [row];
    assert [row][1..] == [] && [row][..0] == [];
  }

  lemma {:induction false} FindAppend(rows: seq<Row>, more: seq<Row>, session: string, client: string)
    requires Find(rows, session, client).Some?
    ensures Find(rows + more, session, client) == Find(rows, session, client)
  {
    assert rows + more != [] && (rows + more)[0] == rows[0];
    if !(rows[0].session == session && rows[0].client == Some(client)) {
      assert (rows + more)[1..] == rows[1..] + more;
      FindAppend(rows[1..], more, session, client);
    }
  }

  lemma FindNew(rows: seq<Row>, row: Row, session: string, client: string)
    requires Find(rows, session, client).None? && row.session == session && row.client == Some(client)
    ensures Find(rows + [row], session, client) == Some(row)
    decreases |rows|
  {
    if rows == [] {
      assert rows + [row] == [row];
    } else {
      assert (rows + [row])[1..] == rows[1..] + [row];
      FindNew(rows[1..], row, session, client);
    }
  }

  lemma {:induction false} RowsStay(ops: seq<Op>, more: seq<Op>)
    ensures Table(ops) <= Table(ops + more)
    decreases |more|
  {
    if more == [] {
      assert ops + more == ops;
    } else {
      var n := |more| - 1;
      assert (ops + more)[..|ops + more| - 1] == ops + more[..n];
      RowsStay(ops, more[..n]);
    }
  }

  /** Rejoining at any later time, preview or not, returns the same token, seat and role
      and adds no row. */
  lemma RejoinIsStable(ops: seq<Op>, more: seq<Op>, session: string, client: string,
                       maxSeats: nat, preview: bool, token: string, preview': bool, token': string)
    ensures var first := Answer(Table(ops), session, client, maxSeats, preview, token);
      var rows := Table(ops + [Join(session, client, maxSeats, preview, token)] + more);
      var again := Answer(rows, session, client, maxSeats, preview', token');
      && again == first.(reused := true)
      && Joined(rows, session, client, maxSeats, preview', token') == rows
  {
    var before, join := Table(ops), Join(session, client, maxSeats, preview, token);
    assert (ops + [join])[..|ops|] == ops;
    var after := Table(ops + [join]);
    RowsStay(ops + [join], more);
    var rows := Table(ops + [join] + more);
    if Find(before, session, client).None? {
      FindNew(before, NewRow(before, session, client, maxSeats, preview, token), session, client);
    }
    assert rows == after + rows[|after|..];
    FindAppend(after, rows[|after|..], session, client);
  }
}
