/** Chat rows of backend/storage/db.py: the upsert that never regresses an accepted thread, and the
    deletion of a thread with its messages. */
module ChatDb {
  import opened Seqs

  datatype Status = OutgoingPending | IncomingPending | Accepted

  datatype Row = Row(status: Status, invitedBySelf: bool, peerName: string)

  datatype Message = Message(peerId: string, fromSelf: bool, body: string)

  /** The CASE of the conditional upsert. */
  function MergedStatus(existing: Option<Status>, new_: Status): Status {
    if existing == Some(Accepted) && new_ != Accepted then Accepted else new_
  }

  function StatusOf(rows: map<string, Row>, peerId: string): Option<Status> {
    if peerId in rows then Some(rows[peerId].status) else None
  }

  function Upserted(rows: map<string, Row>, peerId: string, row: Row): map<string, Row> {
    if peerId !in rows then rows[peerId := row]
    else
      var old_ := rows[peerId];
      rows[peerId := Row(MergedStatus(Some(old_.status), row.status),
                         old_.invitedBySelf,
                         if row.peerName == "" then old_.peerName else row.peerName)]
  }

  class NodeDatabase {
    var threads: map<string, Row>
    var messages: seq<Message>

    constructor ()
      ensures threads == map[] && messages == []
    {
      threads := map[];
      messages := [];
    }

    method UpsertChatThread(peerId: string, status: Status, invitedBySelf: bool, peerName: string) returns (row: Row)
      modifies this`threads
      ensures threads == Upserted(old(threads), peerId, Row(status, invitedBySelf, peerName))
      ensures peerId in threads && row == threads[peerId]
    {
      if peerId in threads {
        var existing := threads[peerId];
        var merged := existing.(status := if existing.status == Accepted && status != Accepted then existing.status else status);
        if peerName != "" {
          merged := merged.(peerName := peerName);
        }
        threads := threads[peerId := merged];
      } else {
        threads := threads[peerId := Row(status, invitedBySelf, peerName)];
      }
      return threads[peerId];
    }

    method GetChatThread(peerId: string) returns (row: Option<Row>)
      ensures row == if peerId in threads then Some(threads[peerId]) else None
    {
      row := if peerId in threads then Some(threads[peerId]) else None;
    }

    /** Deletes the thread row and every message of the peer; reports whether a row existed. */
    method DeleteChatThread(peerId: string) returns (ok: bool)
      modifies this
      ensures ok == (peerId in old(threads))
      ensures threads == old(threads) - {peerId}
      ensures forall m :: multiset(messages)[m] == if m.peerId == peerId then 0 else multiset(old(messages))[m]
    {
      ghost var was := messages;
      var kept: seq<Message> := [];
      for i := 0 to |messages|
        invariant messages == was
        invariant forall m :: multiset(kept)[m] == if m.peerId == peerId then 0 else multiset(was[..i])[m]
      {
        assert was[..i + 1] == was[..i] + [was[i]];
        if messages[i].peerId != peerId {
          kept := kept + [messages[i]];
        }
      }
      assert was[..|was|] == was;
      messages := kept;
      ok := peerId in threads;
      threads := threads - {peerId};
    }

    method AppendChatMessage(peerId: string, fromSelf: bool, body: string)
      modifies this`messages
      ensures messages == old(messages) + [Message(peerId, fromSelf, body)]
    {
      messages := messages + [Message(peerId, fromSelf, body)];
    }
  }

  /** What an upsert does to the statuses: the row's own status is merged, every other is untouched,
      and a thread that was accepted is accepted afterwards whatever was written. */
  lemma UpsertStatus(rows: map<string, Row>, peerId: string, row: Row, other: string)
    ensures StatusOf(Upserted(rows, peerId, row), peerId) == Some(MergedStatus(StatusOf(rows, peerId), row.status))
    ensures other != peerId ==> StatusOf(Upserted(rows, peerId, row), other) == StatusOf(rows, other)
    ensures StatusOf(rows, other) == Some(Accepted) ==> StatusOf(Upserted(rows, peerId, row), other) == Some(Accepted)
  {
  }

  // ---------------------------------------------------------------- the row after any writes

  /** The rows after a sequence of upserts of one peer. */
  function Written(rows: map<string, Row>, peerId: string, writes: seq<Row>): map<string, Row> {
    if |writes| == 0 then rows else Upserted(Written(rows, peerId, writes[..|writes| - 1]), peerId, writes[|writes| - 1])
  }

  predicate LastName(writes: seq<Row>, name: string) {
    if forall i :: 0 <= i < |writes| ==> writes[i].peerName == "" then name == ""
    else exists i :: 0 <= i < |writes| && name == writes[i].peerName != "" && forall j :: i < j < |writes| ==> writes[j].peerName == ""
  }

  /** What the row of a peer says of all that was written: who invited whom is what the first write said, the name is
      the last one that was not empty, and the status is the last one written, but for acceptance, which
      stays. */
  ghost predicate Tells(row: Row, writes: seq<Row>)
    requires |writes| > 0
  {
    && row.invitedBySelf == writes[0].invitedBySelf
    && LastName(writes, row.peerName)
    && (row.status == Accepted <==> exists i :: 0 <= i < |writes| && writes[i].status == Accepted)
    && (row.status != Accepted ==> row.status == writes[|writes| - 1].status)
  }

  lemma TellsNext(row: Row, front: seq<Row>, last: Row, next: Row)
    requires |front| > 0 && Tells(row, front)
    requires next == Row(MergedStatus(Some(row.status), last.status), row.invitedBySelf,
                         if last.peerName == "" then row.peerName else last.peerName)
    ensures Tells(next, front + [last])
  {
    var writes := front + [last];
    NameAfter(front, last, row.peerName);
    assert writes[|front|] == last && writes[0] == front[0];
    if row.status == Accepted {
      var i :| 0 <= i < |front| && front[i].status == Accepted;
      assert writes[i].status == Accepted;
    } else {
      forall i | 0 <= i < |front| ensures writes[i].status != Accepted {
        assert writes[i] == front[i];
      }
    }
  }

  lemma {:induction false} OtherRowsStay(rows: map<string, Row>, peerId: string, writes: seq<Row>)
    ensures var now := Written(rows, peerId, writes);
            && now.Keys == (if |writes| == 0 then rows.Keys else rows.Keys + {peerId})
            && forall other :: other in rows && other != peerId ==> now[other] == rows[other]
  {
    if |writes| > 0 {
      var front := writes[..|writes| - 1];
      OtherRowsStay(rows, peerId, front);
      assert Written(rows, peerId, writes).Keys == Written(rows, peerId, front).Keys + {peerId};
    }
  }

  /** The row of a peer after any writes about it tells what was written. */
  lemma {:induction false} RowAfterWrites(rows: map<string, Row>, peerId: string, writes: seq<Row>)
    requires peerId !in rows && |writes| > 0
    ensures peerId in Written(rows, peerId, writes) && Tells(Written(rows, peerId, writes)[peerId], writes)
  {
    var front, last := writes[..|writes| - 1], writes[|writes| - 1];
    if |front| > 0 {
      RowAfterWrites(rows, peerId, front);
      assert writes == front + [last];
      var before := Written(rows, peerId, front);
      TellsNext(before[peerId], front, last, Upserted(before, peerId, last)[peerId]);
    } else {
      FirstWrite(rows, peerId, last);
      assert writes == [last];
      assert Written(rows, peerId, front) == rows;
    }
  }

  lemma FirstWrite(rows: map<string, Row>, peerId: string, row: Row)
    requires peerId !in rows
    ensures Upserted(rows, peerId, row) == rows[peerId := row] && Tells(row, [row])
  {
    assert [row][0] == row;
  }

  lemma NameAfter(front: seq<Row>, last: Row, name: string)
    requires LastName(front, name)
    ensures LastName(front + [last], if last.peerName == "" then name else last.peerName)
  {
    var writes := front + [last];
    assert writes[|front|] == last;
    if last.peerName == "" && !(forall i :: 0 <= i < |front| ==> front[i].peerName == "") {
      var i :| 0 <= i < |front| && name == front[i].peerName != "" && forall j :: i < j < |front| ==> front[j].peerName == "";
      assert writes[i].peerName == name;
    }
  }
}
