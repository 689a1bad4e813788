/**
 The beneficiary's record of received promises. Deliveries overwrite a row, CBS results and returns
 annotate it, and settlements stamp it, in any order and any number of times; the stamp is written
 once. Each SQL statement is one atomic update of a map of rows.
 */
module Evidence {
  import opened Prelude

  /** What a delivery writes. */
  datatype Credit = Credit(
    commitment: string, salt: string, preimage: string, verified: bool,
    currency: string, amount: string, returnOf: Option<string>, raw: string)

  datatype CbsResult = CbsResult(status: string, reference: Option<string>, recordedAt: nat)

  datatype Row = Row(
    credit: Credit, receivedAt: nat,
    cbs: Option<CbsResult>, returnedBy: Option<string>,
    settlementId: Option<string>, settledAt: Option<nat>)

  type Rows = map<string, Row>

  // ---------- the statements ----------

  /** A duplicate delivery replaces what the first delivery wrote and nothing else. */
  function Upserted(rows: Rows, id: string, credit: Credit, now: nat): Rows {
    rows[id := if id in rows then rows[id].(credit := credit, receivedAt := now)
               else Row(credit, now, None, None, None, None)]
  }

  function CbsRecorded(rows: Rows, id: string, status: string, reference: Option<string>, now: nat): Rows {
    if id in rows then rows[id := rows[id].(cbs := Some(CbsResult(status, reference, now)))] else rows
  }

  function ReturnRecorded(rows: Rows, id: string, returnId: string): Rows {
    if id in rows then rows[id := rows[id].(returnedBy := Some(returnId))] else rows
  }

  predicate Stampable(rows: Rows, id: string) {
    id in rows && rows[id].settledAt.None?
  }

  function StampedOne(rows: Rows, id: string, settlementId: string, now: nat): Rows {
    if Stampable(rows, id)
    then rows[id := rows[id].(settlementId := Some(settlementId), settledAt := Some(now))]
    else rows
  }

  /** One statement an id, in order. */
  function Stamped(rows: Rows, ids: seq<string>, settlementId: string, now: nat): Rows {
    if ids == [] then rows
    else StampedOne(Stamped(rows, ids[..|ids| - 1], settlementId, now), ids[|ids| - 1], settlementId, now)
  }

  function Fresh(rows: Rows, ids: seq<string>): set<string> {
    set id | id in ids && Stampable(rows, id)
  }

  // ---------- the store ----------

  class Store {
    var rows: Rows

    constructor ()
      ensures rows == map[]
    {
      rows := map[];
    }

    method Upsert(id: string, credit: Credit, now: nat, up: bool) returns (ok: bool)
      modifies this
      ensures ok == up
      ensures rows == if up then Upserted(old(rows), id, credit, now) else old(rows)
    {
      if up {
        var row := if id in rows then rows[id].(credit := credit, receivedAt := now)
                   else Row(credit, now, None, None, None, None);
        rows := rows[id := row];
      }
      ok := up;
    }

    method RecordCbsResult(id: string, status: string, reference: Option<string>, now: nat, up: bool) returns (ok: bool)
      modifies this
      ensures ok == up
      ensures rows == if up then CbsRecorded(old(rows), id, status, reference, now) else old(rows)
    {
      if up && id in rows {
        rows := rows[id := rows[id].(cbs := Some(CbsResult(status, reference, now)))];
      }
      ok := up;
    }

    method RecordReturn(id: string, returnId: string, up: bool) returns (ok: bool)
      modifies this
      ensures ok == up
      ensures rows == if up then ReturnRecorded(old(rows), id, returnId) else old(rows)
    {
      if up && id in rows {
        rows := rows[id := rows[id].(returnedBy := Some(returnId))];
      }
      ok := up;
    }

    /** The statements run one by one; `answered` is how many the database still answers. Returns the
        number of rows stamped, an id listed twice counting once. */
    method MarkSettled(ids: seq<string>, settlementId: string, now: nat, answered: nat) returns (count: Option<nat>)
      modifies this
      ensures rows == Stamped(old(rows), Answered(ids, answered), settlementId, now)
      ensures count == if answered < |ids| then None else Some(|Fresh(old(rows), ids)|)
    {
      ghost var before := rows;
      var stamped := 0;
      assert Fresh(before, ids[..0]) == {};
      for i := 0 to |ids|
        invariant i <= answered
        invariant rows == Stamped(before, ids[..i], settlementId, now)
        invariant stamped == |Fresh(before, ids[..i])|
      {
        StampedTable(before, ids[..i], settlementId, now);
        assert ids[..i + 1][..i] == ids[..i] && ids[..i + 1] == ids[..i] + [ids[i]];
        if i == answered {
          return None;
        }
        if Stampable(rows, ids[i]) {
          rows := rows[ids[i] := rows[ids[i]].(settlementId := Some(settlementId), settledAt := Some(now))];
          stamped := stamped + 1;
          assert Fresh(before, ids[..i + 1]) == Fresh(before, ids[..i]) + {ids[i]};
        } else {
          assert Fresh(before, ids[..i + 1]) == Fresh(before, ids[..i]);
        }
      }
      assert ids[..|ids|] == ids;
      count := Some(stamped);
    }
  }

  function Answered(ids: seq<string>, answered: nat): seq<string> {
    ids[..Min(answered, |ids|)]
  }

  /** The whole table after a settlement: exactly the fresh rows carry its stamp. */
  lemma {:induction false} StampedTable(rows: Rows, ids: seq<string>, settlementId: string, now: nat)
    ensures var after := Stamped(rows, ids, settlementId, now);
            && after.Keys == rows.Keys
            && (forall id :: id in rows ==>
                  after[id] == if id in Fresh(rows, ids)
                               then rows[id].(settlementId := Some(settlementId), settledAt := Some(now))
                               else rows[id])
  {
    if ids != [] {
      var front := ids[..|ids| - 1];
      StampedTable(rows, front, settlementId, now);
      assert ids == front + [ids[|ids| - 1]];
    }
  }

  // ---------- any interleaving of calls ----------

  datatype Call =
    | Upsert(id: string, credit: Credit, now: nat)
    | RecordCbs(id: string, status: string, reference: Option<string>, now: nat)
    | RecordReturn(id: string, returnId: string)
    | MarkSettled(ids: seq<string>, settlementId: string, now: nat, answered: nat)

  function Applied(rows: Rows, call: Call): Rows {
    match call
    case Upsert(id, credit, now) => Upserted(rows, id, credit, now)
    case RecordCbs(id, status, reference, now) => CbsRecorded(rows, id, status, reference, now)
    case RecordReturn(id, returnId) => ReturnRecorded(rows, id, returnId)
    case MarkSettled(ids, sid, now, answered) => Stamped(rows, Answered(ids, answered), sid, now)
  }

  function After(calls: seq<Call>): Rows {
    if calls == [] then map[] else Applied(After(calls[..|calls| - 1]), calls[|calls| - 1])
  }

  predicate Delivers(call: Call, id: string) {
    call.Upsert? && call.id == id
  }

  ghost predicate Delivered(calls: seq<Call>, n: nat, id: string)
    requires n <= |calls|
  {
    exists j :: 0 <= j < n && Delivers(calls[j], id)
  }

  /** The i-th call names this row, which existed by then. */
  ghost predicate Names(calls: seq<Call>, i: nat, id: string)
    requires i < |calls|
  {
    calls[i].MarkSettled? && id in Answered(calls[i].ids, calls[i].answered) && Delivered(calls, i, id)
  }

  ghost predicate NamesFirst(calls: seq<Call>, i: nat, id: string) {
    i < |calls| && Names(calls, i, id) && forall j: nat :: j < i ==> !Names(calls, j, id)
  }

  ghost predicate StampIs(row: Row, call: Call)
    requires call.MarkSettled?
  {
    row.settlementId == Some(call.settlementId) && row.settledAt == Some(call.now)
  }

  ghost predicate NeverNamed(calls: seq<Call>, id: string) {
    forall i: nat :: i < |calls| ==> !Names(calls, i, id)
  }

  lemma PrefixSeesTheSame(calls: seq<Call>, n: nat, i: nat, id: string)
    requires i < n <= |calls|
    ensures Names(calls[..n], i, id) == Names(calls, i, id)
  {
    assert forall j :: 0 <= j < n ==> calls[..n][j] == calls[j];
  }

  lemma NeverNamedInPrefix(calls: seq<Call>, id: string)
    requires calls != []
    ensures NeverNamed(calls, id) <==>
            NeverNamed(calls[..|calls| - 1], id) && !Names(calls, |calls| - 1, id)
  {
    var n := |calls| - 1;
    forall i: nat | i < n
      ensures Names(calls[..n], i, id) == Names(calls, i, id)
    {
      PrefixSeesTheSame(calls, n, i, id);
    }
  }

  lemma FirstInPrefix(calls: seq<Call>, i: nat, id: string)
    requires calls != [] && NamesFirst(calls[..|calls| - 1], i, id)
    ensures NamesFirst(calls, i, id) && calls[..|calls| - 1][i] == calls[i]
  {
    forall j: nat | j <= i
      ensures Names(calls[..|calls| - 1], j, id) == Names(calls, j, id)
    {
      PrefixSeesTheSame(calls, |calls| - 1, j, id);
    }
  }

  lemma FirstAtTheEnd(calls: seq<Call>, id: string)
    requires calls != [] && NeverNamed(calls[..|calls| - 1], id) && Names(calls, |calls| - 1, id)
    ensures NamesFirst(calls, |calls| - 1, id)
  {
    forall j: nat | j < |calls| - 1
      ensures !Names(calls, j, id)
    {
      PrefixSeesTheSame(calls, |calls| - 1, j, id);
    }
  }

  lemma {:induction false} RowsAreTheDelivered(calls: seq<Call>, id: string)
    ensures id in After(calls) <==> Delivered(calls, |calls|, id)
  {
    if calls != [] {
      var front, last := calls[..|calls| - 1], calls[|calls| - 1];
      RowsAreTheDelivered(front, id);
      if last.MarkSettled? {
        StampedTable(After(front), Answered(last.ids, last.answered), last.settlementId, last.now);
      }
      assert Delivered(calls, |calls|, id) <==> Delivered(front, |front|, id) || Delivers(last, id);
    }
  }

  /** What one call does to one row's stamp. */
  lemma CallOnStamp(rows: Rows, call: Call, id: string)
    requires id in rows
    ensures id in Applied(rows, call)
    ensures var row := Applied(rows, call)[id];
            if call.MarkSettled? && id in Answered(call.ids, call.answered) && rows[id].settledAt.None?
            then StampIs(row, call)
            else row.settlementId == rows[id].settlementId && row.settledAt == rows[id].settledAt
  {
    if call.MarkSettled? {
      StampedTable(rows, Answered(call.ids, call.answered), call.settlementId, call.now);
    }
  }

  ghost predicate CarriesFirstStamp(calls: seq<Call>, row: Row, id: string) {
    if row.settledAt.None? then row.settlementId.None? && NeverNamed(calls, id)
    else exists i: nat :: NamesFirst(calls, i, id) && StampIs(row, calls[i])
  }

  /** Each row carries the stamp of the first settlement that named it once it existed, whatever came
      between and after: deliveries again, CBS results, returns, other settlements. */
  lemma {:induction false} FirstStampWins(calls: seq<Call>, id: string)
    requires id in After(calls)
    ensures CarriesFirstStamp(calls, After(calls)[id], id)
  {
    var front, last, n := calls[..|calls| - 1], calls[|calls| - 1], |calls| - 1;
    var before := After(front);
    RowsAreTheDelivered(front, id);
    NeverNamedInPrefix(calls, id);
    assert Delivered(front, n, id) <==> Delivered(calls, n, id);
    if id in before {
      FirstStampWins(front, id);
      CallOnStamp(before, last, id);
      if before[id].settledAt.Some? {
        var i: nat :| NamesFirst(front, i, id) && StampIs(before[id], front[i]);
        FirstInPrefix(calls, i, id);
      } else if Names(calls, n, id) {
        FirstAtTheEnd(calls, id);
      }
    } else {
      NewRowIsNeverNamed(front, id);
      NewcomerIsUnstamped(before, last, id);
    }
  }

  lemma NewRowIsNeverNamed(calls: seq<Call>, id: string)
    requires !Delivered(calls, |calls|, id)
    ensures NeverNamed(calls, id)
  {
  }

  lemma NewcomerIsUnstamped(rows: Rows, call: Call, id: string)
    requires id !in rows && id in Applied(rows, call)
    ensures Delivers(call, id) && Applied(rows, call)[id].settledAt.None? && Applied(rows, call)[id].settlementId.None?
  {
    if call.MarkSettled? {
      StampedTable(rows, Answered(call.ids, call.answered), call.settlementId, call.now);
    }
  }

  /** Replaying an earlier settlement changes nothing, exactly when every row it names had already been
      named when it existed; a row delivered since is stamped late. */
  lemma ReplayChangesOnlyLatecomers(calls: seq<Call>, call: Call)
    requires call in calls && call.MarkSettled?
    ensures Applied(After(calls), call) == After(calls) <==>
            forall id :: id in Answered(call.ids, call.answered) && id in After(calls) ==> !NeverNamed(calls, id)
  {
    var rows, ids := After(calls), Answered(call.ids, call.answered);
    var after := Applied(rows, call);
    StampedTable(rows, ids, call.settlementId, call.now);
    forall id | id in ids && id in rows
      ensures rows[id].settledAt.None? <==> NeverNamed(calls, id)
      ensures rows[id].settledAt.None? ==> after[id] != rows[id]
    {
      FirstStampWins(calls, id);
      StampedMeansNamed(calls, rows[id], id);
    }
    if forall id :: id in ids && id in rows ==> !NeverNamed(calls, id) {
      assert forall id :: id in rows ==> after[id] == rows[id];
      assert after == rows;
    }
  }

  ghost predicate DeliversLast(calls: seq<Call>, i: nat, id: string) {
    i < |calls| && Delivers(calls[i], id) && forall j :: i < j < |calls| ==> !Delivers(calls[j], id)
  }

  lemma CallOnCredit(rows: Rows, call: Call, id: string)
    requires id in rows && !Delivers(call, id)
    ensures id in Applied(rows, call)
    ensures Applied(rows, call)[id].credit == rows[id].credit && Applied(rows, call)[id].receivedAt == rows[id].receivedAt
  {
    if call.MarkSettled? {
      StampedTable(rows, Answered(call.ids, call.answered), call.settlementId, call.now);
    }
  }

  /** What a row says was received is what its last delivery said. */
  lemma {:induction false} LastDeliveryWins(calls: seq<Call>, id: string) returns (i: nat)
    requires id in After(calls)
    ensures DeliversLast(calls, i, id)
    ensures After(calls)[id].credit == calls[i].credit && After(calls)[id].receivedAt == calls[i].now
  {
    var front, last := calls[..|calls| - 1], calls[|calls| - 1];
    if Delivers(last, id) {
      i := |calls| - 1;
    } else {
      RowsAreTheDelivered(calls, id);
      RowsAreTheDelivered(front, id);
      assert Delivered(calls, |calls|, id) <==> Delivered(front, |front|, id);
      i := LastDeliveryWins(front, id);
      CallOnCredit(After(front), last, id);
    }
  }

  /** The i-th call notes an answer of the core banking system on the row, which existed by then. */
  ghost predicate Notes(calls: seq<Call>, i: nat, id: string)
    requires i < |calls|
  {
    calls[i].RecordCbs? && calls[i].id == id && Delivered(calls, i, id)
  }

  /** The i-th call links a return to the row, which existed by then. */
  ghost predicate Links(calls: seq<Call>, i: nat, id: string)
    requires i < |calls|
  {
    calls[i].RecordReturn? && calls[i].id == id && Delivered(calls, i, id)
  }

  lemma CallOnAnnotations(rows: Rows, call: Call, id: string)
    requires id in Applied(rows, call)
    ensures id !in rows ==> Applied(rows, call)[id].cbs == None && Applied(rows, call)[id].returnedBy == None
    ensures id in rows ==>
              && Applied(rows, call)[id].cbs ==
                 (if call.RecordCbs? && call.id == id then Some(CbsResult(call.status, call.reference, call.now)) else rows[id].cbs)
              && Applied(rows, call)[id].returnedBy ==
                 (if call.RecordReturn? && call.id == id then Some(call.returnId) else rows[id].returnedBy)
  {
    if call.MarkSettled? {
      StampedTable(rows, Answered(call.ids, call.answered), call.settlementId, call.now);
    }
  }

  lemma PrefixDelivers(calls: seq<Call>, i: nat, id: string)
    requires i < |calls|
    ensures Delivered(calls[..|calls| - 1], i, id) == Delivered(calls, i, id)
  {
  }

  /** What a row says the core banking system answered is what was noted last since the row existed, and the
      return it shows was linked last: deliveries again, settlements and the like leave both alone. */
  lemma {:induction false} LastNotesWin(calls: seq<Call>, id: string) returns (noted: Option<nat>, linked: Option<nat>)
    requires id in After(calls)
    ensures match noted
            case None => After(calls)[id].cbs == None && forall j: nat :: j < |calls| ==> !Notes(calls, j, id)
            case Some(i) =>
              && i < |calls| && Notes(calls, i, id) && (forall j :: i < j < |calls| ==> !Notes(calls, j, id))
              && After(calls)[id].cbs == Some(CbsResult(calls[i].status, calls[i].reference, calls[i].now))
    ensures match linked
            case None => After(calls)[id].returnedBy == None && forall j: nat :: j < |calls| ==> !Links(calls, j, id)
            case Some(i) =>
              && i < |calls| && Links(calls, i, id) && (forall j :: i < j < |calls| ==> !Links(calls, j, id))
              && After(calls)[id].returnedBy == Some(calls[i].returnId)
  {
    var front, last, n := calls[..|calls| - 1], calls[|calls| - 1], |calls| - 1;
    RowsAreTheDelivered(front, id);
    CallOnAnnotations(After(front), last, id);
    PrefixDelivers(calls, n, id);
    forall j: nat | j < n
      ensures Notes(calls, j, id) == Notes(front, j, id) && Links(calls, j, id) == Links(front, j, id)
    {
      PrefixDelivers(calls, j, id);
    }
    if id !in After(front) {
      noted, linked := None, None;
      forall j: nat | j < |calls|
        ensures !Delivered(calls, j, id)
      {
        assert forall k :: 0 <= k < j ==> !Delivers(calls[k], id) by {
          assert forall k :: 0 <= k < j ==> front[k] == calls[k];
        }
      }
    } else {
      noted, linked := LastNotesWin(front, id);
      if last.RecordCbs? && last.id == id {
        noted := Some(n);
      }
      if last.RecordReturn? && last.id == id {
        linked := Some(n);
      }
    }
  }

  lemma StampedMeansNamed(calls: seq<Call>, row: Row, id: string)
    requires CarriesFirstStamp(calls, row, id)
    ensures row.settledAt.None? <==> NeverNamed(calls, id)
  {
  }

  /** A settlement advised before the credit is delivered, and replayed after. */
  lemma ReplayCanStampLate(credit: Credit) returns (calls: seq<Call>, call: Call)
    ensures call in calls && call.MarkSettled? && Applied(After(calls), call) != After(calls)
  {
    call := MarkSettled(["x"], "s", 1, 1);
    var delivery := Upsert("x", credit, 2);
    calls := [call, delivery];
    assert calls[..1] == [call] && [call][..0] == [];
    assert After([call]) == Applied(map[], call);
    assert Answered(["x"], 1) == ["x"];
    StampedTable(map[], ["x"], "s", 1);
    assert After(calls) == Applied(After([call]), delivery);
    StampedTable(After(calls), ["x"], "s", 1);
  }

  // ---------- the counts ----------

  function Count(rows: Rows, call: Call): nat {
    if call.MarkSettled? then |Fresh(rows, Answered(call.ids, call.answered))| else 0
  }

  function Total(calls: seq<Call>): nat {
    if calls == [] then 0
    else Total(calls[..|calls| - 1]) + Count(After(calls[..|calls| - 1]), calls[|calls| - 1])
  }

  function StampedIds(rows: Rows): set<string> {
    set id | id in rows && rows[id].settledAt.Some?
  }

  /** The counts add up to the rows stamped: no row is counted twice, none is missed. */
  lemma {:induction false} CountsAddUp(calls: seq<Call>)
    ensures Total(calls) == |StampedIds(After(calls))|
  {
    if calls != [] {
      var front, last := calls[..|calls| - 1], calls[|calls| - 1];
      CountsAddUp(front);
      var rows := After(front);
      if last.MarkSettled? {
        var ids := Answered(last.ids, last.answered);
        StampedTable(rows, ids, last.settlementId, last.now);
        assert StampedIds(Applied(rows, last)) == StampedIds(rows) + Fresh(rows, ids);
      } else {
        assert StampedIds(Applied(rows, last)) == StampedIds(rows);
      }
    }
  }
}
