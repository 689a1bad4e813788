/**
 The durable outbox: every payment request is a row, written before any external call. Each SQL
 statement is one atomic update of a map of rows, given as a function on the map; the store's
 methods perform them in place, and a database that does not answer leaves the table as it was.
 A stored time is the whole second its text names; the backoff compares the texts, in whatever format.
 */
module Outbox {
  import opened Prelude
  import opened TextOrder
  import opened Worklist

  datatype Status = Initiated | Submitted | PromiseWritten | Reported | Exception {
    predicate Open() {
      Initiated? || Submitted? || PromiseWritten?
    }

    function Rank(): nat {
      match this
      case Initiated => 0
      case Submitted => 1
      case PromiseWritten => 2
      case Reported => 3
      case Exception => 3
    }
  }

  /** What a request is made of; nothing changes it after the insert. */
  datatype Request = Request(bankId: string, accountId: string, payload: string, salt: string)

  datatype Row = Row(
    request: Request,
    status: Status,
    attemptCount: nat,
    lastAttemptedAt: Option<nat>,
    obpId: Option<string>,
    promiseTxId: Option<string>,
    promiseBlockchain: Option<string>,
    exceptionReason: Option<string>,
    settlementId: Option<string>,
    settledAt: Option<nat>,
    createdAt: nat)

  /** The two settlement columns are written together. */
  predicate StampedTogether(row: Row) {
    row.settlementId.Some? <==> row.settledAt.Some?
  }

  type Rows = map<string, Row>

  /** A stored time is cut to whole seconds. */
  function Stamp(nanos: nat): nat {
    nanos / NANOS
  }

  function FreshRow(request: Request, now: nat): Row {
    Row(request, Initiated, 0, None, None, None, None, None, None, None, Stamp(now))
  }

  function Attempted(row: Row, now: nat): Row {
    row.(attemptCount := row.attemptCount + 1, lastAttemptedAt := Some(Stamp(now)))
  }

  // ---------- the statements ----------

  function Inserted(rows: Rows, id: string, request: Request, now: nat): Rows {
    if id in rows then rows else rows[id := FreshRow(request, now)]
  }

  function AttemptRecorded(rows: Rows, id: string, now: nat): Rows {
    if id in rows then rows[id := Attempted(rows[id], now)] else rows
  }

  function MarkedSubmitted(rows: Rows, id: string, obpId: Option<string>): Rows {
    if id in rows then rows[id := rows[id].(status := Submitted, obpId := obpId)] else rows
  }

  function MarkedPromiseWritten(rows: Rows, id: string, txId: string, blockchain: string): Rows {
    if id in rows
    then rows[id := rows[id].(status := PromiseWritten, promiseTxId := Some(txId), promiseBlockchain := Some(blockchain))]
    else rows
  }

  function MarkedReported(rows: Rows, id: string): Rows {
    if id in rows then rows[id := rows[id].(status := Reported)] else rows
  }

  function MarkedException(rows: Rows, id: string, reason: string): Rows {
    if id in rows then rows[id := rows[id].(status := Exception, exceptionReason := Some(reason))] else rows
  }

  /** One statement over the whole table: every unsettled row whose OBP id is listed. */
  predicate Covered(row: Row, obpIds: seq<string>) {
    row.settlementId.None? && row.obpId.Some? && row.obpId.value in obpIds
  }

  function MarkedSettled(rows: Rows, obpIds: seq<string>, settlementId: string, now: nat): Rows {
    map id | id in rows ::
      if Covered(rows[id], obpIds)
      then rows[id].(settlementId := Some(settlementId), settledAt := Some(Stamp(now)))
      else rows[id]
  }

  /** How the column spells a second. */
  type Format = nat -> string

  /** The rows `claim_due` may return: open, and never tried or last tried before the cutoff, texts
      compared as texts. */
  predicate Due(row: Row, cutoff: nat, text: Format) {
    row.status.Open() && (row.lastAttemptedAt.Some? ==> TextLess(text(row.lastAttemptedAt.value), text(cutoff)))
  }

  function DueStamps(rows: Rows, cutoff: nat, text: Format): map<string, nat> {
    map id | id in rows && Due(rows[id], cutoff, text) :: rows[id].createdAt
  }

  ghost predicate IsDueList(rows: Rows, cutoff: nat, text: Format, work: seq<string>, limit: nat) {
    Oldest(DueStamps(rows, cutoff, text), work, limit)
  }

  // ---------- the store ----------

  class Store {
    var rows: Rows

    constructor ()
      ensures rows == map[]
    {
      rows := map[];
    }

    /** Fails when the id exists. */
    method Insert(id: string, request: Request, now: nat, up: bool) returns (ok: bool)
      modifies this
      ensures ok == (up && id !in old(rows))
      ensures rows == if up then Inserted(old(rows), id, request, now) else old(rows)
    {
      ok := up && id !in rows;
      if ok {
        rows := rows[id := FreshRow(request, now)];
      }
    }

    method ClaimDue(cutoff: nat, limit: nat, text: Format) returns (work: seq<string>)
      ensures IsDueList(rows, Stamp(cutoff), text, work, limit)
    {
      work := TakeOldest(DueStamps(rows, Stamp(cutoff), text), limit);
    }

    method RecordAttempt(id: string, now: nat, up: bool) returns (ok: bool)
      modifies this
      ensures ok == up
      ensures rows == if up then AttemptRecorded(old(rows), id, now) else old(rows)
    {
      if up && id in rows {
        rows := rows[id := rows[id].(attemptCount := rows[id].attemptCount + 1, lastAttemptedAt := Some(Stamp(now)))];
      }
      ok := up;
    }

    method MarkSubmitted(id: string, obpId: Option<string>, up: bool) returns (ok: bool)
      modifies this
      ensures ok == up
      ensures rows == if up then MarkedSubmitted(old(rows), id, obpId) else old(rows)
    {
      if up && id in rows {
        rows := rows[id := rows[id].(status := Submitted, obpId := obpId)];
      }
      ok := up;
    }

    method MarkPromiseWritten(id: string, txId: string, blockchain: string, up: bool) returns (ok: bool)
      modifies this
      ensures ok == up
      ensures rows == if up then MarkedPromiseWritten(old(rows), id, txId, blockchain) else old(rows)
    {
      if up && id in rows {
        rows := rows[id := rows[id].(status := PromiseWritten, promiseTxId := Some(txId),
                                     promiseBlockchain := Some(blockchain))];
      }
      ok := up;
    }

    method MarkReported(id: string, up: bool) returns (ok: bool)
      modifies this
      ensures ok == up
      ensures rows == if up then MarkedReported(old(rows), id) else old(rows)
    {
      if up && id in rows {
        rows := rows[id := rows[id].(status := Reported)];
      }
      ok := up;
    }

    method MarkException(id: string, reason: string, up: bool) returns (ok: bool)
      modifies this
      ensures ok == up
      ensures rows == if up then MarkedException(old(rows), id, reason) else old(rows)
    {
      if up && id in rows {
        rows := rows[id := rows[id].(status := Exception, exceptionReason := Some(reason))];
      }
      ok := up;
    }

    /** Returns how many rows were stamped by this call. */
    method MarkSettled(obpIds: seq<string>, settlementId: string, now: nat, up: bool) returns (stamped: Option<nat>)
      modifies this
      ensures stamped.Some? <==> obpIds == [] || up
      ensures stamped.Some? ==> stamped.value == |NewlyStamped(old(rows), obpIds)|
      ensures rows == if up then MarkedSettled(old(rows), obpIds, settlementId, now) else old(rows)
    {
      if obpIds == [] {
        assert NewlyStamped(rows, obpIds) == {};
        assert MarkedSettled(rows, obpIds, settlementId, now) == rows;
        return Some(0);
      }
      if !up {
        return None;
      }
      stamped := Some(|NewlyStamped(rows, obpIds)|);
      rows := MarkedSettled(rows, obpIds, settlementId, now);
    }
  }

  function NewlyStamped(rows: Rows, obpIds: seq<string>): set<string> {
    set id | id in rows && Covered(rows[id], obpIds)
  }
}
