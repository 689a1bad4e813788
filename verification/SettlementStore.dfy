/**
 The durable settlement table. Each SQL statement is one atomic update of a map of rows, given as
 a function on the map; the store's methods perform them in place, and a database that does not
 answer leaves the table as it was.
 */
module SettlementStore {
  import opened Prelude
  import opened Worklist

  datatype Status = Settling | Submitted | Final | Error

  /** What the inbound instruction asked for, captured at claim time. */
  datatype Terms = Terms(settlementId: Option<string>, currency: string, netAmountMinor: nat, creditorAddress: string)

  /** The transfer a successful settle reports. */
  datatype Outcome = Outcome(txId: string, chain: string, asset: string, assetAmount: string)

  datatype Row = Row(
    terms: Terms,
    status: Status,
    outcome: Option<Outcome>,
    lastDepth: nat,
    errorReason: Option<string>,
    retryable: bool,
    createdAt: nat,
    updatedAt: nat,
    finalizedAt: Option<nat>)
  {
    predicate MayRetry() {
      status == Error && retryable
    }
  }

  type Rows = map<string, Row>

  function FreshRow(terms: Terms, now: nat): Row {
    Row(terms, Settling, None, 0, None, false, now, now, None)
  }

  // ---------- the statements ----------

  function Inserted(rows: Rows, key: string, terms: Terms, now: nat): Rows {
    if key in rows then rows else rows[key := FreshRow(terms, now)]
  }

  function Reopened(rows: Rows, key: string, now: nat): Rows {
    if key in rows && rows[key].MayRetry()
    then rows[key := rows[key].(status := Settling, errorReason := None, retryable := false, updatedAt := now)]
    else rows
  }

  function MarkedSubmitted(rows: Rows, key: string, outcome: Outcome, now: nat): Rows {
    if key in rows
    then rows[key := rows[key].(status := Submitted, outcome := Some(outcome), updatedAt := now)]
    else rows
  }

  function MarkedError(rows: Rows, key: string, reason: string, retryable: bool, now: nat): Rows {
    if key in rows
    then rows[key := rows[key].(status := Error, errorReason := Some(reason), retryable := retryable, updatedAt := now)]
    else rows
  }

  function DepthRecorded(rows: Rows, key: string, depth: nat, now: nat): Rows {
    if key in rows then rows[key := rows[key].(lastDepth := depth, updatedAt := now)] else rows
  }

  function MarkedFinal(rows: Rows, key: string, depth: nat, now: nat): Rows {
    if key in rows && rows[key].status == Submitted
    then rows[key := rows[key].(status := Final, lastDepth := depth, finalizedAt := Some(now), updatedAt := now)]
    else rows
  }

  /** The stamps `list_submitted` orders by. */
  function SubmittedStamps(rows: Rows): map<string, nat> {
    map k | k in rows && rows[k].status == Submitted :: rows[k].updatedAt
  }

  ghost predicate IsWorklist(rows: Rows, work: seq<string>, limit: nat) {
    Oldest(SubmittedStamps(rows), work, limit)
  }

  // ---------- the store ----------

  datatype ClaimAnswer = Claimed | Existing(row: Row)

  class Store {
    var rows: Rows

    constructor ()
      ensures rows == map[]
    {
      rows := map[];
    }

    /** `INSERT OR IGNORE`, then a read of the existing row when nothing was inserted. */
    method Claim(key: string, terms: Terms, now: nat, insertUp: bool, readUp: bool)
      returns (answer: Option<ClaimAnswer>)
      modifies this
      ensures rows == if insertUp then Inserted(old(rows), key, terms, now) else old(rows)
      ensures answer ==
              if !insertUp then None
              else if key !in old(rows) then Some(Claimed)
              else if readUp then Some(Existing(old(rows)[key])) else None
    {
      if !insertUp {
        return None;
      }
      if key !in rows {
        rows := rows[key := FreshRow(terms, now)];
        return Some(Claimed);
      }
      answer := if readUp then Some(Existing(rows[key])) else None;
    }

    method ReclaimForRetry(key: string, now: nat, up: bool) returns (ok: bool)
      modifies this
      ensures ok == up
      ensures rows == if up then Reopened(old(rows), key, now) else old(rows)
    {
      if up && key in rows && rows[key].status == Error && rows[key].retryable {
        rows := rows[key := rows[key].(status := Settling, errorReason := None, retryable := false, updatedAt := now)];
      }
      ok := up;
    }

    method MarkSubmitted(key: string, outcome: Outcome, now: nat, up: bool) returns (ok: bool)
      modifies this
      ensures ok == up
      ensures rows == if up then MarkedSubmitted(old(rows), key, outcome, now) else old(rows)
    {
      if up && key in rows {
        rows := rows[key := rows[key].(status := Submitted, outcome := Some(outcome), updatedAt := now)];
      }
      ok := up;
    }

    method MarkError(key: string, reason: string, retryable: bool, now: nat, up: bool) returns (ok: bool)
      modifies this
      ensures ok == up
      ensures rows == if up then MarkedError(old(rows), key, reason, retryable, now) else old(rows)
    {
      if up && key in rows {
        rows := rows[key := rows[key].(status := Error, errorReason := Some(reason), retryable := retryable, updatedAt := now)];
      }
      ok := up;
    }

    method RecordDepth(key: string, depth: nat, now: nat, up: bool) returns (ok: bool)
      modifies this
      ensures ok == up
      ensures rows == if up then DepthRecorded(old(rows), key, depth, now) else old(rows)
    {
      if up && key in rows {
        rows := rows[key := rows[key].(lastDepth := depth, updatedAt := now)];
      }
      ok := up;
    }

    method MarkFinal(key: string, depth: nat, now: nat, up: bool) returns (ok: bool)
      modifies this
      ensures ok == up
      ensures rows == if up then MarkedFinal(old(rows), key, depth, now) else old(rows)
    {
      if up && key in rows && rows[key].status == Submitted {
        rows := rows[key := rows[key].(status := Final, lastDepth := depth, finalizedAt := Some(now), updatedAt := now)];
      }
      ok := up;
    }

    method ListSubmitted(limit: nat) returns (work: seq<string>)
      ensures IsWorklist(rows, work, limit)
    {
      work := TakeOldest(SubmittedStamps(rows), limit);
    }
  }
}
