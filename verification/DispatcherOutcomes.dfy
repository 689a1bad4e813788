/**
 What each answer does to a row, in the columns of the table: an accepted call is recorded and the next
 one made, a retryable failure leaves the row where it got, a final refusal closes it with its reason.
 And in a pass each row gets its own turn, whatever the others are answered.
 */
module DispatcherOutcomes {
  import opened Prelude
  import opened Outbox
  import opened DispatcherRuns
  import opened Dispatcher

  /** The row is as it was read but for these columns. */
  function With(row: Row, status: Status, obpId: Option<string>, txId: Option<string>, chain: Option<string>,
                reason: Option<string>): Row {
    Row(row.request, status, row.attemptCount, row.lastAttemptedAt, obpId, txId, chain, reason,
        row.settlementId, row.settledAt, row.createdAt)
  }

  // ---------- the report ----------

  /** With both ids known the report is made, and its answer decides. */
  lemma ReportDecides(rows: Rows, w: Work, a: Answers, chainLabel: string, advanced: bool)
    requires w.item.id in rows && w.stage == ReportStage(w.obpId, w.txId)
    ensures var row, (after, r) := rows[w.item.id], Drive(rows, w, a, chainLabel, advanced);
            && w.item.id in after
            && if w.obpId.None? || w.txId.None? then
                 if a.exceptionUp
                 then after[w.item.id] == With(row, Exception, row.obpId, row.promiseTxId, row.promiseBlockchain, Some(NEVER_RECORDED))
                      && r == Ok(true)
                 else after == rows && r.Err?
               else
                 match a.report
                 case ReportOk =>
                   if a.reportedUp
                   then after[w.item.id] == With(row, Reported, row.obpId, row.promiseTxId, row.promiseBlockchain, row.exceptionReason)
                        && r == Ok(true)
                   else after == rows && r.Err?
                 case ReportRetryable(_) => after == rows && r == Ok(advanced)
                 case ReportTerminal(reason) =>
                   if a.exceptionUp
                   then after[w.item.id] == With(row, Exception, row.obpId, row.promiseTxId, row.promiseBlockchain, Some(reason))
                        && r == Ok(true)
                   else after == rows && r.Err?
  {
  }

  // ---------- the write ----------

  /** A failed write leaves the row `SUBMITTED`; an accepted one is recorded, with its transaction and the
      chain, and the report follows from there. */
  lemma WriteDecides(rows: Rows, w: Work, a: Answers, chainLabel: string, advanced: bool)
    requires w.item.id in rows && w.stage == Writing
    ensures var (after, r) := Drive(rows, w, a, chainLabel, advanced);
            match a.write
            case WriteErr(_) => after == rows && r == Ok(advanced)
            case WriteOk(tx) =>
              if !a.writtenUp then after == rows && r.Err?
              else
                var row := rows[w.item.id];
                var written := rows[w.item.id := With(row, PromiseWritten, row.obpId, Some(tx), Some(chainLabel), row.exceptionReason)];
                (after, r) == Drive(written, Work(w.item, w.obpId, Some(tx), ReportStage(w.obpId, Some(tx))), a, chainLabel, true)
  {
  }

  // ---------- the submit ----------

  /** A submit that may be retried leaves the row `INITIATED`, a refused one closes it with its reason; an
      accepted one is recorded with the id it gave, if any, and the write follows from there. */
  lemma SubmitDecides(rows: Rows, w: Work, a: Answers, chainLabel: string)
    requires w.item.id in rows && w.stage == Submitting
    ensures var row, (after, r) := rows[w.item.id], Drive(rows, w, a, chainLabel, false);
            match a.submit
            case SubmitRetryable(_) => after == rows && r == Ok(false)
            case SubmitTerminal(reason) =>
              if a.exceptionUp
              then after == rows[w.item.id := With(row, Exception, row.obpId, row.promiseTxId, row.promiseBlockchain, Some(reason))]
                   && r == Ok(true)
              else after == rows && r.Err?
            case SubmitOk(obpId) =>
              if !a.submittedUp then after == rows && r.Err?
              else
                var submitted := rows[w.item.id := With(row, Submitted, obpId, row.promiseTxId, row.promiseBlockchain, row.exceptionReason)];
                (after, r) == Drive(submitted, Work(w.item, obpId, w.txId, Writing), a, chainLabel, true)
  {
  }

  // ---------- a whole row ----------

  /** The table has the row as it was read. */
  predicate InHand(rows: Rows, item: Item) {
    && item.id in rows && item.row.status.Open()
    && rows[item.id].status == item.row.status && rows[item.id].obpId == item.row.obpId
    && rows[item.id].promiseTxId == item.row.promiseTxId
  }

  /** The columns a row ends with when the report comes up with these ids. */
  function Revealed(row: Row, obpId: Option<string>, txId: Option<string>, chain: Option<string>, a: Answers): Row {
    if obpId.None? || txId.None? then
      if a.exceptionUp then With(row, Exception, obpId, txId, chain, Some(NEVER_RECORDED))
      else With(row, PromiseWritten, obpId, txId, chain, row.exceptionReason)
    else
      match a.report
      case ReportOk => With(row, if a.reportedUp then Reported else PromiseWritten, obpId, txId, chain, row.exceptionReason)
      case ReportRetryable(_) => With(row, PromiseWritten, obpId, txId, chain, row.exceptionReason)
      case ReportTerminal(reason) =>
        if a.exceptionUp then With(row, Exception, obpId, txId, chain, Some(reason))
        else With(row, PromiseWritten, obpId, txId, chain, row.exceptionReason)
  }

  lemma PromiseWrittenRow(rows: Rows, item: Item, a: Answers, chainLabel: string)
    requires InHand(rows, item) && item.row.status == PromiseWritten
    ensures var row, after := rows[item.id], Drive(rows, Begin(item), a, chainLabel, false).0;
            item.id in after && after[item.id] == Revealed(row, row.obpId, row.promiseTxId, row.promiseBlockchain, a)
  {
    ReportDecides(rows, Begin(item), a, chainLabel, false);
  }

  lemma WritingRow(rows: Rows, w: Work, a: Answers, chainLabel: string, advanced: bool)
    requires w.item.id in rows && w.stage == Writing && rows[w.item.id].status == Submitted && rows[w.item.id].obpId == w.obpId
    ensures var row, (after, r) := rows[w.item.id], Drive(rows, w, a, chainLabel, advanced);
            w.item.id in after
            && if a.write.WriteErr? || !a.writtenUp then after == rows && r.Err? == a.write.WriteOk?
               else after[w.item.id] == Revealed(row, row.obpId, Some(a.write.txId), Some(chainLabel), a)
  {
    WriteDecides(rows, w, a, chainLabel, advanced);
    if a.write.WriteOk? && a.writtenUp {
      var row, tx := rows[w.item.id], a.write.txId;
      var written := rows[w.item.id := With(row, PromiseWritten, row.obpId, Some(tx), Some(chainLabel), row.exceptionReason)];
      ReportDecides(written, Work(w.item, w.obpId, Some(tx), ReportStage(w.obpId, Some(tx))), a, chainLabel, true);
    }
  }

  lemma SubmittedRow(rows: Rows, item: Item, a: Answers, chainLabel: string)
    requires InHand(rows, item) && item.row.status == Submitted
    ensures var row, (after, r) := rows[item.id], Drive(rows, Begin(item), a, chainLabel, false);
            item.id in after
            && if a.write.WriteErr? || !a.writtenUp then after == rows
               else after[item.id] == Revealed(row, row.obpId, Some(a.write.txId), Some(chainLabel), a)
  {
    WritingRow(rows, Begin(item), a, chainLabel, false);
  }

  /** What becomes of a new row: only a retryable submit, or a statement that fails, leaves it where it is;
      once accepted and recorded it keeps the id it was given, and a write and a report accepted in the same
      turn are recorded too. */
  lemma InitiatedRow(rows: Rows, item: Item, a: Answers, chainLabel: string)
    requires InHand(rows, item) && item.row.status == Initiated
    ensures var row, after := rows[item.id], Drive(rows, Begin(item), a, chainLabel, false).0;
            item.id in after
            && match a.submit
               case SubmitRetryable(_) => after == rows
               case SubmitTerminal(reason) =>
                 if a.exceptionUp
                 then after[item.id] == With(row, Exception, row.obpId, row.promiseTxId, row.promiseBlockchain, Some(reason))
                 else after == rows
               case SubmitOk(obpId) =>
                 if !a.submittedUp then after == rows
                 else if a.write.WriteErr? || !a.writtenUp
                 then after[item.id] == With(row, Submitted, obpId, row.promiseTxId, row.promiseBlockchain, row.exceptionReason)
                 else after[item.id] == Revealed(row, obpId, Some(a.write.txId), Some(chainLabel), a)
  {
    SubmitDecides(rows, Begin(item), a, chainLabel);
    if a.submit.SubmitOk? && a.submittedUp {
      var row, obpId := rows[item.id], a.submit.obpId;
      var submitted := rows[item.id := With(row, Submitted, obpId, row.promiseTxId, row.promiseBlockchain, row.exceptionReason)];
      WritingRow(submitted, Work(item, obpId, item.row.promiseTxId, Writing), a, chainLabel, true);
    }
  }

  /** Everything outside and the database answer well. */
  predicate AllWell(a: Answers) {
    a.submit.SubmitOk? && a.write.WriteOk? && a.report.ReportOk?
    && a.submittedUp && a.writtenUp && a.reportedUp && a.exceptionUp
  }

  /** Then any open row is done in one turn: reported under the id OBP-API gave it, or closed because it
      gave none. */
  lemma AllWellMeansDone(rows: Rows, item: Item, a: Answers, chainLabel: string)
    requires InHand(rows, item) && AllWell(a)
    requires item.row.status == PromiseWritten ==> item.row.promiseTxId.Some?
    ensures var row, after := rows[item.id], Drive(rows, Begin(item), a, chainLabel, false).0;
            var obpId := if item.row.status == Initiated then a.submit.obpId else item.row.obpId;
            && item.id in after && after[item.id].obpId == obpId && after[item.id].request == row.request
            && after[item.id].attemptCount == row.attemptCount && after[item.id].lastAttemptedAt == row.lastAttemptedAt
            && (if item.row.status == PromiseWritten
                then after[item.id].promiseTxId == row.promiseTxId && after[item.id].promiseBlockchain == row.promiseBlockchain
                else after[item.id].promiseTxId == Some(a.write.txId) && after[item.id].promiseBlockchain == Some(chainLabel))
            && (if obpId.Some? then after[item.id].status == Reported && after[item.id].exceptionReason == row.exceptionReason
                else after[item.id].status == Exception && after[item.id].exceptionReason == Some(NEVER_RECORDED))
  {
    match item.row.status
    case Initiated => InitiatedRow(rows, item, a, chainLabel);
    case Submitted => SubmittedRow(rows, item, a, chainLabel);
    case _ => PromiseWrittenRow(rows, item, a, chainLabel);
  }

  /** No answer of the outside fails a turn. */
  lemma {:induction false} DriveFailsOnlyOnTheDatabase(rows: Rows, w: Work, a: Answers, chainLabel: string, advanced: bool)
    requires Ready(w) && a.submittedUp && a.writtenUp && a.reportedUp && a.exceptionUp
    ensures Drive(rows, w, a, chainLabel, advanced).1.Ok?
    decreases StepsLeft(w.stage)
  {
    var step := NextStep(w.stage, a, chainLabel);
    if WorkAfter(w, step).Some? {
      DriveFailsOnlyOnTheDatabase(RowsAfter(rows, w, step, chainLabel), WorkAfter(w, step).value, a, chainLabel,
                                  advanced || Records(step));
    }
  }

  // ---------- a whole pass ----------

  /** What a turn makes of its row depends on that row alone. */
  lemma {:induction false} DriveIsLocal(rows: Rows, other: Rows, w: Work, a: Answers, chainLabel: string, advanced: bool)
    requires Ready(w) && w.item.id in rows && w.item.id in other && rows[w.item.id] == other[w.item.id]
    ensures var (after, r) := Drive(rows, w, a, chainLabel, advanced);
            var (alone, q) := Drive(other, w, a, chainLabel, advanced);
            w.item.id in after && w.item.id in alone && after[w.item.id] == alone[w.item.id] && r == q
    decreases StepsLeft(w.stage)
  {
    var step := NextStep(w.stage, a, chainLabel);
    if !step.Halt? && WorkAfter(w, step).Some? {
      DriveIsLocal(RowsAfter(rows, w, step, chainLabel), RowsAfter(other, w, step, chainLabel), WorkAfter(w, step).value, a,
                   chainLabel, advanced || Records(step));
    }
  }

  lemma TurnIsLocal(rows: Rows, other: Rows, item: Item, turn: Turn, chainLabel: string)
    requires item.id in rows && item.id in other && rows[item.id] == other[item.id]
    ensures var (after, r) := DriveTurn(rows, item, turn, chainLabel);
            var (alone, q) := DriveTurn(other, item, turn, chainLabel);
            item.id in after && item.id in alone && after[item.id] == alone[item.id] && r == q
  {
    if turn.attemptUp {
      DriveIsLocal(AttemptRecorded(rows, item.id, turn.now), AttemptRecorded(other, item.id, turn.now), Begin(item),
                   turn.answers, chainLabel, false);
    }
  }

  lemma TurnTouchesOnlyTheRow(rows: Rows, item: Item, turn: Turn, chainLabel: string)
    ensures var after := DriveTurn(rows, item, turn, chainLabel).0;
            after.Keys == rows.Keys && forall id :: id in rows && id != item.id ==> after[id] == rows[id]
  {
    if turn.attemptUp {
      DriveTouchesOnlyTheRow(AttemptRecorded(rows, item.id, turn.now), Begin(item), turn.answers, chainLabel, false);
    }
  }

  /** A turn counts the attempt, at the second it is made, and works on the row from where it was read. */
  lemma TurnCountsAndWorks(rows: Rows, item: Item, turn: Turn, chainLabel: string)
    requires item.id in rows
    ensures DriveTurn(rows, item, turn, chainLabel) ==
            if !turn.attemptUp then (rows, Err(DbDown))
            else
              var row := rows[item.id];
              Drive(rows[item.id := row.(attemptCount := row.attemptCount + 1,
                                         lastAttemptedAt := Some(turn.now / 1_000_000_000))],
                    Begin(item), turn.answers, chainLabel, false)
  {
  }

  /** In a pass each row gets the turn it would get alone, until a turn fails; the rows after that, and
      those not listed, are left alone. */
  lemma {:induction false} EachRowGetsItsTurn(rows: Rows, items: seq<Item>, k: nat, turns: nat -> Turn, chainLabel: string, id: string)
    requires k <= |items| && DistinctItems(items) && id in rows
    requires forall i :: 0 <= i < |items| ==> items[i].id in rows
    ensures var (after, completed) := DriveBatch(rows, items, k, turns, chainLabel);
            && after.Keys == rows.Keys
            && (completed <==> forall i :: k <= i < |items| ==> DriveTurn(rows, items[i], turns(i), chainLabel).1.Ok?)
            && (forall i :: k <= i < |items| && items[i].id == id ==>
                  after[id] == if forall j :: k <= j < i ==> DriveTurn(rows, items[j], turns(j), chainLabel).1.Ok?
                               then (TurnTouchesOnlyTheRow(rows, items[i], turns(i), chainLabel);
                                     DriveTurn(rows, items[i], turns(i), chainLabel).0[id])
                               else rows[id])
            && ((forall i :: k <= i < |items| ==> items[i].id != id) ==> after[id] == rows[id])
    decreases |items| - k
  {
    if k < |items| {
      var (next, r) := DriveTurn(rows, items[k], turns(k), chainLabel);
      TurnTouchesOnlyTheRow(rows, items[k], turns(k), chainLabel);
      if r.Ok? {
        EachRowGetsItsTurn(next, items, k + 1, turns, chainLabel, id);
        forall i | k < i < |items|
          ensures DriveTurn(next, items[i], turns(i), chainLabel).1 == DriveTurn(rows, items[i], turns(i), chainLabel).1
          ensures items[i].id == id ==> id in DriveTurn(next, items[i], turns(i), chainLabel).0
                                        && id in DriveTurn(rows, items[i], turns(i), chainLabel).0
                                        && DriveTurn(next, items[i], turns(i), chainLabel).0[id]
                                           == DriveTurn(rows, items[i], turns(i), chainLabel).0[id]
        {
          assert items[k].id != items[i].id;
          TurnIsLocal(next, rows, items[i], turns(i), chainLabel);
        }
      }
    }
  }

  /** Every statement is answered. */
  predicate StoreUp(turn: Turn) {
    turn.attemptUp && turn.answers.submittedUp && turn.answers.writtenUp && turn.answers.reportedUp && turn.answers.exceptionUp
  }

  lemma TurnWithStoreUp(rows: Rows, item: Item, turn: Turn, chainLabel: string)
    requires item.id in rows && StoreUp(turn)
    ensures DriveTurn(rows, item, turn, chainLabel).1.Ok?
  {
    DriveFailsOnlyOnTheDatabase(AttemptRecorded(rows, item.id, turn.now), Begin(item), turn.answers, chainLabel, false);
  }

  /** The row as a well answered turn leaves it. */
  predicate DoneWell(before: Row, after: Row, turn: Turn)
    requires AllWell(turn.answers)
  {
    var obpId := if before.status == Initiated then turn.answers.submit.obpId else before.obpId;
    && after.obpId == obpId && after.request == before.request
    && after.attemptCount == before.attemptCount + 1 && after.lastAttemptedAt == Some(turn.now / 1_000_000_000)
    && after.status == (if obpId.Some? then Reported else Exception)
    && after.promiseTxId == (if before.status == PromiseWritten then before.promiseTxId else Some(turn.answers.write.txId))
  }

  lemma WellAnsweredTurn(rows: Rows, item: Item, turn: Turn, chainLabel: string)
    requires item.id in rows && rows[item.id] == item.row && item.row.status.Open()
    requires turn.attemptUp && AllWell(turn.answers) && (item.row.status == PromiseWritten ==> item.row.promiseTxId.Some?)
    ensures var after := DriveTurn(rows, item, turn, chainLabel).0;
            item.id in after && DoneWell(item.row, after[item.id], turn)
  {
    TurnCountsAndWorks(rows, item, turn, chainLabel);
    var attempted := item.row.(attemptCount := item.row.attemptCount + 1, lastAttemptedAt := Some(turn.now / 1_000_000_000));
    AllWellMeansDone(rows[item.id := attempted], item, turn.answers, chainLabel);
  }

  /** So a row of a pass that is answered well is done after it, whatever the rows before it are answered, as
      long as the database is up. */
  lemma WellAnsweredRowIsDone(rows: Rows, items: seq<Item>, turns: nat -> Turn, chainLabel: string, k: nat)
    requires AsTheyAre(items, rows) && k < |items|
    requires forall i: nat :: i <= k ==> StoreUp(turns(i))
    requires AllWell(turns(k).answers) && (items[k].row.status == PromiseWritten ==> items[k].row.promiseTxId.Some?)
    ensures var after := DriveBatch(rows, items, 0, turns, chainLabel).0;
            items[k].id in after && DoneWell(items[k].row, after[items[k].id], turns(k))
  {
    EachRowGetsItsTurn(rows, items, 0, turns, chainLabel, items[k].id);
    forall j | 0 <= j < k
      ensures DriveTurn(rows, items[j], turns(j), chainLabel).1.Ok?
    {
      TurnWithStoreUp(rows, items[j], turns(j), chainLabel);
    }
    WellAnsweredTurn(rows, items[k], turns(k), chainLabel);
  }
}
