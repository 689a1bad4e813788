/**
 What the dispatcher guarantees over every run: rows only move forward and keep what they were made
 of; each outside action happens at most once more often than it is cut off from its record; nothing
 is written before a recorded submit or revealed before a recorded write; everything written and
 revealed for a row is one commitment; and attempts keep their distance.
 */
module DispatcherSafety {
  import opened Prelude
  import opened Commitments
  import opened TextOrder
  import opened Timestamps
  import opened Worklist
  import opened Outbox
  import opened DispatcherRuns

  lemma InitialIsSound(setup: Setup, chainLabel: string, id: string)
    ensures Sound(setup, Initial(chainLabel), id)
  {
  }

  lemma ReachableIsSound(setup: Setup, chainLabel: string, steps: seq<Step>, t: State, id: string)
    requires Reaches(setup, Initial(chainLabel), steps, t)
    ensures Sound(setup, t, id)
  {
    InitialIsSound(setup, chainLabel, id);
    RunKeepsSound(setup, Initial(chainLabel), steps, t, id);
  }

  // ---------- what a row is made of ----------

  /** The first request inserted under this id, and when. */
  function FirstInsert(steps: seq<Step>, id: string): Option<(Request, nat)> {
    if steps == [] then None
    else if steps[0].Insert? && steps[0].id == id then Some((steps[0].request, steps[0].now))
    else FirstInsert(steps[1..], id)
  }

  lemma StepOnRequest(setup: Setup, s: State, step: Step, id: string)
    requires Enabled(setup, s, step)
    ensures var rows := Apply(setup, s, step).rows;
            if id in s.rows then id in rows && rows[id].request == s.rows[id].request && rows[id].createdAt == s.rows[id].createdAt
            else if step.Insert? && step.id == id then
              id in rows && rows[id] == Row(step.request, Initiated, 0, None, None, None, None, None, None, None, step.now / 1_000_000_000)
            else id !in rows
  {
  }

  /** Over any run a row is made of what was inserted first under its id, to the last: its bank and account,
      its payload and its salt; and only what was inserted is there. */
  lemma {:induction false} RowIsWhatWasInserted(setup: Setup, s: State, steps: seq<Step>, t: State, id: string)
    requires Reaches(setup, s, steps, t)
    ensures id in t.rows <==> id in s.rows || FirstInsert(steps, id).Some?
    ensures id in s.rows ==> t.rows[id].request == s.rows[id].request && t.rows[id].createdAt == s.rows[id].createdAt
    ensures id !in s.rows && id in t.rows ==>
              && t.rows[id].request == FirstInsert(steps, id).value.0
              && t.rows[id].createdAt == FirstInsert(steps, id).value.1 / 1_000_000_000
    decreases |steps|
  {
    if steps != [] {
      StepOnRequest(setup, s, steps[0], id);
      RowIsWhatWasInserted(setup, Apply(setup, s, steps[0]), steps[1..], t, id);
    }
  }

  // ---------- forward only ----------

  ghost predicate Kept<T(!new)>(a: Option<T>, b: Option<T>) {
    a.Some? ==> b == a
  }

  /** The row moved on, or stayed: what it was made of, what it recorded and how it ended are kept. */
  ghost predicate Forward(a: Row, b: Row) {
    && b.request == a.request && b.createdAt == a.createdAt
    && a.status.Rank() <= b.status.Rank() && (!a.status.Open() ==> b.status == a.status)
    && Kept(a.obpId, b.obpId) && Kept(a.promiseTxId, b.promiseTxId) && Kept(a.promiseBlockchain, b.promiseBlockchain)
    && Kept(a.settlementId, b.settlementId) && Kept(a.settledAt, b.settledAt)
    && a.attemptCount <= b.attemptCount
  }

  lemma StepMovesForward(setup: Setup, s: State, step: Step, id: string)
    requires Sound(setup, s, id) && Enabled(setup, s, step) && id in s.rows && StampedTogether(s.rows[id])
    ensures id in Apply(setup, s, step).rows && StampedTogether(Apply(setup, s, step).rows[id])
    ensures Forward(s.rows[id], Apply(setup, s, step).rows[id])
  {
    if OfRow(step) {
      if s.pc.Holds(id) {
        RowStepMovesForward(setup, s, step, id);
      } else {
        assert OnRow(setup, s, step).RowAt(id) == s.RowAt(id);
      }
    } else {
      AroundRowMovesForward(setup, s, step, id);
    }
  }

  lemma AroundRowMovesForward(setup: Setup, s: State, step: Step, id: string)
    requires Enabled(setup, s, step) && !OfRow(step) && id in s.rows && StampedTogether(s.rows[id])
    ensures id in Apply(setup, s, step).rows && StampedTogether(Apply(setup, s, step).rows[id])
    ensures Forward(s.rows[id], Apply(setup, s, step).rows[id])
  {
  }

  lemma RowStepMovesForward(setup: Setup, s: State, step: Step, id: string)
    requires Sound(setup, s, id) && Enabled(setup, s, step) && OfRow(step) && s.pc.Holds(id)
    ensures id in OnRow(setup, s, step).rows && Forward(s.rows[id], OnRow(setup, s, step).rows[id])
    ensures OnRow(setup, s, step).rows[id].settledAt == s.rows[id].settledAt
    ensures OnRow(setup, s, step).rows[id].settlementId == s.rows[id].settlementId
  {
  }

  /** Whatever happens, a row is never lost, rewritten or taken back. */
  lemma {:induction false} RowsOnlyMoveForward(setup: Setup, s: State, steps: seq<Step>, t: State, id: string)
    requires Sound(setup, s, id) && Reaches(setup, s, steps, t) && id in s.rows && StampedTogether(s.rows[id])
    ensures id in t.rows && Forward(s.rows[id], t.rows[id])
    decreases |steps|
  {
    if steps != [] {
      StepMovesForward(setup, s, steps[0], id);
      StepKeepsSound(setup, s, steps[0], id);
      RowsOnlyMoveForward(setup, Apply(setup, s, steps[0]), steps[1..], t, id);
    }
  }

  lemma StepLeavesClosedRow(setup: Setup, s: State, step: Step, id: string)
    requires Sound(setup, s, id) && Enabled(setup, s, step)
    requires id in s.rows && !s.rows[id].status.Open()
    ensures Apply(setup, s, step).Past(id) == s.Past(id)
    ensures id in Apply(setup, s, step).rows && Apply(setup, s, step).rows[id].status == s.rows[id].status
  {
    assert !s.pc.Holds(id);
    if step.Attempt? {
      assert s.pc.todo[0].id != id;
    }
  }

  /** A row that is REPORTED or EXCEPTION is never touched again: no submit, no write, no report. */
  lemma {:induction false} ClosedRowsAreLeftAlone(setup: Setup, s: State, steps: seq<Step>, t: State, id: string)
    requires Sound(setup, s, id) && Reaches(setup, s, steps, t)
    requires id in s.rows && !s.rows[id].status.Open()
    ensures id in t.rows && t.rows[id].status == s.rows[id].status && t.Past(id) == s.Past(id)
    decreases |steps|
  {
    if steps != [] {
      StepLeavesClosedRow(setup, s, steps[0], id);
      StepKeepsSound(setup, s, steps[0], id);
      ClosedRowsAreLeftAlone(setup, Apply(setup, s, steps[0]), steps[1..], t, id);
    }
  }

  // ---------- how often ----------

  /** The step comes between an accepted action and its record. */
  predicate Interrupts(step: Step) {
    match step
    case Halt(_, _) => true
    case SubmitUnanswered(reached) => reached
    case WriteFailed(reached) => reached
    case ReportUnanswered(reached) => reached
    case _ => false
  }

  function Interruptions(steps: seq<Step>): nat {
    if steps == [] then 0 else (if Interrupts(steps[0]) then 1 else 0) + Interruptions(steps[1..])
  }

  function Losses(h: History): nat {
    h.submits.lost + h.writes.lost + h.reports.lost
  }

  lemma StepLosesAtMostOne(setup: Setup, s: State, step: Step, id: string)
    requires Enabled(setup, s, step)
    ensures Losses(Apply(setup, s, step).Past(id)) <= Losses(s.Past(id)) + (if Interrupts(step) then 1 else 0)
  {
  }

  lemma {:induction false} LossesAreInterruptions(setup: Setup, s: State, steps: seq<Step>, t: State, id: string)
    requires Reaches(setup, s, steps, t)
    ensures Losses(t.Past(id)) <= Losses(s.Past(id)) + Interruptions(steps)
    decreases |steps|
  {
    if steps != [] {
      StepLosesAtMostOne(setup, s, steps[0], id);
      LossesAreInterruptions(setup, Apply(setup, s, steps[0]), steps[1..], t, id);
    }
  }

  /** Submits, promise writes and reports of one row each take effect at most once, plus once for every
      time something came between one of them and its record. */
  lemma OnceAndOncePerInterruption(setup: Setup, chainLabel: string, steps: seq<Step>, t: State, id: string)
    requires Reaches(setup, Initial(chainLabel), steps, t)
    ensures t.Past(id).submits.done <= 1 + t.Past(id).submits.lost
    ensures t.Past(id).writes.done <= 1 + t.Past(id).writes.lost
    ensures t.Past(id).reports.done <= 1 + t.Past(id).reports.lost
    ensures Losses(t.Past(id)) <= Interruptions(steps)
    ensures Interruptions(steps) == 0 ==> |t.Past(id).commitments| <= 1 && |t.Past(id).evidence| <= 1
  {
    ReachableIsSound(setup, chainLabel, steps, t, id);
    LossesAreInterruptions(setup, Initial(chainLabel), steps, t, id);
  }

  // ---------- what comes before what ----------

  /** No promise is written before a recorded submit, none is revealed before a recorded write, and a
      reported row knows both ids. */
  lemma RecordsComeInOrder(setup: Setup, chainLabel: string, steps: seq<Step>, t: State, id: string)
    requires Reaches(setup, Initial(chainLabel), steps, t)
    ensures t.Past(id).writes.done > 0 ==> id in t.rows && t.Past(id).submits.marked == 1
    ensures t.Past(id).reports.done > 0 ==>
              id in t.rows && t.Past(id).writes.marked == 1 && t.rows[id].obpId.Some? && t.rows[id].promiseTxId.Some?
    ensures id in t.rows && t.rows[id].status == Reported ==>
              t.rows[id].obpId.Some? && t.rows[id].promiseTxId.Some? && t.Past(id).reports.done >= 1
  {
    ReachableIsSound(setup, chainLabel, steps, t, id);
    var h := t.Past(id);
    if h.reports.done > 0 {
      assert h.evidence[0] in h.evidence;
    }
  }

  // ---------- commit and reveal ----------

  /** Whatever was revealed to OBP-API for a row is what was committed on chain for it, every time, and
      a beneficiary who is handed the revealed triplet accepts it. */
  lemma RevealMatchesCommitment(setup: Setup, chainLabel: string, steps: seq<Step>, t: State, id: string, i: nat)
    requires Reaches(setup, Initial(chainLabel), steps, t)
    requires i < |t.Past(id).evidence|
    ensures var e := t.Past(id).evidence[i];
            && t.Past(id).commitments != []
            && (forall j :: 0 <= j < |t.Past(id).commitments| ==> t.Past(id).commitments[j] == e.commitment)
            && setup.scheme.Verifies(e.preimage, e.salt, e.commitment)
            && id in t.rows && t.rows[id].obpId == Some(e.obpId) && t.rows[id].promiseTxId == Some(e.txHash)
            && t.rows[id].promiseBlockchain == Some(e.blockchain)
            && e.salt == t.rows[id].request.salt && e.preimage == setup.Preimage(id, t.rows[id].request)
  {
    ReachableIsSound(setup, chainLabel, steps, t, id);
    var e := t.Past(id).evidence[i];
    HonestRevealVerifies(setup.scheme, e.preimage, e.salt, e.commitment);
  }

  // ---------- backoff ----------

  ghost predicate Apart(attempts: seq<nat>, retry: nat) {
    forall i, j :: 0 <= i < j < |attempts| ==> attempts[i] + retry < attempts[j]
  }

  function LastStamp(attempts: seq<nat>): Option<nat> {
    if attempts == [] then None else Some(Stamp(attempts[|attempts| - 1]))
  }

  /** The rows of a batch were all last tried long enough before the scan. */
  ghost predicate Rested(pc: Pc, attempts: seq<nat>, retry: nat, id: string) {
    !pc.Idle? && attempts != [] ==>
      forall i :: 0 <= i < |pc.todo| && pc.todo[i].id == id ==> attempts[|attempts| - 1] + retry < pc.scannedAt
  }

  ghost predicate AttemptsPaced(attempts: seq<nat>, setup: Setup) {
    && Apart(attempts, setup.retry)
    && (forall i :: 0 <= i < |attempts| ==> attempts[i] <= setup.horizon)
  }

  ghost predicate RowPaced(row: Option<Row>, attempts: seq<nat>) {
    row.Some? ==> row.value.lastAttemptedAt == LastStamp(attempts) && row.value.attemptCount == |attempts|
  }

  ghost predicate Paced(setup: Setup, s: State, id: string) {
    && AttemptsPaced(s.Past(id).attempts, setup)
    && RowPaced(s.RowAt(id), s.Past(id).attempts)
    && Rested(s.pc, s.Past(id).attempts, setup.retry, id)
  }

  /** As far as the clock is read, the spelling of times sorts as the times. */
  ghost predicate SortsThroughTheRun(setup: Setup) {
    forall s: nat, t: nat :: s <= Stamp(setup.horizon) && t <= Stamp(setup.horizon) ==>
      (TextLess(setup.text(s), setup.text(t)) <==> s < t)
  }

  /** Cutting to seconds and comparing texts only ever makes a row wait longer. */
  lemma EarlierTextMeansRested(setup: Setup, last: nat, now: nat)
    requires SortsThroughTheRun(setup) && last <= setup.horizon && setup.retry <= now <= setup.horizon
    requires TextLess(setup.text(Stamp(last)), setup.text(Stamp(now - setup.retry)))
    ensures last + setup.retry < now
  {
  }

  lemma ScannedRowIsRested(setup: Setup, row: Row, now: nat, attempts: seq<nat>)
    requires SortsThroughTheRun(setup) && setup.retry <= now <= setup.horizon && AttemptsPaced(attempts, setup)
    requires Due(row, Stamp(now - setup.retry), setup.text) && RowPaced(Some(row), attempts) && attempts != []
    ensures attempts[|attempts| - 1] + setup.retry < now
  {
    EarlierTextMeansRested(setup, attempts[|attempts| - 1], now);
  }

  lemma DueRowsAreDue(rows: Rows, cutoff: nat, text: Format, work: seq<string>, limit: nat, id: string)
    requires IsDueList(rows, cutoff, text, work, limit) && id in work
    ensures id in rows && Due(rows[id], cutoff, text)
  {
    assert id in DueStamps(rows, cutoff, text);
  }

  /** A scan finds a row only after its rest. */
  lemma ScannedMeansRested(setup: Setup, s: State, work: seq<string>, now: nat, id: string)
    requires SortsThroughTheRun(setup) && Paced(setup, s, id) && Enabled(setup, s, Scan(work, now))
    ensures id in work && s.Past(id).attempts != [] ==>
              s.Past(id).attempts[|s.Past(id).attempts| - 1] + setup.retry < now
  {
    if id in work && s.Past(id).attempts != [] {
      DueRowsAreDue(s.rows, Stamp(now - setup.retry), setup.text, work, setup.batch, id);
      ScannedRowIsRested(setup, s.rows[id], now, s.Past(id).attempts);
    }
  }

  lemma FreshBatchIsPaced(setup: Setup, s: State, t: State, id: string)
    requires Paced(setup, s, id) && t.RowAt(id) == s.RowAt(id) && t.Past(id) == s.Past(id) && t.pc.Batch?
    requires ItemsAvoid(t.pc.todo, id) || s.Past(id).attempts == []
             || s.Past(id).attempts[|s.Past(id).attempts| - 1] + setup.retry < t.pc.scannedAt
    ensures Paced(setup, t, id)
  {
  }

  lemma ScanKeepsPaced(setup: Setup, s: State, work: seq<string>, now: nat, id: string)
    requires SortsThroughTheRun(setup) && Paced(setup, s, id) && Enabled(setup, s, Scan(work, now))
    ensures Paced(setup, Apply(setup, s, Scan(work, now)), id)
  {
    ScannedMeansRested(setup, s, work, now, id);
    FreshBatchIsPaced(setup, s, Apply(setup, s, Scan(work, now)), id);
  }

  lemma AttemptKeepsPaced(setup: Setup, s: State, now: nat, id: string)
    requires Paced(setup, s, id) && TodoSound(s.pc, s.RowAt(id), id) && Enabled(setup, s, Attempt(now))
    ensures Paced(setup, Apply(setup, s, Attempt(now)), id)
  {
    var t := Apply(setup, s, Attempt(now));
    if s.pc.todo[0].id == id {
      AttemptOnRowKeepsPaced(setup, s, now);
    } else {
      assert t.Past(id) == s.Past(id) && t.RowAt(id) == s.RowAt(id);
    }
  }

  lemma AttemptOnRowKeepsPaced(setup: Setup, s: State, now: nat)
    requires Enabled(setup, s, Attempt(now)) && Paced(setup, s, s.pc.todo[0].id)
    requires TodoSound(s.pc, s.RowAt(s.pc.todo[0].id), s.pc.todo[0].id)
    ensures Paced(setup, Apply(setup, s, Attempt(now)), s.pc.todo[0].id)
  {
    var t, id := Apply(setup, s, Attempt(now)), s.pc.todo[0].id;
    var attempts := s.Past(id).attempts;
    TakingTheFirstKeepsTodo(s.pc.todo, s.RowAt(id), id);
    LaterAttemptIsApart(attempts, now, setup.retry);
    AttemptRecordsItsStamp(s.rows[id], attempts, now);
    AvoidedIsRested(t.pc, attempts + [now], setup.retry, id);
    assert t.Past(id).attempts == attempts + [now] && t.RowAt(id) == Some(Attempted(s.rows[id], now));
  }

  lemma AvoidedIsRested(pc: Pc, attempts: seq<nat>, retry: nat, id: string)
    requires pc.At? && ItemsAvoid(pc.todo, id)
    ensures Rested(pc, attempts, retry, id)
  {
  }

  lemma AttemptRecordsItsStamp(row: Row, attempts: seq<nat>, now: nat)
    requires RowPaced(Some(row), attempts)
    ensures RowPaced(Some(Attempted(row, now)), attempts + [now])
  {
  }

  lemma LaterAttemptIsApart(attempts: seq<nat>, now: nat, retry: nat)
    requires Apart(attempts, retry)
    requires attempts != [] ==> attempts[|attempts| - 1] + retry < now
    ensures Apart(attempts + [now], retry)
  {
  }

  lemma StepKeepsPaced(setup: Setup, s: State, step: Step, id: string)
    requires SortsThroughTheRun(setup) && Paced(setup, s, id) && Sound(setup, s, id) && Enabled(setup, s, step)
    ensures Paced(setup, Apply(setup, s, step), id)
  {
    if step.Scan? {
      ScanKeepsPaced(setup, s, step.work, step.now, id);
    } else if step.Attempt? {
      AttemptKeepsPaced(setup, s, step.now, id);
    } else {
      OtherStepsKeepPace(setup, s, step, id);
    }
  }

  lemma OtherStepsRecordNoAttempt(setup: Setup, s: State, step: Step, id: string)
    requires Enabled(setup, s, step) && !step.Scan? && !step.Attempt?
    ensures Apply(setup, s, step).Past(id).attempts == s.Past(id).attempts
    ensures id in s.rows ==>
              var row := Apply(setup, s, step).rows[id];
              row.lastAttemptedAt == s.rows[id].lastAttemptedAt && row.attemptCount == s.rows[id].attemptCount
    ensures id !in s.rows && id in Apply(setup, s, step).rows ==>
              var row := Apply(setup, s, step).rows[id];
              row.lastAttemptedAt == None && row.attemptCount == 0
  {
    if OfRow(step) {
      RowStepsRecordNoAttempt(setup, s, step, id);
    }
  }

  lemma RowStepsRecordNoAttempt(setup: Setup, s: State, step: Step, id: string)
    requires Enabled(setup, s, step) && OfRow(step)
    ensures OnRow(setup, s, step).Past(id).attempts == s.Past(id).attempts
    ensures id in OnRow(setup, s, step).rows <==> id in s.rows
    ensures id in s.rows ==>
              var row := OnRow(setup, s, step).rows[id];
              row.lastAttemptedAt == s.rows[id].lastAttemptedAt && row.attemptCount == s.rows[id].attemptCount
  {
  }

  lemma OtherStepsKeepTheBatch(setup: Setup, s: State, step: Step)
    requires Enabled(setup, s, step) && !step.Scan? && !step.Attempt?
    ensures var pc := Apply(setup, s, step).pc;
            pc.Idle? || (!s.pc.Idle? && pc.todo == s.pc.todo && pc.scannedAt == s.pc.scannedAt)
  {
  }

  lemma OtherStepsKeepPace(setup: Setup, s: State, step: Step, id: string)
    requires Paced(setup, s, id) && Sound(setup, s, id) && Enabled(setup, s, step) && !step.Scan? && !step.Attempt?
    ensures Paced(setup, Apply(setup, s, step), id)
  {
    OtherStepsRecordNoAttempt(setup, s, step, id);
    OtherStepsKeepTheBatch(setup, s, step);
  }

  lemma {:induction false} RunKeepsPaced(setup: Setup, s: State, steps: seq<Step>, t: State, id: string)
    requires SortsThroughTheRun(setup) && Paced(setup, s, id) && Sound(setup, s, id) && Reaches(setup, s, steps, t)
    ensures Paced(setup, t, id)
    decreases |steps|
  {
    if steps != [] {
      StepKeepsPaced(setup, s, steps[0], id);
      StepKeepsSound(setup, s, steps[0], id);
      RunKeepsPaced(setup, Apply(setup, s, steps[0]), steps[1..], t, id);
    }
  }

  /** Any two recorded attempts on one row are more than the retry interval apart, although times are
      cut to whole seconds and compared as texts. */
  lemma AttemptsKeepTheirDistance(setup: Setup, chainLabel: string, steps: seq<Step>, t: State, id: string)
    requires SortsThroughTheRun(setup) && Reaches(setup, Initial(chainLabel), steps, t)
    ensures Apart(t.Past(id).attempts, setup.retry)
    ensures id in t.rows ==> t.rows[id].attemptCount == |t.Past(id).attempts|
  {
    InitialIsSound(setup, chainLabel, id);
    RunKeepsPaced(setup, Initial(chainLabel), steps, t, id);
  }

  /** The format in use does, until year 10000. */
  lemma Rfc3339SortsThroughTheRun(setup: Setup)
    requires setup.text == Rfc3339 && FourDigitYear(Stamp(setup.horizon))
    ensures SortsThroughTheRun(setup)
  {
    forall s: nat, t: nat | s <= Stamp(setup.horizon) && t <= Stamp(setup.horizon)
      ensures TextLess(setup.text(s), setup.text(t)) <==> s < t
    {
      EarlierInstantsHaveFourDigitYears(s, Stamp(setup.horizon));
      EarlierInstantsHaveFourDigitYears(t, Stamp(setup.horizon));
      TextsSortAsInstants(s, t);
    }
  }
}
