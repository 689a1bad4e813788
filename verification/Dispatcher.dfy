/**
 The dispatcher's own code: one scan, and for each row found as many lifecycle steps as the answers
 allow. The methods update the outbox in place and are proved to be runs of the machine in
 DispatcherRuns, so that everything proved there of all runs holds of them.
 */
module Dispatcher {
  import opened Prelude
  import opened Outbox
  import opened DispatcherRuns
  import opened DispatcherSafety

  /** OBP-API, the chain and the database, as they will answer for one row. */
  datatype SubmitAnswer = SubmitOk(obpId: Option<string>) | SubmitRetryable(reached: bool) | SubmitTerminal(reason: string)
  datatype WriteAnswer = WriteOk(txId: string) | WriteErr(reached: bool)
  datatype ReportAnswer = ReportOk | ReportRetryable(reached: bool) | ReportTerminal(reason: string)

  datatype Answers = Answers(
    submit: SubmitAnswer, write: WriteAnswer, report: ReportAnswer,
    submittedUp: bool, writtenUp: bool, reportedUp: bool, exceptionUp: bool)

  /** When a row is picked up, whether the attempt can be recorded, and what follows. */
  datatype Turn = Turn(now: nat, attemptUp: bool, answers: Answers)

  datatype DbError = DbDown

  // ---------- what the machine does with these answers ----------

  function Recorded(up: bool, step: Step, chainLabel: string): Step {
    if up then step else Halt(false, chainLabel)
  }

  function NextStep(stage: Stage, a: Answers, chainLabel: string): Step {
    match stage
    case Submitting => (
      match a.submit
      case SubmitOk(obpId) => SubmitAccepted(obpId)
      case SubmitRetryable(reached) => SubmitUnanswered(reached)
      case SubmitTerminal(reason) => SubmitRefused(reason))
    case Accepted(_) => Recorded(a.submittedUp, RecordSubmitted, chainLabel)
    case Writing => (
      match a.write
      case WriteOk(txId) => WriteAccepted(txId)
      case WriteErr(reached) => WriteFailed(reached))
    case Written(_) => Recorded(a.writtenUp, RecordWritten, chainLabel)
    case Reporting => (
      match a.report
      case ReportOk => ReportAccepted
      case ReportRetryable(reached) => ReportUnanswered(reached)
      case ReportTerminal(reason) => ReportRefused(reason))
    case Delivered => Recorded(a.reportedUp, RecordReported, chainLabel)
    case Refusing(_) => Recorded(a.exceptionUp, RecordException, chainLabel)
  }

  function StepsLeft(stage: Stage): nat {
    match stage
    case Submitting => 7
    case Accepted(_) => 6
    case Writing => 5
    case Written(_) => 4
    case Reporting => 3
    case Delivered => 2
    case Refusing(_) => 1
  }

  predicate Ready(w: Work) {
    w.stage.Reporting? ==> w.obpId.Some? && w.txId.Some?
  }

  predicate Records(step: Step) {
    step.RecordSubmitted? || step.RecordWritten? || step.RecordReported? || step.RecordException?
  }

  type Outcome = Result<bool, DbError>

  /** The table after these answers; and, if no statement failed, whether any was recorded. */
  function Drive(rows: Rows, w: Work, a: Answers, chainLabel: string, advanced: bool): (Rows, Outcome)
    requires Ready(w)
    decreases StepsLeft(w.stage)
  {
    var step := NextStep(w.stage, a, chainLabel);
    if step.Halt? then (rows, Err(DbDown))
    else
      var after := RowsAfter(rows, w, step, chainLabel);
      match WorkAfter(w, step)
      case Some(next) => Drive(after, next, a, chainLabel, advanced || Records(step))
      case None => (after, Ok(advanced || Records(step)))
  }

  predicate StageFits(stage: Stage, status: Status) {
    match stage
    case Submitting => status == Initiated
    case Accepted(_) => status == Initiated
    case Writing => status == Submitted
    case Written(_) => status == Submitted
    case Reporting => status == PromiseWritten
    case Delivered => status == PromiseWritten
    case Refusing(_) => status.Open()
  }

  /** What is recorded is a change of status, never one back to where the row started. */
  lemma {:induction false} RecordedMeansChanged(rows: Rows, w: Work, a: Answers, chainLabel: string,
                                                advanced: bool, start: Status)
    requires Ready(w) && w.item.id in rows && StageFits(w.stage, rows[w.item.id].status)
    requires start.Open() && start.Rank() <= rows[w.item.id].status.Rank()
    requires advanced <==> rows[w.item.id].status != start
    ensures var (after, r) := Drive(rows, w, a, chainLabel, advanced);
            w.item.id in after && (r.Ok? ==> (r.value <==> after[w.item.id].status != start))
    decreases StepsLeft(w.stage)
  {
    var step := NextStep(w.stage, a, chainLabel);
    if !step.Halt? {
      var after, next := RowsAfter(rows, w, step, chainLabel), WorkAfter(w, step);
      if next.Some? {
        RecordedMeansChanged(after, next.value, a, chainLabel, advanced || Records(step), start);
      }
    }
  }

  lemma DrivenStep(setup: Setup, s: State, a: Answers)
    requires s.pc.At? && Ready(s.pc.work)
    ensures var step := NextStep(s.pc.work.stage, a, s.chainLabel);
            && Enabled(setup, s, step)
            && Apply(setup, s, step).chainLabel == s.chainLabel
            && (if step.Halt? then Apply(setup, s, step).rows == s.rows && Apply(setup, s, step).pc == Idle
                else Awaits(s.pc.work, step) && Apply(setup, s, step).pc == PcAfter(s.pc, step)
                     && Apply(setup, s, step).rows == RowsAfter(s.rows, s.pc.work, step, s.chainLabel))
  {
  }

  lemma Prepend(setup: Setup, s: State, step: Step, rest: seq<Step>, t: State)
    requires Enabled(setup, s, step) && Reaches(setup, Apply(setup, s, step), rest, t)
    ensures Reaches(setup, s, [step] + rest, t)
    ensures Interruptions([step] + rest) == (if Interrupts(step) then 1 else 0) + Interruptions(rest)
  {
    assert ([step] + rest)[1..] == rest;
  }

  // ---------- what the machine books for these answers ----------

  predicate SubmitTakesEffect(a: Answers) {
    a.submit.SubmitOk? || (a.submit.SubmitRetryable? && a.submit.reached)
  }

  predicate WriteTakesEffect(a: Answers) {
    a.write.WriteOk? || (a.write.WriteErr? && a.write.reached)
  }

  predicate ReportTakesEffect(a: Answers) {
    a.report.ReportOk? || (a.report.ReportRetryable? && a.report.reached)
  }

  /** The write is called: the row is waiting for it, or its submit gets accepted and recorded. */
  predicate CallsWrite(w: Work, a: Answers) {
    || w.stage.Writing?
    || (w.stage.Accepted? && a.submittedUp)
    || (w.stage.Submitting? && a.submit.SubmitOk? && a.submittedUp)
  }

  /** The OBP id known by then. */
  function KnownObpId(w: Work, a: Answers): Option<string> {
    match w.stage
    case Submitting => if a.submit.SubmitOk? then a.submit.obpId else None
    case Accepted(obpId) => obpId
    case _ => w.obpId
  }

  /** The report is called: the row is waiting for it, or its write gets accepted and recorded, and there
      is an OBP id to address. */
  predicate CallsReport(w: Work, a: Answers) {
    || w.stage.Reporting?
    || (KnownObpId(w, a).Some? && a.writtenUp && (w.stage.Written? || (CallsWrite(w, a) && a.write.WriteOk?)))
  }

  /** How often each outside action of the row takes effect from here on. */
  function Effects(w: Work, a: Answers): (nat, nat, nat) {
    (if w.stage.Submitting? && SubmitTakesEffect(a) then 1 else 0,
     if CallsWrite(w, a) && WriteTakesEffect(a) then 1 else 0,
     if CallsReport(w, a) && ReportTakesEffect(a) then 1 else 0)
  }

  function EffectsOf(w: Option<Work>, a: Answers): (nat, nat, nat) {
    if w.Some? then Effects(w.value, a) else (0, 0, 0)
  }

  /** What is booked after, and what is to come, is what was booked before, and what was to come. */
  predicate Books(h: History, due: (nat, nat, nat), after: History, left: (nat, nat, nat)) {
    && after.submits.done + left.0 == h.submits.done + due.0
    && after.writes.done + left.1 == h.writes.done + due.1
    && after.reports.done + left.2 == h.reports.done + due.2
  }

  /** A call that took effect without an answer, or a statement that failed. */
  function Mishaps(a: Answers): nat {
    (if a.submit.SubmitRetryable? && a.submit.reached then 1 else 0)
    + (if a.write.WriteErr? && a.write.reached then 1 else 0)
    + (if a.report.ReportRetryable? && a.report.reached then 1 else 0)
    + (if a.submittedUp && a.writtenUp && a.reportedUp && a.exceptionUp then 0 else 1)
  }

  lemma StoppingBooks(setup: Setup, w: Work, a: Answers, chainLabel: string, h: History)
    requires Ready(w) && NextStep(w.stage, a, chainLabel).Halt?
    ensures Books(h, Effects(w, a), Cut(setup, w, chainLabel, NextStep(w.stage, a, chainLabel).reached, h), (0, 0, 0))
  {
  }

  lemma GoingOnBooks(setup: Setup, w: Work, a: Answers, chainLabel: string, h: History)
    requires Ready(w) && !NextStep(w.stage, a, chainLabel).Halt?
    ensures var step := NextStep(w.stage, a, chainLabel);
            Awaits(w, step) && Books(h, Effects(w, a), PastAfter(setup, w, step, chainLabel, h), EffectsOf(WorkAfter(w, step), a))
  {
  }

  lemma OnlyMishapsInterrupt(w: Work, a: Answers, chainLabel: string)
    requires Ready(w)
    ensures var step := NextStep(w.stage, a, chainLabel);
            Interrupts(step) ==> Mishaps(a) > 0 && (step.Halt? || (Awaits(w, step) && WorkAfter(w, step).None?))
  {
  }

  lemma StepBooks(setup: Setup, s: State, a: Answers)
    requires s.pc.At? && Ready(s.pc.work)
    ensures var step := NextStep(s.pc.work.stage, a, s.chainLabel);
            var id := s.pc.work.item.id;
            && Enabled(setup, s, step)
            && Books(s.Past(id), Effects(s.pc.work, a), Apply(setup, s, step).Past(id),
                     if Apply(setup, s, step).pc.At? then Effects(Apply(setup, s, step).pc.work, a) else (0, 0, 0))
            && (Interrupts(step) ==> Mishaps(a) > 0 && !Apply(setup, s, step).pc.At?)
            && (Apply(setup, s, step).pc.At? ==> Apply(setup, s, step).pc.work.item.id == id && Ready(Apply(setup, s, step).pc.work))
  {
    DrivenStep(setup, s, a);
    if NextStep(s.pc.work.stage, a, s.chainLabel).Halt? {
      StoppingBooks(setup, s.pc.work, a, s.chainLabel, s.Past(s.pc.work.item.id));
    } else {
      GoingOnBooks(setup, s.pc.work, a, s.chainLabel, s.Past(s.pc.work.item.id));
    }
    OnlyMishapsInterrupt(s.pc.work, a, s.chainLabel);
    ReadyStays(s.pc.work, a, s.chainLabel);
    PastOfTheStep(setup, s, NextStep(s.pc.work.stage, a, s.chainLabel));
  }

  lemma ReadyStays(w: Work, a: Answers, chainLabel: string)
    requires Ready(w)
    ensures var step := NextStep(w.stage, a, chainLabel);
            !step.Halt? ==> Awaits(w, step) && (WorkAfter(w, step).Some? ==>
              WorkAfter(w, step).value.item == w.item && Ready(WorkAfter(w, step).value))
  {
  }

  lemma PastOfTheStep(setup: Setup, s: State, step: Step)
    requires Enabled(setup, s, step) && s.pc.At? && (step.Halt? || OfRow(step))
    ensures Apply(setup, s, step).Past(s.pc.work.item.id) ==
            if step.Halt? then Cut(setup, s.pc.work, s.chainLabel, step.reached, s.Past(s.pc.work.item.id))
            else PastAfter(setup, s.pc.work, step, s.chainLabel, s.Past(s.pc.work.item.id))
  {
  }

  /** It is a run of the machine, cut off by nothing but what these answers cut off, and its books show
      what took effect. */
  lemma {:induction false} RowIsARun(setup: Setup, s: State, a: Answers, advanced: bool)
    returns (steps: seq<Step>, t: State)
    requires s.pc.At? && Ready(s.pc.work)
    ensures Reaches(setup, s, steps, t)
    ensures t.rows == Drive(s.rows, s.pc.work, a, s.chainLabel, advanced).0 && t.chainLabel == s.chainLabel
    ensures t.pc == if Drive(s.rows, s.pc.work, a, s.chainLabel, advanced).1.Ok?
                    then Batch(s.pc.todo, s.pc.scannedAt) else Idle
    ensures Interruptions(steps) <= Mishaps(a)
    ensures Books(s.Past(s.pc.work.item.id), Effects(s.pc.work, a), t.Past(s.pc.work.item.id), (0, 0, 0))
    decreases StepsLeft(s.pc.work.stage)
  {
    var step := NextStep(s.pc.work.stage, a, s.chainLabel);
    DrivenStep(setup, s, a);
    StepBooks(setup, s, a);
    var next, rest := Apply(setup, s, step), [];
    t := next;
    if next.pc.At? {
      rest, t := RowIsARun(setup, next, a, advanced || Records(step));
    }
    Prepend(setup, s, step, rest, t);
    steps := [step] + rest;
  }

  lemma {:induction false} DriveTouchesOnlyTheRow(rows: Rows, w: Work, a: Answers, chainLabel: string,
                                                  advanced: bool)
    requires Ready(w)
    ensures var after := Drive(rows, w, a, chainLabel, advanced).0;
            after.Keys == rows.Keys && forall id :: id in rows && id != w.item.id ==> after[id] == rows[id]
    decreases StepsLeft(w.stage)
  {
    var step := NextStep(w.stage, a, chainLabel);
    if !step.Halt? {
      if WorkAfter(w, step).Some? {
        DriveTouchesOnlyTheRow(RowsAfter(rows, w, step, chainLabel), WorkAfter(w, step).value, a, chainLabel,
                               advanced || Records(step));
      }
    }
  }

  function DriveTurn(rows: Rows, item: Item, turn: Turn, chainLabel: string): (Rows, Outcome) {
    if turn.attemptUp
    then Drive(AttemptRecorded(rows, item.id, turn.now), Begin(item), turn.answers, chainLabel, false)
    else (rows, Err(DbDown))
  }

  /** The rows of a batch in turn, from the k-th on; a failing statement ends the pass. */
  function DriveBatch(rows: Rows, items: seq<Item>, k: nat, turns: nat -> Turn, chainLabel: string): (Rows, bool)
    requires k <= |items|
    decreases |items| - k
  {
    if k == |items| then (rows, true)
    else
      var (after, r) := DriveTurn(rows, items[k], turns(k), chainLabel);
      if r.Ok? then DriveBatch(after, items, k + 1, turns, chainLabel) else (after, false)
  }

  /** The mishaps of a pass from its k-th row on. */
  function PassMishaps(n: nat, k: nat, turns: nat -> Turn): nat
    requires k <= n
    decreases n - k
  {
    if k == n then 0
    else (if turns(k).attemptUp then Mishaps(turns(k).answers) else 1) + PassMishaps(n, k + 1, turns)
  }

  lemma {:induction false} BatchIsARun(setup: Setup, s: State, items: seq<Item>, k: nat, turns: nat -> Turn)
    returns (steps: seq<Step>, t: State)
    requires k <= |items| && s.pc.Batch? && s.pc.todo == items[k..]
    requires forall i: nat :: s.pc.scannedAt <= turns(i).now <= setup.horizon
    ensures Reaches(setup, s, steps, t) && t.pc.Idle?
    ensures t.rows == DriveBatch(s.rows, items, k, turns, s.chainLabel).0
    ensures Interruptions(steps) <= PassMishaps(|items|, k, turns)
    decreases |items| - k
  {
    if k == |items| {
      t := Apply(setup, s, EndBatch);
      Prepend(setup, s, EndBatch, [], t);
      steps := [EndBatch];
    } else if !turns(k).attemptUp {
      var halt := Halt(false, s.chainLabel);
      t := Apply(setup, s, halt);
      Prepend(setup, s, halt, [], t);
      steps := [halt];
    } else {
      var attempt := Attempt(turns(k).now);
      var begun := Apply(setup, s, attempt);
      assert s.pc.todo[0] == items[k] && s.pc.todo[1..] == items[k + 1..];
      var row, left := RowIsARun(setup, begun, turns(k).answers, false);
      var rest;
      if left.pc.Batch? {
        rest, t := BatchIsARun(setup, left, items, k + 1, turns);
      } else {
        rest, t := [], left;
      }
      Append(setup, begun, row, left, rest, t);
      Prepend(setup, s, attempt, row + rest, t);
      steps := [attempt] + (row + rest);
    }
  }

  lemma {:induction false} Append(setup: Setup, s: State, a: seq<Step>, m: State, b: seq<Step>, t: State)
    requires Reaches(setup, s, a, m) && Reaches(setup, m, b, t)
    ensures Reaches(setup, s, a + b, t)
    ensures Interruptions(a + b) == Interruptions(a) + Interruptions(b)
    decreases |a|
  {
    if a == [] {
      assert a + b == b;
    } else {
      assert (a + b)[1..] == a[1..] + b;
      Append(setup, Apply(setup, s, a[0]), a[1..], m, b, t);
    }
  }

  /** A whole pass is a run of the machine, cut off by nothing but its mishaps: what holds of all runs
      holds of it. */
  lemma PassIsARun(setup: Setup, s: State, work: seq<string>, now: nat, turns: nat -> Turn)
    returns (steps: seq<Step>, t: State)
    requires Enabled(setup, s, Scan(work, now)) && forall i: nat :: now <= turns(i).now <= setup.horizon
    ensures Reaches(setup, s, steps, t) && t.pc.Idle?
    ensures t.rows == DriveBatch(s.rows, ItemsOf(s.rows, work), 0, turns, s.chainLabel).0
    ensures Interruptions(steps) <= PassMishaps(|work|, 0, turns)
  {
    var scanned := Apply(setup, s, Scan(work, now));
    var items := ItemsOf(s.rows, work);
    assert items[0..] == items;
    var rest;
    rest, t := BatchIsARun(setup, scanned, items, 0, turns);
    Prepend(setup, s, Scan(work, now), rest, t);
    steps := [Scan(work, now)] + rest;
  }

  /** The rows whose status differs. */
  function Changed(before: Rows, after: Rows): set<string> {
    set id | id in before && id in after && before[id].status != after[id].status
  }

  lemma OneRowChanged(before: Rows, last: Rows, after: Rows, id: string, changed: bool)
    requires before.Keys == last.Keys == after.Keys && id in before && last[id].status == before[id].status
    requires forall other :: other in last && other != id ==> after[other] == last[other]
    requires changed <==> after[id].status != before[id].status
    ensures |Changed(before, after)| == |Changed(before, last)| + (if changed then 1 else 0)
  {
    if changed {
      assert Changed(before, after) == Changed(before, last) + {id};
    } else {
      assert Changed(before, after) == Changed(before, last);
    }
  }

  /** Different rows, open, each as the table has it. */
  ghost predicate AsTheyAre(items: seq<Item>, rows: Rows) {
    && DistinctItems(items)
    && (forall i :: 0 <= i < |items| ==>
          items[i].id in rows && items[i].row == rows[items[i].id] && items[i].row.status.Open())
  }

  lemma ScannedAsTheyAre(rows: Rows, cutoff: nat, text: Format, work: seq<string>, limit: nat)
    requires IsDueList(rows, cutoff, text, work, limit)
    ensures AsTheyAre(ItemsOf(rows, work), rows)
  {
  }

  // ---------- the code ----------

  class Dispatcher {
    const store: Store
    const chainLabel: string

    constructor (store: Store, chainLabel: string)
      ensures this.store == store && this.chainLabel == chainLabel
    {
      this.store, this.chainLabel := store, chainLabel;
    }

    /** One batch of due rows; `Ok(n)` tells how many changed status. */
    method ProcessDueOnce(now: nat, retry: nat, batch: nat, text: Format, scanUp: bool, turns: nat -> Turn)
      returns (r: Result<nat, DbError>, ghost work: seq<string>)
      requires retry <= now
      modifies store
      ensures !scanUp ==> r == Err(DbDown) && store.rows == old(store.rows)
      ensures scanUp ==>
                && IsDueList(old(store.rows), Stamp(now - retry), text, work, batch)
                && (store.rows, r.Ok?) == DriveBatch(old(store.rows), ItemsOf(old(store.rows), work), 0, turns, chainLabel)
      ensures r.Ok? ==> r.value == |Changed(old(store.rows), store.rows)|
    {
      if !scanUp {
        return Err(DbDown), [];
      }
      var ids := store.ClaimDue(now - retry, batch, text);
      work := ids;
      ScannedAsTheyAre(store.rows, Stamp(now - retry), text, ids, batch);
      r := ProcessBatch(ItemsOf(store.rows, ids), turns);
    }

    method ProcessBatch(due: seq<Item>, turns: nat -> Turn) returns (r: Result<nat, DbError>)
      requires AsTheyAre(due, store.rows)
      modifies store
      ensures (store.rows, r.Ok?) == DriveBatch(old(store.rows), due, 0, turns, chainLabel)
      ensures r.Ok? ==> r.value == |Changed(old(store.rows), store.rows)|
    {
      ghost var before := store.rows;
      var advanced := 0;
      assert Changed(before, store.rows) == {};
      for k := 0 to |due|
        invariant DriveBatch(store.rows, due, k, turns, chainLabel) == DriveBatch(before, due, 0, turns, chainLabel)
        invariant store.rows.Keys == before.Keys
        invariant forall j :: k <= j < |due| ==> store.rows[due[j].id] == before[due[j].id]
        invariant advanced == |Changed(before, store.rows)|
      {
        ghost var last := store.rows;
        var outcome := TakeTurn(due[k], turns(k));
        if outcome.Err? {
          return Err(DbDown);
        }
        OneRowChanged(before, last, store.rows, due[k].id, outcome.value);
        if outcome.value {
          advanced := advanced + 1;
        }
      }
      r := Ok(advanced);
    }

    /** Record the attempt, then work on the row; `Ok(b)` tells whether its status changed. */
    method TakeTurn(item: Item, turn: Turn) returns (r: Outcome)
      requires item.row.status.Open() && item.id in store.rows && store.rows[item.id].status == item.row.status
      modifies store
      ensures (store.rows, r) == DriveTurn(old(store.rows), item, turn, chainLabel)
      ensures store.rows.Keys == old(store.rows).Keys
      ensures forall id :: id in store.rows && id != item.id ==> store.rows[id] == old(store.rows)[id]
      ensures r.Ok? ==> (r.value <==> store.rows[item.id].status != item.row.status)
    {
      var ok := store.RecordAttempt(item.id, turn.now, turn.attemptUp);
      if !ok {
        return Err(DbDown);
      }
      DriveTouchesOnlyTheRow(store.rows, Begin(item), turn.answers, chainLabel, false);
      RecordedMeansChanged(store.rows, Begin(item), turn.answers, chainLabel, false, item.row.status);
      r := ProcessRow(item, turn.answers);
    }

    /** Advance one row as far as it can go. */
    method ProcessRow(item: Item, a: Answers) returns (r: Outcome)
      requires item.row.status.Open()
      modifies store
      ensures (store.rows, r) == Drive(old(store.rows), Begin(item), a, chainLabel, false)
    {
      var obpId, current, advanced := item.row.obpId, item.row.status, false;
      if current == Initiated {
        match a.submit {
          case SubmitOk(accepted) =>
            var ok := store.MarkSubmitted(item.id, accepted, a.submittedUp);
            if !ok {
              return Err(DbDown);
            }
            obpId, current, advanced := accepted, Submitted, true;
          case SubmitRetryable(_) =>
            return Ok(false);
          case SubmitTerminal(reason) =>
            var ok := store.MarkException(item.id, reason, a.exceptionUp);
            r := if ok then Ok(true) else Err(DbDown);
            return;
        }
      }
      r := WriteAndReport(item, current, obpId, item.row.promiseTxId, advanced, a);
    }

    /** From `SUBMITTED` on. */
    method WriteAndReport(item: Item, status: Status, obpId: Option<string>, txId: Option<string>, already: bool,
                          a: Answers) returns (r: Outcome)
      requires status == Submitted || status == PromiseWritten
      modifies store
      ensures (store.rows, r) ==
              Drive(old(store.rows),
                    Work(item, obpId, txId, if status == Submitted then Writing else ReportStage(obpId, txId)),
                    a, chainLabel, already)
    {
      var promiseTxId, advanced := txId, already;
      if status == Submitted {
        match a.write {
          case WriteOk(written) =>
            var ok := store.MarkPromiseWritten(item.id, written, chainLabel, a.writtenUp);
            if !ok {
              return Err(DbDown);
            }
            promiseTxId, advanced := Some(written), true;
          case WriteErr(_) =>
            return Ok(advanced);
        }
      }
      r := Report(item, obpId, promiseTxId, advanced, a);
    }

    /** Step 3: reveal, or give up when there is nothing to address or nothing to show. */
    method Report(item: Item, obpId: Option<string>, txId: Option<string>, already: bool, a: Answers)
      returns (r: Outcome)
      modifies store
      ensures (store.rows, r) ==
              Drive(old(store.rows), Work(item, obpId, txId, ReportStage(obpId, txId)), a, chainLabel, already)
    {
      if obpId.None? || txId.None? {
        var ok := store.MarkException(item.id, NEVER_RECORDED, a.exceptionUp);
        r := if ok then Ok(true) else Err(DbDown);
        return;
      }
      match a.report {
        case ReportOk =>
          var ok := store.MarkReported(item.id, a.reportedUp);
          r := if ok then Ok(true) else Err(DbDown);
        case ReportRetryable(_) =>
          r := Ok(already);
        case ReportTerminal(reason) =>
          var ok := store.MarkException(item.id, reason, a.exceptionUp);
          r := if ok then Ok(true) else Err(DbDown);
      }
    }
  }
}
