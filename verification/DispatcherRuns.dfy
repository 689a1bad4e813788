/**
 The dispatcher as a state machine: one loop drains the outbox while requests are inserted and
 settlements stamped around it. Every step is one atomic action of the code (one SQL statement, one
 answer from OBP-API or the chain). It may halt between any two of them, because the process
 dies or a statement fails; only the table and what the outside world has accepted survive.
 */
module DispatcherRuns {
  import opened Prelude
  import opened Commitments
  import opened Worklist
  import opened Outbox

  /** What is reported to OBP-API for relay to the beneficiary. */
  datatype Evidence = Evidence(
    obpId: string, txHash: string, blockchain: string, commitment: string, salt: string, preimage: string)

  datatype Setup = Setup(
    scheme: Scheme,
    render: (string, string, string, string) -> string,   // id, bank, account, payload to the canonical text
    retry: nat,
    batch: nat,
    text: Format,                                         // how stored times are spelled
    horizon: nat)                                         // the clock is never read later than this
  {
    function Preimage(id: string, request: Request): string {
      render(id, request.bankId, request.accountId, request.payload)
    }

    function CommitmentOf(id: string, request: Request): string {
      scheme.Commitment(Preimage(id, request), request.salt)
    }
  }

  /** One kind of outside action on one row: how often it took effect, how often the table recorded
      that, and how often something came between the two. */
  datatype Tally = Tally(done: nat, marked: nat, lost: nat)

  datatype History = History(
    submits: Tally, writes: Tally, reports: Tally,
    commitments: seq<string>,
    evidence: seq<Evidence>,
    attempts: seq<nat>)

  const NO_HISTORY := History(Tally(0, 0, 0), Tally(0, 0, 0), Tally(0, 0, 0), [], [], [])

  datatype Stage =
    | Submitting
    | Accepted(obpId: Option<string>)
    | Writing
    | Written(txId: string)
    | Reporting
    | Delivered
    | Refusing(reason: string)

  datatype Item = Item(id: string, row: Row)

  /** The row in hand, as read by the scan, with the locals of the code. */
  datatype Work = Work(item: Item, obpId: Option<string>, txId: Option<string>, stage: Stage)

  datatype Pc =
    | Idle
    | Batch(todo: seq<Item>, scannedAt: nat)
    | At(work: Work, todo: seq<Item>, scannedAt: nat)
  {
    predicate Holds(id: string) {
      At? && work.item.id == id
    }

    function StageOf(id: string): Option<Stage> {
      if Holds(id) then Some(work.stage) else None
    }
  }

  datatype State = State(rows: Rows, past: map<string, History>, pc: Pc, chainLabel: string) {
    function Past(id: string): History {
      if id in past then past[id] else NO_HISTORY
    }

    function RowAt(id: string): Option<Row> {
      if id in rows then Some(rows[id]) else None
    }

    function WithPast(id: string, h: History): State {
      this.(past := past[id := h])
    }
  }

  datatype Step =
    // around the dispatcher
    | Insert(id: string, request: Request, now: nat)
    | Settle(obpIds: seq<string>, settlementId: string, now: nat)
    // the dispatcher
    | Scan(work: seq<string>, now: nat)
    | Attempt(now: nat)
    | EndBatch
    | SubmitAccepted(obpId: Option<string>)
    | SubmitUnanswered(reached: bool)         // a retryable error; OBP-API may have accepted it all the same
    | SubmitRefused(reason: string)
    | RecordSubmitted
    | WriteAccepted(txId: string)
    | WriteFailed(reached: bool)
    | RecordWritten
    | ReportAccepted
    | ReportUnanswered(reached: bool)
    | ReportRefused(reason: string)
    | RecordReported
    | RecordException
    | Halt(reached: bool, chainLabel: string) // and restart, perhaps on another chain

  const NEVER_RECORDED := "cannot report promise evidence to OBP-API: the OBP transaction request id or the promise tx hash was never recorded"

  /** Where the code goes when the row is `PROMISE_WRITTEN`. */
  function ReportStage(obpId: Option<string>, txId: Option<string>): Stage {
    if obpId.Some? && txId.Some? then Reporting else Refusing(NEVER_RECORDED)
  }

  function FirstStage(row: Row): Stage {
    match row.status
    case Initiated => Submitting
    case Submitted => Writing
    case _ => ReportStage(row.obpId, row.promiseTxId)
  }

  predicate OfRow(step: Step) {
    !(step.Insert? || step.Settle? || step.Scan? || step.Attempt? || step.EndBatch? || step.Halt?)
  }

  /** The step is one that the row in hand is waiting for. */
  predicate Awaits(w: Work, step: Step) {
    match w.stage
    case Submitting => step.SubmitAccepted? || step.SubmitUnanswered? || step.SubmitRefused?
    case Accepted(_) => step.RecordSubmitted?
    case Writing => step.WriteAccepted? || step.WriteFailed?
    case Written(_) => step.RecordWritten?
    case Reporting =>
      w.obpId.Some? && w.txId.Some? && (step.ReportAccepted? || step.ReportUnanswered? || step.ReportRefused?)
    case Delivered => step.RecordReported?
    case Refusing(_) => step.RecordException?
  }

  ghost predicate Enabled(setup: Setup, s: State, step: Step) {
    match step
    case Insert(_, _, _) => true
    case Settle(_, _, _) => true
    case Scan(work, now) =>
      s.pc.Idle? && setup.retry <= now <= setup.horizon
      && IsDueList(s.rows, Stamp(now - setup.retry), setup.text, work, setup.batch)
    case Attempt(now) => s.pc.Batch? && s.pc.todo != [] && s.pc.scannedAt <= now <= setup.horizon
    case EndBatch => s.pc.Batch? && s.pc.todo == []
    case Halt(_, _) => !s.pc.Idle?
    case _ => s.pc.At? && Awaits(s.pc.work, step)
  }

  function Once(t: Tally): Tally { t.(done := t.done + 1) }
  function Marked(t: Tally): Tally { t.(marked := t.marked + 1) }
  function Lost(t: Tally): Tally { t.(lost := t.lost + 1) }

  function ItemsOf(rows: Rows, work: seq<string>): seq<Item>
    requires forall i :: 0 <= i < |work| ==> work[i] in rows
  {
    seq(|work|, i requires 0 <= i < |work| => Item(work[i], rows[work[i]]))
  }

  function Begin(item: Item): Work {
    Work(item, item.row.obpId, item.row.promiseTxId, FirstStage(item.row))
  }

  function EvidenceOf(setup: Setup, w: Work, chainLabel: string): Evidence
    requires w.obpId.Some? && w.txId.Some?
  {
    Evidence(w.obpId.value, w.txId.value, w.item.row.promiseBlockchain.GetOr(chainLabel),
             setup.CommitmentOf(w.item.id, w.item.row.request), w.item.row.request.salt,
             setup.Preimage(w.item.id, w.item.row.request))
  }

  function Wrote(setup: Setup, w: Work, h: History): History {
    h.(writes := Once(h.writes), commitments := h.commitments + [setup.CommitmentOf(w.item.id, w.item.row.request)])
  }

  function SentReport(setup: Setup, w: Work, chainLabel: string, h: History): History
    requires w.obpId.Some? && w.txId.Some?
  {
    h.(reports := Once(h.reports), evidence := h.evidence + [EvidenceOf(setup, w, chainLabel)])
  }

  /** What the outside world keeps of a row's processing that stops here. */
  function Cut(setup: Setup, w: Work, chainLabel: string, reached: bool, h: History): History {
    match w.stage
    case Submitting => if reached then h.(submits := Lost(Once(h.submits))) else h
    case Accepted(_) => h.(submits := Lost(h.submits))
    case Writing => if reached then var g := Wrote(setup, w, h); g.(writes := Lost(g.writes)) else h
    case Written(_) => h.(writes := Lost(h.writes))
    case Reporting =>
      if reached && w.obpId.Some? && w.txId.Some?
      then var g := SentReport(setup, w, chainLabel, h); g.(reports := Lost(g.reports)) else h
    case Delivered => h.(reports := Lost(h.reports))
    case Refusing(_) => h
  }

  /** What a step on the row in hand does to the table, to the books and to the code's place. */
  function RowsAfter(rows: Rows, w: Work, step: Step, chainLabel: string): Rows
    requires Awaits(w, step)
  {
    match step
    case RecordSubmitted => MarkedSubmitted(rows, w.item.id, w.stage.obpId)
    case RecordWritten => MarkedPromiseWritten(rows, w.item.id, w.stage.txId, chainLabel)
    case RecordReported => MarkedReported(rows, w.item.id)
    case RecordException => MarkedException(rows, w.item.id, w.stage.reason)
    case _ => rows
  }

  function PastAfter(setup: Setup, w: Work, step: Step, chainLabel: string, h: History): History
    requires Awaits(w, step)
  {
    match step
    case SubmitAccepted(_) => h.(submits := Once(h.submits))
    case SubmitUnanswered(reached) => Cut(setup, w, chainLabel, reached, h)
    case RecordSubmitted => h.(submits := Marked(h.submits))
    case WriteAccepted(_) => Wrote(setup, w, h)
    case WriteFailed(reached) => Cut(setup, w, chainLabel, reached, h)
    case RecordWritten => h.(writes := Marked(h.writes))
    case ReportAccepted => SentReport(setup, w, chainLabel, h)
    case ReportUnanswered(reached) => Cut(setup, w, chainLabel, reached, h)
    case RecordReported => h.(reports := Marked(h.reports))
    case _ => h
  }

  /** The code's locals after the step; none when it is done with the row. */
  function WorkAfter(w: Work, step: Step): Option<Work>
    requires Awaits(w, step)
  {
    match step
    case SubmitAccepted(obpId) => Some(w.(stage := Accepted(obpId)))
    case SubmitRefused(reason) => Some(w.(stage := Refusing(reason)))
    case RecordSubmitted => Some(w.(obpId := w.stage.obpId, stage := Writing))
    case WriteAccepted(txId) => Some(w.(stage := Written(txId)))
    case RecordWritten => Some(w.(txId := Some(w.stage.txId), stage := ReportStage(w.obpId, Some(w.stage.txId))))
    case ReportAccepted => Some(w.(stage := Delivered))
    case ReportRefused(reason) => Some(w.(stage := Refusing(reason)))
    case _ => None
  }

  /** The row is left, the batch goes on. */
  function PcAfter(pc: Pc, step: Step): Pc
    requires pc.At? && Awaits(pc.work, step)
  {
    match WorkAfter(pc.work, step)
    case Some(w) => pc.(work := w)
    case None => Batch(pc.todo, pc.scannedAt)
  }

  ghost function OnRow(setup: Setup, s: State, step: Step): State
    requires Enabled(setup, s, step) && OfRow(step)
  {
    var w, id := s.pc.work, s.pc.work.item.id;
    State(RowsAfter(s.rows, w, step, s.chainLabel),
          s.past[id := PastAfter(setup, w, step, s.chainLabel, s.Past(id))],
          PcAfter(s.pc, step), s.chainLabel)
  }

  ghost function Apply(setup: Setup, s: State, step: Step): State
    requires Enabled(setup, s, step)
  {
    match step
    case Insert(id, request, now) => s.(rows := Inserted(s.rows, id, request, now))
    case Settle(obpIds, sid, now) => s.(rows := MarkedSettled(s.rows, obpIds, sid, now))
    case Scan(work, now) => s.(pc := Batch(ItemsOf(s.rows, work), now))
    case EndBatch => s.(pc := Idle)
    case Attempt(now) =>
      var item := s.pc.todo[0];
      var h := s.Past(item.id);
      s.WithPast(item.id, h.(attempts := h.attempts + [now]))
       .(rows := AttemptRecorded(s.rows, item.id, now), pc := At(Begin(item), s.pc.todo[1..], s.pc.scannedAt))
    case Halt(reached, chainLabel) =>
      if s.pc.At?
      then
        var id := s.pc.work.item.id;
        s.WithPast(id, Cut(setup, s.pc.work, s.chainLabel, reached, s.Past(id))).(pc := Idle, chainLabel := chainLabel)
      else s.(pc := Idle, chainLabel := chainLabel)
    case _ => OnRow(setup, s, step)
  }

  ghost predicate Reaches(setup: Setup, s: State, steps: seq<Step>, t: State)
    decreases |steps|
  {
    if steps == [] then s == t
    else Enabled(setup, s, steps[0]) && Reaches(setup, Apply(setup, s, steps[0]), steps[1..], t)
  }

  lemma {:induction false} Extend(setup: Setup, s: State, steps: seq<Step>, m: State, step: Step)
    requires Reaches(setup, s, steps, m) && Enabled(setup, m, step)
    ensures Reaches(setup, s, steps + [step], Apply(setup, m, step))
    decreases |steps|
  {
    var all := steps + [step];
    if steps == [] {
      assert all[1..] == [];
      assert Reaches(setup, Apply(setup, m, step), all[1..], Apply(setup, m, step));
    } else {
      assert all[1..] == steps[1..] + [step];
      Extend(setup, Apply(setup, s, steps[0]), steps[1..], m, step);
    }
  }

  function Initial(chainLabel: string): State {
    State(map[], map[], Idle, chainLabel)
  }

  // ---------- the invariant, for one row ----------

  ghost predicate RowSound(row: Row) {
    match row.status
    case Initiated => row.obpId.None? && row.promiseTxId.None? && row.promiseBlockchain.None?
    case Submitted => row.promiseTxId.None? && row.promiseBlockchain.None?
    case PromiseWritten => row.promiseTxId.Some? && row.promiseBlockchain.Some?
    case Reported => row.obpId.Some? && row.promiseTxId.Some? && row.promiseBlockchain.Some?
    case Exception => true
  }

  /** Each action that took effect was recorded, was cut off from its record, or is waiting for it. */
  ghost predicate Balanced(t: Tally, waiting: bool) {
    t.done == t.marked + t.lost + (if waiting then 1 else 0)
  }

  ghost predicate TalliesSound(h: History, stage: Option<Stage>) {
    && Balanced(h.submits, stage.Some? && stage.value.Accepted?)
    && Balanced(h.writes, stage.Some? && stage.value.Written?)
    && Balanced(h.reports, stage.Some? && stage.value.Delivered?)
  }

  /** Which records the status stands for, and what must have come before what. */
  ghost predicate MarksSound(row: Row, h: History) {
    && (match row.status
        case Initiated => h.submits.marked == 0 && h.writes.marked == 0
        case Submitted => h.submits.marked == 1 && h.writes.marked == 0
        case PromiseWritten => h.submits.marked == 1 && h.writes.marked == 1
        case Reported => h.submits.marked == 1 && h.writes.marked == 1
        case Exception => h.writes.marked <= h.submits.marked <= 1)
    && h.reports.marked == (if row.status == Reported then 1 else 0)
    && (h.writes.done > 0 ==> h.submits.marked == 1)
    && (h.reports.done > 0 ==> h.writes.marked == 1)
  }

  ghost predicate Agrees(snapshot: Row, row: Row) {
    && row.request == snapshot.request && row.status == snapshot.status && row.obpId == snapshot.obpId
    && row.promiseTxId == snapshot.promiseTxId && row.promiseBlockchain == snapshot.promiseBlockchain
  }

  /** The rows still to come are different rows, open, and as the scan read them. */
  ghost predicate DistinctItems(todo: seq<Item>) {
    forall i, j :: 0 <= i < j < |todo| ==> todo[i].id != todo[j].id
  }

  ghost predicate ItemsSound(todo: seq<Item>, row: Option<Row>, id: string) {
    forall i :: 0 <= i < |todo| && todo[i].id == id ==>
      row.Some? && todo[i].row.status.Open() && Agrees(todo[i].row, row.value)
  }

  ghost predicate ItemsAvoid(todo: seq<Item>, id: string) {
    forall i :: 0 <= i < |todo| ==> todo[i].id != id
  }

  ghost predicate TodoSound(pc: Pc, row: Option<Row>, id: string) {
    match pc
    case Idle => true
    case Batch(todo, _) => DistinctItems(todo) && ItemsSound(todo, row, id)
    case At(w, todo, _) => DistinctItems(todo) && ItemsSound(todo, row, id) && ItemsAvoid(todo, w.item.id)
  }

  /** What the code may rely on at each point of `process_row`. */
  ghost predicate WorkSound(w: Work, row: Row, chainLabel: string) {
    && row.request == w.item.row.request
    && w.obpId == row.obpId && w.txId == row.promiseTxId
    && (match w.stage
        case Submitting => row.status == Initiated
        case Accepted(_) => row.status == Initiated
        case Writing => row.status == Submitted
        case Written(_) => row.status == Submitted
        case Reporting => row.status == PromiseWritten && w.obpId.Some?
        case Delivered => row.status == PromiseWritten && w.obpId.Some?
        case Refusing(_) => row.status.Open())
    && (if row.status == PromiseWritten
        then row.promiseBlockchain == Some(w.item.row.promiseBlockchain.GetOr(chainLabel))
        else row.status.Open() ==> w.item.row.promiseBlockchain.None?)
  }

  /** Everything written and revealed for the row is the one commitment of its request. */
  ghost predicate RevealsSound(setup: Setup, id: string, row: Row, h: History) {
    && (forall i :: 0 <= i < |h.commitments| ==> h.commitments[i] == setup.CommitmentOf(id, row.request))
    && (forall i :: 0 <= i < |h.evidence| ==>
          && h.evidence[i].commitment == setup.CommitmentOf(id, row.request)
          && h.evidence[i].salt == row.request.salt
          && h.evidence[i].preimage == setup.Preimage(id, row.request)
          && row.obpId == Some(h.evidence[i].obpId)
          && row.promiseTxId == Some(h.evidence[i].txHash)
          && row.promiseBlockchain == Some(h.evidence[i].blockchain))
    && |h.commitments| == h.writes.done && |h.evidence| == h.reports.done
  }

  ghost predicate LedgerSound(setup: Setup, s: State, id: string) {
    if id in s.rows
    then RowSound(s.rows[id]) && MarksSound(s.rows[id], s.Past(id)) && RevealsSound(setup, id, s.rows[id], s.Past(id))
    else s.Past(id) == NO_HISTORY
  }

  ghost predicate PcSound(s: State, id: string) {
    && TodoSound(s.pc, s.RowAt(id), id)
    && (s.pc.Holds(id) ==> id in s.rows && WorkSound(s.pc.work, s.rows[id], s.chainLabel))
  }

  ghost predicate Sound(setup: Setup, s: State, id: string) {
    && LedgerSound(setup, s, id)
    && TalliesSound(s.Past(id), s.pc.StageOf(id))
    && PcSound(s, id)
  }

  // ---------- every step keeps it ----------

  lemma AroundKeepsSound(setup: Setup, s: State, step: Step, id: string)
    requires Sound(setup, s, id) && Enabled(setup, s, step) && (step.Insert? || step.Settle?)
    ensures Sound(setup, Apply(setup, s, step), id)
  {
    var t := Apply(setup, s, step);
    assert t.pc == s.pc && t.past == s.past;
    if id in s.rows {
      assert Agrees(s.rows[id], t.rows[id]);
    }
  }

  lemma ScannedItemsAreSound(rows: Rows, cutoff: nat, text: Format, work: seq<string>, limit: nat, id: string)
    requires IsDueList(rows, cutoff, text, work, limit)
    ensures DistinctItems(ItemsOf(rows, work))
    ensures ItemsSound(ItemsOf(rows, work), if id in rows then Some(rows[id]) else None, id)
  {
  }

  lemma BatchKeepsSound(setup: Setup, s: State, step: Step, id: string)
    requires Sound(setup, s, id) && Enabled(setup, s, step) && (step.Scan? || step.EndBatch?)
    ensures Sound(setup, Apply(setup, s, step), id)
  {
    var t := Apply(setup, s, step);
    assert t.rows == s.rows && t.past == s.past && !t.pc.At?;
    if step.Scan? {
      ScannedItemsAreSound(s.rows, Stamp(step.now - setup.retry), setup.text, step.work, setup.batch, id);
    }
  }

  lemma BeginningIsSound(item: Item, row: Row, chainLabel: string)
    requires RowSound(row) && item.row.status.Open() && Agrees(item.row, row)
    ensures WorkSound(Begin(item), row, chainLabel)
    ensures !FirstStage(item.row).Accepted? && !FirstStage(item.row).Written? && !FirstStage(item.row).Delivered?
  {
  }

  lemma AttemptKeepsSound(setup: Setup, s: State, now: nat, id: string)
    requires Sound(setup, s, id) && Enabled(setup, s, Attempt(now))
    ensures Sound(setup, Apply(setup, s, Attempt(now)), id)
  {
    var t, item := Apply(setup, s, Attempt(now)), s.pc.todo[0];
    TakingTheFirstKeepsTodo(s.pc.todo, s.RowAt(id), id);
    if item.id == id {
      AttemptOnRowKeepsSound(setup, s, now);
    } else {
      assert t.Past(id) == s.Past(id) && t.RowAt(id) == s.RowAt(id);
    }
  }

  lemma AttemptOnRowKeepsSound(setup: Setup, s: State, now: nat)
    requires Enabled(setup, s, Attempt(now)) && Sound(setup, s, s.pc.todo[0].id)
    ensures Sound(setup, Apply(setup, s, Attempt(now)), s.pc.todo[0].id)
  {
    var t, item := Apply(setup, s, Attempt(now)), s.pc.todo[0];
    TakingTheFirstKeepsTodo(s.pc.todo, s.RowAt(item.id), item.id);
    BeginningIsSound(item, s.rows[item.id], s.chainLabel);
    assert Agrees(s.rows[item.id], t.rows[item.id]);
  }

  lemma TakingTheFirstKeepsTodo(todo: seq<Item>, row: Option<Row>, id: string)
    requires todo != [] && DistinctItems(todo) && ItemsSound(todo, row, id)
    ensures DistinctItems(todo[1..]) && ItemsSound(todo[1..], row, id) && ItemsAvoid(todo[1..], todo[0].id)
  {
  }

  /** While the row in hand changes, the others do not. */
  lemma StepKeepsTodo(pc: Pc, row: Option<Row>, next: Pc, nextRow: Option<Row>, id: string)
    requires pc.Holds(id) && TodoSound(pc, row, id)
    requires next.Idle? || next.todo == pc.todo
    requires next.At? ==> next.Holds(id)
    ensures TodoSound(next, nextRow, id)
  {
  }

  /** A step on another row changes nothing this row depends on. */
  lemma ElsewhereKeepsSound(setup: Setup, s: State, step: Step, id: string)
    requires Sound(setup, s, id) && Enabled(setup, s, step) && OfRow(step) && s.pc.work.item.id != id
    ensures Sound(setup, OnRow(setup, s, step), id)
  {
    var t := OnRow(setup, s, step);
    assert t.Past(id) == s.Past(id);
    assert t.RowAt(id) == s.RowAt(id);
    assert !t.pc.Holds(id);
  }

  /** Leaving a row early, wherever that happens, leaves its books in order. */
  lemma CutKeepsBooks(setup: Setup, w: Work, row: Row, chainLabel: string, reached: bool, h: History)
    requires WorkSound(w, row, chainLabel)
    requires MarksSound(row, h) && RevealsSound(setup, w.item.id, row, h) && TalliesSound(h, Some(w.stage))
    ensures var g := Cut(setup, w, chainLabel, reached, h);
            MarksSound(row, g) && RevealsSound(setup, w.item.id, row, g) && TalliesSound(g, None)
  {
  }

  lemma HaltKeepsSound(setup: Setup, s: State, reached: bool, chainLabel: string, id: string)
    requires Sound(setup, s, id) && Enabled(setup, s, Halt(reached, chainLabel))
    ensures Sound(setup, Apply(setup, s, Halt(reached, chainLabel)), id)
  {
    var t := Apply(setup, s, Halt(reached, chainLabel));
    if s.pc.Holds(id) {
      CutKeepsBooks(setup, s.pc.work, s.rows[id], s.chainLabel, reached, s.Past(id));
      assert t.Past(id) == Cut(setup, s.pc.work, s.chainLabel, reached, s.Past(id));
    } else {
      assert t.Past(id) == s.Past(id);
    }
  }

  predicate GivesUp(step: Step) {
    step.SubmitUnanswered? || step.WriteFailed? || step.ReportUnanswered?
  }

  lemma GivingUpKeepsSound(setup: Setup, s: State, step: Step, id: string)
    requires Sound(setup, s, id) && Enabled(setup, s, step) && GivesUp(step) && s.pc.work.item.id == id
    ensures Sound(setup, OnRow(setup, s, step), id)
  {
    var t := OnRow(setup, s, step);
    StepKeepsTodo(s.pc, s.RowAt(id), t.pc, t.RowAt(id), id);
    CutKeepsBooks(setup, s.pc.work, s.rows[id], s.chainLabel, step.reached, s.Past(id));
  }

  lemma AnswerKeepsSound(setup: Setup, s: State, step: Step, id: string)
    requires Sound(setup, s, id) && Enabled(setup, s, step) && s.pc.At? && s.pc.work.item.id == id
    requires step.SubmitAccepted? || step.WriteAccepted? || step.ReportAccepted?
    ensures Sound(setup, OnRow(setup, s, step), id)
  {
    var t := OnRow(setup, s, step);
    StepKeepsTodo(s.pc, s.RowAt(id), t.pc, t.RowAt(id), id);
  }

  lemma RefusalKeepsSound(setup: Setup, s: State, step: Step, id: string)
    requires Sound(setup, s, id) && Enabled(setup, s, step) && s.pc.At? && s.pc.work.item.id == id
    requires step.SubmitRefused? || step.ReportRefused? || step.RecordException?
    ensures Sound(setup, OnRow(setup, s, step), id)
  {
    var t := OnRow(setup, s, step);
    StepKeepsTodo(s.pc, s.RowAt(id), t.pc, t.RowAt(id), id);
  }

  lemma RecordKeepsSound(setup: Setup, s: State, step: Step, id: string)
    requires Sound(setup, s, id) && Enabled(setup, s, step) && s.pc.At? && s.pc.work.item.id == id
    requires step.RecordSubmitted? || step.RecordWritten? || step.RecordReported?
    ensures Sound(setup, OnRow(setup, s, step), id)
  {
    var t := OnRow(setup, s, step);
    StepKeepsTodo(s.pc, s.RowAt(id), t.pc, t.RowAt(id), id);
    RecordKeepsBooks(setup, s.pc.work, s.rows, step, s.chainLabel, s.Past(id));
  }

  /** Recording what was done moves it from waiting to marked. */
  lemma RecordKeepsBooks(setup: Setup, w: Work, rows: Rows, step: Step, chainLabel: string, h: History)
    requires w.item.id in rows && Awaits(w, step) && WorkSound(w, rows[w.item.id], chainLabel)
    requires step.RecordSubmitted? || step.RecordWritten? || step.RecordReported?
    requires RowSound(rows[w.item.id]) && MarksSound(rows[w.item.id], h)
    requires RevealsSound(setup, w.item.id, rows[w.item.id], h) && TalliesSound(h, Some(w.stage))
    ensures var row, g := RowsAfter(rows, w, step, chainLabel)[w.item.id], PastAfter(setup, w, step, chainLabel, h);
            && RowSound(row) && MarksSound(row, g) && RevealsSound(setup, w.item.id, row, g)
            && TalliesSound(g, match WorkAfter(w, step) case Some(next) => Some(next.stage) case None => None)
            && (WorkAfter(w, step).Some? ==> WorkSound(WorkAfter(w, step).value, row, chainLabel))
  {
  }

  lemma RowStepKeepsSound(setup: Setup, s: State, step: Step, id: string)
    requires Sound(setup, s, id) && Enabled(setup, s, step) && OfRow(step)
    ensures Sound(setup, OnRow(setup, s, step), id)
  {
    if s.pc.work.item.id != id {
      ElsewhereKeepsSound(setup, s, step, id);
    } else if GivesUp(step) {
      GivingUpKeepsSound(setup, s, step, id);
    } else if step.SubmitRefused? || step.ReportRefused? || step.RecordException? {
      RefusalKeepsSound(setup, s, step, id);
    } else if step.RecordSubmitted? || step.RecordWritten? || step.RecordReported? {
      RecordKeepsSound(setup, s, step, id);
    } else {
      AnswerKeepsSound(setup, s, step, id);
    }
  }

  lemma StepKeepsSound(setup: Setup, s: State, step: Step, id: string)
    requires Sound(setup, s, id) && Enabled(setup, s, step)
    ensures Sound(setup, Apply(setup, s, step), id)
  {
    if OfRow(step) {
      RowStepKeepsSound(setup, s, step, id);
    } else if step.Insert? || step.Settle? {
      AroundKeepsSound(setup, s, step, id);
    } else if step.Attempt? {
      AttemptKeepsSound(setup, s, step.now, id);
    } else if step.Halt? {
      HaltKeepsSound(setup, s, step.reached, step.chainLabel, id);
    } else {
      BatchKeepsSound(setup, s, step, id);
    }
  }

  lemma {:induction false} RunKeepsSound(setup: Setup, s: State, steps: seq<Step>, t: State, id: string)
    requires Sound(setup, s, id) && Reaches(setup, s, steps, t)
    ensures Sound(setup, t, id)
    decreases |steps|
  {
    if steps != [] {
      StepKeepsSound(setup, s, steps[0], id);
      RunKeepsSound(setup, Apply(setup, s, steps[0]), steps[1..], t, id);
    }
  }
}
