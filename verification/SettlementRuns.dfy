/**
 The settlement value leg as a state machine: any number of consumers handling settlement
 instructions, one finality watcher, the durable table, and the transfers that really reached the
 chain. Every step is one atomic action of the code (one SQL statement, one answer from the chain);
 a crash may fall between any two of them and loses everything but the table and the chain.
 */
module SettlementRuns {
  import opened Prelude
  import opened Worklist
  import opened SettlementStore

  const WORKLIST_LIMIT: nat := 100

  /** Where one consumer stands in the handling of one delivery. */
  datatype Handling =
    | Idle
    | Claiming(key: string, terms: Terms)                     // validated, about to insert the row
    | Reading(key: string)                                    // row existed, about to read it
    | Reopening(key: string)                                  // read a retryable failure, about to reopen
    | Paying(key: string)                                     // owns the attempt, settle not answered
    | InFlight(key: string, txId: string)                     // node accepted the transfer, settle not answered
    | Settled(key: string, outcome: Outcome)                  // settle answered Ok
    | Failed(key: string, reason: string, retryable: bool)    // settle answered an error
  {
    /** This consumer owns a payment attempt under `k`. */
    predicate Owns(k: string) {
      (Paying? || InFlight? || Settled? || Failed?) && key == k
    }
  }

  datatype Confirmation = Pending | Confirmed(depth: nat) | RejectedOnChain | Unavailable

  datatype Watching =
    | Resting
    | Scanning(todo: seq<string>)
    | Judging(key: string, answer: Confirmation, todo: seq<string>)
  {
    function Ahead(): seq<string> {
      match this
      case Resting => []
      case Scanning(todo) => todo
      case Judging(key, _, todo) => [key] + todo
    }
  }

  datatype State = State(
    rows: Rows,
    ledger: map<string, seq<string>>,   // transfers on chain, by idempotency key
    consumers: seq<Handling>,
    watcher: Watching,
    finalityDepth: nat)
  {
    function Transfers(key: string): seq<string> {
      if key in ledger then ledger[key] else []
    }

    function RowAt(key: string): Option<Row> {
      if key in rows then Some(rows[key]) else None
    }

    function With(h: nat, p: Handling): State
      requires h < |consumers|
    {
      this.(consumers := consumers[h := p])
    }
  }

  function Initial(consumers: nat, finalityDepth: nat): State {
    State(map[], map[], seq(consumers, _ => Idle), Resting, finalityDepth)
  }

  datatype Step =
    // consumer h
    | Deliver(h: nat, key: string, terms: Terms)
    | Insert(h: nat, now: nat)
    | Read(h: nat)
    | Reopen(h: nat, now: nat)
    | StoreDown(h: nat)                      // the statement about to run fails
    | HandToNode(h: nat, txId: string)       // the transfer reaches the chain
    | Accept(h: nat, outcome: Outcome)       // settle returns Ok
    | Refuse(h: nat, reason: string)         // settle returns Rejected
    | LoseTouch(h: nat, reason: string)      // settle returns a transport or internal error
    | RecordSubmitted(h: nat, now: nat)
    | RecordError(h: nat, now: nat)
    // watcher
    | Scan(work: seq<string>)
    | Skip                                   // no transaction reference, or confirm failed
    | Confirm(answer: Confirmation)
    | Judge(now: nat)
    | JudgeFails                             // a failed write ends the tick
    // everything volatile is lost
    | Crash

  predicate At(s: State, h: nat) {
    h < |s.consumers|
  }

  ghost predicate Enabled(s: State, step: Step) {
    match step
    case Deliver(h, key, terms) => At(s, h) && s.consumers[h].Idle?
    case Insert(h, now) => At(s, h) && s.consumers[h].Claiming?
    case Read(h) => At(s, h) && s.consumers[h].Reading? && s.consumers[h].key in s.rows
    case Reopen(h, now) => At(s, h) && s.consumers[h].Reopening?
    case StoreDown(h) => At(s, h) && !s.consumers[h].Idle? && !s.consumers[h].Paying? && !s.consumers[h].InFlight?
    case HandToNode(h, txId) => At(s, h) && s.consumers[h].Paying?
    case Accept(h, outcome) => At(s, h) && s.consumers[h].InFlight? && outcome.txId == s.consumers[h].txId
    case Refuse(h, reason) => At(s, h) && s.consumers[h].Paying?
    case LoseTouch(h, reason) => At(s, h) && (s.consumers[h].Paying? || s.consumers[h].InFlight?)
    case RecordSubmitted(h, now) => At(s, h) && s.consumers[h].Settled?
    case RecordError(h, now) => At(s, h) && s.consumers[h].Failed?
    case Scan(work) => s.watcher.Resting? && IsWorklist(s.rows, work, WORKLIST_LIMIT)
    case Skip => s.watcher.Scanning? && s.watcher.todo != []
    case Confirm(answer) => s.watcher.Scanning? && s.watcher.todo != [] && !answer.Unavailable?
    case Judge(now) => s.watcher.Judging?
    case JudgeFails => s.watcher.Judging?
    case Crash => true
  }

  /** What the watcher writes for one answer. */
  function Judged(rows: Rows, key: string, answer: Confirmation, finalityDepth: nat, now: nat): Rows {
    match answer
    case Confirmed(depth) =>
      if depth >= finalityDepth then MarkedFinal(rows, key, depth, now) else DepthRecorded(rows, key, depth, now)
    case Pending => DepthRecorded(rows, key, 0, now)
    case RejectedOnChain => MarkedError(rows, key, "transaction rejected on chain", false, now)
    case Unavailable => rows
  }

  function Rest(todo: seq<string>): Watching {
    if todo == [] then Resting else Scanning(todo)
  }

  ghost function Apply(s: State, step: Step): State
    requires Enabled(s, step)
  {
    match step
    case Deliver(h, key, terms) => s.With(h, Claiming(key, terms))
    case Insert(h, now) =>
      var p := s.consumers[h];
      s.With(h, if p.key in s.rows then Reading(p.key) else Paying(p.key))
       .(rows := Inserted(s.rows, p.key, p.terms, now))
    case Read(h) =>
      var p := s.consumers[h];
      s.With(h, if s.rows[p.key].MayRetry() then Reopening(p.key) else Idle)
    case Reopen(h, now) =>
      var p := s.consumers[h];
      s.With(h, Paying(p.key)).(rows := Reopened(s.rows, p.key, now))
    case StoreDown(h) => s.With(h, Idle)
    case HandToNode(h, txId) =>
      var p := s.consumers[h];
      s.With(h, InFlight(p.key, txId)).(ledger := s.ledger[p.key := s.Transfers(p.key) + [txId]])
    case Accept(h, outcome) => s.With(h, Settled(s.consumers[h].key, outcome))
    case Refuse(h, reason) => s.With(h, Failed(s.consumers[h].key, reason, true))
    case LoseTouch(h, reason) => s.With(h, Failed(s.consumers[h].key, reason, false))
    case RecordSubmitted(h, now) =>
      var p := s.consumers[h];
      s.With(h, Idle).(rows := MarkedSubmitted(s.rows, p.key, p.outcome, now))
    case RecordError(h, now) =>
      var p := s.consumers[h];
      s.With(h, Idle).(rows := MarkedError(s.rows, p.key, p.reason, p.retryable, now))
    case Scan(work) => s.(watcher := Rest(work))
    case Skip => s.(watcher := Rest(s.watcher.todo[1..]))
    case Confirm(answer) => s.(watcher := Judging(s.watcher.todo[0], answer, s.watcher.todo[1..]))
    case Judge(now) =>
      var w := s.watcher;
      s.(watcher := Rest(w.todo), rows := Judged(s.rows, w.key, w.answer, s.finalityDepth, now))
    case JudgeFails => s.(watcher := Resting)
    case Crash => s.(consumers := seq(|s.consumers|, _ => Idle), watcher := Resting)
  }

  /** `t` is reached from `s` by exactly these steps. */
  ghost predicate Reaches(s: State, steps: seq<Step>, t: State)
    decreases |steps|
  {
    if steps == [] then s == t
    else Enabled(s, steps[0]) && Reaches(Apply(s, steps[0]), steps[1..], t)
  }

  lemma {:induction false} Extend(s: State, steps: seq<Step>, m: State, step: Step)
    requires Reaches(s, steps, m) && Enabled(m, step)
    ensures Reaches(s, steps + [step], Apply(m, step))
    decreases |steps|
  {
    var all := steps + [step];
    if steps == [] {
      assert all[1..] == [];
      assert Reaches(Apply(m, step), all[1..], Apply(m, step));
    } else {
      assert all[1..] == steps[1..] + [step];
      Extend(Apply(s, steps[0]), steps[1..], m, step);
    }
  }

  // ---------- the invariant ----------

  /** Each status fixes what may be on chain. */
  ghost predicate RowSound(row: Row, paid: seq<string>, finalityDepth: nat) {
    match row.status
    case Settling => |paid| <= 1
    case Submitted => row.outcome.Some? && paid == [row.outcome.value.txId]
    case Final => row.outcome.Some? && paid == [row.outcome.value.txId] && row.lastDepth >= finalityDepth
    case Error => if row.retryable then paid == [] else |paid| <= 1
  }

  /** What a consumer working under this key may rely on. */
  ghost predicate HandlingSound(p: Handling, row: Option<Row>, paid: seq<string>) {
    match p
    case Idle => true
    case Claiming(_, _) => true
    case Reading(_) => row.Some?
    case Reopening(_) => row.Some? && row.value.MayRetry()
    case Paying(_) => row.Some? && row.value.status == Settling && paid == []
    case InFlight(_, tx) => row.Some? && row.value.status == Settling && paid == [tx]
    case Settled(_, o) => row.Some? && row.value.status == Settling && paid == [o.txId]
    case Failed(_, _, retryable) =>
      row.Some? && row.value.status == Settling && |paid| <= 1 && (retryable ==> paid == [])
  }

  ghost predicate ConsumersSound(consumers: seq<Handling>, row: Option<Row>, paid: seq<string>, key: string) {
    forall h :: 0 <= h < |consumers| && !consumers[h].Idle? && consumers[h].key == key ==>
      HandlingSound(consumers[h], row, paid)
  }

  ghost predicate WatcherSound(s: State, key: string) {
    && Distinct(s.watcher.Ahead())
    && (key in s.watcher.Ahead() ==> key in s.rows && s.rows[key].status == Submitted)
  }

  /** No attempt under the key is, or is about to become, retryable. */
  ghost predicate Unretryable(p: Handling) {
    !p.Reopening? && !(p.Failed? && p.retryable)
  }

  /** With several consumers, mutual exclusion rests on no attempt under the key being retryable. */
  ghost predicate Exclusive(consumers: seq<Handling>, row: Option<Row>, key: string) {
    && (row.Some? ==> !row.value.MayRetry())
    && (forall h :: 0 <= h < |consumers| && !consumers[h].Idle? && consumers[h].key == key ==> Unretryable(consumers[h]))
    && (forall g, h :: 0 <= g < h < |consumers| ==> !(consumers[g].Owns(key) && consumers[h].Owns(key)))
  }

  ghost predicate LedgerSound(row: Option<Row>, paid: seq<string>, finalityDepth: nat) {
    if row.None? then paid == [] else RowSound(row.value, paid, finalityDepth)
  }

  ghost predicate Sound(s: State, key: string) {
    && LedgerSound(s.RowAt(key), s.Transfers(key), s.finalityDepth)
    && ConsumersSound(s.consumers, s.RowAt(key), s.Transfers(key), key)
    && WatcherSound(s, key)
    && (|s.consumers| <= 1 || Exclusive(s.consumers, s.RowAt(key), key))
  }

  /** This step is a refusal of an attempt under `key`. */
  ghost predicate Refuses(s: State, step: Step, key: string)
    requires Enabled(s, step)
  {
    step.Refuse? && s.consumers[step.h].key == key
  }

  ghost predicate NeverRefused(s: State, steps: seq<Step>, key: string)
    decreases |steps|
  {
    steps == []
    || (Enabled(s, steps[0]) && !Refuses(s, steps[0], key) && NeverRefused(Apply(s, steps[0]), steps[1..], key))
  }

  lemma JudgeKeepsSound(s: State, now: nat, key: string)
    requires Sound(s, key) && s.watcher.Judging?
    ensures Sound(Apply(s, Judge(now)), key)
  {
    var t := Apply(s, Judge(now));
    var w := s.watcher;
    var ahead := w.Ahead();
    assert ahead[0] == w.key && ahead[1..] == w.todo;
    assert forall i :: 0 <= i < |w.todo| ==> ahead[i + 1] == w.todo[i];
    assert t.watcher.Ahead() == w.todo;
    if w.key != key {
      assert t.RowAt(key) == s.RowAt(key);
    }
  }

  lemma LookKeepsSound(s: State, step: Step, key: string)
    requires Sound(s, key) && Enabled(s, step)
    requires step.Scan? || step.Skip? || step.Confirm? || step.JudgeFails?
    ensures Sound(Apply(s, step), key)
  {
    var t := Apply(s, step);
    assert t.RowAt(key) == s.RowAt(key) && t.Transfers(key) == s.Transfers(key);
    match step {
      case Scan(work) => assert t.watcher.Ahead() == work;
      case Skip => assert t.watcher.Ahead() == s.watcher.todo[1..];
      case Confirm(answer) => assert t.watcher.Ahead() == s.watcher.todo;
      case JudgeFails =>
    }
  }

  predicate ByConsumer(step: Step) {
    !(step.Scan? || step.Skip? || step.Confirm? || step.Judge? || step.JudgeFails? || step.Crash?)
  }

  /** A step under another key, or one that only lets go, changes nothing this key depends on. */
  lemma ElsewhereKeepsSound(s: State, step: Step, key: string)
    requires Sound(s, key) && Enabled(s, step) && ByConsumer(step)
    requires step.Deliver? || step.StoreDown? || s.consumers[step.h].key != key
    ensures Sound(Apply(s, step), key)
  {
    var t := Apply(s, step);
    var h := step.h;
    assert t.RowAt(key) == s.RowAt(key) && t.Transfers(key) == s.Transfers(key);
    assert t.consumers == s.consumers[h := t.consumers[h]];
    assert t.watcher == s.watcher;
    assert t.consumers[h].Idle? || t.consumers[h].Claiming? || t.consumers[h].key != key;
  }

  lemma ClaimKeepsSound(s: State, step: Step, key: string)
    requires Sound(s, key) && Enabled(s, step)
    requires step.Insert? || step.Read? || step.Reopen?
    requires s.consumers[step.h].key == key
    ensures Sound(Apply(s, step), key)
  {
    var t := Apply(s, step);
    var h := step.h;
    assert HandlingSound(s.consumers[h], s.RowAt(key), s.Transfers(key));
    assert t.consumers == s.consumers[h := t.consumers[h]];
    assert t.Transfers(key) == s.Transfers(key) && t.watcher == s.watcher;
  }

  lemma SettleKeepsSound(s: State, step: Step, key: string)
    requires Sound(s, key) && Enabled(s, step)
    requires |s.consumers| <= 1 || !Refuses(s, step, key)
    requires step.HandToNode? || step.Accept? || step.Refuse? || step.LoseTouch?
    requires s.consumers[step.h].key == key
    ensures Sound(Apply(s, step), key)
  {
    var t := Apply(s, step);
    var h := step.h;
    assert HandlingSound(s.consumers[h], s.RowAt(key), s.Transfers(key));
    assert s.consumers[h].Owns(key);
    assert t.consumers == s.consumers[h := t.consumers[h]];
    assert t.RowAt(key) == s.RowAt(key) && t.watcher == s.watcher;
  }

  lemma RecordKeepsSound(s: State, step: Step, key: string)
    requires Sound(s, key) && Enabled(s, step)
    requires step.RecordSubmitted? || step.RecordError?
    requires s.consumers[step.h].key == key
    ensures Sound(Apply(s, step), key)
  {
    var t := Apply(s, step);
    var h := step.h;
    assert HandlingSound(s.consumers[h], s.RowAt(key), s.Transfers(key));
    assert s.consumers[h].Owns(key);
    assert t.consumers == s.consumers[h := Idle];
    assert t.Transfers(key) == s.Transfers(key) && t.watcher == s.watcher;
  }

  lemma StepKeepsSound(s: State, step: Step, key: string)
    requires Sound(s, key) && Enabled(s, step)
    requires |s.consumers| <= 1 || !Refuses(s, step, key)
    ensures Sound(Apply(s, step), key)
    ensures |Apply(s, step).consumers| == |s.consumers|
  {
    if step.Judge? {
      JudgeKeepsSound(s, step.now, key);
    } else if ByConsumer(step) {
      if step.Deliver? || step.StoreDown? || s.consumers[step.h].key != key {
        ElsewhereKeepsSound(s, step, key);
      } else if step.Insert? || step.Read? || step.Reopen? {
        ClaimKeepsSound(s, step, key);
      } else if step.RecordSubmitted? || step.RecordError? {
        RecordKeepsSound(s, step, key);
      } else {
        SettleKeepsSound(s, step, key);
      }
    } else if !step.Crash? {
      LookKeepsSound(s, step, key);
    }
  }

  lemma {:induction false} RunKeepsSound(s: State, steps: seq<Step>, t: State, key: string)
    requires Sound(s, key) && Reaches(s, steps, t)
    requires |s.consumers| <= 1 || NeverRefused(s, steps, key)
    ensures Sound(t, key)
    decreases |steps|
  {
    if steps != [] {
      StepKeepsSound(s, steps[0], key);
      RunKeepsSound(Apply(s, steps[0]), steps[1..], t, key);
    }
  }
}
