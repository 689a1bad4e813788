/**
 The finality watcher: one pass over the hundred SUBMITTED rows examined longest ago. Each examined
 row is stamped behind the others, so no row starves.
 */
module FinalityWatcher {
  import opened Prelude
  import opened Worklist
  import opened SettlementStore
  import Runs = SettlementRuns

  /** The surroundings of one pass: what confirm answers for each row, whether its write succeeds,
      and the clock reading of the n-th examination. */
  datatype Surroundings = Surroundings(
    confirm: string -> Runs.Confirmation,
    up: string -> bool,
    clock: nat -> nat)

  /** The table and whether the pass is still going; a failed write ends it. */
  datatype Progress = Progress(rows: Rows, going: bool)

  /** The pass looks at this row: it has a transaction reference and confirm answers. */
  predicate Answered(listed: Rows, key: string, env: Surroundings) {
    key in listed && listed[key].outcome.Some? && !env.confirm(key).Unavailable?
  }

  /** The pass after the first `n` rows of the worklist, `listed` being the table it was read from. */
  function After(listed: Rows, work: seq<string>, n: nat, env: Surroundings, finalityDepth: nat): Progress
    requires n <= |work|
  {
    if n == 0 then Progress(listed, true)
    else
      var p := After(listed, work, n - 1, env, finalityDepth);
      var key := work[n - 1];
      if !p.going || !Answered(listed, key, env) then p
      else if !env.up(key) then Progress(p.rows, false)
      else Progress(Runs.Judged(p.rows, key, env.confirm(key), finalityDepth, env.clock(n - 1)), true)
  }

  class Watcher {
    const store: Store
    const finalityDepth: nat

    constructor (store: Store, finalityDepth: nat)
      ensures this.store == store && this.finalityDepth == finalityDepth
    {
      this.store, this.finalityDepth := store, finalityDepth;
    }

    method Tick(env: Surroundings) returns (work: seq<string>, completed: bool)
      modifies store
      ensures IsWorklist(old(store.rows), work, Runs.WORKLIST_LIMIT)
      ensures Progress(store.rows, completed) == After(old(store.rows), work, |work|, env, finalityDepth)
    {
      var listed := store.rows;
      work := store.ListSubmitted(Runs.WORKLIST_LIMIT);
      var i := 0;
      while i < |work|
        invariant i <= |work|
        invariant Progress(store.rows, true) == After(listed, work, i, env, finalityDepth)
        modifies store
      {
        var key := work[i];
        var ok := true;
        if key in listed && listed[key].outcome.Some? {
          match env.confirm(key) {
            case Confirmed(depth) =>
              if depth >= finalityDepth {
                ok := store.MarkFinal(key, depth, env.clock(i), env.up(key));
              } else {
                ok := store.RecordDepth(key, depth, env.clock(i), env.up(key));
              }
            case Pending =>
              ok := store.RecordDepth(key, 0, env.clock(i), env.up(key));
            case RejectedOnChain =>
              ok := store.MarkError(key, "transaction rejected on chain", false, env.clock(i), env.up(key));
            case Unavailable =>
          }
        }
        i := i + 1;
        if !ok {
          StoppedStaysStopped(listed, work, i, |work|, env, finalityDepth);
          return work, false;
        }
      }
      completed := true;
    }
  }

  lemma {:induction false} StoppedStaysStopped(listed: Rows, work: seq<string>, n: nat, m: nat, env: Surroundings, finalityDepth: nat)
    requires n <= m <= |work|
    requires !After(listed, work, n, env, finalityDepth).going
    ensures After(listed, work, m, env, finalityDepth) == After(listed, work, n, env, finalityDepth)
  {
    if n < m {
      StoppedStaysStopped(listed, work, n, m - 1, env, finalityDepth);
    }
  }

  // ---------- a pass is a run of the settlement state machine ----------

  function Watching(s: Runs.State, rows: Rows, todo: seq<string>): Runs.State {
    s.(rows := rows, watcher := Runs.Rest(todo))
  }

  lemma {:induction false} PassIsARun(s: Runs.State, work: seq<string>, n: nat, env: Surroundings) returns (steps: seq<Runs.Step>)
    requires s.watcher.Resting? && IsWorklist(s.rows, work, Runs.WORKLIST_LIMIT) && n <= |work|
    ensures var p := After(s.rows, work, n, env, s.finalityDepth);
            Runs.Reaches(s, steps, if p.going then Watching(s, p.rows, work[n..]) else s.(rows := p.rows))
    decreases n
  {
    if n == 0 {
      assert work[0..] == work;
      Runs.Extend(s, [], s, Runs.Scan(work));
      steps := [] + [Runs.Scan(work)];
    } else {
      steps := PassIsARun(s, work, n - 1, env);
      var p := After(s.rows, work, n - 1, env, s.finalityDepth);
      if p.going {
        steps := ExaminationIsARun(s, steps, work, n - 1, env, p.rows);
      }
    }
  }

  lemma ExaminationIsARun(s: Runs.State, before: seq<Runs.Step>, work: seq<string>, i: nat, env: Surroundings, rows: Rows)
    returns (steps: seq<Runs.Step>)
    requires s.watcher.Resting? && i < |work|
    requires After(s.rows, work, i, env, s.finalityDepth) == Progress(rows, true)
    requires Runs.Reaches(s, before, Watching(s, rows, work[i..]))
    ensures var p := After(s.rows, work, i + 1, env, s.finalityDepth);
            Runs.Reaches(s, steps, if p.going then Watching(s, p.rows, work[i + 1..]) else s.(rows := p.rows))
  {
    var key, m := work[i], Watching(s, rows, work[i..]);
    assert work[i..][0] == key && work[i..][1..] == work[i + 1..];
    if !Answered(s.rows, key, env) {
      Runs.Extend(s, before, m, Runs.Skip);
      steps := before + [Runs.Skip];
    } else {
      Runs.Extend(s, before, m, Runs.Confirm(env.confirm(key)));
      steps := before + [Runs.Confirm(env.confirm(key))];
      var j := Runs.Apply(m, Runs.Confirm(env.confirm(key)));
      var last := if env.up(key) then Runs.Judge(env.clock(i)) else Runs.JudgeFails;
      Runs.Extend(s, steps, j, last);
      steps := steps + [last];
    }
  }

  // ---------- no row starves ----------

  /** Every confirm answers, every write succeeds, every listed row has a transaction, and the clock
      reads later than every stamp in the table. */
  ghost predicate Healthy(rows: Rows, work: seq<string>, env: Surroundings) {
    && (forall key :: key in work ==> Answered(rows, key, env) && env.up(key))
    && (forall n: nat, key :: key in rows ==> env.clock(n) > rows[key].updatedAt)
  }

  /** The SUBMITTED rows that a worklist may list before this one. */
  ghost function Ahead(rows: Rows, key: string): set<string>
    requires key in rows
  {
    set k | k in rows && k != key && rows[k].status == Submitted && rows[k].updatedAt <= rows[key].updatedAt
  }

  ghost predicate IsSubmitted(rows: Rows, key: string) {
    key in rows && rows[key].status == Submitted
  }

  lemma {:induction false} DistinctKeysAsSet(keys: seq<string>)
    requires Distinct(keys)
    ensures |set k | k in keys| == |keys|
  {
    if keys != [] {
      var init, last := keys[..|keys| - 1], keys[|keys| - 1];
      assert forall k :: k in keys <==> k in init || k == last;
      DistinctKeysAsSet(init);
      assert (set k | k in keys) == (set k | k in init) + {last};
    }
  }

  /** A row the worklist misses has a full worklist of rows ahead of it. */
  lemma MissedRowHasAFullListAhead(rows: Rows, work: seq<string>, key: string)
    requires IsWorklist(rows, work, Runs.WORKLIST_LIMIT)
    requires IsSubmitted(rows, key) && key !in work
    ensures (set k | k in work) <= Ahead(rows, key)
    ensures |set k | k in work| == Runs.WORKLIST_LIMIT
  {
    var stamps := SubmittedStamps(rows);
    var listed := set k | k in work;
    forall k | k in listed
      ensures k in Ahead(rows, key)
    {
      var i :| 0 <= i < |work| && work[i] == k;
      assert k in stamps && key in stamps;
      assert stamps[work[i]] <= stamps[key];
    }
    DistinctKeysAsSet(work);
    if |work| == |stamps| {
      assert listed <= stamps.Keys - {key};
      SubsetIsSmaller(listed, stamps.Keys - {key});
      assert false;
    }
  }

  lemma {:induction false} SubsetIsSmaller(a: set<string>, b: set<string>)
    requires a <= b
    ensures |a| <= |b|
  {
    if a != {} {
      var x :| x in a;
      SubsetIsSmaller(a - {x}, b - {x});
    }
  }

  lemma JudgedIsLocal(rows: Rows, key: string, answer: Runs.Confirmation, finalityDepth: nat, now: nat)
    requires key in rows && !answer.Unavailable?
    ensures var after := Runs.Judged(rows, key, answer, finalityDepth, now);
            && after.Keys == rows.Keys
            && (forall k :: k in rows && k != key ==> after[k] == rows[k])
            && (rows[key].status == Submitted ==> after[key].updatedAt == now)
  {
  }

  ghost predicate Restamped(row: Row, env: Surroundings) {
    exists n: nat :: row.updatedAt == env.clock(n)
  }

  ghost predicate ListsSubmitted(rows: Rows, work: seq<string>) {
    Distinct(work) && forall i :: 0 <= i < |work| ==> IsSubmitted(rows, work[i])
  }

  lemma WorklistsListSubmitted(rows: Rows, work: seq<string>, limit: nat)
    requires IsWorklist(rows, work, limit)
    ensures ListsSubmitted(rows, work)
  {
  }

  lemma {:induction false} ListedRowsAreRestamped(rows: Rows, work: seq<string>, n: nat, env: Surroundings,
                                                  finalityDepth: nat, k: string)
    requires n <= |work| && ListsSubmitted(rows, work) && Healthy(rows, work, env)
    requires k in rows
    ensures After(rows, work, n, env, finalityDepth).going
    ensures After(rows, work, n, env, finalityDepth).rows.Keys == rows.Keys
    ensures var after := After(rows, work, n, env, finalityDepth).rows;
            if k in work[..n] then Restamped(after[k], env) else after[k] == rows[k]
  {
    if n > 0 {
      ListedRowsAreRestamped(rows, work, n - 1, env, finalityDepth, k);
      var before := After(rows, work, n - 1, env, finalityDepth).rows;
      var key := work[n - 1];
      assert work[..n] == work[..n - 1] + [key];
      assert key !in work[..n - 1];
      assert Answered(rows, key, env) && env.up(key) && IsSubmitted(rows, key);
      JudgedIsLocal(before, key, env.confirm(key), finalityDepth, env.clock(n - 1));
    }
  }

  /** What the watcher's row shows once the node answered: final if that is deep enough, else the depth so
      far, none while the transfer is not included; or that the chain rejected it. */
  predicate ShowsAnswer(before: Row, after: Row, answer: Runs.Confirmation, finalityDepth: nat, now: nat) {
    && after.terms == before.terms && after.outcome == before.outcome && after.createdAt == before.createdAt
    && after.updatedAt == now
    && match answer
       case Confirmed(depth) =>
         after.lastDepth == depth
         && (if depth >= finalityDepth then after.status == Final && after.finalizedAt == Some(now)
             else after.status == Submitted && after.finalizedAt == before.finalizedAt)
       case Pending => after.status == Submitted && after.lastDepth == 0 && after.finalizedAt == before.finalizedAt
       case RejectedOnChain =>
         after.status == Error && !after.retryable && after.lastDepth == before.lastDepth
         && after.errorReason == Some("transaction rejected on chain")
       case Unavailable => false
  }

  lemma JudgedShowsAnswer(rows: Rows, key: string, answer: Runs.Confirmation, finalityDepth: nat, now: nat)
    requires IsSubmitted(rows, key) && !answer.Unavailable?
    ensures Runs.Judged(rows, key, answer, finalityDepth, now).Keys == rows.Keys
    ensures ShowsAnswer(rows[key], Runs.Judged(rows, key, answer, finalityDepth, now)[key], answer, finalityDepth, now)
  {
  }

  /** There is a transfer to ask about, and the node says something of it. */
  predicate NodeTells(rows: Rows, key: string, env: Surroundings) {
    key in rows && rows[key].outcome.Some? && env.confirm(key) != Runs.Unavailable
  }

  /** The examination of the i-th row is reached: no write before it fails. */
  predicate Reached(rows: Rows, work: seq<string>, i: nat, env: Surroundings)
    requires i <= |work|
  {
    forall j :: 0 <= j < i ==> Answered(rows, work[j], env) ==> env.up(work[j])
  }

  lemma {:induction false} PassSoFar(rows: Rows, work: seq<string>, n: nat, env: Surroundings, finalityDepth: nat, i: nat)
    requires n <= |work| && ListsSubmitted(rows, work) && i < |work|
    ensures var p := After(rows, work, n, env, finalityDepth);
            && p.rows.Keys == rows.Keys && (p.going <==> Reached(rows, work, n, env))
            && (if i < n && Reached(rows, work, i + 1, env) && Answered(rows, work[i], env)
                then ShowsAnswer(rows[work[i]], p.rows[work[i]], env.confirm(work[i]), finalityDepth, env.clock(i))
                else p.rows[work[i]] == rows[work[i]])
  {
    if n > 0 {
      PassSoFar(rows, work, n - 1, env, finalityDepth, i);
      var p, key := After(rows, work, n - 1, env, finalityDepth), work[n - 1];
      if p.going && Answered(rows, key, env) && env.up(key) {
        JudgedIsLocal(p.rows, key, env.confirm(key), finalityDepth, env.clock(n - 1));
        if i == n - 1 {
          JudgedShowsAnswer(p.rows, key, env.confirm(key), finalityDepth, env.clock(i));
        }
      }
    }
  }

  /** Every row of a pass shows what confirm answered for it, unless it has no transfer to ask about, the
      node did not answer, or a write failed up to then: then it is left alone. The pass is completed exactly
      if no write fails. */
  lemma PassShowsTheAnswers(rows: Rows, work: seq<string>, env: Surroundings, finalityDepth: nat, i: nat)
    requires IsWorklist(rows, work, Runs.WORKLIST_LIMIT) && i < |work|
    ensures var p := After(rows, work, |work|, env, finalityDepth);
            && work[i] in p.rows && rows[work[i]].status == Submitted
            && (p.going <==> forall j :: 0 <= j < |work| && NodeTells(rows, work[j], env) ==> env.up(work[j]))
            && if NodeTells(rows, work[i], env) && (forall j :: 0 <= j <= i && NodeTells(rows, work[j], env) ==> env.up(work[j]))
               then ShowsAnswer(rows[work[i]], p.rows[work[i]], env.confirm(work[i]), finalityDepth, env.clock(i))
               else p.rows[work[i]] == rows[work[i]]
  {
    WorklistsListSubmitted(rows, work, Runs.WORKLIST_LIMIT);
    PassSoFar(rows, work, |work|, env, finalityDepth, i);
    assert Reached(rows, work, i + 1, env) <==>
           forall j :: 0 <= j <= i && NodeTells(rows, work[j], env) ==> env.up(work[j]);
    assert Reached(rows, work, |work|, env) <==>
           forall j :: 0 <= j < |work| && NodeTells(rows, work[j], env) ==> env.up(work[j]);
  }

  /** A healthy pass over its worklist stamps the rows it lists with its own clock, and leaves the others
      alone. */
  lemma HealthyPassRestamps(rows: Rows, work: seq<string>, env: Surroundings, finalityDepth: nat, k: string)
    requires IsWorklist(rows, work, Runs.WORKLIST_LIMIT) && Healthy(rows, work, env) && k in rows
    ensures var p := After(rows, work, |work|, env, finalityDepth);
            && p.going && p.rows.Keys == rows.Keys
            && (if k in work then Restamped(p.rows[k], env) else p.rows[k] == rows[k])
  {
    WorklistsListSubmitted(rows, work, Runs.WORKLIST_LIMIT);
    ListedRowsAreRestamped(rows, work, |work|, env, finalityDepth, k);
    assert work[..|work|] == work;
  }

  // ---------- over whole runs, with everything that happens between and during the passes ----------

  /** The clock reading the step stores. */
  function ClockOf(step: Runs.Step): Option<nat> {
    match step
    case Insert(_, now) => Some(now)
    case Reopen(_, now) => Some(now)
    case RecordSubmitted(_, now) => Some(now)
    case RecordError(_, now) => Some(now)
    case Judge(now) => Some(now)
    case _ => None
  }

  /** The clock strictly increases: it reads later than every stamp it has left in the table. */
  ghost predicate ReadsLater(rows: Rows, step: Runs.Step) {
    ClockOf(step).Some? ==> forall k :: k in rows ==> rows[k].updatedAt < ClockOf(step).value
  }

  ghost predicate ClockRises(s: Runs.State, steps: seq<Runs.Step>)
    decreases |steps|
  {
    steps == []
    || (Runs.Enabled(s, steps[0]) && ReadsLater(s.rows, steps[0]) && ClockRises(Runs.Apply(s, steps[0]), steps[1..]))
  }

  ghost predicate SoundWithOneConsumer(s: Runs.State) {
    && |s.consumers| <= 1 && (forall k :: Runs.Sound(s, k))
    && (s.watcher.Judging? ==> !s.watcher.answer.Unavailable?)
  }

  ghost predicate Examines(s: Runs.State, step: Runs.Step, key: string) {
    step.Judge? && s.watcher.Judging? && s.watcher.key == key
  }

  /** With one consumer a SUBMITTED row is the watcher's alone. */
  lemma SubmittedRowIsTheWatchers(s: Runs.State, step: Runs.Step, key: string)
    requires SoundWithOneConsumer(s) && Runs.Enabled(s, step)
    requires IsSubmitted(s.rows, key) && !Examines(s, step, key)
    ensures key in Runs.Apply(s, step).rows && Runs.Apply(s, step).rows[key] == s.rows[key]
  {
    assert Runs.Sound(s, key);
    if step.RecordSubmitted? || step.RecordError? {
      assert s.consumers[step.h].key == key ==> Runs.HandlingSound(s.consumers[step.h], s.RowAt(key), s.Transfers(key));
    }
  }

  /** A row the step writes carries the step's clock reading. */
  lemma WrittenRowsAreStamped(s: Runs.State, step: Runs.Step, key: string)
    requires SoundWithOneConsumer(s) && Runs.Enabled(s, step) && key in Runs.Apply(s, step).rows
    ensures (key in s.rows && Runs.Apply(s, step).rows[key] == s.rows[key])
            || ClockOf(step) == Some(Runs.Apply(s, step).rows[key].updatedAt)
  {
  }

  /** Nothing joins the rows ahead. */
  lemma NobodyJoinsAhead(s: Runs.State, step: Runs.Step, key: string)
    requires SoundWithOneConsumer(s) && Runs.Enabled(s, step) && ReadsLater(s.rows, step)
    requires IsSubmitted(s.rows, key) && !Examines(s, step, key)
    ensures var t := Runs.Apply(s, step);
            && IsSubmitted(t.rows, key) && t.rows[key] == s.rows[key]
            && (forall k :: k in Ahead(t.rows, key) ==> k in Ahead(s.rows, key) && t.rows[k] == s.rows[k])
  {
    SubmittedRowIsTheWatchers(s, step, key);
    var t := Runs.Apply(s, step);
    forall k | k in Ahead(t.rows, key)
      ensures k in s.rows && t.rows[k] == s.rows[k]
    {
      WrittenRowsAreStamped(s, step, k);
    }
  }

  /** The pass under way did not list the row, and what it still has to examine is ahead of it. */
  ghost predicate PassedOver(s: Runs.State, key: string) {
    && IsSubmitted(s.rows, key) && key !in s.watcher.Ahead()
    && forall k :: k in s.watcher.Ahead() ==> k in Ahead(s.rows, key)
  }

  predicate Lists(step: Runs.Step, key: string) {
    step.Scan? && key in step.work
  }

  lemma ScanKeepsPassedOver(s: Runs.State, work: seq<string>, key: string)
    requires PassedOver(s, key) && Runs.Enabled(s, Runs.Scan(work)) && key !in work
    ensures PassedOver(Runs.Apply(s, Runs.Scan(work)), key)
    ensures |work| == Runs.WORKLIST_LIMIT && Distinct(work)
  {
    MissedRowHasAFullListAhead(s.rows, work, key);
    DistinctKeysAsSet(work);
    assert Runs.Apply(s, Runs.Scan(work)).watcher.Ahead() == work;
  }

  lemma JudgeKeepsPassedOver(s: Runs.State, now: nat, key: string)
    requires SoundWithOneConsumer(s) && PassedOver(s, key)
    requires Runs.Enabled(s, Runs.Judge(now)) && ReadsLater(s.rows, Runs.Judge(now))
    ensures PassedOver(Runs.Apply(s, Runs.Judge(now)), key)
    ensures |Ahead(Runs.Apply(s, Runs.Judge(now)).rows, key)| < |Ahead(s.rows, key)|
  {
    var step, t, w := Runs.Judge(now), Runs.Apply(s, Runs.Judge(now)), s.watcher;
    assert w.Ahead()[0] == w.key && w.Ahead()[1..] == w.todo == t.watcher.Ahead();
    assert w.key in w.Ahead();
    NobodyJoinsAhead(s, step, key);
    assert Runs.Sound(s, w.key);
    forall k | k in w.todo
      ensures k in Ahead(t.rows, key)
    {
      assert k in w.Ahead();
      assert k != w.key by {
        var i :| 0 <= i < |w.todo| && w.todo[i] == k;
        assert w.Ahead()[i + 1] == k && Distinct(w.Ahead());
      }
      SubmittedRowIsTheWatchers(s, step, k);
    }
    JudgedIsLocal(s.rows, w.key, w.answer, s.finalityDepth, now);
    assert w.key !in Ahead(t.rows, key);
    SubsetIsSmaller(Ahead(t.rows, key), Ahead(s.rows, key) - {w.key});
  }

  /** A step that does not examine: the rows still to be examined stay where they are. */
  lemma OtherStepKeepsPassedOver(s: Runs.State, step: Runs.Step, key: string)
    requires SoundWithOneConsumer(s) && PassedOver(s, key)
    requires Runs.Enabled(s, step) && ReadsLater(s.rows, step) && !step.Judge? && !step.Scan?
    ensures PassedOver(Runs.Apply(s, step), key)
    ensures |Ahead(Runs.Apply(s, step).rows, key)| <= |Ahead(s.rows, key)|
  {
    var t := Runs.Apply(s, step);
    NobodyJoinsAhead(s, step, key);
    SubsetIsSmaller(Ahead(t.rows, key), Ahead(s.rows, key));
    WatcherOnlyDrops(s, step);
    forall k | k in t.watcher.Ahead()
      ensures k in Ahead(t.rows, key)
    {
      SubmittedRowIsTheWatchers(s, step, k);
    }
  }

  lemma WatcherOnlyDrops(s: Runs.State, step: Runs.Step)
    requires Runs.Enabled(s, step) && !step.Scan? && !step.Judge?
    ensures forall k :: k in Runs.Apply(s, step).watcher.Ahead() ==> k in s.watcher.Ahead()
    ensures !step.Skip? && !step.JudgeFails? && !step.Crash? ==>
              Runs.Apply(s, step).watcher.Ahead() == s.watcher.Ahead()
  {
  }

  lemma StepKeepsSoundWithOneConsumer(s: Runs.State, step: Runs.Step)
    requires SoundWithOneConsumer(s) && Runs.Enabled(s, step)
    ensures SoundWithOneConsumer(Runs.Apply(s, step))
  {
    forall k
      ensures Runs.Sound(Runs.Apply(s, step), k) && |Runs.Apply(s, step).consumers| == |s.consumers|
    {
      Runs.StepKeepsSound(s, step, k);
    }
  }

  function Judgments(steps: seq<Runs.Step>): nat {
    if steps == [] then 0 else (if steps[0].Judge? then 1 else 0) + Judgments(steps[1..])
  }

  function Scans(steps: seq<Runs.Step>): nat {
    if steps == [] then 0 else (if steps[0].Scan? then 1 else 0) + Scans(steps[1..])
  }

  ghost predicate NeverListed(steps: seq<Runs.Step>, key: string) {
    forall i :: 0 <= i < |steps| ==> !Lists(steps[i], key)
  }

  /** Over any run, whatever arrives, fails or crashes: while passes do not list a SUBMITTED row, each
      examination they make takes a row from ahead of it, and nothing joins those rows. */
  lemma {:induction false} MissedRowMovesUp(s: Runs.State, steps: seq<Runs.Step>, t: Runs.State, key: string)
    requires SoundWithOneConsumer(s) && PassedOver(s, key)
    requires Runs.Reaches(s, steps, t) && ClockRises(s, steps) && NeverListed(steps, key)
    ensures PassedOver(t, key) && t.rows[key] == s.rows[key]
    ensures |Ahead(t.rows, key)| + Judgments(steps) <= |Ahead(s.rows, key)|
    decreases |steps|
  {
    if steps != [] {
      var step, next := steps[0], Runs.Apply(s, steps[0]);
      StepKeepsSoundWithOneConsumer(s, step);
      assert !Lists(steps[0], key);
      assert !Examines(s, step, key) by {
        if step.Judge? {
          assert s.watcher.Ahead()[0] == s.watcher.key;
        }
      }
      SubmittedRowIsTheWatchers(s, step, key);
      if step.Scan? {
        ScanKeepsPassedOver(s, step.work, key);
      } else if step.Judge? {
        JudgeKeepsPassedOver(s, step.now, key);
      } else {
        OtherStepKeepsPassedOver(s, step, key);
      }
      assert NeverListed(steps[1..], key) by {
        assert forall i :: 0 <= i < |steps| - 1 ==> steps[1..][i] == steps[i + 1];
      }
      MissedRowMovesUp(next, steps[1..], t, key);
    }
  }

  /** Every confirm answers, every listed row has a transaction, no write fails and nothing crashes. */
  ghost predicate Steady(steps: seq<Runs.Step>) {
    forall i :: 0 <= i < |steps| ==> !steps[i].Skip? && !steps[i].JudgeFails? && !steps[i].Crash?
  }

  /** Passes that run undisturbed and miss a row examine a hundred others each. */
  lemma {:induction false} PassesExamineAHundred(s: Runs.State, steps: seq<Runs.Step>, t: Runs.State, key: string)
    requires SoundWithOneConsumer(s) && PassedOver(s, key) && Steady(steps)
    requires Runs.Reaches(s, steps, t) && ClockRises(s, steps) && NeverListed(steps, key)
    ensures Judgments(steps) + |t.watcher.Ahead()| == Runs.WORKLIST_LIMIT * Scans(steps) + |s.watcher.Ahead()|
    decreases |steps|
  {
    if steps != [] {
      var step, next := steps[0], Runs.Apply(s, steps[0]);
      assert !step.Skip? && !step.JudgeFails? && !step.Crash? && !Lists(step, key);
      var rest := steps[1..];
      assert forall i :: 0 <= i < |rest| ==> rest[i] == steps[i + 1];
      StepKeepsSoundWithOneConsumer(s, step);
      if step.Scan? {
        ScanKeepsPassedOver(s, step.work, key);
        assert next.watcher.Ahead() == step.work;
      } else if step.Judge? {
        JudgeKeepsPassedOver(s, step.now, key);
        assert s.watcher.Ahead()[1..] == next.watcher.Ahead();
      } else {
        OtherStepKeepsPassedOver(s, step, key);
        WatcherOnlyDrops(s, step);
      }
      PassesExamineAHundred(next, rest, t, key);
    }
  }

  lemma StillToExamineIsAhead(s: Runs.State, key: string)
    requires SoundWithOneConsumer(s) && PassedOver(s, key)
    ensures |s.watcher.Ahead()| <= |Ahead(s.rows, key)|
  {
    assert Runs.Sound(s, key);
    DistinctKeysAsSet(s.watcher.Ahead());
    SubsetIsSmaller((set k | k in s.watcher.Ahead()), Ahead(s.rows, key));
  }

  /** So no more undisturbed passes miss it than there are hundreds ahead of it. */
  lemma FewPassesMiss(s: Runs.State, steps: seq<Runs.Step>, t: Runs.State, key: string)
    requires SoundWithOneConsumer(s) && s.watcher.Resting? && IsSubmitted(s.rows, key) && Steady(steps)
    requires Runs.Reaches(s, steps, t) && ClockRises(s, steps) && NeverListed(steps, key)
    ensures Scans(steps) <= |Ahead(s.rows, key)| / Runs.WORKLIST_LIMIT
  {
    MissedRowMovesUp(s, steps, t, key);
    PassesExamineAHundred(s, steps, t, key);
    RunKeepsSoundWithOneConsumer(s, steps, t);
    StillToExamineIsAhead(t, key);
  }

  lemma {:induction false} RunKeepsSoundWithOneConsumer(s: Runs.State, steps: seq<Runs.Step>, t: Runs.State)
    requires SoundWithOneConsumer(s) && Runs.Reaches(s, steps, t)
    ensures SoundWithOneConsumer(t)
    decreases |steps|
  {
    if steps != [] {
      StepKeepsSoundWithOneConsumer(s, steps[0]);
      RunKeepsSoundWithOneConsumer(Runs.Apply(s, steps[0]), steps[1..], t);
    }
  }

  lemma {:induction false} Split(s: Runs.State, steps: seq<Runs.Step>, t: Runs.State, i: nat) returns (m: Runs.State)
    requires Runs.Reaches(s, steps, t) && i <= |steps|
    ensures Runs.Reaches(s, steps[..i], m) && Runs.Reaches(m, steps[i..], t)
    ensures ClockRises(s, steps) ==> ClockRises(s, steps[..i])
    decreases i
  {
    if i == 0 {
      m := s;
      assert steps[0..] == steps;
    } else {
      m := Split(Runs.Apply(s, steps[0]), steps[1..], t, i - 1);
      assert steps[1..][..i - 1] == steps[..i][1..] && steps[1..][i - 1..] == steps[i..];
    }
  }

  function FirstListing(steps: seq<Runs.Step>, key: string): (i: nat)
    ensures i <= |steps|
    ensures forall j :: 0 <= j < i ==> !Lists(steps[j], key)
    ensures i < |steps| ==> Lists(steps[i], key)
  {
    if steps == [] || Lists(steps[0], key) then 0 else 1 + FirstListing(steps[1..], key)
  }

  ghost predicate Examined(s: Runs.State, steps: seq<Runs.Step>, key: string)
    decreases |steps|
  {
    && steps != [] && Runs.Enabled(s, steps[0])
    && (Examines(s, steps[0], key) || Examined(Runs.Apply(s, steps[0]), steps[1..], key))
  }

  /** A listed row is examined before the undisturbed pass is over. */
  lemma {:induction false} ListedIsExamined(s: Runs.State, steps: seq<Runs.Step>, t: Runs.State, key: string)
    requires key in s.watcher.Ahead() && Steady(steps)
    requires Runs.Reaches(s, steps, t) && t.watcher.Resting?
    ensures Examined(s, steps, key)
    decreases |steps|
  {
    var step, rest := steps[0], steps[1..];
    assert !step.Skip? && !step.JudgeFails? && !step.Crash?;
    assert forall i :: 0 <= i < |rest| ==> rest[i] == steps[i + 1];
    if !Examines(s, step, key) {
      if step.Judge? {
        assert s.watcher.Ahead()[1..] == Runs.Apply(s, step).watcher.Ahead();
        assert s.watcher.Ahead()[0] == s.watcher.key;
      } else {
        WatcherOnlyDrops(s, step);
      }
      ListedIsExamined(Runs.Apply(s, step), rest, t, key);
    }
  }

  lemma {:induction false} LaterExaminationCounts(s: Runs.State, steps: seq<Runs.Step>, i: nat, m: Runs.State, key: string)
    requires i <= |steps| && Runs.Reaches(s, steps[..i], m) && Examined(m, steps[i..], key)
    ensures Examined(s, steps, key)
    decreases i
  {
    if i == 0 {
      assert steps[0..] == steps;
    } else {
      assert steps[1..][..i - 1] == steps[..i][1..] && steps[1..][i - 1..] == steps[i..];
      LaterExaminationCounts(Runs.Apply(s, steps[0]), steps[1..], i - 1, m, key);
    }
  }

  lemma ListingMeansExamination(s: Runs.State, steps: seq<Runs.Step>, i: nat, m: Runs.State, t: Runs.State, key: string)
    requires i < |steps| && Steady(steps) && Lists(steps[i], key)
    requires Runs.Reaches(s, steps[..i], m) && Runs.Reaches(m, steps[i..], t) && t.watcher.Resting?
    ensures Examined(s, steps, key)
  {
    var rest := steps[i..];
    assert rest[0] == steps[i] && rest[1..] == steps[i + 1..];
    var listed := Runs.Apply(m, rest[0]);
    assert listed.watcher.Ahead() == rest[0].work;
    ListedIsExamined(listed, rest[1..], t, key);
    LaterExaminationCounts(s, steps, i, m, key);
  }

  lemma SoonListed(s: Runs.State, steps: seq<Runs.Step>, t: Runs.State, key: string) returns (m: Runs.State)
    requires SoundWithOneConsumer(s) && s.watcher.Resting? && IsSubmitted(s.rows, key)
    requires Runs.Reaches(s, steps, t) && ClockRises(s, steps) && Steady(steps)
    requires Scans(steps) > |Ahead(s.rows, key)| / Runs.WORKLIST_LIMIT
    ensures var i := FirstListing(steps, key);
            && i < |steps| && Scans(steps[..i]) <= |Ahead(s.rows, key)| / Runs.WORKLIST_LIMIT
            && Runs.Reaches(s, steps[..i], m) && Runs.Reaches(m, steps[i..], t)
  {
    if NeverListed(steps, key) {
      FewPassesMiss(s, steps, t, key);
      assert false;
    }
    var i := FirstListing(steps, key);
    m := Split(s, steps, t, i);
    FewPassesMiss(s, steps[..i], m, key);
  }

  /** A SUBMITTED row with p rows ahead of it is listed within p / 100 + 1 undisturbed passes, and
      examined before that pass is over, whatever the consumer does between and during the passes. */
  lemma NoRowStarves(finalityDepth: nat, before: seq<Runs.Step>, s: Runs.State, steps: seq<Runs.Step>, t: Runs.State,
                     key: string)
    requires Runs.Reaches(Runs.Initial(1, finalityDepth), before, s) && s.watcher.Resting? && IsSubmitted(s.rows, key)
    requires Runs.Reaches(s, steps, t) && ClockRises(s, steps) && Steady(steps)
    requires Scans(steps) > |Ahead(s.rows, key)| / Runs.WORKLIST_LIMIT
    ensures FirstListing(steps, key) < |steps|
    ensures Scans(steps[..FirstListing(steps, key)]) <= |Ahead(s.rows, key)| / Runs.WORKLIST_LIMIT
    ensures t.watcher.Resting? ==> Examined(s, steps, key)
  {
    ReachableIsSound(finalityDepth, before, s);
    var m := SoonListed(s, steps, t, key);
    if t.watcher.Resting? {
      ListingMeansExamination(s, steps, FirstListing(steps, key), m, t, key);
    }
  }

  lemma ReachableIsSound(finalityDepth: nat, before: seq<Runs.Step>, s: Runs.State)
    requires Runs.Reaches(Runs.Initial(1, finalityDepth), before, s)
    ensures SoundWithOneConsumer(s)
  {
    assert SoundWithOneConsumer(Runs.Initial(1, finalityDepth));
    RunKeepsSoundWithOneConsumer(Runs.Initial(1, finalityDepth), before, s);
  }
}
