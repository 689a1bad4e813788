/**
 Who gets a turn. The dispatcher takes the oldest rows that are due, so many a pass. A row waits for the
 older ones only as long as the passes fall within one retry interval, because what has been tried is not
 due again in it; when they lie further apart, older rows that keep failing shut a younger one out.
 */
module DispatcherProgress {
  import opened Prelude
  import opened TextOrder
  import opened Worklist
  import opened Outbox
  import opened DispatcherRuns
  import opened DispatcherSafety

  ghost predicate TriedSince(s: State, id: string, start: nat) {
    var attempts := s.Past(id).attempts;
    attempts != [] && attempts[|attempts| - 1] >= start
  }

  /** The open rows no younger than this one that have not been tried since. */
  ghost function Ahead(s: State, id: string, start: nat): set<string>
    requires id in s.rows
  {
    set k | k in s.rows && k != id && s.rows[k].status.Open() && s.rows[k].createdAt <= s.rows[id].createdAt
            && !TriedSince(s, k, start)
  }

  /** Open, and already due when the interval starts. */
  ghost predicate Waits(setup: Setup, s: State, id: string, start: nat) {
    && id in s.rows && s.rows[id].status.Open() && setup.retry <= start
    && (s.rows[id].lastAttemptedAt.Some? ==> s.rows[id].lastAttemptedAt.value < Stamp(start - setup.retry))
  }

  /** Passes start within one retry interval, and what is inserted meanwhile is younger. */
  ghost predicate Within(setup: Setup, step: Step, start: nat, createdAt: nat) {
    && (step.Scan? ==> start <= step.now <= start + setup.retry)
    && (step.Insert? ==> Stamp(step.now) > createdAt)
  }

  ghost predicate AllWithin(setup: Setup, steps: seq<Step>, start: nat, createdAt: nat) {
    forall i :: 0 <= i < |steps| ==> Within(setup, steps[i], start, createdAt)
  }

  ghost predicate InOrder(setup: Setup, s: State) {
    SortsThroughTheRun(setup) && forall k :: Sound(setup, s, k) && Paced(setup, s, k)
  }

  /** The pass under way did not list the row, and takes rows from ahead of it. */
  ghost predicate PassedOver(setup: Setup, s: State, id: string, start: nat) {
    && Waits(setup, s, id, start) && !s.pc.Holds(id)
    && (!s.pc.Idle? ==>
          && s.pc.scannedAt >= start
          && forall i :: 0 <= i < |s.pc.todo| ==> s.pc.todo[i].id in Ahead(s, id, start))
  }

  predicate Lists(step: Step, id: string) {
    step.Scan? && id in step.work
  }

  ghost predicate NeverListed(steps: seq<Step>, id: string) {
    forall i :: 0 <= i < |steps| ==> !Lists(steps[i], id)
  }

  // ---------- who is due ----------

  lemma WaitingRowIsDue(setup: Setup, s: State, id: string, start: nat, now: nat)
    requires InOrder(setup, s) && Waits(setup, s, id, start) && start <= now <= setup.horizon
    ensures Due(s.rows[id], Stamp(now - setup.retry), setup.text)
  {
    assert Paced(setup, s, id);
  }

  /** A row tried in the interval is not due again in it. */
  lemma TriedRowIsNotDue(setup: Setup, s: State, k: string, start: nat, now: nat)
    requires InOrder(setup, s) && k in s.rows && TriedSince(s, k, start)
    requires setup.retry <= now <= setup.horizon && now <= start + setup.retry
    ensures !Due(s.rows[k], Stamp(now - setup.retry), setup.text)
  {
    assert Paced(setup, s, k);
  }

  lemma {:induction false} KeysAsSet(keys: seq<string>)
    requires Distinct(keys)
    ensures |set k | k in keys| == |keys|
  {
    if keys != [] {
      var init, last := keys[..|keys| - 1], keys[|keys| - 1];
      assert forall k :: k in keys <==> k in init || k == last;
      KeysAsSet(init);
      assert (set k | k in keys) == (set k | k in init) + {last};
    }
  }

  lemma {:induction false} SubsetIsSmaller(a: set<string>, b: set<string>)
    requires a <= b
    ensures |a| <= |b|
  {
    if a != {} {
      var x :| x in a;
      SubsetIsSmaller(a - {x}, b - {x});
    }
  }

  /** A list that misses a key has as many keys as it may, none with a later stamp. */
  lemma MissedByAFullList(stamps: map<string, nat>, keys: seq<string>, limit: nat, id: string)
    requires Oldest(stamps, keys, limit) && id in stamps && id !in keys
    ensures |keys| == limit && forall i :: 0 <= i < |keys| ==> keys[i] in stamps && stamps[keys[i]] <= stamps[id]
  {
    KeysAsSet(keys);
    SubsetIsSmaller((set k | k in keys), stamps.Keys - {id});
  }

  lemma ListedRowIsAhead(setup: Setup, s: State, now: nat, k: string, id: string, start: nat)
    requires InOrder(setup, s) && Waits(setup, s, id, start) && k != id && k in s.rows
    requires setup.retry <= now <= setup.horizon && now <= start + setup.retry
    requires Due(s.rows[k], Stamp(now - setup.retry), setup.text) && s.rows[k].createdAt <= s.rows[id].createdAt
    ensures k in Ahead(s, id, start)
  {
    if TriedSince(s, k, start) {
      TriedRowIsNotDue(setup, s, k, start, now);
      assert false;
    }
  }

  lemma MissingScanListsAhead(setup: Setup, s: State, work: seq<string>, now: nat, id: string, start: nat)
    requires InOrder(setup, s) && Waits(setup, s, id, start)
    requires Enabled(setup, s, Scan(work, now)) && start <= now <= start + setup.retry && id !in work
    ensures |work| == setup.batch && forall i :: 0 <= i < |work| ==> work[i] in Ahead(s, id, start)
  {
    var stamps := DueStamps(s.rows, Stamp(now - setup.retry), setup.text);
    WaitingRowIsDue(setup, s, id, start, now);
    MissedByAFullList(stamps, work, setup.batch, id);
    forall i | 0 <= i < |work|
      ensures work[i] in Ahead(s, id, start)
    {
      assert work[i] in stamps;
      ListedRowIsAhead(setup, s, now, work[i], id, start);
    }
  }

  lemma ScanKeepsPassedOver(setup: Setup, s: State, work: seq<string>, now: nat, id: string, start: nat)
    requires InOrder(setup, s) && PassedOver(setup, s, id, start)
    requires Enabled(setup, s, Scan(work, now)) && start <= now <= start + setup.retry && id !in work
    ensures PassedOver(setup, Apply(setup, s, Scan(work, now)), id, start)
    ensures |work| == setup.batch
    ensures Ahead(Apply(setup, s, Scan(work, now)), id, start) == Ahead(s, id, start)
  {
    MissingScanListsAhead(setup, s, work, now, id, start);
    var t := Apply(setup, s, Scan(work, now));
    assert t.rows == s.rows && t.past == s.past;
    assert Ahead(t, id, start) == Ahead(s, id, start);
  }

  // ---------- what each step leaves ahead ----------

  /** An attempt is one more of the first row, and touches no other. */
  lemma AttemptTouchesOne(setup: Setup, s: State, now: nat)
    requires Enabled(setup, s, Attempt(now))
    ensures var t, k := Apply(setup, s, Attempt(now)), s.pc.todo[0].id;
            && t.Past(k).attempts == s.Past(k).attempts + [now]
            && (forall other :: other != k ==> t.Past(other) == s.Past(other) && t.RowAt(other) == s.RowAt(other))
            && t.pc.todo == s.pc.todo[1..] && t.pc.scannedAt == s.pc.scannedAt && t.pc.Holds(k)
  {
  }

  lemma AttemptTakesFromAhead(setup: Setup, s: State, now: nat, id: string, start: nat)
    requires Enabled(setup, s, Attempt(now)) && start <= now && id in s.rows && s.pc.todo[0].id in Ahead(s, id, start)
    ensures id in Apply(setup, s, Attempt(now)).rows && s.pc.todo[0].id != id
    ensures Ahead(Apply(setup, s, Attempt(now)), id, start) == Ahead(s, id, start) - {s.pc.todo[0].id}
  {
    var t, k := Apply(setup, s, Attempt(now)), s.pc.todo[0].id;
    AttemptTouchesOne(setup, s, now);
    assert t.RowAt(id) == s.RowAt(id);
    assert TriedSince(t, k, start);
    forall other
      ensures other in Ahead(t, id, start) <==> other in Ahead(s, id, start) && other != k
    {
      if other != k {
        assert t.Past(other) == s.Past(other) && t.RowAt(other) == s.RowAt(other);
      }
    }
  }

  lemma AttemptKeepsPassedOver(setup: Setup, s: State, now: nat, id: string, start: nat)
    requires InOrder(setup, s) && PassedOver(setup, s, id, start) && Enabled(setup, s, Attempt(now))
    ensures PassedOver(setup, Apply(setup, s, Attempt(now)), id, start)
    ensures |Ahead(Apply(setup, s, Attempt(now)), id, start)| < |Ahead(s, id, start)|
  {
    var t, k := Apply(setup, s, Attempt(now)), s.pc.todo[0].id;
    assert Sound(setup, s, k);
    TakingTheFirstKeepsTodo(s.pc.todo, s.RowAt(k), k);
    AttemptTouchesOne(setup, s, now);
    AttemptTakesFromAhead(setup, s, now, id, start);
    assert t.RowAt(id) == s.RowAt(id);
  }

  /** Steps around the row in hand touch no other. */
  lemma OnRowTouchesOne(setup: Setup, s: State, step: Step, k: string)
    requires Enabled(setup, s, step) && OfRow(step) && s.pc.work.item.id != k
    ensures OnRow(setup, s, step).RowAt(k) == s.RowAt(k) && OnRow(setup, s, step).Past(k) == s.Past(k)
  {
  }

  lemma OnRowKeepsAhead(setup: Setup, s: State, step: Step, id: string, start: nat)
    requires Enabled(setup, s, step) && OfRow(step) && s.pc.work.item.id != id && id in s.rows
    requires TriedSince(s, s.pc.work.item.id, start)
    ensures id in OnRow(setup, s, step).rows
    ensures Ahead(OnRow(setup, s, step), id, start) == Ahead(s, id, start)
  {
    var t, held := OnRow(setup, s, step), s.pc.work.item.id;
    OnRowTouchesOne(setup, s, step, id);
    OtherStepsRecordNoAttempt(setup, s, step, held);
    forall k
      ensures k in Ahead(t, id, start) <==> k in Ahead(s, id, start)
    {
      if k != held {
        OnRowTouchesOne(setup, s, step, k);
      }
    }
  }

  lemma OnRowKeepsPassedOver(setup: Setup, s: State, step: Step, id: string, start: nat)
    requires InOrder(setup, s) && PassedOver(setup, s, id, start) && Enabled(setup, s, step) && OfRow(step)
    requires TriedSince(s, s.pc.work.item.id, start)
    ensures PassedOver(setup, OnRow(setup, s, step), id, start)
    ensures Ahead(OnRow(setup, s, step), id, start) == Ahead(s, id, start)
  {
    var t := OnRow(setup, s, step);
    OnRowTouchesOne(setup, s, step, id);
    OnRowKeepsAhead(setup, s, step, id, start);
    assert t.pc.todo == s.pc.todo && t.pc.scannedAt == s.pc.scannedAt;
  }

  predicate Around(step: Step) {
    step.Insert? || step.Settle? || step.EndBatch? || step.Halt?
  }

  lemma AroundKeepsPassedOver(setup: Setup, s: State, step: Step, id: string, start: nat)
    requires InOrder(setup, s) && PassedOver(setup, s, id, start) && Enabled(setup, s, step) && Around(step)
    requires Within(setup, step, start, s.rows[id].createdAt)
    ensures PassedOver(setup, Apply(setup, s, step), id, start)
    ensures Ahead(Apply(setup, s, step), id, start) == Ahead(s, id, start)
  {
    var t := Apply(setup, s, step);
    forall k
      ensures k in Ahead(t, id, start) <==> k in Ahead(s, id, start)
    {
      OtherStepsRecordNoAttempt(setup, s, step, k);
    }
  }

  /** The row in hand was picked up in the interval. */
  ghost predicate HeldIsTried(s: State, start: nat) {
    s.pc.At? ==> TriedSince(s, s.pc.work.item.id, start)
  }

  lemma StepKeepsHeldTried(setup: Setup, s: State, step: Step, start: nat)
    requires Enabled(setup, s, step) && HeldIsTried(s, start) && (!s.pc.Idle? ==> s.pc.scannedAt >= start)
    ensures HeldIsTried(Apply(setup, s, step), start)
  {
    if s.pc.At? && !step.Scan? && !step.Attempt? {
      OtherStepsRecordNoAttempt(setup, s, step, s.pc.work.item.id);
      if Apply(setup, s, step).pc.At? {
        OtherStepsHoldTheSame(setup, s, step);
      }
    } else if step.Attempt? {
      var k := s.pc.todo[0].id;
      assert Apply(setup, s, step).Past(k).attempts == s.Past(k).attempts + [step.now];
    }
  }

  lemma OtherStepsHoldTheSame(setup: Setup, s: State, step: Step)
    requires Enabled(setup, s, step) && !step.Attempt? && Apply(setup, s, step).pc.At?
    ensures s.pc.At? && Apply(setup, s, step).pc.work.item.id == s.pc.work.item.id
  {
  }

  lemma StepKeepsInOrder(setup: Setup, s: State, step: Step)
    requires InOrder(setup, s) && Enabled(setup, s, step)
    ensures InOrder(setup, Apply(setup, s, step))
  {
    forall k
      ensures Sound(setup, Apply(setup, s, step), k) && Paced(setup, Apply(setup, s, step), k)
    {
      StepKeepsSound(setup, s, step, k);
      StepKeepsPaced(setup, s, step, k);
    }
  }

  lemma StepKeepsPassedOver(setup: Setup, s: State, step: Step, id: string, start: nat)
    requires InOrder(setup, s) && PassedOver(setup, s, id, start) && HeldIsTried(s, start)
    requires Enabled(setup, s, step) && Within(setup, step, start, s.rows[id].createdAt) && !Lists(step, id)
    ensures var t := Apply(setup, s, step);
            && PassedOver(setup, t, id, start) && t.rows[id].createdAt == s.rows[id].createdAt
            && |Ahead(t, id, start)| + (if step.Attempt? then 1 else 0) <= |Ahead(s, id, start)|
  {
    CreationIsKept(setup, s, step, id);
    if step.Scan? {
      ScanKeepsPassedOver(setup, s, step.work, step.now, id, start);
    } else if step.Attempt? {
      AttemptKeepsPassedOver(setup, s, step.now, id, start);
    } else if OfRow(step) {
      OnRowKeepsPassedOver(setup, s, step, id, start);
    } else {
      AroundKeepsPassedOver(setup, s, step, id, start);
    }
  }

  lemma CreationIsKept(setup: Setup, s: State, step: Step, id: string)
    requires Enabled(setup, s, step) && id in s.rows
    ensures id in Apply(setup, s, step).rows && Apply(setup, s, step).rows[id].createdAt == s.rows[id].createdAt
  {
  }

  // ---------- runs ----------

  function Attempts(steps: seq<Step>): nat {
    if steps == [] then 0 else (if steps[0].Attempt? then 1 else 0) + Attempts(steps[1..])
  }

  function Scans(steps: seq<Step>): nat {
    if steps == [] then 0 else (if steps[0].Scan? then 1 else 0) + Scans(steps[1..])
  }

  ghost predicate NeverHalts(steps: seq<Step>) {
    forall i :: 0 <= i < |steps| ==> !steps[i].Halt?
  }

  function Left(pc: Pc): nat {
    if pc.Idle? then 0 else |pc.todo|
  }

  lemma TailOf(setup: Setup, steps: seq<Step>, start: nat, createdAt: nat, id: string)
    requires steps != [] && AllWithin(setup, steps, start, createdAt) && NeverListed(steps, id)
    ensures Within(setup, steps[0], start, createdAt) && !Lists(steps[0], id)
    ensures AllWithin(setup, steps[1..], start, createdAt) && NeverListed(steps[1..], id)
    ensures NeverHalts(steps) ==> !steps[0].Halt? && NeverHalts(steps[1..])
  {
    assert forall i :: 0 <= i < |steps| - 1 ==> steps[1..][i] == steps[i + 1];
  }

  /** While passes within the interval do not list a row, each attempt they make takes a row from ahead of
      it and none joins them, whatever is inserted, settled, lost or cut short. */
  lemma {:induction false} AttemptsTakeFromAhead(setup: Setup, s: State, steps: seq<Step>, t: State, id: string, start: nat)
    requires InOrder(setup, s) && PassedOver(setup, s, id, start) && HeldIsTried(s, start)
    requires Reaches(setup, s, steps, t) && NeverListed(steps, id)
    requires AllWithin(setup, steps, start, s.rows[id].createdAt)
    ensures InOrder(setup, t) && PassedOver(setup, t, id, start)
    ensures |Ahead(t, id, start)| + Attempts(steps) <= |Ahead(s, id, start)|
    decreases |steps|
  {
    if steps != [] {
      TailOf(setup, steps, start, s.rows[id].createdAt, id);
      StepKeepsInOrder(setup, s, steps[0]);
      StepKeepsPassedOver(setup, s, steps[0], id, start);
      StepKeepsHeldTried(setup, s, steps[0], start);
      AttemptsTakeFromAhead(setup, Apply(setup, s, steps[0]), steps[1..], t, id, start);
    }
  }

  lemma StepOnLeft(setup: Setup, s: State, step: Step)
    requires Enabled(setup, s, step) && !step.Halt? && (step.Scan? ==> |step.work| == setup.batch)
    ensures Left(Apply(setup, s, step).pc) + (if step.Attempt? then 1 else 0)
         == Left(s.pc) + (if step.Scan? then setup.batch else 0)
  {
  }

  /** Passes that are not cut short and miss the row attempt a full batch each. */
  lemma {:induction false} PassesAttemptABatch(setup: Setup, s: State, steps: seq<Step>, t: State, id: string, start: nat)
    requires InOrder(setup, s) && PassedOver(setup, s, id, start) && HeldIsTried(s, start) && NeverHalts(steps)
    requires Reaches(setup, s, steps, t) && NeverListed(steps, id)
    requires AllWithin(setup, steps, start, s.rows[id].createdAt)
    ensures Attempts(steps) + Left(t.pc) == setup.batch * Scans(steps) + Left(s.pc)
    decreases |steps|
  {
    if steps != [] {
      TailOf(setup, steps, start, s.rows[id].createdAt, id);
      StepKeepsInOrder(setup, s, steps[0]);
      StepKeepsPassedOver(setup, s, steps[0], id, start);
      StepKeepsHeldTried(setup, s, steps[0], start);
      if steps[0].Scan? {
        ScanKeepsPassedOver(setup, s, steps[0].work, steps[0].now, id, start);
      }
      StepOnLeft(setup, s, steps[0]);
      PassesAttemptABatch(setup, Apply(setup, s, steps[0]), steps[1..], t, id, start);
      Distribute(setup.batch, if steps[0].Scan? then 1 else 0, Scans(steps[1..]));
    }
  }

  lemma Distribute(a: nat, b: nat, c: nat)
    ensures a * (b + c) == a * b + a * c
  {
  }

  lemma LeftIsAhead(setup: Setup, s: State, id: string, start: nat)
    requires InOrder(setup, s) && PassedOver(setup, s, id, start)
    ensures Left(s.pc) <= |Ahead(s, id, start)|
  {
    if !s.pc.Idle? {
      assert Sound(setup, s, id);
      var ids := seq(|s.pc.todo|, i requires 0 <= i < |s.pc.todo| => s.pc.todo[i].id);
      KeysAsSet(ids);
      SubsetIsSmaller((set k | k in ids), Ahead(s, id, start));
    }
  }

  lemma FewPassesMiss(setup: Setup, s: State, steps: seq<Step>, t: State, id: string, start: nat)
    requires InOrder(setup, s) && s.pc.Idle? && Waits(setup, s, id, start) && NeverHalts(steps)
    requires Reaches(setup, s, steps, t) && NeverListed(steps, id)
    requires AllWithin(setup, steps, start, s.rows[id].createdAt)
    ensures setup.batch * Scans(steps) <= |Ahead(s, id, start)|
  {
    AttemptsTakeFromAhead(setup, s, steps, t, id, start);
    PassesAttemptABatch(setup, s, steps, t, id, start);
    LeftIsAhead(setup, t, id, start);
  }

  lemma ReachableIsInOrder(setup: Setup, chainLabel: string, before: seq<Step>, s: State)
    requires SortsThroughTheRun(setup) && Reaches(setup, Initial(chainLabel), before, s)
    ensures InOrder(setup, s)
  {
    forall k
      ensures Sound(setup, s, k) && Paced(setup, s, k)
    {
      ReachableIsSound(setup, chainLabel, before, s, k);
      InitialIsSound(setup, chainLabel, k);
      RunKeepsPaced(setup, Initial(chainLabel), before, s, k);
    }
  }

  // ---------- what is listed is attempted ----------

  ghost predicate Pending(pc: Pc, id: string) {
    !pc.Idle? && exists i :: 0 <= i < |pc.todo| && pc.todo[i].id == id
  }

  /** The row was tried in the interval, or the pass under way will try it. */
  ghost predicate Served(s: State, id: string, start: nat) {
    TriedSince(s, id, start) || Pending(s.pc, id)
  }

  ghost predicate Later(s: State, start: nat) {
    !s.pc.Idle? ==> s.pc.scannedAt >= start
  }

  lemma StepKeepsLater(setup: Setup, s: State, step: Step, start: nat)
    requires Later(s, start) && Enabled(setup, s, step) && (step.Scan? ==> start <= step.now)
    ensures Later(Apply(setup, s, step), start)
  {
  }

  lemma StepKeepsServed(setup: Setup, s: State, step: Step, id: string, start: nat)
    requires Served(s, id, start) && Later(s, start) && Enabled(setup, s, step) && !step.Halt?
    ensures Served(Apply(setup, s, step), id, start)
  {
    var t := Apply(setup, s, step);
    if step.Attempt? {
      AttemptKeepsServed(setup, s, step.now, id, start);
    } else if step.Scan? {
      assert t.Past(id) == s.Past(id);
    } else {
      OtherStepsRecordNoAttempt(setup, s, step, id);
      if Pending(s.pc, id) && !t.pc.Idle? {
        assert t.pc.todo == s.pc.todo;
      }
    }
  }

  lemma AttemptKeepsServed(setup: Setup, s: State, now: nat, id: string, start: nat)
    requires Served(s, id, start) && Later(s, start) && Enabled(setup, s, Attempt(now))
    ensures Served(Apply(setup, s, Attempt(now)), id, start)
  {
    var t, k := Apply(setup, s, Attempt(now)), s.pc.todo[0].id;
    assert t.Past(k).attempts == s.Past(k).attempts + [now];
    if k != id {
      assert t.Past(id) == s.Past(id);
      if Pending(s.pc, id) {
        var i :| 0 <= i < |s.pc.todo| && s.pc.todo[i].id == id;
        assert t.pc.todo[i - 1].id == id;
      }
    }
  }

  lemma ScanServes(setup: Setup, s: State, work: seq<string>, now: nat, id: string, start: nat)
    requires Enabled(setup, s, Scan(work, now)) && id in work
    ensures Served(Apply(setup, s, Scan(work, now)), id, start)
  {
    var i :| 0 <= i < |work| && work[i] == id;
    assert Apply(setup, s, Scan(work, now)).pc.todo[i].id == id;
  }

  lemma {:induction false} ListingMeansService(setup: Setup, s: State, steps: seq<Step>, t: State, id: string, start: nat)
    requires Later(s, start) && Reaches(setup, s, steps, t) && NeverHalts(steps)
    requires forall i :: 0 <= i < |steps| && steps[i].Scan? ==> start <= steps[i].now
    requires Served(s, id, start) || !NeverListed(steps, id)
    ensures Served(t, id, start)
    decreases |steps|
  {
    if steps != [] {
      var next, rest := Apply(setup, s, steps[0]), steps[1..];
      StepKeepsLater(setup, s, steps[0], start);
      assert forall i :: 0 <= i < |rest| ==> rest[i] == steps[i + 1];
      if Served(s, id, start) {
        StepKeepsServed(setup, s, steps[0], id, start);
      } else if Lists(steps[0], id) {
        ScanServes(setup, s, steps[0].work, steps[0].now, id, start);
      } else {
        var i :| 0 <= i < |steps| && Lists(steps[i], id);
        assert rest[i - 1] == steps[i];
      }
      ListingMeansService(setup, next, rest, t, id, start);
    }
  }

  /** An open row that is due is attempted before the passes that fall within one retry interval and are
      not cut short outnumber the batches of open rows no younger than it. */
  lemma NoRowWaitsLongerThanItsElders(setup: Setup, chainLabel: string, before: seq<Step>, s: State,
                                      steps: seq<Step>, t: State, id: string, start: nat)
    requires SortsThroughTheRun(setup) && Reaches(setup, Initial(chainLabel), before, s)
    requires s.pc.Idle? && Waits(setup, s, id, start)
    requires Reaches(setup, s, steps, t) && NeverHalts(steps) && AllWithin(setup, steps, start, s.rows[id].createdAt)
    requires setup.batch * Scans(steps) > |Ahead(s, id, start)|
    ensures exists i :: 0 <= i < |steps| && Lists(steps[i], id)
    ensures t.pc.Idle? ==> TriedSince(t, id, start)
  {
    ReachableIsInOrder(setup, chainLabel, before, s);
    if NeverListed(steps, id) {
      FewPassesMiss(setup, s, steps, t, id, start);
      assert false;
    }
    assert forall i :: 0 <= i < |steps| ==> Within(setup, steps[i], start, s.rows[id].createdAt);
    ListingMeansService(setup, s, steps, t, id, start);
  }
}
