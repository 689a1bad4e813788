/**
 Settlement stamps on the outbox, over every run of the dispatcher machine: a promise is named by the
 id OBP-API gave it, which it gets only when its submit is recorded, and the first settlement that
 names it then is the one it keeps.
 */
module OutboxStamps {
  import opened Prelude
  import opened Outbox
  import opened DispatcherRuns

  datatype Settlement = Settlement(id: string, at: nat)

  /** The two columns together; none while the row is absent or unstamped. */
  function StampOf(rows: Rows, id: string): Option<Settlement> {
    if id in rows && rows[id].settlementId.Some? && rows[id].settledAt.Some?
    then Some(Settlement(rows[id].settlementId.value, rows[id].settledAt.value)) else None
  }

  ghost predicate StampSound(rows: Rows, id: string) {
    id in rows ==> StampedTogether(rows[id])
  }

  /** The step settles a list that names the row by its OBP id; whether it is stamped already plays no
      part here. */
  predicate Covers(rows: Rows, step: Step, id: string) {
    step.Settle? && id in rows && rows[id].obpId.Some? && rows[id].obpId.value in step.obpIds
  }

  ghost function FirstCover(setup: Setup, s: State, steps: seq<Step>, t: State, id: string): Option<Settlement>
    requires Reaches(setup, s, steps, t)
    decreases |steps|
  {
    if steps == [] then None
    else if Covers(s.rows, steps[0], id) then Some(Settlement(steps[0].settlementId, Stamp(steps[0].now)))
    else FirstCover(setup, Apply(setup, s, steps[0]), steps[1..], t, id)
  }

  lemma OnlySettlesStamp(setup: Setup, s: State, step: Step, id: string)
    requires Enabled(setup, s, step) && !step.Settle?
    ensures var t := Apply(setup, s, step);
            && (id in s.rows ==> id in t.rows && t.rows[id].settlementId == s.rows[id].settlementId
                                 && t.rows[id].settledAt == s.rows[id].settledAt)
            && (id !in s.rows && id in t.rows ==> t.rows[id].settlementId.None? && t.rows[id].settledAt.None?)
  {
  }

  lemma StepOnStamp(setup: Setup, s: State, step: Step, id: string)
    requires Enabled(setup, s, step) && StampSound(s.rows, id)
    ensures StampSound(Apply(setup, s, step).rows, id)
    ensures StampOf(Apply(setup, s, step).rows, id) ==
            if StampOf(s.rows, id).None? && Covers(s.rows, step, id) then Some(Settlement(step.settlementId, Stamp(step.now)))
            else StampOf(s.rows, id)
  {
    if !step.Settle? {
      OnlySettlesStamp(setup, s, step, id);
    }
  }

  /** A stamp is kept; without one, the first settlement that names the row gives it its stamp. */
  lemma {:induction false} FirstCoverWins(setup: Setup, s: State, steps: seq<Step>, t: State, id: string)
    requires Reaches(setup, s, steps, t) && StampSound(s.rows, id)
    ensures StampOf(t.rows, id) ==
            if StampOf(s.rows, id).Some? then StampOf(s.rows, id) else FirstCover(setup, s, steps, t, id)
    decreases |steps|
  {
    if steps != [] {
      StepOnStamp(setup, s, steps[0], id);
      FirstCoverWins(setup, Apply(setup, s, steps[0]), steps[1..], t, id);
    }
  }

  lemma {:induction false} RunKeepsStampSound(setup: Setup, s: State, steps: seq<Step>, t: State, id: string)
    requires Reaches(setup, s, steps, t) && StampSound(s.rows, id)
    ensures StampSound(t.rows, id)
    decreases |steps|
  {
    if steps != [] {
      StepOnStamp(setup, s, steps[0], id);
      RunKeepsStampSound(setup, Apply(setup, s, steps[0]), steps[1..], t, id);
    }
  }

  // ---------- replays ----------

  predicate Listed(row: Row, obpIds: seq<string>) {
    row.obpId.Some? && row.obpId.value in obpIds
  }

  /** Settling a list again changes nothing, exactly when every row it names had been named before,
      once it had its OBP id; a row that got its id since is stamped late. */
  lemma ReplayChangesOnlyLatecomers(setup: Setup, chainLabel: string, steps: seq<Step>, t: State,
                                    obpIds: seq<string>, settlementId: string, now: nat)
    requires Reaches(setup, Initial(chainLabel), steps, t)
    ensures MarkedSettled(t.rows, obpIds, settlementId, now) == t.rows <==>
            forall id :: id in t.rows && Listed(t.rows[id], obpIds) ==>
              FirstCover(setup, Initial(chainLabel), steps, t, id).Some?
  {
    var after := MarkedSettled(t.rows, obpIds, settlementId, now);
    forall id | id in t.rows
      ensures after[id] == t.rows[id] <==>
              (Listed(t.rows[id], obpIds) ==> FirstCover(setup, Initial(chainLabel), steps, t, id).Some?)
    {
      FirstCoverWins(setup, Initial(chainLabel), steps, t, id);
      RunKeepsStampSound(setup, Initial(chainLabel), steps, t, id);
    }
    if forall id :: id in t.rows ==> after[id] == t.rows[id] {
      assert after == t.rows;
    }
  }

  const REQUEST := Request("bank", "account", "payload", "salt")

  /** A settlement that arrives when OBP-API has accepted the request but the table does not show it yet,
      and is replayed after. */
  lemma ReplayCanStampLate(setup: Setup, chainLabel: string) returns (steps: seq<Step>, t: State)
    requires setup.batch >= 1 && setup.retry <= setup.horizon
    ensures Reaches(setup, Initial(chainLabel), steps, t) && Settle(["x"], "s", 0) in steps
    ensures MarkedSettled(t.rows, ["x"], "s", 0) != t.rows
  {
    var first := Initial(chainLabel);
    Extend(setup, first, [], first, Insert("p", REQUEST, 0));
    steps := [] + [Insert("p", REQUEST, 0)];
    var held;
    steps, held := PickUp(setup, first, steps, chainLabel);
    steps, t := SettledBeforeRecorded(setup, first, steps, held);
    assert MarkedSettled(t.rows, ["x"], "s", 0)["p"].settlementId == Some("s");
  }

  function Waiting(chainLabel: string): State {
    Initial(chainLabel).(rows := map["p" := FreshRow(REQUEST, 0)])
  }

  /** The one row is scanned and picked up. */
  lemma PickUp(setup: Setup, first: State, before: seq<Step>, chainLabel: string) returns (steps: seq<Step>, t: State)
    requires setup.batch >= 1 && setup.retry <= setup.horizon
    requires Reaches(setup, first, before, Waiting(chainLabel))
    ensures Reaches(setup, first, steps, t) && before <= steps
    ensures t.pc.Holds("p") && t.pc.work.stage == Submitting
    ensures "p" in t.rows && t.rows["p"].settlementId == None && t.rows["p"].obpId == None
  {
    var s0, now := Waiting(chainLabel), setup.horizon;
    OneRowIsDue(s0.rows, Stamp(now - setup.retry), setup.text, setup.batch);
    var scan, attempt := Scan(["p"], now), Attempt(now);
    Extend(setup, first, before, s0, scan);
    var s1 := Apply(setup, s0, scan);
    assert s1.pc.todo == [Item("p", s0.rows["p"])];
    steps := before + [scan];
    Extend(setup, first, steps, s1, attempt);
    t := Apply(setup, s1, attempt);
    steps := steps + [attempt];
  }

  /** OBP-API accepts it as "x", the settlement of "x" comes in, and only then is the id recorded. */
  lemma SettledBeforeRecorded(setup: Setup, first: State, before: seq<Step>, s: State) returns (steps: seq<Step>, t: State)
    requires Reaches(setup, first, before, s) && s.pc.Holds("p") && s.pc.work.stage == Submitting
    requires "p" in s.rows && s.rows["p"].settlementId == None && s.rows["p"].obpId == None
    ensures Reaches(setup, first, steps, t) && Settle(["x"], "s", 0) in steps
    ensures "p" in t.rows && t.rows["p"].obpId == Some("x") && t.rows["p"].settlementId == None
  {
    Extend(setup, first, before, s, SubmitAccepted(Some("x")));
    var accepted := OnRow(setup, s, SubmitAccepted(Some("x")));
    steps := before + [SubmitAccepted(Some("x"))];
    var settle := Settle(["x"], "s", 0);
    Extend(setup, first, steps, accepted, settle);
    var settled := Apply(setup, accepted, settle);
    steps := steps + [settle];
    assert steps[|steps| - 1] == settle;
    Extend(setup, first, steps, settled, RecordSubmitted);
    t := OnRow(setup, settled, RecordSubmitted);
    steps := steps + [RecordSubmitted];
  }

  lemma OneRowIsDue(rows: Rows, cutoff: nat, text: Format, limit: nat)
    requires rows == map["p" := FreshRow(REQUEST, 0)] && limit >= 1
    ensures IsDueList(rows, cutoff, text, ["p"], limit)
  {
    assert DueStamps(rows, cutoff, text) == map["p" := 0];
  }

  // ---------- the counts ----------

  function StampedRows(rows: Rows): set<string> {
    set id | id in rows && rows[id].settlementId.Some?
  }

  ghost function Counted(setup: Setup, s: State, steps: seq<Step>, t: State): nat
    requires Reaches(setup, s, steps, t)
    decreases |steps|
  {
    if steps == [] then 0
    else (if steps[0].Settle? then |NewlyStamped(s.rows, steps[0].obpIds)| else 0)
         + Counted(setup, Apply(setup, s, steps[0]), steps[1..], t)
  }

  lemma StepOnStampedRows(setup: Setup, s: State, step: Step)
    requires Enabled(setup, s, step)
    ensures StampedRows(Apply(setup, s, step).rows) ==
            StampedRows(s.rows) + (if step.Settle? then NewlyStamped(s.rows, step.obpIds) else {})
  {
    if !step.Settle? {
      forall id
        ensures id in StampedRows(Apply(setup, s, step).rows) <==> id in StampedRows(s.rows)
      {
        OnlySettlesStamp(setup, s, step, id);
      }
    }
  }

  lemma DisjointUnionAdds(a: set<string>, b: set<string>)
    requires a !! b
    ensures |a + b| == |a| + |b|
  {
  }

  /** The counts the settlements returned add up to the rows stamped. */
  lemma {:induction false} CountsAddUp(setup: Setup, s: State, steps: seq<Step>, t: State)
    requires Reaches(setup, s, steps, t)
    ensures |StampedRows(t.rows)| == |StampedRows(s.rows)| + Counted(setup, s, steps, t)
    decreases |steps|
  {
    if steps != [] {
      StepOnStampedRows(setup, s, steps[0]);
      if steps[0].Settle? {
        DisjointUnionAdds(StampedRows(s.rows), NewlyStamped(s.rows, steps[0].obpIds));
      }
      CountsAddUp(setup, Apply(setup, s, steps[0]), steps[1..], t);
    }
  }
}
