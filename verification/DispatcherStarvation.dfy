/**
 When passes lie further apart than one retry interval. What was tried in the last pass is due again in
 the next, so as many older rows as fit a batch, failing each time, shut a younger row out for ever.
 */
module DispatcherStarvation {
  import opened Prelude
  import opened TextOrder
  import opened Worklist
  import opened Outbox
  import opened DispatcherRuns
  import opened DispatcherSafety
  import opened DispatcherProgress

  predicate Elder(rows: Rows, k: string, id: string)
    requires id in rows
  {
    k in rows && rows[k].status.Open() && rows[k].createdAt < rows[id].createdAt
  }

  function Elders(rows: Rows, id: string): set<string>
    requires id in rows
  {
    set k | k in rows && Elder(rows, k, id)
  }

  /** An outside call is what the row is waiting for. */
  predicate Calls(row: Row) {
    !FirstStage(row).Refusing?
  }

  /** Between passes: enough older rows for a batch, each waiting for a call, all last tried by this time. */
  ghost predicate Crowded(setup: Setup, s: State, id: string, last: nat) {
    && s.pc.Idle? && id in s.rows && |Elders(s.rows, id)| >= setup.batch
    && forall k :: k in Elders(s.rows, id) ==>
         && Calls(s.rows[k])
         && (s.rows[k].lastAttemptedAt.Some? ==> s.rows[k].lastAttemptedAt.value <= Stamp(last))
  }

  /** Each pass starts so long after the one before that what was tried then is due again. */
  predicate FarApart(setup: Setup, clock: seq<nat>, last: nat)
    decreases |clock|
  {
    clock != [] ==>
      && setup.retry <= clock[0] <= setup.horizon && Stamp(last) < Stamp(clock[0] - setup.retry)
      && FarApart(setup, clock[1..], clock[0])
  }

  function ScanTimes(steps: seq<Step>): seq<nat> {
    if steps == [] then [] else (if steps[0].Scan? then [steps[0].now] else []) + ScanTimes(steps[1..])
  }

  /** Whole passes at these times, none of which lists the row. */
  ghost predicate PassesWithout(steps: seq<Step>, clock: seq<nat>, id: string) {
    ScanTimes(steps) == clock && NeverListed(steps, id) && NeverHalts(steps)
  }

  // ---------- what a scan lists ----------

  /** There is always a list of the oldest. */
  lemma {:induction false} OldestExists(stamps: map<string, nat>, limit: nat) returns (keys: seq<string>)
    ensures Oldest(stamps, keys, limit)
    decreases limit
  {
    if limit == 0 || stamps == map[] {
      keys := [];
    } else {
      var first := LeastKey(stamps, stamps.Keys);
      var rest := stamps - {first};
      assert stamps.Keys == rest.Keys + {first};
      var tail := OldestExists(rest, limit - 1);
      keys := [first] + tail;
      OldestFirst(stamps, first, rest, tail, limit);
    }
  }

  lemma {:induction false} LeastKey(stamps: map<string, nat>, keys: set<string>) returns (best: string)
    requires keys != {} && keys <= stamps.Keys
    ensures best in keys && forall k :: k in keys ==> stamps[best] <= stamps[k]
    decreases |keys|
  {
    best :| best in keys;
    if keys != {best} {
      assert keys - {best} != {};
      var other := LeastKey(stamps, keys - {best});
      if stamps[other] < stamps[best] {
        best := other;
      }
    }
  }

  lemma OldestFirst(stamps: map<string, nat>, first: string, rest: map<string, nat>, tail: seq<string>, limit: nat)
    requires limit > 0 && first in stamps && rest == stamps - {first} && |stamps| == |rest| + 1
    requires forall k :: k in stamps ==> stamps[first] <= stamps[k]
    requires Oldest(rest, tail, limit - 1)
    ensures Oldest(stamps, [first] + tail, limit)
  {
  }

  /** Of a list of the oldest, all belong to a group older than the rest that can fill it. */
  lemma OldestAreOfTheGroup(stamps: map<string, nat>, keys: seq<string>, limit: nat, group: set<string>, bound: nat)
    requires Oldest(stamps, keys, limit) && group <= stamps.Keys && |group| >= limit
    requires forall k :: k in stamps ==> (k in group <==> stamps[k] < bound)
    ensures forall i :: 0 <= i < |keys| ==> keys[i] in group
  {
    forall i | 0 <= i < |keys|
      ensures keys[i] in group
    {
      if keys[i] !in group {
        var listed := set k | k in keys;
        KeysAsSet(keys);
        assert forall k :: k in group ==> k in listed;
        SubsetIsSmaller(group, listed - {keys[i]});
        assert false;
      }
    }
  }

  lemma ElderIsDue(setup: Setup, row: Row, last: nat, now: nat)
    requires SortsThroughTheRun(setup) && row.status.Open()
    requires row.lastAttemptedAt.Some? ==> row.lastAttemptedAt.value <= Stamp(last)
    requires setup.retry <= now <= setup.horizon && Stamp(last) < Stamp(now - setup.retry)
    ensures Due(row, Stamp(now - setup.retry), setup.text)
  {
    assert Stamp(now - setup.retry) <= Stamp(setup.horizon);
  }

  lemma EldersAreDue(setup: Setup, s: State, id: string, last: nat, now: nat)
    requires SortsThroughTheRun(setup) && Crowded(setup, s, id, last)
    requires setup.retry <= now <= setup.horizon && Stamp(last) < Stamp(now - setup.retry)
    ensures Elders(s.rows, id) <= DueStamps(s.rows, Stamp(now - setup.retry), setup.text).Keys
  {
    forall k | k in Elders(s.rows, id)
      ensures k in DueStamps(s.rows, Stamp(now - setup.retry), setup.text)
    {
      ElderIsDue(setup, s.rows[k], last, now);
    }
  }

  lemma DueAreOpen(rows: Rows, cutoff: nat, text: Format, id: string)
    requires id in rows
    ensures var stamps := DueStamps(rows, cutoff, text);
            forall k :: k in stamps ==> (k in Elders(rows, id) <==> stamps[k] < rows[id].createdAt)
  {
  }

  lemma ListOfTheGroup(stamps: map<string, nat>, limit: nat, group: set<string>, bound: nat) returns (keys: seq<string>)
    requires group <= stamps.Keys && |group| >= limit
    requires forall k :: k in stamps ==> (k in group <==> stamps[k] < bound)
    ensures Oldest(stamps, keys, limit) && forall i :: 0 <= i < |keys| ==> keys[i] in group
  {
    keys := OldestExists(stamps, limit);
    OldestAreOfTheGroup(stamps, keys, limit, group, bound);
  }

  lemma DueListOfElders(rows: Rows, cutoff: nat, text: Format, limit: nat, id: string) returns (work: seq<string>)
    requires id in rows && |Elders(rows, id)| >= limit && Elders(rows, id) <= DueStamps(rows, cutoff, text).Keys
    ensures IsDueList(rows, cutoff, text, work, limit)
    ensures forall i :: 0 <= i < |work| ==> work[i] in Elders(rows, id)
  {
    DueAreOpen(rows, cutoff, text, id);
    work := ListOfTheGroup(DueStamps(rows, cutoff, text), limit, Elders(rows, id), rows[id].createdAt);
  }

  lemma ScanListsElders(setup: Setup, s: State, id: string, last: nat, now: nat) returns (work: seq<string>)
    requires SortsThroughTheRun(setup) && Crowded(setup, s, id, last)
    requires setup.retry <= now <= setup.horizon && Stamp(last) < Stamp(now - setup.retry)
    ensures Enabled(setup, s, Scan(work, now))
    ensures forall i :: 0 <= i < |work| ==> work[i] in Elders(s.rows, id)
  {
    EldersAreDue(setup, s, id, last, now);
    work := DueListOfElders(s.rows, Stamp(now - setup.retry), setup.text, setup.batch, id);
  }

  // ---------- a pass that gets no answer ----------

  /** As before but for the attempts, which were made at this time. */
  ghost predicate OnlyAttempted(rows: Rows, after: Rows, now: nat) {
    && after.Keys == rows.Keys
    && forall k :: k in rows ==>
         && after[k].status == rows[k].status && after[k].createdAt == rows[k].createdAt
         && after[k].obpId == rows[k].obpId && after[k].promiseTxId == rows[k].promiseTxId
         && (after[k].lastAttemptedAt == rows[k].lastAttemptedAt || after[k].lastAttemptedAt == Some(Stamp(now)))
  }

  function NoAnswer(row: Row): Step {
    match row.status
    case Initiated => SubmitUnanswered(false)
    case Submitted => WriteFailed(false)
    case _ => ReportUnanswered(false)
  }

  /** One row of the batch is attempted and its call not answered. */
  lemma TriedInVain(setup: Setup, s: State, now: nat) returns (steps: seq<Step>, t: State)
    requires s.pc.Batch? && s.pc.todo != [] && s.pc.scannedAt <= now <= setup.horizon && Calls(s.pc.todo[0].row)
    ensures Reaches(setup, s, steps, t) && ScanTimes(steps) == [] && NeverHalts(steps)
    ensures t.pc == Batch(s.pc.todo[1..], s.pc.scannedAt) && OnlyAttempted(s.rows, t.rows, now)
  {
    var attempt, fail := Attempt(now), NoAnswer(s.pc.todo[0].row);
    var m := Apply(setup, s, attempt);
    t := VainAnswer(setup, m, s.pc.todo[0]);
    Extend(setup, s, [], s, attempt);
    Extend(setup, s, [] + [attempt], m, fail);
    steps := [attempt, fail];
    assert steps == [] + [attempt] + [fail] && steps[1..] == [fail];
    assert [fail][1..] == [] && ScanTimes([fail]) == [];
  }

  lemma VainAnswer(setup: Setup, m: State, item: Item) returns (t: State)
    requires m.pc.At? && m.pc.work == Begin(item) && Calls(item.row)
    ensures Enabled(setup, m, NoAnswer(item.row)) && t == Apply(setup, m, NoAnswer(item.row))
    ensures t.rows == m.rows && t.pc == Batch(m.pc.todo, m.pc.scannedAt)
    ensures !NoAnswer(item.row).Scan? && !NoAnswer(item.row).Halt?
  {
    t := OnRow(setup, m, NoAnswer(item.row));
  }

  lemma {:induction false} ReachesInTwo(setup: Setup, s: State, first: seq<Step>, m: State, second: seq<Step>, t: State)
    requires Reaches(setup, s, first, m) && Reaches(setup, m, second, t)
    ensures Reaches(setup, s, first + second, t)
    decreases |first|
  {
    if first == [] {
      assert first + second == second;
    } else {
      assert (first + second)[1..] == first[1..] + second;
      ReachesInTwo(setup, Apply(setup, s, first[0]), first[1..], m, second, t);
    }
  }

  lemma {:induction false} ScanTimesAdd(first: seq<Step>, second: seq<Step>)
    ensures ScanTimes(first + second) == ScanTimes(first) + ScanTimes(second)
    decreases |first|
  {
    if first == [] {
      assert first + second == second;
    } else {
      assert (first + second)[1..] == first[1..] + second;
      ScanTimesAdd(first[1..], second);
    }
  }

  lemma {:induction false} NoScanListsNothing(steps: seq<Step>, id: string)
    requires ScanTimes(steps) == []
    ensures NeverListed(steps, id)
    decreases |steps|
  {
    if steps != [] {
      NoScanListsNothing(steps[1..], id);
      assert forall i :: 0 < i < |steps| ==> steps[i] == steps[1..][i - 1];
    }
  }

  lemma OnlyAttemptedTwice(rows: Rows, between: Rows, after: Rows, now: nat)
    requires OnlyAttempted(rows, between, now) && OnlyAttempted(between, after, now)
    ensures OnlyAttempted(rows, after, now)
  {
  }

  lemma {:induction false} BatchInVain(setup: Setup, s: State, now: nat) returns (steps: seq<Step>, t: State)
    requires s.pc.Batch? && s.pc.scannedAt <= now <= setup.horizon
    requires forall i :: 0 <= i < |s.pc.todo| ==> Calls(s.pc.todo[i].row)
    ensures Reaches(setup, s, steps, t) && ScanTimes(steps) == [] && NeverHalts(steps)
    ensures t.pc.Idle? && OnlyAttempted(s.rows, t.rows, now)
    decreases |s.pc.todo|
  {
    if s.pc.todo == [] {
      steps, t := [EndBatch], Apply(setup, s, EndBatch);
      assert steps[1..] == [] && Reaches(setup, t, [], t);
    } else {
      var first, m := TriedInVain(setup, s, now);
      var rest;
      rest, t := BatchInVain(setup, m, now);
      steps := first + rest;
      ReachesInTwo(setup, s, first, m, rest, t);
      ScanTimesAdd(first, rest);
      OnlyAttemptedTwice(s.rows, m.rows, t.rows, now);
    }
  }

  lemma StaysCrowded(setup: Setup, s: State, t: State, id: string, last: nat, now: nat)
    requires Crowded(setup, s, id, last) && last <= now && t.pc.Idle? && OnlyAttempted(s.rows, t.rows, now)
    ensures Crowded(setup, t, id, now)
  {
    assert Elders(t.rows, id) == Elders(s.rows, id);
    assert Stamp(last) <= Stamp(now);
  }

  lemma PassInVain(setup: Setup, s: State, id: string, last: nat, now: nat) returns (steps: seq<Step>, t: State)
    requires SortsThroughTheRun(setup) && Crowded(setup, s, id, last)
    requires setup.retry <= now <= setup.horizon && Stamp(last) < Stamp(now - setup.retry)
    ensures Reaches(setup, s, steps, t) && PassesWithout(steps, [now], id) && Crowded(setup, t, id, now)
  {
    var work := ScanListsElders(setup, s, id, last, now);
    var m := Apply(setup, s, Scan(work, now));
    var rest;
    rest, t := BatchInVain(setup, m, now);
    steps := [Scan(work, now)] + rest;
    assert steps[1..] == rest;
    NoScanListsNothing(rest, id);
    assert id !in Elders(s.rows, id);
    assert forall i :: 0 < i < |steps| ==> steps[i] == rest[i - 1];
    StaysCrowded(setup, s, t, id, last, now);
  }

  /** Whatever the schedule, if its passes lie far enough apart and the older rows fill a batch, the run in
      which no call is answered never lists the younger row. */
  lemma {:induction false} YoungerRowCanStarve(setup: Setup, s: State, id: string, last: nat, clock: seq<nat>)
      returns (steps: seq<Step>, t: State)
    requires SortsThroughTheRun(setup) && Crowded(setup, s, id, last) && FarApart(setup, clock, last)
    ensures Reaches(setup, s, steps, t) && PassesWithout(steps, clock, id)
    decreases |clock|
  {
    if clock == [] {
      steps, t := [], s;
    } else {
      var first, m := PassInVain(setup, s, id, last, clock[0]);
      var rest;
      rest, t := YoungerRowCanStarve(setup, m, id, clock[0], clock[1..]);
      steps := first + rest;
      ReachesInTwo(setup, s, first, m, rest, t);
      ScanTimesAdd(first, rest);
      assert clock == [clock[0]] + clock[1..];
    }
  }
}
