/**
 The two conditions under which a FINAL transfer stays on the chain are both needed: a rollback as
 deep as the finality depth removes it, and a rollback past every point the follower keeps makes it
 jump to the tip with a stale record.
 */
module SettledLimits {
  import opened Prelude
  import opened Follower
  import opened SettledForGood
  import Store = SettlementStore
  import Leg = SettlementRuns
  import Chain = SettledStaysSettled

  ghost predicate FinalMeansPaidOnce(bound: nat, f: nat) {
    forall steps, t, key :: Reaches(bound, Initial(f), steps, t) && Chain.HasStatus(t.leg.rows, key, Store.Final) ==>
      && t.leg.rows[key].outcome.Some?
      && t.leg.Transfers(key) == [t.leg.rows[key].outcome.value.txId]
      && Chain.OnChain(t.world, Lower(t.leg.rows[key].outcome.value.txId))
  }

  /** FINAL means paid exactly once, by a transfer that is on the chain, in every state of every run,
      exactly when rollbacks are shallower than the finality depth and no deeper than the number of
      points the follower keeps. */
  lemma FinalMeansPaidOnceExactlyWhenDeepEnough(bound: nat, f: nat)
    requires f <= U32_MAX
    ensures FinalMeansPaidOnce(bound, f) <==> Chain.DeepEnough(bound, f)
  {
    if Chain.DeepEnough(bound, f) {
      forall steps, t, key | Reaches(bound, Initial(f), steps, t) && Chain.HasStatus(t.leg.rows, key, Store.Final)
        ensures t.leg.rows[key].outcome.Some?
        ensures t.leg.Transfers(key) == [t.leg.rows[key].outcome.value.txId]
        ensures Chain.OnChain(t.world, Lower(t.leg.rows[key].outcome.value.txId))
      {
        assert Reaches(bound, t, [], t);
        FinalMeansPaidOnceForGood(bound, f, steps, t, [], t, key);
      }
    } else {
      var steps, t := NotDeepEnough(bound, f);
      assert Chain.HasStatus(t.leg.rows, "k", Store.Final);
    }
  }

  ghost predicate FinalIsOnChain(bound: nat, f: nat) {
    forall steps, t, key ::
      Chain.Reaches(bound, f, Chain.INITIAL, steps, t) && Chain.HasStatus(t.rows, key, Store.Final) ==>
      t.rows[key].outcome.Some? && Chain.OnChain(t.world, Lower(t.rows[key].outcome.value.txId))
  }

  /** The same of the chain side alone, whatever the leg writes on rows that are SETTLING. */
  lemma FinalIsOnChainExactlyWhenDeepEnough(bound: nat, f: nat)
    requires f <= U32_MAX
    ensures FinalIsOnChain(bound, f) <==> Chain.DeepEnough(bound, f)
  {
    if Chain.DeepEnough(bound, f) {
      forall steps, t, key |
        Chain.Reaches(bound, f, Chain.INITIAL, steps, t) && Chain.HasStatus(t.rows, key, Store.Final)
        ensures t.rows[key].outcome.Some? && Chain.OnChain(t.world, Lower(t.rows[key].outcome.value.txId))
      {
        assert Chain.Reaches(bound, f, t, [], t);
        Chain.FinalTransferIsNeverRemoved(bound, f, steps, t, [], t, key);
      }
    } else {
      var steps, t := NotDeepEnough(bound, f);
      InitialIsSound(f);
      var seen := ChainRuns(bound, Initial(f), steps, t);
      assert Chain.HasStatus(Seen(t).rows, "k", Store.Final);
    }
  }

  /** A FINAL row whose transfer is not on the chain. */
  lemma NotDeepEnough(bound: nat, f: nat) returns (steps: seq<Step>, t: System)
    requires !Chain.DeepEnough(bound, f) && f <= U32_MAX
    ensures Reaches(bound, Initial(f), steps, t)
    ensures Chain.HasStatus(t.leg.rows, "k", Store.Final) && t.leg.rows["k"].outcome == Some(OUTCOME)
    ensures !Chain.OnChain(t.world, Lower(TX))
  {
    if bound >= Max(f, 1) {
      steps, t := ShallowFinality(bound, f);
    } else {
      steps, t := DeepRollback(bound, f);
    }
  }

  // ---------- building runs ----------

  lemma {:induction false} Go(bound: nat, start: System, before: seq<Step>, s: System, step: Step, t: System)
    returns (steps: seq<Step>)
    requires Reaches(bound, start, before, s) && Enabled(bound, s, step) && Apply(bound, s, step) == t
    ensures Reaches(bound, start, steps, t)
    decreases |before|
  {
    if before == [] {
      steps := [step];
      assert steps[1..] == [];
      assert Reaches(bound, t, steps[1..], t);
    } else {
      var rest := Go(bound, Apply(bound, start, before[0]), before[1..], s, step, t);
      steps := [before[0]] + rest;
      assert steps[1..] == rest;
    }
  }

  const TX := "t"

  /** One block per slot and height; of the blocks named "b" the first holds the transaction. */
  function BlockOf(name: string, i: nat): Block {
    Block(name, i, i, if name == "b" && i == 0 then [TX] else [])
  }

  function Blocks(name: string, n: nat): (chain: seq<Block>)
    ensures |chain| == n
    ensures forall i :: 0 <= i < n ==> chain[i] == BlockOf(name, i)
  {
    seq(n, i requires 0 <= i < n => BlockOf(name, i))
  }

  lemma BlocksAreAChain(name: string, n: nat)
    ensures IsChain(Blocks(name, n))
  {
    var chain := Blocks(name, n);
    forall i, j | 0 <= i < j < n
      ensures Precedes(chain[i], chain[j])
    {
    }
  }

  lemma OnlyTheFirstHolds(i: nat)
    ensures BlockOf("b", i).Holds(TX) <==> i == 0
  {
    if i == 0 {
      assert Lower(BlockOf("b", 0).txIds[0]) == TX;
    }
  }

  function PeakAfter(peak: nat, n: nat): nat {
    if n == 0 then peak else Max(peak, n - 1)
  }

  /** Minting n blocks on an empty chain. */
  lemma {:induction false} MintRun(bound: nat, start: System, before: seq<Step>, s: System, name: string, n: nat)
    returns (steps: seq<Step>)
    requires Reaches(bound, start, before, s) && s.world == []
    ensures Reaches(bound, start, steps, s.(world := Blocks(name, n), peak := PeakAfter(s.peak, n)))
  {
    if n == 0 {
      steps := before;
      assert Blocks(name, 0) == [];
    } else {
      steps := MintRun(bound, start, before, s, name, n - 1);
      var m := s.(world := Blocks(name, n - 1), peak := PeakAfter(s.peak, n - 1));
      BlocksAreAChain(name, n);
      assert Blocks(name, n - 1) + [BlockOf(name, n - 1)] == Blocks(name, n);
      steps := Go(bound, start, steps, m, OfChain(Chain.Mint(BlockOf(name, n - 1))),
                  s.(world := Blocks(name, n), peak := PeakAfter(s.peak, n)));
    }
  }

  function Recents(m: nat): seq<Point> {
    seq(Min(m, RECENT_POINTS_CAP), i requires 0 <= i < Min(m, RECENT_POINTS_CAP) => Point(m - Min(m, RECENT_POINTS_CAP) + i, "b"))
  }

  function Watching(f: nat): System {
    Initial(f).(view := View(None, map[TX := Pending], []))
  }

  /** n blocks minted, of which the follower has been told m. */
  function Told(f: nat, n: nat, m: nat): System
    requires 1 <= m <= n
  {
    Watching(f).(world := Blocks("b", n), peak := n - 1, cursor := Blocks("b", m),
              view := View(Some(n - 1), map[TX := Included(0, 0)], Recents(m)))
  }

  lemma WatchAndMint(bound: nat, f: nat, n: nat) returns (steps: seq<Step>)
    requires n >= 1
    ensures Reaches(bound, Initial(f), steps, Watching(f).(world := Blocks("b", n), peak := n - 1))
  {
    assert WithWatch(EMPTY_VIEW, TX) == Watching(f).view by {
      assert Lower(TX) == TX;
    }
    steps := Go(bound, Initial(f), [], Initial(f), OfChain(Chain.WatchTx(TX)), Watching(f));
    steps := MintRun(bound, Initial(f), steps, Watching(f), "b", n);
  }

  /** The follower before it is told the m-th block. */
  function Before(f: nat, n: nat, m: nat): System
    requires 1 <= m <= n
  {
    if m == 1 then Watching(f).(world := Blocks("b", n), peak := n - 1) else Told(f, n, m - 1)
  }

  lemma OneTell(bound: nat, f: nat, n: nat, m: nat)
    requires 1 <= m <= n
    ensures Enabled(bound, Before(f, n, m), OfChain(Chain.Tell))
    ensures Apply(bound, Before(f, n, m), OfChain(Chain.Tell)) == Told(f, n, m)
  {
    var s := Before(f, n, m);
    assert s.cursor == s.world[..m - 1];
    assert s.world[m - 1] == BlockOf("b", m - 1);
    assert s.cursor + [BlockOf("b", m - 1)] == Blocks("b", m);
    TellingMakes(f, s.view, n, m);
  }

  lemma {:induction false} TellRun(bound: nat, f: nat, n: nat, m: nat) returns (steps: seq<Step>)
    requires 1 <= m <= n
    ensures Reaches(bound, Initial(f), steps, Told(f, n, m))
  {
    if m == 1 {
      steps := WatchAndMint(bound, f, n);
    } else {
      steps := TellRun(bound, f, n, m - 1);
    }
    OneTell(bound, f, n, m);
    steps := Go(bound, Initial(f), steps, Before(f, n, m), OfChain(Chain.Tell), Told(f, n, m));
  }

  lemma TellingMakes(f: nat, v: View, n: nat, m: nat)
    requires 1 <= m <= n
    requires v.recent == Recents(m - 1)
    requires v.watched == map[TX := if m == 1 then Pending else Included(0, 0)]
    ensures Forwarded(v, BlockOf("b", m - 1), Some(n - 1)) == Told(f, n, m).view
  {
    OnlyTheFirstHolds(m - 1);
    var after := Forwarded(v, BlockOf("b", m - 1), Some(n - 1));
    assert after.watched == map[TX := Included(0, 0)];
    assert after.recent == Recents(m);
  }

  const OUTCOME := Store.Outcome(TX, "cardano", "ADA", "1")

  const TERMS := Store.Terms(None, "KES", 1, "addr")
  const SUBMITTED := Store.FreshRow(TERMS, 0).(status := Store.Submitted, outcome := Some(OUTCOME))

  /** The leg with its one row, its consumer and its watcher like this. */
  function LegAt(f: nat, row: Store.Row, ledger: map<string, seq<string>>, p: Leg.Handling, w: Leg.Watching): Leg.State {
    Leg.State(map["k" := row], ledger, [p], w, f)
  }

  const CLAIMED := Store.FreshRow(TERMS, 0)
  const PAID: map<string, seq<string>> := map["k" := [TX]]

  const LISTED := Leg.Scanning(["k"])

  function LookedUp(depth: nat): Leg.Watching {
    Leg.Judging("k", Leg.Confirmed(depth), [])
  }

  lemma GoLeg(bound: nat, f: nat, before: seq<Step>, s: System, l: Leg.Step, leg: Leg.State) returns (steps: seq<Step>)
    requires Reaches(bound, Initial(f), before, s)
    requires Leg.Enabled(s.leg, l) && !l.Crash? && (l.Confirm? ==> Answers(s, l.answer))
    requires Leg.Apply(s.leg, l) == leg
    ensures Reaches(bound, Initial(f), steps, s.(leg := leg))
  {
    steps := Go(bound, Initial(f), before, s, OfLeg(l), s.(leg := leg));
  }

  lemma Delivered(f: nat) returns (claiming: Leg.State)
    ensures Leg.Apply(Leg.Initial(1, f), Leg.Deliver(0, "k", TERMS)) == claiming
    ensures Leg.Enabled(claiming, Leg.Insert(0, 0))
    ensures Leg.Apply(claiming, Leg.Insert(0, 0)) == LegAt(f, CLAIMED, map[], Leg.Paying("k"), Leg.Resting)
  {
    claiming := Leg.State(map[], map[], [Leg.Claiming("k", TERMS)], Leg.Resting, f);
  }

  lemma Claimed(bound: nat, f: nat, before: seq<Step>, s: System) returns (steps: seq<Step>)
    requires Reaches(bound, Initial(f), before, s) && s.leg == Leg.Initial(1, f)
    ensures Reaches(bound, Initial(f), steps, s.(leg := LegAt(f, CLAIMED, map[], Leg.Paying("k"), Leg.Resting)))
  {
    var claiming := Delivered(f);
    steps := GoLeg(bound, f, before, s, Leg.Deliver(0, "k", TERMS), claiming);
    steps := GoLeg(bound, f, steps, s.(leg := claiming), Leg.Insert(0, 0),
                   LegAt(f, CLAIMED, map[], Leg.Paying("k"), Leg.Resting));
  }

  lemma PaymentSteps(f: nat)
    ensures var paying := LegAt(f, CLAIMED, map[], Leg.Paying("k"), Leg.Resting);
            var flying := LegAt(f, CLAIMED, PAID, Leg.InFlight("k", TX), Leg.Resting);
            var settled := LegAt(f, CLAIMED, PAID, Leg.Settled("k", OUTCOME), Leg.Resting);
            && Leg.Enabled(paying, Leg.HandToNode(0, TX)) && Leg.Apply(paying, Leg.HandToNode(0, TX)) == flying
            && Leg.Enabled(flying, Leg.Accept(0, OUTCOME)) && Leg.Apply(flying, Leg.Accept(0, OUTCOME)) == settled
            && Leg.Enabled(settled, Leg.RecordSubmitted(0, 0))
            && Leg.Apply(settled, Leg.RecordSubmitted(0, 0)) == LegAt(f, SUBMITTED, PAID, Leg.Idle, Leg.Resting)
  {
    var paying := LegAt(f, CLAIMED, map[], Leg.Paying("k"), Leg.Resting);
    var flying := LegAt(f, CLAIMED, PAID, Leg.InFlight("k", TX), Leg.Resting);
    var settled := LegAt(f, CLAIMED, PAID, Leg.Settled("k", OUTCOME), Leg.Resting);
    assert paying.Transfers("k") + [TX] == [TX];
    assert paying.ledger["k" := [TX]] == PAID;
    assert Leg.Apply(paying, Leg.HandToNode(0, TX)) == flying;
    assert Leg.Apply(flying, Leg.Accept(0, OUTCOME)) == settled;
    assert Leg.Apply(settled, Leg.RecordSubmitted(0, 0)) == LegAt(f, SUBMITTED, PAID, Leg.Idle, Leg.Resting);
  }

  /** A settlement by that transfer is claimed, paid and recorded. */
  lemma RecordSubmission(bound: nat, f: nat, before: seq<Step>, s: System) returns (steps: seq<Step>)
    requires Reaches(bound, Initial(f), before, s) && s.leg == Leg.Initial(1, f)
    ensures Reaches(bound, Initial(f), steps, s.(leg := LegAt(f, SUBMITTED, PAID, Leg.Idle, Leg.Resting)))
  {
    PaymentSteps(f);
    var paying := LegAt(f, CLAIMED, map[], Leg.Paying("k"), Leg.Resting);
    var flying := LegAt(f, CLAIMED, PAID, Leg.InFlight("k", TX), Leg.Resting);
    var settled := LegAt(f, CLAIMED, PAID, Leg.Settled("k", OUTCOME), Leg.Resting);
    steps := Claimed(bound, f, before, s);
    steps := GoLeg(bound, f, steps, s.(leg := paying), Leg.HandToNode(0, TX), flying);
    steps := GoLeg(bound, f, steps, s.(leg := flying), Leg.Accept(0, OUTCOME), settled);
    steps := GoLeg(bound, f, steps, s.(leg := settled), Leg.RecordSubmitted(0, 0),
                   LegAt(f, SUBMITTED, PAID, Leg.Idle, Leg.Resting));
  }

  lemma WatcherSteps(f: nat, depth: nat) returns (final: Leg.State)
    requires depth >= f
    ensures var resting := LegAt(f, SUBMITTED, PAID, Leg.Idle, Leg.Resting);
            var listed := LegAt(f, SUBMITTED, PAID, Leg.Idle, LISTED);
            var looked := LegAt(f, SUBMITTED, PAID, Leg.Idle, LookedUp(depth));
            && Leg.Enabled(resting, Leg.Scan(["k"])) && Leg.Apply(resting, Leg.Scan(["k"])) == listed
            && Leg.Enabled(listed, Leg.Confirm(Leg.Confirmed(depth)))
            && Leg.Apply(listed, Leg.Confirm(Leg.Confirmed(depth))) == looked
            && Leg.Enabled(looked, Leg.Judge(0)) && Leg.Apply(looked, Leg.Judge(0)) == final
    ensures Chain.HasStatus(final.rows, "k", Store.Final) && final.rows["k"].outcome == Some(OUTCOME)
  {
    OneRowIsListed(LegAt(f, SUBMITTED, PAID, Leg.Idle, Leg.Resting).rows);
    final := Leg.Apply(LegAt(f, SUBMITTED, PAID, Leg.Idle, LookedUp(depth)), Leg.Judge(0));
  }

  /** Then it is listed, looked up and finalized. */
  lemma Finalize(bound: nat, f: nat, before: seq<Step>, s: System, depth: nat) returns (steps: seq<Step>, t: System)
    requires Reaches(bound, Initial(f), before, s) && s.leg == Leg.Initial(1, f)
    requires StatusOf(s.view, TX) == Some(Confirmed(depth)) && depth >= f
    ensures Reaches(bound, Initial(f), steps, t)
    ensures t.world == s.world && t.peak == s.peak
    ensures Chain.HasStatus(t.leg.rows, "k", Store.Final) && t.leg.rows["k"].outcome == Some(OUTCOME)
  {
    var final := WatcherSteps(f, depth);
    var resting := LegAt(f, SUBMITTED, PAID, Leg.Idle, Leg.Resting);
    var listed := LegAt(f, SUBMITTED, PAID, Leg.Idle, LISTED);
    var looked := LegAt(f, SUBMITTED, PAID, Leg.Idle, LookedUp(depth));
    steps := RecordSubmission(bound, f, before, s);
    steps := GoLeg(bound, f, steps, s.(leg := resting), Leg.Scan(["k"]), listed);
    MayBeAnswered(f, s.(leg := listed), depth);
    steps := GoLeg(bound, f, steps, s.(leg := listed), Leg.Confirm(Leg.Confirmed(depth)), looked);
    steps := GoLeg(bound, f, steps, s.(leg := looked), Leg.Judge(0), final);
    t := s.(leg := final);
  }

  lemma MayBeAnswered(f: nat, s: System, depth: nat)
    requires s.leg == LegAt(f, SUBMITTED, PAID, Leg.Idle, LISTED)
    requires StatusOf(s.view, TX) == Some(Confirmed(depth))
    ensures Answers(s, Leg.Confirmed(depth))
  {
  }

  lemma OneRowIsListed(rows: Store.Rows)
    requires rows == map["k" := SUBMITTED]
    ensures Store.IsWorklist(rows, ["k"], Leg.WORKLIST_LIMIT)
  {
    assert Store.SubmittedStamps(rows) == map["k" := 0];
  }

  /** A rollback as deep as the finality depth: the transfer is final, and then gone. */
  lemma ShallowFinality(bound: nat, f: nat) returns (steps: seq<Step>, t: System)
    requires Max(f, 1) <= bound && f <= U32_MAX
    ensures Reaches(bound, Initial(f), steps, t)
    ensures Chain.HasStatus(t.leg.rows, "k", Store.Final) && t.leg.rows["k"].outcome == Some(OUTCOME)
    ensures t.world == []
  {
    var n := Max(f, 1);
    steps := TellRun(bound, f, n, 1);
    var s: System;
    assert Lower(TX) == TX;
    steps, s := Finalize(bound, f, steps, Told(f, n, 1), Min(n, U32_MAX));
    t := s.(world := []);
    assert s.world[..0] == [];
    steps := Go(bound, Initial(f), steps, s, OfChain(Chain.Reorg(0)), t);
  }

  /** The node's chain loses all but the first of 33 blocks, and the follower all its points. */
  lemma LosesAllPoints(bound: nat, f: nat) returns (steps: seq<Step>, t: System)
    requires bound > RECENT_POINTS_CAP
    ensures Reaches(bound, Initial(f), steps, t)
    ensures t == Watching(f).(world := Blocks("b", 1), peak := RECENT_POINTS_CAP, cursor := Blocks("b", 1),
                           view := View(Some(0), map[TX := Included(0, 0)], []))
  {
    var n := RECENT_POINTS_CAP + 1;
    steps := TellRun(bound, f, n, n);
    var s := Told(f, n, n);
    var s1 := s.(world := Blocks("b", 1));
    assert s.world[..1] == Blocks("b", 1);
    steps := Go(bound, Initial(f), steps, s, OfChain(Chain.Reorg(1)), s1);
    t := Watching(f).(world := Blocks("b", 1), peak := RECENT_POINTS_CAP, cursor := Blocks("b", 1),
                   view := View(Some(0), map[TX := Included(0, 0)], []));
    assert s1.cursor[..1] == Blocks("b", 1) == s1.world[..1];
    assert Chain.CutAfter(s1.cursor, 1) == Some(0);
    UncutIsPrefix(Recents(n), Some(0), 0);
    assert Recents(n)[..0] == [];
    steps := Go(bound, Initial(f), steps, s1, OfChain(Chain.Untell(1)), t);
  }

  /** Rolled back below the transfer while disconnected, with no points to offer, the follower jumps
      to a tip whose chain never held it, and keeps the record. */
  lemma JumpsToTheTip(bound: nat, f: nat) returns (steps: seq<Step>, t: System)
    requires RECENT_POINTS_CAP < bound < f
    ensures Reaches(bound, Initial(f), steps, t)
    ensures t == Watching(f).(world := Blocks("c", f), peak := f - 1, cursor := Blocks("c", f),
                           view := View(Some(0), map[TX := Included(0, 0)], []))
  {
    var s: System;
    steps, s := LosesAllPoints(bound, f);
    var s1 := s.(world := []);
    assert s.world[..0] == [];
    steps := Go(bound, Initial(f), steps, s, OfChain(Chain.Reorg(0)), s1);
    steps := MintRun(bound, Initial(f), steps, s1, "c", f);
    var s2 := s1.(world := Blocks("c", f), peak := f - 1);
    var s3 := s2.(asked := Some(s2.world));
    steps := Go(bound, Initial(f), steps, s2, OfChain(Chain.AskTip), s3);
    t := s2.(cursor := s2.world);
    assert s3.world[..f] == s3.world;
    steps := Go(bound, Initial(f), steps, s3, OfChain(Chain.Rejoin), t);
  }

  /** The next block told brings the height the stale record is counted from. */
  lemma HearsTheTip(bound: nat, f: nat) returns (steps: seq<Step>, t: System)
    requires RECENT_POINTS_CAP < bound < f
    ensures Reaches(bound, Initial(f), steps, t)
    ensures t == Watching(f).(world := Blocks("c", f), peak := f - 1, cursor := Blocks("c", f),
                              view := View(Some(f - 1), map[TX := Included(0, 0)], []))
  {
    var s: System;
    steps, s := JumpsToTheTip(bound, f);
    t := s.(view := View(Some(f - 1), map[TX := Included(0, 0)], []));
    TipIsTold(bound, f, s);
    steps := Go(bound, Initial(f), steps, s, OfChain(Chain.Untell(f)), t);
  }

  lemma TipIsTold(bound: nat, f: nat, s: System)
    requires f >= 1 && s.world == s.cursor == Blocks("c", f) && s.asked == None
    requires s.view == View(Some(0), map[TX := Included(0, 0)], [])
    ensures Enabled(bound, s, OfChain(Chain.Untell(f)))
    ensures Apply(bound, s, OfChain(Chain.Untell(f))) == s.(view := View(Some(f - 1), map[TX := Included(0, 0)], []))
  {
    assert s.cursor[..f] == s.cursor == s.world[..f];
    assert Chain.CutAfter(s.cursor, f) == Some(f - 1);
    KeepsTheStaleRecord(f);
  }

  lemma KeepsTheStaleRecord(f: nat)
    requires f >= 1
    ensures Backed(View(Some(0), map[TX := Included(0, 0)], []), Some(f - 1), Some(f - 1))
         == View(Some(f - 1), map[TX := Included(0, 0)], [])
  {
  }

  /** A rollback past every kept point: the depth is counted from the stale record, and the row turns
      FINAL for a transfer that is not on the chain. */
  lemma DeepRollback(bound: nat, f: nat) returns (steps: seq<Step>, t: System)
    requires RECENT_POINTS_CAP < bound < f <= U32_MAX
    ensures Reaches(bound, Initial(f), steps, t)
    ensures Chain.HasStatus(t.leg.rows, "k", Store.Final) && t.leg.rows["k"].outcome == Some(OUTCOME)
    ensures !Chain.OnChain(t.world, Lower(TX))
  {
    var s: System;
    steps, s := HearsTheTip(bound, f);
    CountedFromTheRecord(s.view, f);
    steps, t := Finalize(bound, f, steps, s, f);
    assert forall i :: 0 <= i < f ==> t.world[i] == BlockOf("c", i);
  }

  lemma CountedFromTheRecord(v: View, f: nat)
    requires 1 <= f <= U32_MAX && v == View(Some(f - 1), map[TX := Included(0, 0)], [])
    ensures StatusOf(v, TX) == Some(Confirmed(f))
  {
    assert Lower(TX) == TX;
  }
}
