/**
 The settlement leg and the chain in one machine: the consumer and the watcher of SettlementRuns, the
 follower and the node's chain of SettledStaysSettled, step by step in any order. Every run of it is,
 seen from the chain, a run of SettledStaysSettled; so a row that is FINAL was paid exactly once, and
 that payment is on the node's chain for ever.
 */
module SettledForGood {
  import opened Prelude
  import Follower
  import Store = SettlementStore
  import Leg = SettlementRuns
  import Safety = SettlementSafety
  import Chain = SettledStaysSettled

  datatype System = System(
    leg: Leg.State,
    world: seq<Follower.Block>,
    peak: nat,
    cursor: seq<Follower.Block>,
    view: Follower.View,
    asked: Option<seq<Follower.Block>>)

  datatype Step = OfLeg(l: Leg.Step) | OfChain(c: Chain.Step)

  /** The answer the watcher holds and has not written. */
  function Held(watcher: Leg.Watching): Option<(string, Leg.Confirmation)> {
    if watcher.Judging? then Some((watcher.key, watcher.answer)) else None
  }

  /** What the chain side sees. */
  function Seen(s: System): Chain.System {
    Chain.System(s.world, s.peak, s.cursor, s.view, s.asked, s.leg.rows, Held(s.leg.watcher))
  }

  function WithChain(s: System, t: Chain.System): System {
    s.(world := t.world, peak := t.peak, cursor := t.cursor, view := t.view, asked := t.asked)
  }

  /** The steps of the node and the follower; the rest of that machine is the leg's. */
  predicate NodeOrFollower(c: Chain.Step) {
    c.Mint? || c.Reorg? || c.Tell? || c.Untell? || c.AskTip? || c.Rejoin? || c.WatchTx? || c.UnwatchTx?
  }

  /** The row the watcher is about to ask for has a transaction, and confirm may answer so. */
  ghost predicate Answers(s: System, answer: Leg.Confirmation)
    requires s.leg.watcher.Scanning? && s.leg.watcher.todo != []
  {
    var key := s.leg.watcher.todo[0];
    && key in s.leg.rows && s.leg.rows[key].outcome.Some?
    && Chain.MayAnswer(Seen(s), s.leg.rows[key].outcome.value.txId, answer)
  }

  ghost predicate Enabled(bound: nat, s: System, step: Step) {
    match step
    case OfLeg(l) => Leg.Enabled(s.leg, l) && (l.Confirm? ==> Answers(s, l.answer))
    case OfChain(c) => NodeOrFollower(c) && Chain.Enabled(bound, Seen(s), c)
  }

  ghost function Apply(bound: nat, s: System, step: Step): System
    requires Enabled(bound, s, step)
  {
    match step
    case OfLeg(l) =>
      var t := s.(leg := Leg.Apply(s.leg, l));
      if l.Crash? then t.(view := Follower.EMPTY_VIEW, asked := None) else t
    case OfChain(c) => WithChain(s, Chain.Apply(bound, s.leg.finalityDepth, Seen(s), c))
  }

  ghost predicate Reaches(bound: nat, s: System, steps: seq<Step>, t: System)
    decreases |steps|
  {
    if steps == [] then s == t
    else Enabled(bound, s, steps[0]) && Reaches(bound, Apply(bound, s, steps[0]), steps[1..], t)
  }

  function Initial(finalityDepth: nat): System {
    System(Leg.Initial(1, finalityDepth), [], 0, [], Follower.EMPTY_VIEW, None)
  }

  // ---------- seen from the leg ----------

  function LegSteps(steps: seq<Step>): seq<Leg.Step> {
    if steps == [] then []
    else (if steps[0].OfLeg? then [steps[0].l] else []) + LegSteps(steps[1..])
  }

  lemma {:induction false} LegRuns(bound: nat, s: System, steps: seq<Step>, t: System)
    requires Reaches(bound, s, steps, t)
    ensures Leg.Reaches(s.leg, LegSteps(steps), t.leg)
    decreases |steps|
  {
    if steps != [] {
      LegRuns(bound, Apply(bound, s, steps[0]), steps[1..], t);
      if steps[0].OfLeg? {
        assert LegSteps(steps)[1..] == LegSteps(steps[1..]);
      } else {
        assert LegSteps(steps) == LegSteps(steps[1..]);
      }
    }
  }

  // ---------- seen from the chain ----------

  /** What the leg's step is to the chain side; most are nothing. */
  function SeenAs(leg: Leg.State, l: Leg.Step): Option<Chain.Step>
    requires l.Insert? || l.Reopen? || l.RecordSubmitted? || l.RecordError? ==> l.h < |leg.consumers|
    requires l.Insert? ==> leg.consumers[l.h].Claiming?
    requires l.Reopen? ==> leg.consumers[l.h].Reopening?
    requires l.RecordSubmitted? ==> leg.consumers[l.h].Settled?
    requires l.RecordError? ==> leg.consumers[l.h].Failed?
    requires l.Confirm? ==> leg.watcher.Scanning? && leg.watcher.todo != []
  {
    match l
    case Insert(h, now) => Some(Chain.Claim(leg.consumers[h].key, leg.consumers[h].terms, now))
    case Reopen(h, now) => Some(Chain.Reopen(leg.consumers[h].key, now))
    case RecordSubmitted(h, now) => Some(Chain.Submit(leg.consumers[h].key, leg.consumers[h].outcome, now))
    case RecordError(h, now) =>
      var p := leg.consumers[h];
      Some(Chain.Fail(p.key, p.reason, p.retryable, now))
    case Confirm(answer) => Some(Chain.Look(leg.watcher.todo[0], answer))
    case Judge(now) => Some(Chain.Write(now))
    case JudgeFails => Some(Chain.Drop)
    case Crash => Some(Chain.Restart)
    case _ => None
  }

  ghost predicate LegSound(leg: Leg.State) {
    |leg.consumers| <= 1 && forall key :: Leg.Sound(leg, key)
  }

  lemma LegStepKeepsSound(leg: Leg.State, l: Leg.Step)
    requires LegSound(leg) && Leg.Enabled(leg, l)
    ensures LegSound(Leg.Apply(leg, l))
  {
    forall key
      ensures Leg.Sound(Leg.Apply(leg, l), key) && |Leg.Apply(leg, l).consumers| == |leg.consumers|
    {
      Leg.StepKeepsSound(leg, l, key);
    }
  }

  /** With one consumer, the outcome of an attempt is written only on a row that is SETTLING: that is
      the status guard which neither statement has. */
  lemma OutcomesAreWrittenOnSettlingRows(leg: Leg.State, l: Leg.Step)
    requires LegSound(leg) && Leg.Enabled(leg, l) && (l.RecordSubmitted? || l.RecordError?)
    ensures Chain.HasStatus(leg.rows, leg.consumers[l.h].key, Store.Settling)
  {
    var key := leg.consumers[l.h].key;
    assert Leg.Sound(leg, key);
    assert Leg.HandlingSound(leg.consumers[l.h], leg.RowAt(key), leg.Transfers(key));
  }

  /** The leg's step, and nothing or one step of the chain side. */
  ghost predicate IsSeen(bound: nat, s: System, l: Leg.Step)
    requires Enabled(bound, s, OfLeg(l))
  {
    var seen, t := SeenAs(s.leg, l), Apply(bound, s, OfLeg(l));
    if seen.None? then Seen(t) == Seen(s)
    else Chain.Enabled(bound, Seen(s), seen.value)
         && Seen(t) == Chain.Apply(bound, s.leg.finalityDepth, Seen(s), seen.value)
  }

  lemma ConsumerStepIsSeen(bound: nat, s: System, l: Leg.Step)
    requires LegSound(s.leg) && Enabled(bound, s, OfLeg(l)) && Leg.ByConsumer(l)
    ensures IsSeen(bound, s, l)
  {
    if l.RecordSubmitted? || l.RecordError? {
      OutcomesAreWrittenOnSettlingRows(s.leg, l);
    }
  }

  lemma WatcherStepIsSeen(bound: nat, s: System, l: Leg.Step)
    requires LegSound(s.leg) && Enabled(bound, s, OfLeg(l)) && !Leg.ByConsumer(l)
    ensures IsSeen(bound, s, l)
  {
    if l.Confirm? {
      var key := s.leg.watcher.todo[0];
      assert Leg.Sound(s.leg, key) && s.leg.watcher.Ahead()[0] == key;
    }
  }

  lemma LegStepIsSeen(bound: nat, s: System, l: Leg.Step)
    requires LegSound(s.leg) && Enabled(bound, s, OfLeg(l))
    ensures IsSeen(bound, s, l)
  {
    if Leg.ByConsumer(l) {
      ConsumerStepIsSeen(bound, s, l);
    } else {
      WatcherStepIsSeen(bound, s, l);
    }
  }

  lemma ChainStepIsSeen(bound: nat, s: System, c: Chain.Step)
    requires Enabled(bound, s, OfChain(c))
    ensures Seen(Apply(bound, s, OfChain(c))) == Chain.Apply(bound, s.leg.finalityDepth, Seen(s), c)
    ensures Apply(bound, s, OfChain(c)).leg == s.leg
  {
  }

  /** Every run is, seen from the chain, a run of SettledStaysSettled. */
  lemma {:induction false} ChainRuns(bound: nat, s: System, steps: seq<Step>, t: System) returns (seen: seq<Chain.Step>)
    requires LegSound(s.leg) && Reaches(bound, s, steps, t)
    ensures Chain.Reaches(bound, s.leg.finalityDepth, Seen(s), seen, Seen(t))
    ensures LegSound(t.leg) && t.leg.finalityDepth == s.leg.finalityDepth
    decreases |steps|
  {
    if steps == [] {
      seen := [];
    } else {
      var step, next := steps[0], Apply(bound, s, steps[0]);
      if step.OfLeg? {
        LegStepKeepsSound(s.leg, step.l);
        LegStepIsSeen(bound, s, step.l);
      } else {
        ChainStepIsSeen(bound, s, step.c);
      }
      var rest := ChainRuns(bound, next, steps[1..], t);
      var first := if step.OfLeg? then SeenAs(s.leg, step.l) else Some(step.c);
      if first.None? {
        seen := rest;
      } else {
        seen := [first.value] + rest;
        assert seen[1..] == rest;
      }
    }
  }

  lemma InitialIsSound(finalityDepth: nat)
    ensures LegSound(Initial(finalityDepth).leg) && Seen(Initial(finalityDepth)) == Chain.INITIAL
  {
  }

  // ---------- paid once, and for good ----------

  /** From the moment a row is FINAL, whatever is redelivered, refused, retried, lost, rolled back or
      restarted: exactly one transfer was ever handed to the node under its key, it is the one the row
      names, the row stays as it is, and the block holding the transfer stays on the node's chain. */
  lemma FinalMeansPaidOnceForGood(bound: nat, f: nat, before: seq<Step>, s: System, later: seq<Step>, t: System, key: string)
    requires Chain.DeepEnough(bound, f)
    requires Reaches(bound, Initial(f), before, s) && Chain.HasStatus(s.leg.rows, key, Store.Final)
    requires Reaches(bound, s, later, t)
    ensures s.leg.rows[key].outcome.Some?
    ensures key in t.leg.rows && t.leg.rows[key] == s.leg.rows[key]
    ensures t.leg.Transfers(key) == [s.leg.rows[key].outcome.value.txId]
    ensures exists i :: && 0 <= i < |s.world| && s.world[i].Holds(Lower(s.leg.rows[key].outcome.value.txId))
                        && i < |t.world| && t.world[i] == s.world[i]
  {
    InitialIsSound(f);
    var seenBefore := ChainRuns(bound, Initial(f), before, s);
    var seenLater := ChainRuns(bound, s, later, t);
    Chain.FinalTransferIsNeverRemoved(bound, f, seenBefore, Seen(s), seenLater, Seen(t), key);
    LegRuns(bound, Initial(f), before, s);
    LegRuns(bound, s, later, t);
    Safety.RecordedTransferIsOnChain(f, LegSteps(before), s.leg, key);
    Safety.FinalIsAbsorbing(s.leg, LegSteps(later), t.leg, key);
  }
}
