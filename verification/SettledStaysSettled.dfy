/**
 Follower, watcher and store together, over a chain that grows and rolls back, a follower that lags,
 loses its connection and restarts, and a watcher that reads at one time and writes at another.
 A transfer whose row is FINAL stays on the chain, exactly when rollbacks are shallower than the
 finality depth and no deeper than the points the follower keeps.
 */
module SettledStaysSettled {
  import opened Prelude
  import opened Follower
  import Store = SettlementStore
  import Runs = SettlementRuns

  datatype System = System(
    world: seq<Block>,              // the node's chain
    peak: nat,                      // the highest height it ever had
    cursor: seq<Block>,             // the chain as told to the follower
    view: View,
    asked: Option<seq<Block>>,      // the chain whose tip a reconnecting follower asked for
    rows: Store.Rows,
    looked: Option<(string, Runs.Confirmation)>)   // an answer the watcher has not written yet

  datatype Step =
    | Mint(b: Block)
    | Reorg(keep: nat)
    | Tell                                          // the next block is sent forward
    | Untell(keep: nat)                             // the follower is rolled back to a common point
    | AskTip                                        // reconnecting with no points to offer
    | Rejoin                                        // intersecting at the tip asked for
    | Restart
    | WatchTx(txId: string)
    | UnwatchTx(txId: string)
    | Claim(key: string, terms: Store.Terms, now: nat)
    // what the one consumer writes only on a row it holds as SETTLING (module SettledForGood)
    | Submit(key: string, outcome: Store.Outcome, now: nat)
    | Fail(key: string, reason: string, retryable: bool, now: nat)
    | Reopen(key: string, now: nat)
    | Look(key: string, answer: Runs.Confirmation)
    | Write(now: nat)
    | Drop                                          // the answer is lost, or its write failed

  ghost predicate OnChain(chain: seq<Block>, id: string) {
    exists i :: 0 <= i < |chain| && chain[i].Holds(id)
  }

  predicate HasStatus(rows: Store.Rows, key: string, status: Store.Status) {
    key in rows && rows[key].status == status
  }

  /** What confirm may answer: the follower's status; for a transaction it does not know, depth one
      if an output of it is found on the node's chain, and otherwise pending. */
  ghost predicate MayAnswer(s: System, txId: string, answer: Runs.Confirmation) {
    match StatusOf(s.view, txId)
    case Some(Unconfirmed) => answer == Runs.Pending
    case Some(Confirmed(depth)) => answer == Runs.Confirmed(depth)
    case None => answer == Runs.Pending || (answer == Runs.Confirmed(1) && OnChain(s.world, Lower(txId)))
  }

  function TipOf(chain: seq<Block>): Option<nat> {
    if chain == [] then None else Some(chain[|chain| - 1].height)
  }

  function CutAfter(chain: seq<Block>, keep: nat): Option<nat>
    requires keep <= |chain|
  {
    if keep == 0 then None else Some(chain[keep - 1].slot)
  }

  /** `bound` is the deepest rollback: a removed block is less than `bound` below the peak. */
  ghost predicate Enabled(bound: nat, s: System, step: Step) {
    match step
    case Mint(b) => IsChain(s.world + [b])
    case Reorg(keep) => keep <= |s.world| && forall i :: keep <= i < |s.world| ==> s.world[i].height + bound > s.peak
    case Tell => |s.cursor| < |s.world| && s.cursor == s.world[..|s.cursor|]
    case Untell(keep) => keep <= |s.cursor| && keep <= |s.world| && s.cursor[..keep] == s.world[..keep]
    case AskTip => s.view.recent == []
    case Rejoin => s.asked.Some? && |s.asked.value| <= |s.world| && s.world[..|s.asked.value|] == s.asked.value
    case Restart => true
    case WatchTx(_) => true
    case UnwatchTx(_) => true
    case Claim(_, _, _) => true
    case Submit(key, _, _) => HasStatus(s.rows, key, Store.Settling)
    case Fail(key, _, _, _) => HasStatus(s.rows, key, Store.Settling)
    case Reopen(_, _) => true
    case Look(key, answer) =>
      && s.looked.None? && HasStatus(s.rows, key, Store.Submitted) && s.rows[key].outcome.Some?
      && MayAnswer(s, s.rows[key].outcome.value.txId, answer)
    case Write(_) => s.looked.Some?
    case Drop => true
  }

  ghost function Apply(bound: nat, finalityDepth: nat, s: System, step: Step): System
    requires Enabled(bound, s, step)
  {
    match step
    case Mint(b) => s.(world := s.world + [b], peak := Max(s.peak, b.height))
    case Reorg(keep) => s.(world := s.world[..keep])
    case Tell =>
      var b := s.world[|s.cursor|];
      s.(cursor := s.cursor + [b], view := Forwarded(s.view, b, TipOf(s.world)), asked := None)
    case Untell(keep) =>
      s.(cursor := s.cursor[..keep], view := Backed(s.view, CutAfter(s.cursor, keep), TipOf(s.world)), asked := None)
    case AskTip => s.(asked := Some(s.world))
    case Rejoin => s.(cursor := s.asked.value, asked := None)
    case Restart => s.(view := EMPTY_VIEW, asked := None, looked := None)
    case WatchTx(txId) => s.(view := WithWatch(s.view, txId))
    case UnwatchTx(txId) => s.(view := WithoutWatch(s.view, txId))
    case Claim(key, terms, now) => s.(rows := Store.Inserted(s.rows, key, terms, now))
    case Submit(key, outcome, now) => s.(rows := Store.MarkedSubmitted(s.rows, key, outcome, now))
    case Fail(key, reason, retryable, now) => s.(rows := Store.MarkedError(s.rows, key, reason, retryable, now))
    case Reopen(key, now) => s.(rows := Store.Reopened(s.rows, key, now))
    case Look(key, answer) => s.(looked := Some((key, answer)))
    case Write(now) =>
      var (key, answer) := s.looked.value;
      s.(rows := Runs.Judged(s.rows, key, answer, finalityDepth, now), looked := None)
    case Drop => s.(looked := None)
  }

  ghost predicate Reaches(bound: nat, finalityDepth: nat, s: System, steps: seq<Step>, t: System)
    decreases |steps|
  {
    if steps == [] then s == t
    else Enabled(bound, s, steps[0]) && Reaches(bound, finalityDepth, Apply(bound, finalityDepth, s, steps[0]), steps[1..], t)
  }

  const INITIAL := System([], 0, [], EMPTY_VIEW, None, map[], None)

  // ---------- the invariant ----------

  /** The block at this position of the follower's chain is on the node's chain, too deep to leave. */
  ghost predicate Pinned(bound: nat, s: System, i: nat)
    requires i < |s.cursor|
  {
    i < |s.world| && s.cursor[i] == s.world[i] && s.cursor[i].height + bound <= s.peak
  }

  /** Where an included record comes from: a block the follower was told, still among the points it
      keeps or pinned. */
  ghost predicate ComesFrom(bound: nat, s: System, id: string, w: Watch, i: nat) {
    && w.Included? && i < |s.cursor| && s.cursor[i].Holds(id)
    && w.height == s.cursor[i].height && w.slot == s.cursor[i].slot
    && s.view.tipHeight.Some? && w.height <= s.view.tipHeight.value
    && (i + |s.view.recent| < |s.cursor| ==> Pinned(bound, s, i))
    && (s.asked.Some? ==> i < |s.asked.value| && s.asked.value[i] == s.cursor[i] && Pinned(bound, s, i))
  }

  ghost predicate RecordsSound(bound: nat, s: System) {
    forall id :: id in s.view.watched && s.view.watched[id].Included? ==>
      exists i :: ComesFrom(bound, s, id, s.view.watched[id], i)
  }

  /** On the chain, at a depth no rollback reaches. */
  ghost predicate Settled(bound: nat, s: System, id: string) {
    exists i :: 0 <= i < |s.world| && s.world[i].Holds(id) && s.world[i].height + bound <= s.peak
  }

  ghost predicate RowsSound(bound: nat, finalityDepth: nat, s: System) {
    && (forall key :: HasStatus(s.rows, key, Store.Final) ==>
          s.rows[key].outcome.Some? && Settled(bound, s, Lower(s.rows[key].outcome.value.txId)))
    && (s.looked.Some? ==>
          var (key, answer) := s.looked.value;
          && HasStatus(s.rows, key, Store.Submitted) && s.rows[key].outcome.Some?
          && (answer.Confirmed? && answer.depth >= finalityDepth ==>
                Settled(bound, s, Lower(s.rows[key].outcome.value.txId))))
  }

  ghost predicate ChainsSound(bound: nat, s: System) {
    && IsChain(s.world) && IsChain(s.cursor)
    && (s.asked.Some? ==> IsChain(s.asked.value) && s.view.recent == [])
    && (forall i :: 0 <= i < |s.world| ==> s.world[i].height <= s.peak)
    && (s.view.tipHeight.Some? ==> s.view.tipHeight.value <= s.peak)
    && RecentIsSuffix(s.view, s.cursor)
    // blocks deep under the tip the follower knows are on the node's chain
    && (s.view.tipHeight.Some? ==>
          forall i :: 0 <= i < |s.cursor| && s.cursor[i].height + bound <= s.view.tipHeight.value ==>
            i < |s.world| && s.cursor[i] == s.world[i])
  }

  ghost predicate Sound(bound: nat, finalityDepth: nat, s: System) {
    ChainsSound(bound, s) && RecordsSound(bound, s) && RowsSound(bound, finalityDepth, s)
  }

  // ---------- every step keeps it ----------

  lemma {:induction false} HeightsClimb(chain: seq<Block>, i: nat, n: nat)
    requires IsChain(chain) && i + n < |chain|
    ensures chain[i + n].height >= chain[i].height + n
  {
    if n > 0 {
      HeightsClimb(chain, i, n - 1);
      assert Precedes(chain[i + n - 1], chain[i + n]);
    }
  }

  lemma HeightsUpTo(chain: seq<Block>, i: nat)
    requires IsChain(chain) && i < |chain|
    ensures chain[i].height <= chain[|chain| - 1].height
  {
    HeightsClimb(chain, i, |chain| - 1 - i);
  }

  /** The steps of the node's chain: what is deep enough stays where it is. */
  lemma WorldStepKeepsSound(bound: nat, f: nat, s: System, step: Step)
    requires Sound(bound, f, s) && Enabled(bound, s, step) && (step.Mint? || step.Reorg?)
    ensures Sound(bound, f, Apply(bound, f, s, step))
  {
    var t := Apply(bound, f, s, step);
    if step.Reorg? {
      PrefixIsChain(s.world, step.keep);
    }
    forall i | 0 <= i < |s.world| && s.world[i].height + bound <= s.peak
      ensures i < |t.world| && t.world[i] == s.world[i] && t.world[i].height + bound <= t.peak
    {
    }
    forall id | id in s.view.watched && s.view.watched[id].Included?
      ensures exists i :: ComesFrom(bound, t, id, t.view.watched[id], i)
    {
      var i: nat :| ComesFrom(bound, s, id, s.view.watched[id], i);
      assert ComesFrom(bound, t, id, t.view.watched[id], i);
    }
    SettledStays(bound, s, t);
  }

  lemma SettledStays(bound: nat, s: System, t: System)
    requires forall i :: 0 <= i < |s.world| && s.world[i].height + bound <= s.peak ==>
               i < |t.world| && t.world[i] == s.world[i] && t.world[i].height + bound <= t.peak
    ensures forall id :: Settled(bound, s, id) ==> Settled(bound, t, id)
  {
    forall id | Settled(bound, s, id)
      ensures Settled(bound, t, id)
    {
      var i :| 0 <= i < |s.world| && s.world[i].Holds(id) && s.world[i].height + bound <= s.peak;
      assert t.world[i].Holds(id);
    }
  }

  lemma TellKeepsChains(bound: nat, f: nat, s: System)
    requires Sound(bound, f, s) && Enabled(bound, s, Tell)
    ensures ChainsSound(bound, Apply(bound, f, s, Tell))
  {
    var t := Apply(bound, f, s, Tell);
    var n := |s.cursor|;
    assert t.cursor == s.world[..n + 1];
    PrefixIsChain(s.world, n + 1);
    ForwardKeepsSuffix(s.view, s.cursor, s.world[n], TipOf(s.world));
    HeightsUpTo(s.world, n);
  }

  /** A record falls out of the kept points only once its block is as many blocks deep as are kept. */
  lemma TellKeepsRecord(bound: nat, f: nat, s: System, id: string, i: nat)
    requires Sound(bound, f, s) && Enabled(bound, s, Tell) && bound <= RECENT_POINTS_CAP
    requires id in s.view.watched && !s.world[|s.cursor|].Holds(id)
    requires ComesFrom(bound, s, id, s.view.watched[id], i)
    ensures ComesFrom(bound, Apply(bound, f, s, Tell), id, s.view.watched[id], i)
  {
    var t := Apply(bound, f, s, Tell);
    assert s.cursor[i] == s.world[i] by {
      assert s.world[..|s.cursor|][i] == s.world[i];
    }
    HeightsUpTo(s.world, i);
    if i + |t.view.recent| < |t.cursor| && i + |s.view.recent| >= |s.cursor| {
      assert i + RECENT_POINTS_CAP == |s.cursor|;
      HeightsClimb(s.world, i, RECENT_POINTS_CAP);
      assert s.world[i + RECENT_POINTS_CAP].height <= s.peak;
    }
  }

  lemma TellMakesRecord(bound: nat, f: nat, s: System, id: string)
    requires Sound(bound, f, s) && Enabled(bound, s, Tell)
    requires id in s.view.watched && s.world[|s.cursor|].Holds(id)
    ensures var t := Apply(bound, f, s, Tell); ComesFrom(bound, t, id, t.view.watched[id], |s.cursor|)
  {
    HeightsUpTo(s.world, |s.cursor|);
  }

  lemma TellKeepsRecords(bound: nat, f: nat, s: System)
    requires Sound(bound, f, s) && Enabled(bound, s, Tell) && bound <= RECENT_POINTS_CAP
    ensures RecordsSound(bound, Apply(bound, f, s, Tell))
  {
    var t := Apply(bound, f, s, Tell);
    forall id | id in t.view.watched && t.view.watched[id].Included?
      ensures exists i :: ComesFrom(bound, t, id, t.view.watched[id], i)
    {
      if s.world[|s.cursor|].Holds(id) {
        TellMakesRecord(bound, f, s, id);
      } else {
        var i: nat :| ComesFrom(bound, s, id, s.view.watched[id], i);
        TellKeepsRecord(bound, f, s, id, i);
      }
    }
  }

  lemma UntellCutsAt(s: System, keep: nat)
    requires IsChain(s.cursor) && keep <= |s.cursor|
    ensures CutsAt(s.cursor, keep, CutAfter(s.cursor, keep))
  {
    if keep > 0 {
      SlotCutsChain(s.cursor, |s.cursor| - keep);
    }
  }

  lemma UntellKeepsChains(bound: nat, f: nat, s: System, keep: nat)
    requires Sound(bound, f, s) && Enabled(bound, s, Untell(keep))
    ensures ChainsSound(bound, Apply(bound, f, s, Untell(keep)))
  {
    var t := Apply(bound, f, s, Untell(keep));
    UntellCutsAt(s, keep);
    PrefixIsChain(s.cursor, keep);
    BackwardKeepsSuffix(s.view, s.cursor, keep, CutAfter(s.cursor, keep), TipOf(s.world));
    forall i | 0 <= i < keep
      ensures t.cursor[i] == s.world[i]
    {
      assert s.cursor[..keep][i] == s.world[..keep][i];
    }
  }

  lemma UntellKeepsRecords(bound: nat, f: nat, s: System, keep: nat)
    requires Sound(bound, f, s) && Enabled(bound, s, Untell(keep))
    ensures RecordsSound(bound, Apply(bound, f, s, Untell(keep)))
  {
    var t := Apply(bound, f, s, Untell(keep));
    UntellCutsAt(s, keep);
    BackwardKeepsSuffix(s.view, s.cursor, keep, CutAfter(s.cursor, keep), TipOf(s.world));
    forall id | id in t.view.watched && t.view.watched[id].Included?
      ensures exists i :: ComesFrom(bound, t, id, t.view.watched[id], i)
    {
      var i: nat :| ComesFrom(bound, s, id, s.view.watched[id], i);
      assert i < keep;
      assert s.cursor[..keep][i] == s.world[..keep][i];
      HeightsUpTo(s.world, i);
      assert ComesFrom(bound, t, id, t.view.watched[id], i);
    }
  }

  /** Nothing is offered on reconnect only when every record left is of a pinned block, so jumping to
      the node's tip leaves no record of a block that is gone. */
  lemma AskTipKeepsSound(bound: nat, f: nat, s: System)
    requires Sound(bound, f, s) && Enabled(bound, s, AskTip)
    ensures Sound(bound, f, Apply(bound, f, s, AskTip))
  {
    var t := Apply(bound, f, s, AskTip);
    forall id | id in t.view.watched && t.view.watched[id].Included?
      ensures exists i :: ComesFrom(bound, t, id, t.view.watched[id], i)
    {
      var i: nat :| ComesFrom(bound, s, id, s.view.watched[id], i);
      assert Pinned(bound, s, i);
      assert ComesFrom(bound, t, id, t.view.watched[id], i);
    }
    SettledStays(bound, s, t);
  }

  lemma RejoinKeepsSound(bound: nat, f: nat, s: System)
    requires Sound(bound, f, s) && Enabled(bound, s, Rejoin)
    ensures Sound(bound, f, Apply(bound, f, s, Rejoin))
  {
    var t := Apply(bound, f, s, Rejoin);
    forall i | 0 <= i < |t.cursor|
      ensures i < |t.world| && t.cursor[i] == t.world[i]
    {
      assert s.world[..|s.asked.value|][i] == s.asked.value[i];
    }
    forall id | id in t.view.watched && t.view.watched[id].Included?
      ensures exists i :: ComesFrom(bound, t, id, t.view.watched[id], i)
    {
      var i: nat :| ComesFrom(bound, s, id, s.view.watched[id], i);
      assert ComesFrom(bound, t, id, t.view.watched[id], i);
    }
    SettledStays(bound, s, t);
  }

  lemma FollowerStepKeepsSound(bound: nat, f: nat, s: System, step: Step)
    requires Sound(bound, f, s) && Enabled(bound, s, step) && bound <= RECENT_POINTS_CAP
    requires step.Tell? || step.Untell? || step.AskTip? || step.Rejoin?
    ensures Sound(bound, f, Apply(bound, f, s, step))
  {
    var t := Apply(bound, f, s, step);
    match step {
      case Tell =>
        TellKeepsChains(bound, f, s);
        TellKeepsRecords(bound, f, s);
        SettledStays(bound, s, t);
      case Untell(keep) =>
        UntellKeepsChains(bound, f, s, keep);
        UntellKeepsRecords(bound, f, s, keep);
        SettledStays(bound, s, t);
      case AskTip => AskTipKeepsSound(bound, f, s);
      case Rejoin => RejoinKeepsSound(bound, f, s);
    }
  }

  lemma RegistryStepKeepsSound(bound: nat, f: nat, s: System, step: Step)
    requires Sound(bound, f, s) && Enabled(bound, s, step)
    requires step.WatchTx? || step.UnwatchTx? || step.Restart?
    ensures Sound(bound, f, Apply(bound, f, s, step))
  {
    var t := Apply(bound, f, s, step);
    forall id | id in t.view.watched && t.view.watched[id].Included?
      ensures exists i :: ComesFrom(bound, t, id, t.view.watched[id], i)
    {
      var i: nat :| ComesFrom(bound, s, id, s.view.watched[id], i);
      assert ComesFrom(bound, t, id, t.view.watched[id], i);
    }
    SettledStays(bound, s, t);
  }

  lemma RowStepKeepsSound(bound: nat, f: nat, s: System, step: Step)
    requires Sound(bound, f, s) && Enabled(bound, s, step)
    requires step.Claim? || step.Submit? || step.Fail? || step.Reopen? || step.Write? || step.Drop?
    ensures Sound(bound, f, Apply(bound, f, s, step))
  {
    var t := Apply(bound, f, s, step);
    RowsDoNotMatterToRecords(bound, s, t);
    SettledStays(bound, s, t);
  }

  lemma RowsDoNotMatterToRecords(bound: nat, s: System, t: System)
    requires ChainsSound(bound, s) && RecordsSound(bound, s) && t.(rows := s.rows, looked := s.looked) == s
    ensures ChainsSound(bound, t) && RecordsSound(bound, t)
  {
    forall id | id in t.view.watched && t.view.watched[id].Included?
      ensures exists i :: ComesFrom(bound, t, id, t.view.watched[id], i)
    {
      var i: nat :| ComesFrom(bound, s, id, s.view.watched[id], i);
      assert ComesFrom(bound, t, id, t.view.watched[id], i);
    }
  }

  /** The finality depth is deep enough: an answer that finalizes is about a transaction no rollback
      reaches. */
  lemma FinalizingAnswerIsSettled(bound: nat, f: nat, s: System, txId: string, depth: nat)
    requires Sound(bound, f, s) && bound < Max(f, 1)
    requires MayAnswer(s, txId, Runs.Confirmed(depth)) && depth >= f
    ensures Settled(bound, s, Lower(txId))
  {
    var id := Lower(txId);
    if id in s.view.watched {
      var w := s.view.watched[id];
      var i: nat :| ComesFrom(bound, s, id, w, i);
      assert s.world[i].Holds(id);
    } else {
      var i :| 0 <= i < |s.world| && s.world[i].Holds(id);
      assert s.world[i].height + bound <= s.peak;
    }
  }

  lemma LookKeepsSound(bound: nat, f: nat, s: System, key: string, answer: Runs.Confirmation)
    requires Sound(bound, f, s) && Enabled(bound, s, Look(key, answer)) && bound < Max(f, 1)
    ensures Sound(bound, f, Apply(bound, f, s, Look(key, answer)))
  {
    var t := Apply(bound, f, s, Look(key, answer));
    forall id | id in t.view.watched && t.view.watched[id].Included?
      ensures exists i :: ComesFrom(bound, t, id, t.view.watched[id], i)
    {
      var i: nat :| ComesFrom(bound, s, id, s.view.watched[id], i);
      assert ComesFrom(bound, t, id, t.view.watched[id], i);
    }
    if answer.Confirmed? && answer.depth >= f {
      FinalizingAnswerIsSettled(bound, f, s, s.rows[key].outcome.value.txId, answer.depth);
    }
    SettledStays(bound, s, t);
  }

  /** Rollbacks are shallower than the finality depth and no deeper than the points kept. */
  predicate DeepEnough(bound: nat, finalityDepth: nat) {
    bound < Max(finalityDepth, 1) && bound <= RECENT_POINTS_CAP
  }

  lemma StepKeepsSound(bound: nat, f: nat, s: System, step: Step)
    requires Sound(bound, f, s) && Enabled(bound, s, step) && DeepEnough(bound, f)
    ensures Sound(bound, f, Apply(bound, f, s, step))
  {
    match step {
      case Mint(_) => WorldStepKeepsSound(bound, f, s, step);
      case Reorg(_) => WorldStepKeepsSound(bound, f, s, step);
      case Tell => FollowerStepKeepsSound(bound, f, s, step);
      case Untell(_) => FollowerStepKeepsSound(bound, f, s, step);
      case AskTip => FollowerStepKeepsSound(bound, f, s, step);
      case Rejoin => FollowerStepKeepsSound(bound, f, s, step);
      case WatchTx(_) => RegistryStepKeepsSound(bound, f, s, step);
      case UnwatchTx(_) => RegistryStepKeepsSound(bound, f, s, step);
      case Restart => RegistryStepKeepsSound(bound, f, s, step);
      case Claim(_, _, _) => RowStepKeepsSound(bound, f, s, step);
      case Submit(_, _, _) => RowStepKeepsSound(bound, f, s, step);
      case Fail(_, _, _, _) => RowStepKeepsSound(bound, f, s, step);
      case Reopen(_, _) => RowStepKeepsSound(bound, f, s, step);
      case Look(key, answer) => LookKeepsSound(bound, f, s, key, answer);
      case Write(_) => RowStepKeepsSound(bound, f, s, step);
      case Drop => RowStepKeepsSound(bound, f, s, step);
    }
  }

  lemma {:induction false} RunKeepsSound(bound: nat, f: nat, s: System, steps: seq<Step>, t: System)
    requires Sound(bound, f, s) && Reaches(bound, f, s, steps, t) && DeepEnough(bound, f)
    ensures Sound(bound, f, t)
    decreases |steps|
  {
    if steps != [] {
      StepKeepsSound(bound, f, s, steps[0]);
      RunKeepsSound(bound, f, Apply(bound, f, s, steps[0]), steps[1..], t);
    }
  }

  // ---------- settled stays settled ----------

  /** A block this deep keeps its place through every later step. */
  lemma {:induction false} DeepBlockStays(bound: nat, f: nat, s: System, steps: seq<Step>, t: System, i: nat)
    requires Reaches(bound, f, s, steps, t)
    requires i < |s.world| && s.world[i].height + bound <= s.peak
    ensures i < |t.world| && t.world[i] == s.world[i]
    decreases |steps|
  {
    if steps != [] {
      DeepBlockStays(bound, f, Apply(bound, f, s, steps[0]), steps[1..], t, i);
    }
  }

  lemma InitialIsSound(bound: nat, f: nat)
    ensures Sound(bound, f, INITIAL)
  {
  }

  /** From the moment a row is FINAL, the block holding its transfer is on the node's chain and no
      later step removes it. */
  lemma FinalTransferIsNeverRemoved(bound: nat, f: nat, before: seq<Step>, s: System, later: seq<Step>, t: System, key: string)
    requires DeepEnough(bound, f)
    requires Reaches(bound, f, INITIAL, before, s) && HasStatus(s.rows, key, Store.Final)
    requires Reaches(bound, f, s, later, t)
    ensures s.rows[key].outcome.Some?
    ensures exists i :: && 0 <= i < |s.world| && s.world[i].Holds(Lower(s.rows[key].outcome.value.txId))
                        && i < |t.world| && t.world[i] == s.world[i]
  {
    InitialIsSound(bound, f);
    RunKeepsSound(bound, f, INITIAL, before, s);
    var id := Lower(s.rows[key].outcome.value.txId);
    var i :| 0 <= i < |s.world| && s.world[i].Holds(id) && s.world[i].height + bound <= s.peak;
    DeepBlockStays(bound, f, s, later, t, i);
  }
}
