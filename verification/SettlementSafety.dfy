/**
 What holds over every run of the settlement leg: a key is paid at most once, exactly when one
 delivery is handled at a time; the recorded transfer is the one on chain; FINAL is earned, kept
 and repeated to every later redelivery.
 */
module SettlementSafety {
  import opened Prelude
  import opened SettlementStore
  import opened SettlementRuns
  import opened SettlementInstruction

  lemma InitialIsSound(consumers: nat, finalityDepth: nat, key: string)
    ensures Sound(Initial(consumers, finalityDepth), key)
  {
  }

  lemma SoundMeansPaidAtMostOnce(s: State, key: string)
    requires Sound(s, key)
    ensures |s.Transfers(key)| <= 1
  {
  }

  // ---------- at most once ----------

  /** One consumer: whatever is redelivered, refused, lost, crashed or written too late, at most one
      transfer per idempotency key ever reaches the chain. */
  lemma PaidAtMostOnce(finalityDepth: nat, steps: seq<Step>, t: State, key: string)
    requires Reaches(Initial(1, finalityDepth), steps, t)
    ensures |t.Transfers(key)| <= 1
  {
    InitialIsSound(1, finalityDepth, key);
    RunKeepsSound(Initial(1, finalityDepth), steps, t, key);
    SoundMeansPaidAtMostOnce(t, key);
  }

  /** Any number of consumers: a key none of whose attempts was refused is still paid at most once,
      because the claim itself is exclusive. */
  lemma PaidAtMostOnceUnlessRefused(consumers: nat, finalityDepth: nat, steps: seq<Step>, t: State, key: string)
    requires Reaches(Initial(consumers, finalityDepth), steps, t)
    requires NeverRefused(Initial(consumers, finalityDepth), steps, key)
    ensures |t.Transfers(key)| <= 1
  {
    InitialIsSound(consumers, finalityDepth, key);
    RunKeepsSound(Initial(consumers, finalityDepth), steps, t, key);
    SoundMeansPaidAtMostOnce(t, key);
  }

  ghost predicate NeverPaysTwice(consumers: nat, finalityDepth: nat) {
    forall steps, t, key :: Reaches(Initial(consumers, finalityDepth), steps, t) ==> |t.Transfers(key)| <= 1
  }

  /** Reopening a refused attempt does not tell the caller whether it won the row, so two consumers
      that both read the refused row both pay. */
  lemma NeverPaysTwiceExactlyWhenSerial(consumers: nat, finalityDepth: nat)
    ensures NeverPaysTwice(consumers, finalityDepth) <==> consumers <= 1
  {
    var s := Initial(consumers, finalityDepth);
    if consumers <= 1 {
      forall steps, t, key | Reaches(s, steps, t)
        ensures |t.Transfers(key)| <= 1
      {
        InitialIsSound(consumers, finalityDepth, key);
        RunKeepsSound(s, steps, t, key);
        SoundMeansPaidAtMostOnce(t, key);
      }
    } else {
      var steps, t := TwoConsumersPayTwice(consumers, finalityDepth);
      assert Reaches(s, steps, t) && |t.Transfers("k")| == 2;
    }
  }

  // ---------- the run with two payments ----------

  const SOME_TERMS := Terms(None, "KES", 100, "addr_test1creditor")

  /** A table holding one row and consumers 0 and 1 at the given places. */
  function Stage(n: nat, f: nat, row: Row, first: Handling, second: Handling): State
    requires n >= 2
  {
    State(map["k" := row], map[], seq(n, h => if h == 0 then first else if h == 1 then second else Idle), Resting, f)
  }

  const CLAIMED := FreshRow(SOME_TERMS, 0)
  const REFUSED := CLAIMED.(status := Error, errorReason := Some("refused"), retryable := true)

  lemma FirstAttemptIsRefused(n: nat, f: nat) returns (steps: seq<Step>)
    requires n >= 2
    ensures Reaches(Initial(n, f), steps, Stage(n, f, REFUSED, Idle, Idle))
  {
    var s0 := Initial(n, f);
    var s1 := Apply(s0, Deliver(0, "k", SOME_TERMS));
    Extend(s0, [], s0, Deliver(0, "k", SOME_TERMS));
    var s2 := Apply(s1, Insert(0, 0));
    Extend(s0, [] + [Deliver(0, "k", SOME_TERMS)], s1, Insert(0, 0));
    assert s2 == Stage(n, f, CLAIMED, Paying("k"), Idle);
    steps := [] + [Deliver(0, "k", SOME_TERMS)] + [Insert(0, 0)];
    Extend(s0, steps, s2, Refuse(0, "refused"));
    var s3 := Apply(s2, Refuse(0, "refused"));
    assert s3 == Stage(n, f, CLAIMED, Failed("k", "refused", true), Idle);
    steps := steps + [Refuse(0, "refused")];
    Extend(s0, steps, s3, RecordError(0, 0));
    assert Apply(s3, RecordError(0, 0)) == Stage(n, f, REFUSED, Idle, Idle);
    steps := steps + [RecordError(0, 0)];
  }

  /** Consumer h picks the redelivered instruction up and reads the refused row. */
  lemma BothReadTheRefusedRow(n: nat, f: nat, before: seq<Step>, h: nat, other: Handling) returns (steps: seq<Step>)
    requires n >= 2 && h < 2
    requires Reaches(Initial(n, f), before, if h == 0 then Stage(n, f, REFUSED, Idle, other) else Stage(n, f, REFUSED, other, Idle))
    ensures Reaches(Initial(n, f), steps,
                    if h == 0 then Stage(n, f, REFUSED, Reopening("k"), other) else Stage(n, f, REFUSED, other, Reopening("k")))
  {
    var i := Initial(n, f);
    var s0 := if h == 0 then Stage(n, f, REFUSED, Idle, other) else Stage(n, f, REFUSED, other, Idle);
    Extend(i, before, s0, Deliver(h, "k", SOME_TERMS));
    var s1 := Apply(s0, Deliver(h, "k", SOME_TERMS));
    steps := before + [Deliver(h, "k", SOME_TERMS)];
    Extend(i, steps, s1, Insert(h, 0));
    var s2 := Apply(s1, Insert(h, 0));
    steps := steps + [Insert(h, 0)];
    Extend(i, steps, s2, Read(h));
    var s3 := Apply(s2, Read(h));
    steps := steps + [Read(h)];
    assert s3 == if h == 0 then Stage(n, f, REFUSED, Reopening("k"), other) else Stage(n, f, REFUSED, other, Reopening("k"));
  }

  lemma TwoConsumersPayTwice(n: nat, f: nat) returns (steps: seq<Step>, t: State)
    requires n >= 2
    ensures Reaches(Initial(n, f), steps, t)
    ensures t.Transfers("k") == ["tx-1", "tx-2"]
  {
    var i := Initial(n, f);
    steps := FirstAttemptIsRefused(n, f);
    steps := BothReadTheRefusedRow(n, f, steps, 0, Idle);
    steps := BothReadTheRefusedRow(n, f, steps, 1, Reopening("k"));
    var s0 := Stage(n, f, REFUSED, Reopening("k"), Reopening("k"));
    Extend(i, steps, s0, Reopen(0, 0));
    var s1 := Apply(s0, Reopen(0, 0));
    steps := steps + [Reopen(0, 0)];
    assert s1 == Stage(n, f, CLAIMED, Paying("k"), Reopening("k"));
    Extend(i, steps, s1, Reopen(1, 0));
    var s2 := Apply(s1, Reopen(1, 0));
    steps := steps + [Reopen(1, 0)];
    assert s2 == Stage(n, f, CLAIMED, Paying("k"), Paying("k"));
    Extend(i, steps, s2, HandToNode(0, "tx-1"));
    var s3 := Apply(s2, HandToNode(0, "tx-1"));
    steps := steps + [HandToNode(0, "tx-1")];
    Extend(i, steps, s3, HandToNode(1, "tx-2"));
    t := Apply(s3, HandToNode(1, "tx-2"));
    steps := steps + [HandToNode(1, "tx-2")];
  }

  // ---------- SUBMITTED and FINAL mean paid ----------

  /** A row that says SUBMITTED or FINAL names the one transfer that is on chain. */
  lemma RecordedTransferIsOnChain(finalityDepth: nat, steps: seq<Step>, t: State, key: string)
    requires Reaches(Initial(1, finalityDepth), steps, t)
    requires key in t.rows && (t.rows[key].status == Submitted || t.rows[key].status == Final)
    ensures t.rows[key].outcome.Some?
    ensures t.Transfers(key) == [t.rows[key].outcome.value.txId]
    ensures t.rows[key].status == Final ==> t.rows[key].lastDepth >= finalityDepth
  {
    InitialIsSound(1, finalityDepth, key);
    RunKeepsSound(Initial(1, finalityDepth), steps, t, key);
    RunKeepsShape(Initial(1, finalityDepth), steps, t);
  }

  lemma {:induction false} RunKeepsShape(s: State, steps: seq<Step>, t: State)
    requires Reaches(s, steps, t)
    ensures t.finalityDepth == s.finalityDepth && |t.consumers| == |s.consumers|
    decreases |steps|
  {
    if steps != [] {
      RunKeepsShape(Apply(s, steps[0]), steps[1..], t);
    }
  }

  // ---------- FINAL is absorbing ----------

  lemma StepKeepsFinalRow(s: State, step: Step, key: string)
    requires Sound(s, key) && |s.consumers| <= 1 && Enabled(s, step)
    requires key in s.rows && s.rows[key].status == Final
    ensures key in Apply(s, step).rows && Apply(s, step).rows[key] == s.rows[key]
  {
    if step.Judge? {
      assert s.watcher.Ahead()[0] == s.watcher.key;
    } else if ByConsumer(step) && step.h < |s.consumers| && !s.consumers[step.h].Idle? && s.consumers[step.h].key == key {
      assert HandlingSound(s.consumers[step.h], s.RowAt(key), s.Transfers(key));
    }
  }

  /** Once FINAL, a row is never written again, although three of the statements carry no status guard. */
  lemma {:induction false} FinalIsAbsorbing(s: State, steps: seq<Step>, t: State, key: string)
    requires Sound(s, key) && |s.consumers| <= 1 && Reaches(s, steps, t)
    requires key in s.rows && s.rows[key].status == Final
    ensures key in t.rows && t.rows[key] == s.rows[key] && t.Transfers(key) == s.Transfers(key)
    decreases |steps|
  {
    RunKeepsSound(s, steps, t, key);
    if steps != [] {
      StepKeepsFinalRow(s, steps[0], key);
      StepKeepsSound(s, steps[0], key);
      FinalIsAbsorbing(Apply(s, steps[0]), steps[1..], t, key);
    }
  }

  // ---------- FINAL is justified ----------

  /** Somewhere in the run the watcher, holding an answer of this depth for this SUBMITTED row, wrote. */
  ghost predicate FinalizedOn(s: State, steps: seq<Step>, key: string, depth: nat)
    decreases |steps|
  {
    && steps != [] && Enabled(s, steps[0])
    && (|| (&& steps[0].Judge? && s.watcher.key == key && s.watcher.answer == Confirmed(depth)
            && depth >= s.finalityDepth && key in s.rows && s.rows[key].status == Submitted)
        || FinalizedOn(Apply(s, steps[0]), steps[1..], key, depth))
  }

  lemma OnlyAConfirmationFinalizes(s: State, step: Step, key: string)
    requires Enabled(s, step)
    requires !(key in s.rows && s.rows[key].status == Final)
    requires key in Apply(s, step).rows && Apply(s, step).rows[key].status == Final
    ensures step.Judge? && s.watcher.key == key
    ensures s.watcher.answer.Confirmed? && s.watcher.answer.depth >= s.finalityDepth
    ensures key in s.rows && s.rows[key].status == Submitted
    ensures Apply(s, step).rows[key].lastDepth == s.watcher.answer.depth
  {
  }

  /** A row turns FINAL only from SUBMITTED, on an observed depth of at least the threshold, and that
      depth is the one the row shows ever after. */
  lemma {:induction false} FinalIsJustified(s: State, steps: seq<Step>, t: State, key: string)
    requires Sound(s, key) && |s.consumers| <= 1 && Reaches(s, steps, t)
    requires !(key in s.rows && s.rows[key].status == Final)
    requires key in t.rows && t.rows[key].status == Final
    ensures FinalizedOn(s, steps, key, t.rows[key].lastDepth)
    decreases |steps|
  {
    var m := Apply(s, steps[0]);
    StepKeepsSound(s, steps[0], key);
    if key in m.rows && m.rows[key].status == Final {
      OnlyAConfirmationFinalizes(s, steps[0], key);
      FinalIsAbsorbing(m, steps[1..], t, key);
    } else {
      FinalIsJustified(m, steps[1..], t, key);
    }
  }

  // ---------- redelivery ----------

  /** The reply a step sends for an existing row, if it sends one. */
  ghost function RedeliveryReply(s: State, step: Step): Option<Reply>
    requires Enabled(s, step)
  {
    if step.Read? && !s.rows[s.consumers[step.h].key].MayRetry()
    then Some(ReplyForExisting(s.rows[s.consumers[step.h].key], s.finalityDepth))
    else None
  }

  /** From the moment a row is FINAL, every redelivery that reads it is answered FINAL, with the
      transaction that is on chain and a depth past the threshold, and pays nothing. */
  lemma FinalIsRepeated(s: State, steps: seq<Step>, t: State, key: string, h: nat)
    requires Sound(s, key) && |s.consumers| <= 1 && Reaches(s, steps, t)
    requires key in s.rows && s.rows[key].status == Final
    requires h < |t.consumers| && t.consumers[h] == Reading(key)
    ensures Enabled(t, Read(h)) && Apply(t, Read(h)) == t.With(h, Idle)
    ensures RedeliveryReply(t, Read(h)) ==
            Some(Reported(Final, Some(s.Transfers(key)[0]), s.rows[key].lastDepth, s.finalityDepth))
    ensures s.rows[key].lastDepth >= s.finalityDepth
  {
    FinalIsAbsorbing(s, steps, t, key);
    RunKeepsShape(s, steps, t);
  }
}
