/**
 What a valid settlement instruction brings about: paid, recorded and answered by the backend's answer,
 or answered from the row that is there. And over any number of deliveries of one key: the first attempt
 that is not refused is the last, and every later delivery repeats its reply.
 */
module Redelivery {
  import opened Prelude
  import opened Amounts
  import opened SettlementStore
  import opened SettlementInstruction

  // ---------- one delivery ----------

  /** An instruction with a well-formed amount, a creditor and a key that is not blank is taken, for its
      amount in minor units; the idempotency key goes before the settlement id. */
  lemma WellFormedInstructionIsTaken(m: Message, d: Decimal, before: string, after: string)
    requires d.WellFormed() && Blank(before) && Blank(after) && FloorOfHundredths(d) <= U128_MAX
    requires m.amount == Some(before + d.Text() + after) && m.creditorAddress.Some?
    requires m.idempotencyKey.Some? || m.settlementId.Some?
    requires !Blank(if m.idempotencyKey.Some? then m.idempotencyKey.value else m.settlementId.value)
    ensures Validated(m) ==
            Ok((if m.idempotencyKey.Some? then m.idempotencyKey.value else m.settlementId.value,
                Terms(m.settlementId, if m.currency.Some? then m.currency.value else "",
                      FloorOfHundredths(d), m.creditorAddress.value)))
  {
    ParsesToFloorOfHundredths(d, before, after);
  }

  /** Anything less is refused as a bad message and changes nothing. */
  lemma IncompleteInstructionIsRefused(rows: Rows, ledger: Ledger, m: Message, env: Surroundings, finalityDepth: nat)
    ensures var done := Handle(rows, ledger, m, true, env, finalityDepth);
            m.amount.None? || MinorUnits(m.amount.value, 2).Err? || m.creditorAddress.None?
            || (m.idempotencyKey.None? && m.settlementId.None?)
            || (m.idempotencyKey.Some? && Blank(m.idempotencyKey.value))
            || (m.idempotencyKey.None? && m.settlementId.Some? && Blank(m.settlementId.value))
            <==> done.reply.Refusal? && done.reply.code == BadMessage
    ensures var done := Handle(rows, ledger, m, true, env, finalityDepth);
            done.reply.Refusal? && done.reply.code == BadMessage ==> done.rows == rows && done.ledger == ledger
  {
  }

  /** Without a backend nothing is taken. */
  lemma NothingIsTakenWithoutABackend(rows: Rows, ledger: Ledger, m: Message, env: Surroundings, finalityDepth: nat)
    ensures var done := Handle(rows, ledger, m, false, env, finalityDepth);
            && done.rows == rows && done.ledger == ledger && AskedFor(rows, m, false, env) == []
            && done.reply.Refusal? && done.reply.code == NotConfigured
  {
  }

  /** The row may be attempted: it is new, or a failure that left nothing on the chain. */
  predicate Attemptable(rows: Rows, key: string) {
    key !in rows || (rows[key].status == Error && rows[key].retryable)
  }

  /** The statements an attempt needs are answered. */
  predicate Opened(rows: Rows, key: string, env: Surroundings) {
    env.claimUp && (key in rows ==> env.readUp && env.reopenUp)
  }

  /** What the answer put on the chain. */
  function Sent(answer: SettleAnswer): seq<string> {
    match answer
    case SettledOk(o) => [o.txId]
    case NodeRefused(_) => []
    case Ambiguous(_, landed) => if landed.Some? then [landed.value] else []
  }

  /** The row shows this answer. */
  predicate Shows(row: Row, answer: SettleAnswer, at: nat) {
    && row.updatedAt == at
    && match answer
       case SettledOk(o) => row.status == Submitted && row.outcome == Some(o)
       case NodeRefused(reason) => row.status == Error && row.errorReason == Some(reason) && row.retryable
       case Ambiguous(reason, _) => row.status == Error && row.errorReason == Some(reason) && !row.retryable
  }

  /** An attempt pays by the backend's answer, shows it in the row if the table can be written, and
      replies it either way; a row that cannot be written stays claimed. */
  lemma AttemptPaysRecordsAndReplies(rows: Rows, ledger: Ledger, m: Message, env: Surroundings, finalityDepth: nat)
    requires Validated(m).Ok? && Attemptable(rows, Validated(m).value.0) && Opened(rows, Validated(m).value.0, env)
    ensures var (key, terms) := Validated(m).value;
            var done := Handle(rows, ledger, m, true, env, finalityDepth);
            && Transfers(done.ledger, key) == Transfers(ledger, key) + Sent(env.answer)
            && key in done.rows
            && (if env.recordUp then Shows(done.rows[key], env.answer, env.recordAt)
                else done.rows[key].status == Settling && !done.rows[key].retryable && done.rows[key].errorReason == None)
            && done.rows[key].terms == (if key in rows then rows[key].terms else terms)
            && (key !in rows ==> done.rows[key].lastDepth == 0 && done.rows[key].createdAt == env.claimAt)
    ensures var done := Handle(rows, ledger, m, true, env, finalityDepth);
            match env.answer
            case SettledOk(o) => done.reply == Reported(Submitted, Some(o.txId), 0, finalityDepth)
            case NodeRefused(reason) => done.reply == Refusal(SettlementFailed, reason)
            case Ambiguous(reason, _) => done.reply == Refusal(SettlementFailed, reason)
  {
    var key := Validated(m).value.0;
    assert Transfers(ledger, key) + [] == Transfers(ledger, key);
  }

  /** The backend is asked exactly when an attempt is made, once, for the amount and the creditor of the
      message. */
  lemma BackendIsAskedOnce(rows: Rows, m: Message, env: Surroundings)
    requires Validated(m).Ok?
    ensures var (key, terms) := Validated(m).value;
            AskedFor(rows, m, true, env) ==
              if Attemptable(rows, key) && Opened(rows, key, env)
              then [Asked(key, terms.currency, terms.netAmountMinor, terms.creditorAddress)] else []
  {
  }

  /** Any other row answers for itself: nothing is paid, nothing is written. */
  lemma OtherRowsAnswerForThemselves(rows: Rows, ledger: Ledger, m: Message, env: Surroundings, finalityDepth: nat)
    requires Validated(m).Ok? && env.claimUp && env.readUp && !Attemptable(rows, Validated(m).value.0)
    ensures var row := rows[Validated(m).value.0];
            var done := Handle(rows, ledger, m, true, env, finalityDepth);
            && done.rows == rows && done.ledger == ledger
            && (if row.status == Error then
                  done.reply == Refusal(SettlementFailed, if row.errorReason.Some? then row.errorReason.value else "settlement failed")
                else
                  done.reply == Reported(row.status, if row.outcome.Some? then Some(row.outcome.value.txId) else None,
                                         row.lastDepth, finalityDepth))
  {
  }

  /** A statement before the payment that is not answered ends the handling with nothing done. */
  lemma StoreDownPaysNothing(rows: Rows, ledger: Ledger, m: Message, env: Surroundings, finalityDepth: nat)
    requires Validated(m).Ok?
    ensures var key := Validated(m).value.0;
            var done := Handle(rows, ledger, m, true, env, finalityDepth);
            !env.claimUp || (key in rows && (!env.readUp || (Attemptable(rows, key) && !env.reopenUp))) <==>
            done.reply.Refusal? && done.reply.code == Platform
    ensures var done := Handle(rows, ledger, m, true, env, finalityDepth);
            done.reply.Refusal? && done.reply.code == Platform ==> done.rows == rows && done.ledger == ledger
  {
  }

  // ---------- any number of deliveries ----------

  /** The table and the chain after handling the message once for each of these surroundings, in turn. */
  function Delivered(rows: Rows, ledger: Ledger, m: Message, envs: seq<Surroundings>, finalityDepth: nat): Handled
    requires envs != []
    decreases |envs|
  {
    var last := |envs| - 1;
    if last == 0 then Handle(rows, ledger, m, true, envs[0], finalityDepth)
    else
      var before := Delivered(rows, ledger, m, envs[..last], finalityDepth);
      Handle(before.rows, before.ledger, m, true, envs[last], finalityDepth)
  }

  predicate AllUp(envs: seq<Surroundings>) {
    forall i :: 0 <= i < |envs| ==> envs[i].claimUp && envs[i].readUp && envs[i].reopenUp && envs[i].recordUp
  }

  /** The first attempt that is not refused, or the number of them if all are. */
  function Deciding(envs: seq<Surroundings>): (n: nat)
    ensures n <= |envs| && (n < |envs| ==> !envs[n].answer.NodeRefused?)
    ensures forall i :: 0 <= i < n ==> envs[i].answer.NodeRefused?
  {
    if envs == [] then 0 else
      var n := Deciding(envs[..|envs| - 1]);
      if n < |envs| - 1 || !envs[|envs| - 1].answer.NodeRefused? then n else n + 1
  }

  lemma DecidingOfPrefix(envs: seq<Surroundings>)
    requires envs != []
    ensures var last := |envs| - 1;
            var n := Deciding(envs[..last]);
            && (n < last ==> Deciding(envs) == n)
            && (n == last ==> Deciding(envs) == if envs[last].answer.NodeRefused? then last + 1 else last)
  {
  }

  /** What the answer means for the one who asked. */
  predicate Replies(reply: Reply, answer: SettleAnswer, finalityDepth: nat) {
    match answer
    case SettledOk(o) => reply == Reported(Submitted, Some(o.txId), 0, finalityDepth)
    case NodeRefused(reason) => reply == Refusal(SettlementFailed, reason)
    case Ambiguous(reason, _) => reply == Refusal(SettlementFailed, reason)
  }

  /** What stands after some deliveries: the deciding answer, or the last refusal. */
  function Standing(envs: seq<Surroundings>): Surroundings
    requires envs != []
  {
    if Deciding(envs) < |envs| then envs[Deciding(envs)] else envs[|envs| - 1]
  }

  /** Of a key that is new, delivered any number of times with the table answering: refused attempts leave
      no trace on the chain and are tried again; the first other answer is paid, recorded and replied, once,
      and every later delivery repeats that reply and pays nothing. */
  lemma {:induction false} FirstAnswerStands(rows: Rows, ledger: Ledger, m: Message, envs: seq<Surroundings>, finalityDepth: nat)
    requires Validated(m).Ok? && Validated(m).value.0 !in rows && envs != [] && AllUp(envs)
    ensures var key := Validated(m).value.0;
            var done := Delivered(rows, ledger, m, envs, finalityDepth);
            && Transfers(done.ledger, key) == Transfers(ledger, key) + Sent(Standing(envs).answer)
            && key in done.rows && Shows(done.rows[key], Standing(envs).answer, Standing(envs).recordAt)
            && done.rows[key].terms == Validated(m).value.1 && done.rows[key].lastDepth == 0
            && Replies(done.reply, Standing(envs).answer, finalityDepth)
    decreases |envs|
  {
    var key, last := Validated(m).value.0, |envs| - 1;
    DecidingOfPrefix(envs);
    if last == 0 {
      assert Deciding(envs[..0]) == 0;
      AttemptPaysRecordsAndReplies(rows, ledger, m, envs[0], finalityDepth);
    } else {
      var prefix := envs[..last];
      assert forall i :: 0 <= i < last ==> prefix[i] == envs[i];
      FirstAnswerStands(rows, ledger, m, prefix, finalityDepth);
      var before := Delivered(rows, ledger, m, prefix, finalityDepth);
      if Deciding(prefix) < last {
        OtherRowsAnswerForThemselves(before.rows, before.ledger, m, envs[last], finalityDepth);
      } else {
        assert Standing(prefix).answer.NodeRefused?;
        AttemptPaysRecordsAndReplies(before.rows, before.ledger, m, envs[last], finalityDepth);
        assert Transfers(before.ledger, key) == Transfers(ledger, key);
      }
    }
  }
}
