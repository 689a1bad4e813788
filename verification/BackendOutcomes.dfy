/**
 When settling in ADA succeeds, what its outcome says, and which failure each cause leads to: refusals
 are retried, so the cause of each matters. And what confirming a transfer answers.
 */
module BackendOutcomes {
  import opened Prelude
  import opened Amounts
  import opened TxBuilder
  import opened CardanoSettlement
  import opened BuildOutcomes
  import Coins = CoinSelection
  import Follower
  import Leg = SettlementInstruction
  import Store = SettlementStore
  import Redelivery

  function Lovelace(i: Instruction, env: Surroundings): nat
    requires env.quote.Ok? && FiatToLovelace(i.netAmountMinor, env.quote.value).Ok?
  {
    FiatToLovelace(i.netAmountMinor, env.quote.value).value
  }

  /** The debtor is this wallet and the amount can be sized at the quoted rate. */
  predicate Sized(wallet: string, i: Instruction, env: Surroundings) {
    i.debtor == wallet && env.quote.Ok? && FiatToLovelace(i.netAmountMinor, env.quote.value).Ok?
  }

  /** And the node has told its parameters, its tip and the wallet's coins. */
  predicate Informed(wallet: string, i: Instruction, env: Surroundings) {
    Sized(wallet, i, env) && env.params.Ok? && env.tipUp.Ok? && env.coins.Ok?
  }

  function Payment(i: Instruction, env: Surroundings): Result<Tx, BuildError>
    requires SumsFit(i, env) && env.quote.Ok? && FiatToLovelace(i.netAmountMinor, env.quote.value).Ok?
    requires env.params.Ok? && env.coins.Ok?
  {
    Build(Order(env.coins.value, Lovelace(i, env), env.params.value, env.layout))
  }

  /** The node took the payment, and knows it by the id computed here, whatever the case of its digits. */
  predicate Accepted(wallet: string, i: Instruction, env: Surroundings)
    requires SumsFit(i, env)
  {
    && Informed(wallet, i, env) && env.addressesOk && Payment(i, env).Ok?
    && env.node.Taken? && Lower(env.node.reportedId) == Lower(env.idOf(Payment(i, env).value))
  }

  /** Settling succeeds exactly when the payment could be built and the node took it under its own id. The
      outcome then names that transaction, and as many lovelace as it pays, in decimal. */
  lemma SettlesExactlyWhenAccepted(wallet: string, view: Follower.View, i: Instruction, env: Surroundings)
    requires SumsFit(i, env)
    ensures SettleOf(wallet, view, i, env).result.Ok? <==> Accepted(wallet, i, env)
    ensures SettleOf(wallet, view, i, env).result.Ok? ==>
              var s, tx := SettleOf(wallet, view, i, env), Payment(i, env).value;
              var o := s.result.value;
              && o.txId == env.idOf(tx) && o.chain == "cardano" && o.asset == "ADA"
              && AllDigits(o.assetAmount) && Value(o.assetAmount) == tx.payment == Lovelace(i, env)
              && s.landed.Some? && s.landed.value.id == o.txId && s.landed.value.tx == tx
              && s.landed.value.creditor == i.creditor
  {
    if Accepted(wallet, i, env) {
      BuiltTransactionIsSendable(OrderOf(env, Lovelace(i, env)));
    }
  }

  /** The first of the node's answers that is a failure. */
  predicate FirstFailureIs(env: Surroundings, e: Failure) {
    if env.params.Err? then e == env.params.error
    else if env.tipUp.Err? then e == env.tipUp.error
    else env.coins.Err? && e == env.coins.error
  }

  /** A settlement is refused, and so retried, exactly for these causes: another debtor, an amount without
      a size, a refusal passed on from the rate source or the node, a wallet too poor, a transaction too
      large, and a submission the node answers with an RPC error. */
  lemma RefusedExactlyFor(wallet: string, view: Follower.View, i: Instruction, env: Surroundings)
    requires SumsFit(i, env)
    ensures var r := SettleOf(wallet, view, i, env).result;
            r.Err? && r.error.Rejected? <==>
              || i.debtor != wallet
              || (i.debtor == wallet && env.quote.Err? && env.quote.error.Rejected?)
              || (i.debtor == wallet && env.quote.Ok? && FiatToLovelace(i.netAmountMinor, env.quote.value).Err?)
              || (Sized(wallet, i, env) && exists e: Failure :: FirstFailureIs(env, e) && e.Rejected?)
              || (Informed(wallet, i, env) && env.addressesOk
                  && (Payment(i, env) == Err(InsufficientFunds) || (Payment(i, env).Err? && Payment(i, env).error.TooLarge?)))
              || (Informed(wallet, i, env) && env.addressesOk && Payment(i, env).Ok? && env.node.RpcError?)
  {
    if env.params.Err? {
      assert FirstFailureIs(env, env.params.error);
    } else if env.tipUp.Err? {
      assert FirstFailureIs(env, env.tipUp.error);
    } else if env.coins.Err? {
      assert FirstFailureIs(env, env.coins.error);
    }
  }

  /** It is left open exactly for these: touch lost with the rate source or the node before the submission,
      or at it. */
  lemma TouchIsLostExactlyFor(wallet: string, view: Follower.View, i: Instruction, env: Surroundings)
    requires SumsFit(i, env)
    ensures var r := SettleOf(wallet, view, i, env).result;
            r.Err? && r.error.Transport? <==>
              || (i.debtor == wallet && env.quote.Err? && env.quote.error.Transport?)
              || (Sized(wallet, i, env) && exists e: Failure :: FirstFailureIs(env, e) && e.Transport?)
              || (Informed(wallet, i, env) && env.addressesOk && Payment(i, env).Ok? && env.node.Lost?)
  {
    if env.params.Err? {
      assert FirstFailureIs(env, env.params.error);
    } else if env.tipUp.Err? {
      assert FirstFailureIs(env, env.tipUp.error);
    } else if env.coins.Err? {
      assert FirstFailureIs(env, env.coins.error);
    }
  }

  /** Failures of others are passed on as they are, in the order of the calls. */
  lemma FailuresArePassedOn(wallet: string, view: Follower.View, i: Instruction, env: Surroundings, e: Failure)
    requires SumsFit(i, env) && i.debtor == wallet
    ensures env.quote == Err(e) ==> SettleOf(wallet, view, i, env).result == Err(e)
    ensures Sized(wallet, i, env) && FirstFailureIs(env, e) ==> SettleOf(wallet, view, i, env).result == Err(e)
    ensures Informed(wallet, i, env) && env.addressesOk && Payment(i, env).Ok? && env.node.RpcError? ==>
              SettleOf(wallet, view, i, env).result == Err(Rejected(env.node.reason))
    ensures Informed(wallet, i, env) && env.addressesOk && Payment(i, env).Ok? && env.node.Lost? ==>
              SettleOf(wallet, view, i, env).result == Err(Transport(env.node.reason))
  {
  }

  /** Nothing reaches the node before the payment is built and registered, and then exactly what the node
      took is there, whatever it answered. */
  lemma LandsExactlyWhenTaken(wallet: string, view: Follower.View, i: Instruction, env: Surroundings)
    requires SumsFit(i, env)
    ensures SettleOf(wallet, view, i, env).landed.Some? <==>
            Informed(wallet, i, env) && env.addressesOk && Payment(i, env).Ok? && (env.node.Taken? || env.node.landed)
  {
  }

  /** The follower watches what the node took, whatever it is called there, and forgets what it did not
      answer for; what never got to the node was never registered. */
  lemma FollowerWatchesWhatWasTaken(wallet: string, view: Follower.View, i: Instruction, env: Surroundings)
    requires SumsFit(i, env)
    ensures var s := SettleOf(wallet, view, i, env);
            if Informed(wallet, i, env) && env.addressesOk && Payment(i, env).Ok? then
              var id := Lower(env.idOf(Payment(i, env).value));
              && s.view.watched.Keys == (if env.node.Taken? then view.watched.Keys + {id} else view.watched.Keys - {id})
              && (forall k :: k in view.watched && k in s.view.watched ==> s.view.watched[k] == view.watched[k])
              && (id in s.view.watched && id !in view.watched ==> s.view.watched[id] == Follower.Pending)
              && s.view.tipHeight == view.tipHeight && s.view.recent == view.recent
            else s.view == view
  {
  }

  /** From the wallet to the outcome: a wallet of real hashes whose coins cover payment and largest fee,
      none smaller than the fee can rise, settles whatever can be sized, if the node takes it under its id. */
  lemma EnoughMeansSettled(wallet: string, view: Follower.View, i: Instruction, env: Surroundings)
    requires SumsFit(i, env) && Informed(wallet, i, env) && env.addressesOk
    requires var o := OrderOf(env, Lovelace(i, env));
             && o.utxos != [] && Coins.Sum(o.utxos) >= o.lovelace + o.pp.MaxFee() && CoinsCoverTheRise(o)
             && (forall u :: u in o.utxos ==> Decodes(u.txHash))
             && (forall tx :: Tried(o, tx) ==> o.layout.Size(tx) <= o.pp.maxSize)
    requires env.node.Taken?
    requires Payment(i, env).Ok? ==> Lower(env.node.reportedId) == Lower(env.idOf(Payment(i, env).value))
    ensures SettleOf(wallet, view, i, env).result.Ok?
  {
    var o := OrderOf(env, Lovelace(i, env));
    EnoughMeansBuilt(o);
    SettlesExactlyWhenAccepted(wallet, view, i, env);
  }

  /** The leg is told of a success exactly when settling succeeded, and may try again exactly after a refusal. */
  lemma LegIsToldWhatHappened(wallet: string, view: Follower.View, i: Instruction, env: Surroundings)
    requires SumsFit(i, env)
    ensures var s := SettleOf(wallet, view, i, env);
            && (AnswerOf(s).SettledOk? <==> Accepted(wallet, i, env))
            && (AnswerOf(s).SettledOk? ==> s.result == Ok(AnswerOf(s).outcome))
            && (AnswerOf(s).NodeRefused? <==> s.result.Err? && s.result.error.Rejected?)
            && (s.result.Err? && !s.result.error.Rejected? ==>
                  AnswerOf(s) == Leg.Ambiguous(s.result.error.reason, if s.landed.Some? then Some(s.landed.value.id) else None))
  {
    SettlesExactlyWhenAccepted(wallet, view, i, env);
  }

  // ---------- from the message to the chain ----------

  /** An instruction with a well-formed amount and a new key, to a node whose table answers and whose wallet
      can pay, is paid: the floor of its amount at the rate, to its creditor, once, by a transfer that is
      recorded and replied as SUBMITTED. */
  lemma OrdinaryInstructionIsPaid(m: Leg.Message, d: Decimal, before: string, after: string,
                                  rows: Store.Rows, ledger: Leg.Ledger, leg: Leg.Surroundings, finalityDepth: nat,
                                  wallet: string, view: Follower.View, i: Instruction, env: Surroundings)
    requires d.WellFormed() && Blank(before) && Blank(after) && FloorOfHundredths(d) <= U128_MAX
    requires m.amount == Some(before + d.Text() + after) && m.creditorAddress.Some?
    requires m.idempotencyKey.Some? && !Blank(m.idempotencyKey.value) && m.idempotencyKey.value !in rows
    requires leg.claimUp && leg.recordUp
    requires i == Instruction(wallet, m.creditorAddress.value, FloorOfHundredths(d))
    requires SumsFit(i, env) && leg.answer == AnswerOf(SettleOf(wallet, view, i, env))
    requires Accepted(wallet, i, env)
    ensures var key, s := m.idempotencyKey.value, SettleOf(wallet, view, i, env);
            var done := Leg.Handle(rows, ledger, m, true, leg, finalityDepth);
            && s.landed.Some? && s.landed.value.creditor == m.creditorAddress.value
            && s.landed.value.tx.payment * env.quote.value <= FloorOfHundredths(d) * 1_000_000
               < (s.landed.value.tx.payment + 1) * env.quote.value
            && Leg.Transfers(done.ledger, key) == Leg.Transfers(ledger, key) + [s.landed.value.id]
            && key in done.rows && done.rows[key].status == Store.Submitted
            && done.rows[key].terms.netAmountMinor == FloorOfHundredths(d)
            && done.rows[key].outcome.Some? && done.rows[key].outcome.value.txId == s.landed.value.id
            && done.reply == Leg.Reported(Store.Submitted, Some(s.landed.value.id), 0, finalityDepth)
    ensures Leg.AskedFor(rows, m, true, leg) ==
            [Leg.Asked(m.idempotencyKey.value, m.currency.GetOr(""), i.netAmountMinor, i.creditor)]
  {
    Redelivery.WellFormedInstructionIsTaken(m, d, before, after);
    Redelivery.AttemptPaysRecordsAndReplies(rows, ledger, m, leg, finalityDepth);
    Redelivery.BackendIsAskedOnce(rows, m, leg);
    SettlesExactlyWhenAccepted(wallet, view, i, env);
    LandedTransferIsRight(wallet, view, i, env);
  }

  // ---------- confirming ----------

  /** What confirming answers for any transaction, after any run of the follower. One it watches since before
      its inclusion is confirmed exactly when it is on the chain, as deep as the last tip said is above it. One
      it does not know, as after a restart, is confirmed exactly when the wallet holds an output of it, and then
      at a depth of one; only then can asking fail. */
  lemma ConfirmsWhatIsOnChain(events: seq<Follower.Event>, t: Follower.Run, txId: string, outputs: Result<seq<string>, Failure>)
    requires Follower.Follows(Follower.START, events, t) && Lower(txId) !in t.late
    ensures var r := ConfirmOf(t.view, "cardano", txId, outputs);
            var found := Follower.Lookup(t.chain, Lower(txId));
            var tip := Follower.TipSaid(events);
            if Follower.Registered(events, Lower(txId), false) then
              && r.Ok? && (r.value.Confirmed? <==> found.Included?)
              && (found.Included? && tip.Some? && found.height <= tip.value < found.height + U32_MAX ==>
                    r.value.depth == tip.value - found.height + 1)
            else if outputs.Err? then r == Err(outputs.error)
            else r == Ok(if exists k :: 0 <= k < |outputs.value| && Lower(outputs.value[k]) == Lower(txId)
                         then Follower.Confirmed(1) else Follower.Unconfirmed)
  {
    Follower.StatusIsExact(events, t, txId);
  }

  /** Only a reference of this chain is answered, and a depth of two or more is the follower's, of a
      transaction it saw included. */
  lemma DepthIsTheFollowers(view: Follower.View, chain: string, txId: string, outputs: Result<seq<string>, Failure>)
    ensures var r := ConfirmOf(view, chain, txId, outputs);
            && (r.Ok? ==> chain == "cardano")
            && (r.Ok? && r.value.Confirmed? && r.value.depth >= 2 ==>
                  Lower(txId) in view.watched && view.watched[Lower(txId)].Included?)
  {
  }
}
