/**
 Settling in ADA: check the debtor, quote, size, select and build, register with the follower, submit.
 It brings the builder, the amounts and the follower together, and shows that the backend keeps the
 contract the settlement leg rests on exactly as long as the node takes no transaction it answers with
 an RPC error: then a refusal means that nothing reached the chain.
 */
module CardanoSettlement {
  import opened Prelude
  import opened Amounts
  import opened TxBuilder
  import Coins = CoinSelection
  import Follower
  import Leg = SettlementInstruction
  import Store = SettlementStore

  datatype Failure = Rejected(reason: string) | Transport(reason: string) | Internal(reason: string)

  /** The node's answer to a submission, and whether the transaction landed all the same. */
  datatype NodeAnswer =
    | Taken(reportedId: string)
    | RpcError(reason: string, landed: bool)
    | Lost(reason: string, landed: bool)
  {
    predicate Landed() {
      Taken? || landed
    }
  }

  datatype Surroundings = Surroundings(
    quote: Result<nat, Failure>,                 // the rate, minor units per ADA
    params: Result<Params, Failure>,
    tipUp: Result<nat, Failure>,
    coins: Result<seq<Coins.Utxo>, Failure>,
    addressesOk: bool,
    layout: Layout,
    idOf: Tx -> string,
    node: NodeAnswer)

  datatype Instruction = Instruction(debtor: string, creditor: string, netAmountMinor: nat)

  /** A transfer the node took: its id, what it is, and whether the follower knew of it by then. */
  datatype Landing = Landing(id: string, tx: Tx, creditor: string, watched: bool)

  // ---------- the specification ----------

  function OrderOf(env: Surroundings, lovelace: nat): Order
    requires env.params.Ok? && env.coins.Ok?
  {
    Order(env.coins.value, lovelace, env.params.value, env.layout)
  }

  /** The sums the builder forms fit 64 bits. */
  predicate SumsFit(i: Instruction, env: Surroundings) {
    env.quote.Ok? && FiatToLovelace(i.netAmountMinor, env.quote.value).Ok? && env.params.Ok? && env.coins.Ok? ==>
      OrderOf(env, FiatToLovelace(i.netAmountMinor, env.quote.value).value).Fits()
  }

  function BuildFailure(e: BuildError): Failure {
    match e
    case InsufficientFunds => Rejected("insufficient funds")
    case TooLarge(_) => Rejected("built tx is over the limit")
    case BadAddress => Internal("invalid address")
    case AssemblyFailed => Internal("tx build failed")
    case NotConverged => Internal("fee did not converge after several iterations")
  }

  datatype Submitted = Submitted(view: Follower.View, landed: Option<Landing>, result: Result<string, Failure>)

  /** Build, register with the follower, submit; a failed submission takes the registration back. */
  function SubmitOf(view: Follower.View, creditor: string, lovelace: nat, env: Surroundings): Submitted
    requires env.params.Ok? && env.coins.Ok? ==> OrderOf(env, lovelace).Fits()
  {
    if env.params.Err? then Submitted(view, None, Err(env.params.error))
    else if env.tipUp.Err? then Submitted(view, None, Err(env.tipUp.error))
    else if env.coins.Err? then Submitted(view, None, Err(env.coins.error))
    else if !env.addressesOk then Submitted(view, None, Err(BuildFailure(BadAddress)))
    else
      match Build(OrderOf(env, lovelace))
      case Err(e) => Submitted(view, None, Err(BuildFailure(e)))
      case Ok(tx) =>
        var id := env.idOf(tx);
        var watching := Follower.WithWatch(view, id);
        var landing := Landing(id, tx, creditor, Lower(id) in watching.watched);
        match env.node
        case RpcError(reason, landed) =>
          Submitted(Follower.WithoutWatch(watching, id), if landed then Some(landing) else None, Err(Rejected(reason)))
        case Lost(reason, landed) =>
          Submitted(Follower.WithoutWatch(watching, id), if landed then Some(landing) else None, Err(Transport(reason)))
        case Taken(reported) =>
          Submitted(watching, Some(landing), if EqIgnoreCase(reported, id) then Ok(id) else Err(Internal("node reported another id")))
  }

  datatype Settled = Settled(view: Follower.View, landed: Option<Landing>, result: Result<Store.Outcome, Failure>)

  function OutcomeOf(id: string, lovelace: nat): Store.Outcome {
    Store.Outcome(id, "cardano", "ADA", Shown(lovelace))
  }

  function SettleOf(wallet: string, view: Follower.View, i: Instruction, env: Surroundings): Settled
    requires SumsFit(i, env)
  {
    if i.debtor != wallet then Settled(view, None, Err(Rejected("not the debtor")))
    else if env.quote.Err? then Settled(view, None, Err(env.quote.error))
    else
      match FiatToLovelace(i.netAmountMinor, env.quote.value)
      case Err(_) => Settled(view, None, Err(Rejected("amount cannot be sized")))
      case Ok(lovelace) =>
        var s := SubmitOf(view, i.creditor, lovelace, env);
        Settled(s.view, s.landed, if s.result.Ok? then Ok(OutcomeOf(s.result.value, lovelace)) else Err(s.result.error))
  }

  /** Where a transfer stands: what the follower knows, or else whether the wallet holds an output of it;
      `outputs` are the transactions whose outputs the wallet holds. */
  function ConfirmOf(view: Follower.View, chain: string, txId: string, outputs: Result<seq<string>, Failure>)
    : Result<Follower.ConfirmationStatus, Failure>
  {
    if chain != "cardano" then Err(Internal("confirm: reference of another chain"))
    else
      match Follower.StatusOf(view, txId)
      case Some(status) => Ok(status)
      case None =>
        if outputs.Err? then Err(outputs.error)
        else if exists k :: 0 <= k < |outputs.value| && EqIgnoreCase(outputs.value[k], txId) then Ok(Follower.Confirmed(1))
        else Ok(Follower.Unconfirmed)
  }

  // ---------- the code ----------

  class Node {
    var landed: seq<Landing>

    constructor ()
      ensures landed == []
    {
      landed := [];
    }

    method Submit(landing: Landing, answer: NodeAnswer) returns (r: NodeAnswer)
      modifies this
      ensures r == answer
      ensures landed == if answer.Landed() then old(landed) + [landing] else old(landed)
    {
      if answer.Landed() {
        landed := landed + [landing];
      }
      r := answer;
    }
  }

  class AdaSettlement {
    const wallet: string
    const follower: Follower.FollowerState
    const node: Node

    constructor (wallet: string, follower: Follower.FollowerState, node: Node)
      ensures this.wallet == wallet && this.follower == follower && this.node == node
    {
      this.wallet, this.follower, this.node := wallet, follower, node;
    }

    method Settle(i: Instruction, env: Surroundings) returns (r: Result<Store.Outcome, Failure>)
      requires SumsFit(i, env)
      modifies follower, node
      ensures var s := SettleOf(wallet, old(follower.Value()), i, env);
              && r == s.result && follower.Value() == s.view
              && node.landed == old(node.landed) + (if s.landed.Some? then [s.landed.value] else [])
    {
      if i.debtor != wallet {
        return Err(Rejected("not the debtor"));
      }
      if env.quote.Err? {
        return Err(env.quote.error);
      }
      var lovelace := FiatToLovelace(i.netAmountMinor, env.quote.value);
      if lovelace.Err? {
        return Err(Rejected("amount cannot be sized"));
      }
      var id := SubmitAdaTransfer(i.creditor, lovelace.value, env);
      r := if id.Ok? then Ok(OutcomeOf(id.value, lovelace.value)) else Err(id.error);
    }

    method SubmitAdaTransfer(creditor: string, lovelace: nat, env: Surroundings) returns (r: Result<string, Failure>)
      requires env.params.Ok? && env.coins.Ok? ==> OrderOf(env, lovelace).Fits()
      modifies follower, node
      ensures var s := SubmitOf(old(follower.Value()), creditor, lovelace, env);
              && follower.Value() == s.view && r == s.result
              && node.landed == old(node.landed) + (if s.landed.Some? then [s.landed.value] else [])
    {
      if env.params.Err? {
        return Err(env.params.error);
      }
      if env.tipUp.Err? {
        return Err(env.tipUp.error);
      }
      if env.coins.Err? {
        return Err(env.coins.error);
      }
      var signed := BuildSignedPayment(OrderOf(env, lovelace), env.addressesOk);
      if signed.Err? {
        return Err(BuildFailure(signed.error));
      }
      var id := env.idOf(signed.value);
      follower.Watch(id);
      var answer := node.Submit(Landing(id, signed.value, creditor, Lower(id) in follower.watched), env.node);
      match answer {
        case RpcError(reason, _) =>
          follower.Unwatch(id);
          return Err(Rejected(reason));
        case Lost(reason, _) =>
          follower.Unwatch(id);
          return Err(Transport(reason));
        case Taken(reported) =>
          r := if EqIgnoreCase(reported, id) then Ok(id) else Err(Internal("node reported another id"));
      }
    }

    method Confirm(chain: string, txId: string, outputs: Result<seq<string>, Failure>)
      returns (r: Result<Follower.ConfirmationStatus, Failure>)
      ensures r == ConfirmOf(follower.Value(), chain, txId, outputs)
    {
      if chain != "cardano" {
        return Err(Internal("confirm: reference of another chain"));
      }
      var status := follower.Status(txId);
      if status.Some? {
        return Ok(status.value);
      }
      if outputs.Err? {
        return Err(outputs.error);
      }
      var found := exists k :: 0 <= k < |outputs.value| && EqIgnoreCase(outputs.value[k], txId);
      r := Ok(if found then Follower.Confirmed(1) else Follower.Unconfirmed);
    }
  }

  // ---------- what the leg rests on ----------

  /** Everything up to the submission succeeds. */
  predicate Submits(wallet: string, i: Instruction, env: Surroundings)
    requires SumsFit(i, env)
  {
    && i.debtor == wallet && env.quote.Ok? && FiatToLovelace(i.netAmountMinor, env.quote.value).Ok?
    && env.params.Ok? && env.tipUp.Ok? && env.coins.Ok? && env.addressesOk
    && Build(OrderOf(env, FiatToLovelace(i.netAmountMinor, env.quote.value).value)).Ok?
  }

  /** The leg retries after a refusal because it takes nothing to have landed. That is so exactly when the
      node takes no transaction that it answers with an RPC error: no other refusal comes after the
      submission. */
  lemma RefusalsLandNothingExactlyWhenTheNodeIsHonest(wallet: string, view: Follower.View, i: Instruction, env: Surroundings)
    requires SumsFit(i, env)
    ensures var s := SettleOf(wallet, view, i, env);
            (s.result.Err? && s.result.error.Rejected? ==> s.landed.None?)
            <==> !(Submits(wallet, i, env) && env.node.RpcError? && env.node.landed)
  {
  }

  /** The answer the settlement leg sees, `landed` being what landed in truth. */
  function AnswerOf(s: Settled): Leg.SettleAnswer {
    match s.result
    case Ok(outcome) => Leg.SettledOk(outcome)
    case Err(Rejected(reason)) => Leg.NodeRefused(reason)
    case Err(e) => Leg.Ambiguous(e.reason, if s.landed.Some? then Some(s.landed.value.id) else None)
  }

  function Booked(a: Leg.SettleAnswer): seq<string> {
    match a
    case SettledOk(o) => [o.txId]
    case NodeRefused(_) => []
    case Ambiguous(_, landed) => if landed.Some? then [landed.value] else []
  }

  lemma LandedBooks(ledger: Leg.Ledger, key: string, a: Leg.SettleAnswer)
    ensures Leg.Transfers(Leg.Landed(ledger, key, a), key) == Leg.Transfers(ledger, key) + Booked(a)
  {
    assert Leg.Transfers(ledger, key) + [] == Leg.Transfers(ledger, key);
  }

  lemma SameTailOnly(s: seq<string>, a: seq<string>, b: seq<string>)
    ensures s + a == s + b <==> a == b
  {
    assert (s + a)[|s|..] == a && (s + b)[|s|..] == b;
  }

  lemma AnswerBooksWhatLanded(wallet: string, view: Follower.View, i: Instruction, env: Surroundings)
    requires SumsFit(i, env)
    ensures var s := SettleOf(wallet, view, i, env);
            Booked(AnswerOf(s)) == (if s.landed.Some? then [s.landed.value.id] else [])
            <==> (s.result.Err? && s.result.error.Rejected? ==> s.landed.None?)
  {
  }

  /** So what the leg books after a success or a refusal is what landed if and only if the node is honest. */
  lemma LegBooksWhatLanded(wallet: string, view: Follower.View, i: Instruction, env: Surroundings,
                           ledger: Leg.Ledger, key: string)
    requires SumsFit(i, env)
    ensures var s := SettleOf(wallet, view, i, env);
            Leg.Transfers(Leg.Landed(ledger, key, AnswerOf(s)), key)
              == Leg.Transfers(ledger, key) + (if s.landed.Some? then [s.landed.value.id] else [])
            <==> !(Submits(wallet, i, env) && env.node.RpcError? && env.node.landed)
  {
    var s := SettleOf(wallet, view, i, env);
    RefusalsLandNothingExactlyWhenTheNodeIsHonest(wallet, view, i, env);
    AnswerBooksWhatLanded(wallet, view, i, env);
    LandedBooks(ledger, key, AnswerOf(s));
    SameTailOnly(Leg.Transfers(ledger, key), Booked(AnswerOf(s)), if s.landed.Some? then [s.landed.value.id] else []);
  }

  lemma SubmittedTransferIsRight(view: Follower.View, creditor: string, lovelace: nat, env: Surroundings)
    requires env.params.Ok? && env.coins.Ok? ==> OrderOf(env, lovelace).Fits()
    requires SubmitOf(view, creditor, lovelace, env).landed.Some?
    ensures var l := SubmitOf(view, creditor, lovelace, env).landed.value;
            && env.params.Ok? && env.coins.Ok?
            && l.creditor == creditor && l.watched && l.tx.payment == lovelace && Sendable(OrderOf(env, lovelace), l.tx)
  {
    BuiltTransactionIsSendable(OrderOf(env, lovelace));
  }

  /** Whatever lands was registered with the follower first, pays the creditor the floor of the net at
      the quoted rate, and balances. */
  lemma LandedTransferIsRight(wallet: string, view: Follower.View, i: Instruction, env: Surroundings)
    requires SumsFit(i, env) && SettleOf(wallet, view, i, env).landed.Some?
    ensures var l := SettleOf(wallet, view, i, env).landed.value;
            && i.debtor == wallet && l.creditor == i.creditor && l.watched
            && env.quote.Ok? && env.params.Ok? && env.coins.Ok?
            && Sendable(OrderOf(env, l.tx.payment), l.tx)
            && l.tx.payment * env.quote.value <= i.netAmountMinor * LOVELACE_PER_ADA < (l.tx.payment + 1) * env.quote.value
  {
    var lovelace := FiatToLovelace(i.netAmountMinor, env.quote.value).value;
    LovelaceIsTheFloor(i.netAmountMinor, env.quote.value, lovelace);
    SubmittedTransferIsRight(view, i.creditor, lovelace, env);
  }

  lemma UnwatchUndoesWatch(view: Follower.View, id: string)
    ensures Follower.WithoutWatch(Follower.WithWatch(view, id), id)
         == view.(watched := view.watched - {Lower(id)})
    ensures Lower(id) !in view.watched ==> view.watched - {Lower(id)} == view.watched
  {
  }

  /** After a success the follower watches the transfer; after a failed submission it is left as it was,
      unless it already watched that very id. */
  lemma FollowerIsLeftInOrder(wallet: string, view: Follower.View, i: Instruction, env: Surroundings)
    requires SumsFit(i, env)
    ensures var s := SettleOf(wallet, view, i, env);
            && (s.result.Ok? ==> Lower(s.result.value.txId) in s.view.watched)
            && (s.result.Err? && !s.result.error.Internal? && s.view != view ==>
                  exists id :: id in view.watched && s.view == view.(watched := view.watched - {id}))
  {
    var s := SettleOf(wallet, view, i, env);
    if s.view != view && s.result.Err? && !s.result.error.Internal? {
      var tx := Build(OrderOf(env, FiatToLovelace(i.netAmountMinor, env.quote.value).value)).value;
      UnwatchUndoesWatch(view, env.idOf(tx));
    }
  }
}
