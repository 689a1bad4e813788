/**
 The handler of one settlement instruction, run to completion: validate, claim the row, pay unless
 the row already answers, record the outcome, reply.
 */
module SettlementInstruction {
  import opened Prelude
  import opened Amounts
  import opened SettlementStore
  import Runs = SettlementRuns

  datatype Message = Message(
    amount: Option<string>,
    currency: Option<string>,
    creditorAddress: Option<string>,
    settlementId: Option<string>,
    idempotencyKey: Option<string>)

  datatype ErrorCode = BadMessage | NotConfigured | Platform | SettlementFailed

  datatype Reply =
    | Reported(status: Status, txId: Option<string>, depth: nat, finalityDepth: nat)
    | Refusal(code: ErrorCode, reason: string)

  /** What the settlement backend answers, and whether the transfer reached the chain. A refusal
      means it did not; an ambiguous error leaves it open. */
  datatype SettleAnswer =
    | SettledOk(outcome: Outcome)
    | NodeRefused(reason: string)
    | Ambiguous(reason: string, landed: Option<string>)

  /** The surroundings of one handling: which statements the database answers, the clock readings
      they store, and the backend's answer. */
  datatype Surroundings = Surroundings(
    claimUp: bool, readUp: bool, reopenUp: bool, recordUp: bool,
    claimAt: nat, reopenAt: nat, recordAt: nat,
    answer: SettleAnswer)

  type Ledger = map<string, seq<string>>

  function Transfers(ledger: Ledger, key: string): seq<string> {
    if key in ledger then ledger[key] else []
  }

  /** The key, or else the settlement id; a blank one counts as missing. */
  function KeyOf(m: Message): Option<string> {
    var k := if m.idempotencyKey.Some? then m.idempotencyKey else m.settlementId;
    if k.Some? && Blank(k.value) then None else k
  }

  function Validated(m: Message): Result<(string, Terms), string> {
    if m.amount.None? then Err("amount is required")
    else
      var net := MinorUnits(m.amount.value, 2);
      if net.Err? then Err("invalid amount")
      else if m.creditorAddress.None? then Err("creditor_address is required")
      else
        match KeyOf(m)
        case None => Err("idempotency_key is required")
        case Some(key) =>
          Ok((key, Terms(m.settlementId, m.currency.GetOr(""), net.value, m.creditorAddress.value)))
  }

  /** The recorded state, never a new payment; a sticky error repeats its recorded reason. */
  function ReplyForExisting(row: Row, finalityDepth: nat): Reply {
    match row.status
    case Error => Refusal(SettlementFailed, row.errorReason.GetOr("settlement failed"))
    case status =>
      Reported(status, if row.outcome.Some? then Some(row.outcome.value.txId) else None, row.lastDepth, finalityDepth)
  }

  // ---------- what a handling does ----------

  datatype Handled = Handled(rows: Rows, ledger: Ledger, reply: Reply)

  function Landed(ledger: Ledger, key: string, answer: SettleAnswer): Ledger {
    match answer
    case SettledOk(o) => ledger[key := Transfers(ledger, key) + [o.txId]]
    case NodeRefused(_) => ledger
    case Ambiguous(_, None) => ledger
    case Ambiguous(_, Some(tx)) => ledger[key := Transfers(ledger, key) + [tx]]
  }

  function Recorded(rows: Rows, key: string, answer: SettleAnswer, at: nat): Rows {
    match answer
    case SettledOk(o) => MarkedSubmitted(rows, key, o, at)
    case NodeRefused(reason) => MarkedError(rows, key, reason, true, at)
    case Ambiguous(reason, _) => MarkedError(rows, key, reason, false, at)
  }

  function ReplyToAttempt(answer: SettleAnswer, finalityDepth: nat): Reply {
    match answer
    case SettledOk(o) => Reported(Submitted, Some(o.txId), 0, finalityDepth)
    case NodeRefused(reason) => Refusal(SettlementFailed, reason)
    case Ambiguous(reason, _) => Refusal(SettlementFailed, reason)
  }

  function Attempt(rows: Rows, ledger: Ledger, key: string, env: Surroundings, finalityDepth: nat): Handled {
    Handled(
      if env.recordUp then Recorded(rows, key, env.answer, env.recordAt) else rows,
      Landed(ledger, key, env.answer),
      ReplyToAttempt(env.answer, finalityDepth))
  }

  function HandleClaim(rows: Rows, ledger: Ledger, key: string, terms: Terms, env: Surroundings, finalityDepth: nat): Handled {
    if !env.claimUp then Handled(rows, ledger, Refusal(Platform, "settlement store unavailable"))
    else if key !in rows then
      Attempt(Inserted(rows, key, terms, env.claimAt), ledger, key, env, finalityDepth)
    else if !env.readUp then Handled(rows, ledger, Refusal(Platform, "settlement store unavailable"))
    else if !rows[key].MayRetry() then Handled(rows, ledger, ReplyForExisting(rows[key], finalityDepth))
    else if !env.reopenUp then Handled(rows, ledger, Refusal(Platform, "settlement store unavailable"))
    else Attempt(Reopened(rows, key, env.reopenAt), ledger, key, env, finalityDepth)
  }

  function Handle(rows: Rows, ledger: Ledger, m: Message, configured: bool, env: Surroundings, finalityDepth: nat): Handled {
    if !configured then Handled(rows, ledger, Refusal(NotConfigured, "no settlement backend configured on this node"))
    else
      match Validated(m)
      case Err(reason) => Handled(rows, ledger, Refusal(BadMessage, reason))
      case Ok(v) => HandleClaim(rows, ledger, v.0, v.1, env, finalityDepth)
  }

  /** What the backend is asked to settle: the key, and the currency, amount and creditor of the message. */
  datatype Asked = Asked(key: string, currency: string, netAmountMinor: nat, creditorAddress: string)

  function AskedFor(rows: Rows, m: Message, configured: bool, env: Surroundings): seq<Asked> {
    if !configured || Validated(m).Err? || !env.claimUp then []
    else
      var (key, terms) := Validated(m).value;
      if key in rows && !(env.readUp && rows[key].MayRetry() && env.reopenUp) then []
      else [Asked(key, terms.currency, terms.netAmountMinor, terms.creditorAddress)]
  }

  /** The chain as the backend sees it. */
  class Chain {
    var ledger: Ledger
    var asked: seq<Asked>

    method Settle(request: Asked, answer: SettleAnswer)
      modifies this
      ensures ledger == Landed(old(ledger), request.key, answer)
      ensures asked == old(asked) + [request]
    {
      asked := asked + [request];
      var key := request.key;
      match answer {
        case SettledOk(o) => ledger := ledger[key := Transfers(ledger, key) + [o.txId]];
        case NodeRefused(_) =>
        case Ambiguous(_, landed) =>
          if landed.Some? {
            ledger := ledger[key := Transfers(ledger, key) + [landed.value]];
          }
      }
    }
  }

  class Router {
    const store: Store
    const chain: Chain
    const configured: bool
    const finalityDepth: nat

    constructor (store: Store, chain: Chain, configured: bool, finalityDepth: nat)
      ensures this.store == store && this.chain == chain
      ensures this.configured == configured && this.finalityDepth == finalityDepth
    {
      this.store, this.chain, this.configured, this.finalityDepth := store, chain, configured, finalityDepth;
    }

    method SettlementInstruction(m: Message, env: Surroundings) returns (reply: Reply)
      modifies store, chain
      ensures Handled(store.rows, chain.ledger, reply)
           == Handle(old(store.rows), old(chain.ledger), m, configured, env, finalityDepth)
      ensures chain.asked == old(chain.asked) + AskedFor(old(store.rows), m, configured, env)
    {
      if !configured {
        return Refusal(NotConfigured, "no settlement backend configured on this node");
      }
      if m.amount.None? {
        return Refusal(BadMessage, "amount is required");
      }
      var net := ParseMinorUnits(m.amount.value, 2);
      if net.Err? {
        return Refusal(BadMessage, "invalid amount");
      }
      if m.creditorAddress.None? {
        return Refusal(BadMessage, "creditor_address is required");
      }
      var k := KeyOf(m);
      if k.None? {
        return Refusal(BadMessage, "idempotency_key is required");
      }
      var key := k.value;
      var terms := Terms(m.settlementId, m.currency.GetOr(""), net.value, m.creditorAddress.value);

      var claim := store.Claim(key, terms, env.claimAt, env.claimUp, env.readUp);
      if claim.None? {
        return Refusal(Platform, "settlement store unavailable");
      }
      if claim.value.Existing? {
        var row := claim.value.row;
        if !(row.status == Error && row.retryable) {
          return ReplyForExisting(row, finalityDepth);
        }
        var reopened := store.ReclaimForRetry(key, env.reopenAt, env.reopenUp);
        if !reopened {
          return Refusal(Platform, "settlement store unavailable");
        }
      }

      chain.Settle(Asked(key, terms.currency, terms.netAmountMinor, terms.creditorAddress), env.answer);
      match env.answer {
        case SettledOk(o) =>
          var _ := store.MarkSubmitted(key, o, env.recordAt, env.recordUp);
          reply := Reported(Submitted, Some(o.txId), 0, finalityDepth);
        case NodeRefused(reason) =>
          var _ := store.MarkError(key, reason, true, env.recordAt, env.recordUp);
          reply := Refusal(SettlementFailed, reason);
        case Ambiguous(reason, _) =>
          var _ := store.MarkError(key, reason, false, env.recordAt, env.recordUp);
          reply := Refusal(SettlementFailed, reason);
      }
    }
  }

  // ---------- every handling is a run of the state machine ----------

  function Resting(rows: Rows, ledger: Ledger, p: Runs.Handling, watcher: Runs.Watching, finalityDepth: nat): Runs.State {
    Runs.State(rows, ledger, [p], watcher, finalityDepth)
  }

  /** One more step of the single consumer. */
  lemma Go(start: Runs.State, before: seq<Runs.Step>, s: Runs.State, step: Runs.Step, t: Runs.State) returns (steps: seq<Runs.Step>)
    requires Runs.Reaches(start, before, s) && Runs.Enabled(s, step)
    requires |t.consumers| == |Runs.Apply(s, step).consumers| == 1
    requires Runs.Apply(s, step).consumers[0] == t.consumers[0]
    requires Runs.Apply(s, step).(consumers := t.consumers) == t
    ensures Runs.Reaches(start, steps, t)
  {
    Runs.Extend(start, before, s, step);
    steps := before + [step];
    assert Runs.Apply(s, step).consumers == t.consumers;
  }

  /** The store's answer to the last write ends the handling either way. */
  lemma RecordIsARun(start: Runs.State, before: seq<Runs.Step>, rows: Rows, ledger: Ledger, p: Runs.Handling,
                     env: Surroundings, watcher: Runs.Watching, finalityDepth: nat)
    returns (steps: seq<Runs.Step>)
    requires Runs.Reaches(start, before, Resting(rows, ledger, p, watcher, finalityDepth))
    requires match env.answer
             case SettledOk(o) => p.Settled? && p.outcome == o
             case NodeRefused(reason) => p.Failed? && p.reason == reason && p.retryable
             case Ambiguous(reason, _) => p.Failed? && p.reason == reason && !p.retryable
    ensures var after := if env.recordUp then Recorded(rows, p.key, env.answer, env.recordAt) else rows;
            Runs.Reaches(start, steps, Resting(after, ledger, Runs.Idle, watcher, finalityDepth))
  {
    var s := Resting(rows, ledger, p, watcher, finalityDepth);
    var after := if env.recordUp then Recorded(rows, p.key, env.answer, env.recordAt) else rows;
    var step := if !env.recordUp then Runs.StoreDown(0)
                else if p.Settled? then Runs.RecordSubmitted(0, env.recordAt)
                else Runs.RecordError(0, env.recordAt);
    steps := Go(start, before, s, step, Resting(after, ledger, Runs.Idle, watcher, finalityDepth));
  }

  lemma AttemptIsARun(start: Runs.State, before: seq<Runs.Step>, rows: Rows, ledger: Ledger, key: string,
                      env: Surroundings, watcher: Runs.Watching, finalityDepth: nat)
    returns (steps: seq<Runs.Step>)
    requires Runs.Reaches(start, before, Resting(rows, ledger, Runs.Paying(key), watcher, finalityDepth))
    ensures var done := Attempt(rows, ledger, key, env, finalityDepth);
            Runs.Reaches(start, steps, Resting(done.rows, done.ledger, Runs.Idle, watcher, finalityDepth))
  {
    var p := match env.answer
      case SettledOk(o) => Runs.Settled(key, o)
      case NodeRefused(reason) => Runs.Failed(key, reason, true)
      case Ambiguous(reason, _) => Runs.Failed(key, reason, false);
    steps := SettleIsARun(start, before, rows, ledger, key, env.answer, p, watcher, finalityDepth);
    steps := RecordIsARun(start, steps, rows, Landed(ledger, key, env.answer), p, env, watcher, finalityDepth);
  }

  /** The transfer lands or not, and `settle` answers. */
  lemma SettleIsARun(start: Runs.State, before: seq<Runs.Step>, rows: Rows, ledger: Ledger, key: string,
                     answer: SettleAnswer, p: Runs.Handling, watcher: Runs.Watching, finalityDepth: nat)
    returns (steps: seq<Runs.Step>)
    requires Runs.Reaches(start, before, Resting(rows, ledger, Runs.Paying(key), watcher, finalityDepth))
    requires match answer
             case SettledOk(o) => p == Runs.Settled(key, o)
             case NodeRefused(reason) => p == Runs.Failed(key, reason, true)
             case Ambiguous(reason, _) => p == Runs.Failed(key, reason, false)
    ensures Runs.Reaches(start, steps, Resting(rows, Landed(ledger, key, answer), p, watcher, finalityDepth))
  {
    var landed := Landed(ledger, key, answer);
    var s := Resting(rows, ledger, Runs.Paying(key), watcher, finalityDepth);
    steps := before;
    var tx := match answer case SettledOk(o) => Some(o.txId) case NodeRefused(_) => None case Ambiguous(_, t) => t;
    if tx.Some? {
      var flying := Resting(rows, landed, Runs.InFlight(key, tx.value), watcher, finalityDepth);
      steps := Go(start, steps, s, Runs.HandToNode(0, tx.value), flying);
      s := flying;
    }
    var step := match answer
      case SettledOk(o) => Runs.Accept(0, o)
      case NodeRefused(reason) => Runs.Refuse(0, reason)
      case Ambiguous(reason, _) => Runs.LoseTouch(0, reason);
    steps := Go(start, steps, s, step, Resting(rows, landed, p, watcher, finalityDepth));
  }

  lemma ExistingIsARun(start: Runs.State, before: seq<Runs.Step>, rows: Rows, ledger: Ledger, key: string, terms: Terms,
                       env: Surroundings, watcher: Runs.Watching, finalityDepth: nat)
    returns (steps: seq<Runs.Step>)
    requires key in rows && env.claimUp
    requires Runs.Reaches(start, before, Resting(rows, ledger, Runs.Reading(key), watcher, finalityDepth))
    ensures var done := HandleClaim(rows, ledger, key, terms, env, finalityDepth);
            Runs.Reaches(start, steps, Resting(done.rows, done.ledger, Runs.Idle, watcher, finalityDepth))
  {
    var idle := Resting(rows, ledger, Runs.Idle, watcher, finalityDepth);
    var reading := Resting(rows, ledger, Runs.Reading(key), watcher, finalityDepth);
    var reopening := Resting(rows, ledger, Runs.Reopening(key), watcher, finalityDepth);
    if !env.readUp {
      steps := Go(start, before, reading, Runs.StoreDown(0), idle);
    } else if !rows[key].MayRetry() {
      steps := Go(start, before, reading, Runs.Read(0), idle);
    } else {
      steps := Go(start, before, reading, Runs.Read(0), reopening);
      if !env.reopenUp {
        steps := Go(start, steps, reopening, Runs.StoreDown(0), idle);
      } else {
        var again := Reopened(rows, key, env.reopenAt);
        steps := Go(start, steps, reopening, Runs.Reopen(0, env.reopenAt),
                    Resting(again, ledger, Runs.Paying(key), watcher, finalityDepth));
        steps := AttemptIsARun(start, steps, again, ledger, key, env, watcher, finalityDepth);
      }
    }
  }

  /** So what is proved of every run holds of every sequence of handlings. */
  lemma HandlingIsARun(rows: Rows, ledger: Ledger, m: Message, configured: bool, env: Surroundings,
                       watcher: Runs.Watching, finalityDepth: nat)
    returns (steps: seq<Runs.Step>)
    ensures var done := Handle(rows, ledger, m, configured, env, finalityDepth);
            Runs.Reaches(Resting(rows, ledger, Runs.Idle, watcher, finalityDepth), steps,
                         Resting(done.rows, done.ledger, Runs.Idle, watcher, finalityDepth))
  {
    steps := [];
    var v := Validated(m);
    if configured && v.Ok? {
      var key, terms := v.value.0, v.value.1;
      var start := Resting(rows, ledger, Runs.Idle, watcher, finalityDepth);
      var claiming := Resting(rows, ledger, Runs.Claiming(key, terms), watcher, finalityDepth);
      steps := Go(start, steps, start, Runs.Deliver(0, key, terms), claiming);
      if !env.claimUp {
        steps := Go(start, steps, claiming, Runs.StoreDown(0), start);
      } else {
        var after := Inserted(rows, key, terms, env.claimAt);
        var p := if key in rows then Runs.Reading(key) else Runs.Paying(key);
        steps := Go(start, steps, claiming, Runs.Insert(0, env.claimAt), Resting(after, ledger, p, watcher, finalityDepth));
        if key in rows {
          steps := ExistingIsARun(start, steps, rows, ledger, key, terms, env, watcher, finalityDepth);
        } else {
          steps := AttemptIsARun(start, steps, after, ledger, key, env, watcher, finalityDepth);
        }
      }
    }
  }

  /** A handling adds at most one transfer, under its own key only, and only when it claimed an absent
      row or read and reopened a retryable failure; any other row is left alone, and so is the chain. */
  lemma PaysOnlyOnAClaimOrARetry(rows: Rows, ledger: Ledger, m: Message, env: Surroundings, finalityDepth: nat)
    requires Validated(m).Ok?
    ensures var key := Validated(m).value.0;
            var done := Handle(rows, ledger, m, true, env, finalityDepth);
            && (forall k :: k != key ==> Transfers(done.ledger, k) == Transfers(ledger, k))
            && |Transfers(done.ledger, key)| <= |Transfers(ledger, key)| + 1
            && (key in rows && !rows[key].MayRetry() ==> done.rows == rows && done.ledger == ledger)
            && (done.ledger != ledger ==>
                  env.claimUp && (key !in rows || (rows[key].MayRetry() && env.readUp && env.reopenUp)))
  {
  }
}
