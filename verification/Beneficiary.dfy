/**
 The beneficiary's side: a credit notification is checked against its commitment, recorded, handed to
 the core banking system, and, when that refuses it for good, answered by a return promise in the
 other direction. A settlement advice stamps both the credits received and the promises sent.
 */
module Beneficiary {
  import opened Prelude
  import opened Commitments
  import Evidence
  import Outbox

  datatype Notification = Notification(
    id: string,
    commitment: Option<string>, salt: Option<string>, preimage: Option<string>,
    currency: string, amount: string, returnOf: Option<string>, raw: string)
  {
    predicate HasEvidence() {
      commitment.Some? && salt.Some? && preimage.Some?
    }
  }

  /** A payment request as the outbox spells it, without the fields a return leaves constant. */
  datatype Payment = Payment(
    currency: string, amount: string, description: string,
    toName: string, toBank: string, toScheme: string, toAddress: string,
    originatorName: string, originatorScheme: string, originatorAddress: string,
    returnOf: Option<string>)

  /** What can be read out of a preimage; absent texts read as empty. */
  datatype Reading = NotJson | Fields(bankId: Option<string>, name: string, scheme: string, address: string)

  datatype Config = Config(
    bankId: string, accountId: string,
    scheme: Scheme,
    read: string -> Reading,       // the JSON reader
    write: Payment -> string)      // the JSON writer

  datatype CbsAnswer = Acked(reference: Option<string>) | Rejected(status: nat, body: string) | Unreachable

  /** How everything outside will answer during one delivery, and the ids it will mint. */
  datatype World = World(
    upsertUp: bool, cbs: CbsAnswer, recordUp: bool, insertUp: bool, linkUp: bool,
    returnId: string, returnSalt: string, now: nat)

  datatype Reply =
    | BadMessage
    | PlatformError
    | CommitmentMismatch
    | Credited(verified: bool, reference: Option<string>)
    | Returned(verified: bool, returnId: string)
    | CbsRejected
    | CbsDeliveryFailed
    | Acknowledged(settlementId: string)

  // ---------- the specification ----------

  predicate Verified(cfg: Config, m: Notification) {
    m.HasEvidence() && cfg.scheme.Verifies(m.preimage.value, m.salt.value, m.commitment.value)
  }

  function CreditOf(cfg: Config, m: Notification): Evidence.Credit {
    Evidence.Credit(m.commitment.GetOr(""), m.salt.GetOr(""), m.preimage.GetOr(""), Verified(cfg, m),
                    m.currency, m.amount, m.returnOf, m.raw)
  }

  function Take(s: string, n: nat): string {
    if |s| <= n then s else s[..n]
  }

  /** The return of this credit, if its preimage says where to send it. */
  function ReturnOf(cfg: Config, m: Notification, reason: string): Option<Payment> {
    if m.preimage.None? then None
    else
      match cfg.read(m.preimage.value)
      case NotJson => None
      case Fields(bankId, name, scheme, address) =>
        if bankId.None? || Blank(bankId.value) || Blank(scheme) || Blank(address) then None
        else Some(Payment(m.currency, m.amount, "Return of " + m.id + ": " + Take(reason, 120),
                          name, bankId.value, scheme, address,
                          "Bank " + cfg.bankId + " (return)", "OBP", cfg.accountId, Some(m.id)))
  }

  /** The credit is taken to the core banking system unless its evidence refutes it. */
  predicate GoesToCbs(cfg: Config, m: Notification, w: World) {
    w.upsertUp && (m.HasEvidence() ==> Verified(cfg, m))
  }

  /** What the core banking system is handed, and what is on record at that moment. */
  function HandedOver(cfg: Config, rows: Evidence.Rows, m: Notification, w: World): seq<Handed> {
    if GoesToCbs(cfg, m, w) then [Handed(m.raw, Evidence.Upserted(rows, m.id, CreditOf(cfg, m), w.now))] else []
  }

  predicate RefusedForGood(w: World) {
    w.cbs.Rejected? && w.cbs.status < 500
  }

  /** The return promise this delivery enqueues. */
  function Minted(cfg: Config, outbox: Outbox.Rows, m: Notification, w: World): Option<Payment> {
    if GoesToCbs(cfg, m, w) && RefusedForGood(w) && m.returnOf.None? && w.insertUp && w.returnId !in outbox
    then ReturnOf(cfg, m, w.cbs.body) else None
  }

  /** The reply once the core banking system has answered. */
  function AnswerTo(verified: bool, minted: Option<Payment>, w: World): Reply {
    match w.cbs
    case Acked(reference) => Credited(verified, reference)
    case Unreachable => CbsDeliveryFailed
    case Rejected(status, _) =>
      if status >= 500 then CbsDeliveryFailed
      else if minted.Some? then Returned(verified, w.returnId)
      else CbsRejected
  }

  function ReplyTo(cfg: Config, outbox: Outbox.Rows, m: Notification, w: World): Reply {
    if !w.upsertUp then PlatformError
    else if !GoesToCbs(cfg, m, w) then CommitmentMismatch
    else AnswerTo(Verified(cfg, m), Minted(cfg, outbox, m, w), w)
  }

  function CbsStatus(cbs: CbsAnswer): string {
    if cbs.Acked? then "DELIVERED" else if cbs.Rejected? && cbs.status < 500 then "REJECTED" else "FAILED"
  }

  function EvidenceAfter(cfg: Config, rows: Evidence.Rows, outbox: Outbox.Rows, m: Notification, w: World): Evidence.Rows {
    if !w.upsertUp then rows
    else
      var kept := Evidence.Upserted(rows, m.id, CreditOf(cfg, m), w.now);
      if !GoesToCbs(cfg, m, w) then kept
      else
        var reference := if w.cbs.Acked? then w.cbs.reference else None;
        var noted := if w.recordUp then Evidence.CbsRecorded(kept, m.id, CbsStatus(w.cbs), reference, w.now) else kept;
        if Minted(cfg, outbox, m, w).Some? && w.linkUp then Evidence.ReturnRecorded(noted, m.id, w.returnId) else noted
  }

  function Enqueued(cfg: Config, outbox: Outbox.Rows, payment: Option<Payment>, w: World): Outbox.Rows {
    match payment
    case None => outbox
    case Some(p) =>
      Outbox.Inserted(outbox, w.returnId, Outbox.Request(cfg.bankId, cfg.accountId, cfg.write(p), w.returnSalt), w.now)
  }

  function OutboxAfter(cfg: Config, outbox: Outbox.Rows, m: Notification, w: World): Outbox.Rows {
    Enqueued(cfg, outbox, Minted(cfg, outbox, m, w), w)
  }

  // ---------- the code ----------

  /** A credit handed over, and the evidence table as it stood then. */
  datatype Handed = Handed(raw: string, onRecord: Evidence.Rows)

  class CoreBanking {
    var delivered: seq<Handed>

    constructor ()
      ensures delivered == []
    {
      delivered := [];
    }

    method DeliverCredit(raw: string, evidence: Evidence.Store, answer: CbsAnswer) returns (r: CbsAnswer)
      modifies this
      ensures r == answer && delivered == old(delivered) + [Handed(raw, evidence.rows)]
    {
      delivered := delivered + [Handed(raw, evidence.rows)];
      r := answer;
    }
  }

  class Node {
    const cfg: Config
    const evidence: Evidence.Store
    const outbox: Outbox.Store
    const cbs: CoreBanking

    constructor (cfg: Config, evidence: Evidence.Store, outbox: Outbox.Store, cbs: CoreBanking)
      ensures this.cfg == cfg && this.evidence == evidence && this.outbox == outbox && this.cbs == cbs
    {
      this.cfg, this.evidence, this.outbox, this.cbs := cfg, evidence, outbox, cbs;
    }

    method CreditNotification(body: Option<Notification>, w: World) returns (reply: Reply)
      modifies evidence, outbox, cbs
      ensures body.None? ==> reply == BadMessage && evidence.rows == old(evidence.rows)
                             && outbox.rows == old(outbox.rows) && cbs.delivered == old(cbs.delivered)
      ensures body.Some? ==>
                && reply == ReplyTo(cfg, old(outbox.rows), body.value, w)
                && evidence.rows == EvidenceAfter(cfg, old(evidence.rows), old(outbox.rows), body.value, w)
                && outbox.rows == OutboxAfter(cfg, old(outbox.rows), body.value, w)
                && cbs.delivered == old(cbs.delivered) + HandedOver(cfg, old(evidence.rows), body.value, w)
    {
      if body.None? {
        return BadMessage;
      }
      var m := body.value;
      var evidencePresent := m.commitment.Some? && m.salt.Some? && m.preimage.Some?;
      var verified := false;
      if evidencePresent {
        verified := cfg.scheme.Verifies(m.preimage.value, m.salt.value, m.commitment.value);
      }
      var stored := evidence.Upsert(
        m.id,
        Evidence.Credit(m.commitment.GetOr(""), m.salt.GetOr(""), m.preimage.GetOr(""), verified,
                        m.currency, m.amount, m.returnOf, m.raw),
        w.now, w.upsertUp);
      if !stored {
        return PlatformError;
      }
      if evidencePresent && !verified {
        return CommitmentMismatch;
      }
      var answer := cbs.DeliverCredit(m.raw, evidence, w.cbs);
      reply := AfterDelivery(m, verified, answer, w);
    }

    /** Note the answer, and return the credit if it was refused for good. */
    method AfterDelivery(m: Notification, verified: bool, answer: CbsAnswer, w: World) returns (reply: Reply)
      requires answer == w.cbs
      modifies evidence, outbox
      ensures var payment :=
                if RefusedForGood(w) && m.returnOf.None? && w.insertUp && w.returnId !in old(outbox.rows)
                then ReturnOf(cfg, m, w.cbs.body) else None;
              var noted :=
                if w.recordUp
                then Evidence.CbsRecorded(old(evidence.rows), m.id, CbsStatus(w.cbs),
                                          if w.cbs.Acked? then w.cbs.reference else None, w.now)
                else old(evidence.rows);
              && outbox.rows == Enqueued(cfg, old(outbox.rows), payment, w)
              && evidence.rows == (if payment.Some? && w.linkUp then Evidence.ReturnRecorded(noted, m.id, w.returnId) else noted)
              && reply == AnswerTo(verified, payment, w)
    {
      match answer {
        case Acked(reference) =>
          var _ := evidence.RecordCbsResult(m.id, "DELIVERED", reference, w.now, w.recordUp);
          return Credited(verified, reference);
        case Unreachable =>
          var _ := evidence.RecordCbsResult(m.id, "FAILED", None, w.now, w.recordUp);
          return CbsDeliveryFailed;
        case Rejected(status, reason) =>
          if status >= 500 {
            var _ := evidence.RecordCbsResult(m.id, "FAILED", None, w.now, w.recordUp);
            return CbsDeliveryFailed;
          }
          var _ := evidence.RecordCbsResult(m.id, "REJECTED", None, w.now, w.recordUp);
          if m.returnOf.Some? {
            return CbsRejected;
          }
          var returnId := InitiateReturn(m, reason, w);
          if returnId.None? {
            return CbsRejected;
          }
          var _ := evidence.RecordReturn(m.id, returnId.value, w.linkUp);
          return Returned(verified, returnId.value);
      }
    }

    method InitiateReturn(m: Notification, reason: string, w: World) returns (returnId: Option<string>)
      modifies outbox
      ensures var payment := ReturnOf(cfg, m, reason);
              if payment.Some? && w.insertUp && w.returnId !in old(outbox.rows)
              then returnId == Some(w.returnId)
                   && outbox.rows == Outbox.Inserted(
                        old(outbox.rows), w.returnId,
                        Outbox.Request(cfg.bankId, cfg.accountId, cfg.write(payment.value), w.returnSalt), w.now)
              else returnId == None && outbox.rows == old(outbox.rows)
    {
      if m.preimage.None? {
        return None;
      }
      match cfg.read(m.preimage.value) {
        case NotJson => return None;
        case Fields(bankId, name, scheme, address) =>
          if bankId.None? || Blank(bankId.value) {
            return None;
          }
          if Blank(scheme) || Blank(address) {
            return None;
          }
          var payment := Payment(
            m.currency, m.amount, "Return of " + m.id + ": " + Take(reason, 120),
            name, bankId.value, scheme, address,
            "Bank " + cfg.bankId + " (return)", "OBP", cfg.accountId, Some(m.id));
          var ok := outbox.Insert(
            w.returnId, Outbox.Request(cfg.bankId, cfg.accountId, cfg.write(payment), w.returnSalt), w.now, w.insertUp);
          returnId := if ok then Some(w.returnId) else None;
      }
    }

    /** Both tables are stamped, whichever of the two answers. */
    method SettlementAdvice(body: Option<seq<string>>, settlementId: string, now: nat, answered: nat, outboxUp: bool)
      returns (reply: Reply)
      modifies evidence, outbox
      ensures body.None? ==> reply == BadMessage && evidence.rows == old(evidence.rows) && outbox.rows == old(outbox.rows)
      ensures body.Some? ==>
                && evidence.rows ==
                   Evidence.Stamped(old(evidence.rows), Evidence.Answered(body.value, answered), settlementId, now)
                && outbox.rows ==
                   (if outboxUp then Outbox.MarkedSettled(old(outbox.rows), body.value, settlementId, now) else old(outbox.rows))
                && (reply == Acknowledged(settlementId) <==> answered >= |body.value| && (outboxUp || body.value == []))
                && (reply == Acknowledged(settlementId) || reply == PlatformError)
    {
      if body.None? {
        return BadMessage;
      }
      var credits := evidence.MarkSettled(body.value, settlementId, now, answered);
      var promises := outbox.MarkSettled(body.value, settlementId, now, outboxUp);
      reply := if credits.Some? && promises.Some? then Acknowledged(settlementId) else PlatformError;
    }
  }

  // ---------- what the specification means ----------

  /** A notification is refused for its evidence exactly when it shows a triplet that does not check; it
      is then on record as unverified, and no return is made of it. */
  lemma MismatchIsRefusedAndKept(cfg: Config, rows: Evidence.Rows, outbox: Outbox.Rows, m: Notification, w: World)
    ensures ReplyTo(cfg, outbox, m, w) == CommitmentMismatch <==>
            w.upsertUp && m.HasEvidence() && !cfg.scheme.Verifies(m.preimage.value, m.salt.value, m.commitment.value)
    ensures ReplyTo(cfg, outbox, m, w) == CommitmentMismatch ==>
              && OutboxAfter(cfg, outbox, m, w) == outbox
              && m.id in EvidenceAfter(cfg, rows, outbox, m, w)
              && !EvidenceAfter(cfg, rows, outbox, m, w)[m.id].credit.verified
  {
  }

  /** Whatever is handed to the core banking system is on record by then, as it was notified and as it
      checked; no triplet on record then is a refuted one; and what the delivery records afterwards keeps
      that and changes no other row. */
  lemma OnRecordBeforeDelivery(cfg: Config, rows: Evidence.Rows, outbox: Outbox.Rows, m: Notification, w: World, h: Handed)
    requires h in HandedOver(cfg, rows, m, w)
    ensures h.raw == m.raw && m.id in h.onRecord && h.onRecord[m.id].credit == CreditOf(cfg, m)
    ensures m.HasEvidence() ==> h.onRecord[m.id].credit.verified
                                && cfg.scheme.Verifies(h.onRecord[m.id].credit.preimage, h.onRecord[m.id].credit.salt,
                                                       h.onRecord[m.id].credit.commitment)
    ensures var after := EvidenceAfter(cfg, rows, outbox, m, w);
            && after.Keys == h.onRecord.Keys == rows.Keys + {m.id}
            && after[m.id].credit == h.onRecord[m.id].credit
            && forall id :: id in rows && id != m.id ==> after[id] == rows[id]
  {
  }

  /** A return is enqueued exactly when the reply says so, and only for a credit that is not itself a
      return and that the core banking system refused for good. */
  lemma ReturnsExactlyWhatIsRefused(cfg: Config, outbox: Outbox.Rows, m: Notification, w: World)
    ensures OutboxAfter(cfg, outbox, m, w) != outbox <==> ReplyTo(cfg, outbox, m, w).Returned?
    ensures ReplyTo(cfg, outbox, m, w).Returned? ==>
              && m.returnOf.None? && RefusedForGood(w)
              && OutboxAfter(cfg, outbox, m, w).Keys == outbox.Keys + {w.returnId} && w.returnId !in outbox
              && (forall id :: id in outbox ==> OutboxAfter(cfg, outbox, m, w)[id] == outbox[id])
  {
    if Minted(cfg, outbox, m, w).Some? {
      assert w.returnId in OutboxAfter(cfg, outbox, m, w);
    }
  }
}
