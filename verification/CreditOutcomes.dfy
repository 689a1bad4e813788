/**
 What a credit notification comes to, by what the core banking system answers: when a credit is
 acknowledged, when it is to be retried, when it is returned or parked, and what the record shows.
 */
module CreditOutcomes {
  import opened Prelude
  import opened Beneficiary
  import Evidence
  import Outbox

  /** All three texts are shown, and the hash of salt and preimage is the commitment, in any case. */
  predicate Checks(cfg: Config, m: Notification) {
    && m.commitment.Some? && m.salt.Some? && m.preimage.Some?
    && Lower(cfg.scheme.sha256Hex(m.salt.value + m.preimage.value)) == Lower(m.commitment.value)
  }

  /** On record, and not refuted by what it shows: it is handed to the core banking system. */
  predicate Passes(cfg: Config, m: Notification, w: World) {
    w.upsertUp && (m.commitment.Some? && m.salt.Some? && m.preimage.Some? ==> Checks(cfg, m))
  }

  /** The preimage tells to which bank and account a return would go. */
  predicate Addressed(cfg: Config, m: Notification) {
    m.preimage.Some? && match cfg.read(m.preimage.value)
                        case NotJson => false
                        case Fields(bankId, _, scheme, address) =>
                          bankId.Some? && !Blank(bankId.value) && !Blank(scheme) && !Blank(address)
  }

  /** The return can be enqueued. */
  predicate CanReturn(cfg: Config, outbox: Outbox.Rows, m: Notification, w: World) {
    m.returnOf.None? && Addressed(cfg, m) && w.insertUp && w.returnId !in outbox
  }

  /** Each reply, exactly when: credited if the core banking system took it, to be retried if that did not
      answer or had a fault of its own, returned or parked if it refused; nothing else is a success. */
  lemma RepliesExactly(cfg: Config, outbox: Outbox.Rows, m: Notification, w: World)
    ensures var reply := ReplyTo(cfg, outbox, m, w);
            && (forall v, reference :: reply == Credited(v, reference) <==>
                  Passes(cfg, m, w) && w.cbs == Acked(reference) && v == Checks(cfg, m))
            && (reply == CbsDeliveryFailed <==>
                  Passes(cfg, m, w) && (w.cbs.Unreachable? || (w.cbs.Rejected? && w.cbs.status >= 500)))
            && (forall v, id :: reply == Returned(v, id) <==>
                  Passes(cfg, m, w) && w.cbs.Rejected? && w.cbs.status < 500 && CanReturn(cfg, outbox, m, w)
                  && v == Checks(cfg, m) && id == w.returnId)
            && (reply == CbsRejected <==>
                  Passes(cfg, m, w) && w.cbs.Rejected? && w.cbs.status < 500 && !CanReturn(cfg, outbox, m, w))
            && (reply == PlatformError <==> !w.upsertUp)
            && (reply == CommitmentMismatch <==> w.upsertUp && !Passes(cfg, m, w))
  {
  }

  /** The credit is handed over once if it passes, as it came, and else not at all. */
  lemma HandedOverOnce(cfg: Config, rows: Evidence.Rows, m: Notification, w: World)
    ensures var handed := HandedOver(cfg, rows, m, w);
            if Passes(cfg, m, w) then |handed| == 1 && handed[0].raw == m.raw else handed == []
  {
  }

  /** What the record says the core banking system answered. */
  predicate SaysOfTheAnswer(row: Evidence.Row, cbs: CbsAnswer, at: nat) {
    && row.cbs.Some? && row.cbs.value.recordedAt == at
    && match cbs
       case Acked(reference) => row.cbs.value.status == "DELIVERED" && row.cbs.value.reference == reference
       case Rejected(status, _) =>
         row.cbs.value.status == (if status < 500 then "REJECTED" else "FAILED") && row.cbs.value.reference == None
       case Unreachable => row.cbs.value.status == "FAILED" && row.cbs.value.reference == None
  }

  /** A delivery leaves its credit on record as it came and as it checked, and changes no other row. */
  lemma RecordShowsTheCredit(cfg: Config, rows: Evidence.Rows, outbox: Outbox.Rows, m: Notification, w: World)
    requires w.upsertUp
    ensures var after := EvidenceAfter(cfg, rows, outbox, m, w);
            && after.Keys == rows.Keys + {m.id}
            && (forall id :: id in rows && id != m.id ==> after[id] == rows[id])
            && after[m.id].receivedAt == w.now
            && after[m.id].credit == Evidence.Credit(
                 if m.commitment.Some? then m.commitment.value else "", if m.salt.Some? then m.salt.value else "",
                 if m.preimage.Some? then m.preimage.value else "", Checks(cfg, m), m.currency, m.amount, m.returnOf, m.raw)
  {
  }

  /** And with it the answer of the core banking system and the return it led to; what is not written anew
      stays, above all the stamp of the settlement. */
  lemma RecordShowsWhatHappened(cfg: Config, rows: Evidence.Rows, outbox: Outbox.Rows, m: Notification, w: World)
    requires w.upsertUp
    ensures m.id in EvidenceAfter(cfg, rows, outbox, m, w)
    ensures var row := EvidenceAfter(cfg, rows, outbox, m, w)[m.id];
            && (if Passes(cfg, m, w) && w.recordUp then SaysOfTheAnswer(row, w.cbs, w.now)
                else row.cbs == if m.id in rows then rows[m.id].cbs else None)
            && (if ReplyTo(cfg, outbox, m, w).Returned? && w.linkUp then row.returnedBy == Some(w.returnId)
                else row.returnedBy == if m.id in rows then rows[m.id].returnedBy else None)
            && row.settlementId == (if m.id in rows then rows[m.id].settlementId else None)
            && row.settledAt == (if m.id in rows then rows[m.id].settledAt else None)
  {
  }

  /** A return is a new outbox row of this bank: the amount and currency refused, back to the account and
      bank the preimage names, in the bank's own name, naming the credit it returns; and nothing else is
      ever written to the outbox by a delivery. */
  lemma ReturnIsAPromiseOfThisBank(cfg: Config, outbox: Outbox.Rows, m: Notification, w: World)
    ensures var after := OutboxAfter(cfg, outbox, m, w);
            if ReplyTo(cfg, outbox, m, w).Returned? then
              && Addressed(cfg, m) && after.Keys == outbox.Keys + {w.returnId} && w.returnId !in outbox
              && (forall id :: id in outbox ==> after[id] == outbox[id])
              && after[w.returnId].status == Outbox.Initiated && after[w.returnId].obpId == None
              && var from := cfg.read(m.preimage.value);
                 var reason := if |w.cbs.body| <= 120 then w.cbs.body else w.cbs.body[..120];
                 after[w.returnId].request == Outbox.Request(
                   cfg.bankId, cfg.accountId,
                   cfg.write(Payment(m.currency, m.amount, "Return of " + m.id + ": " + reason,
                                     from.name, from.bankId.value, from.scheme, from.address,
                                     "Bank " + cfg.bankId + " (return)", "OBP", cfg.accountId, Some(m.id))),
                   w.returnSalt)
            else after == outbox
  {
  }

  // ---------- delivered again and again ----------

  /** The replies after which the sender delivers again: the core banking system out of reach or at fault,
      or this node's own tables. */
  predicate Transient(reply: Reply) {
    reply == CbsDeliveryFailed || reply == PlatformError
  }

  /** The tables after the message has been delivered in each of these worlds, in turn, what was handed over
      and the replies. */
  datatype Deliveries = Deliveries(rows: Evidence.Rows, outbox: Outbox.Rows, handed: seq<Handed>, replies: seq<Reply>)

  function Deliver(cfg: Config, rows: Evidence.Rows, outbox: Outbox.Rows, m: Notification, worlds: seq<World>): (d: Deliveries)
    ensures |d.replies| == |worlds|
  {
    if worlds == [] then Deliveries(rows, outbox, [], [])
    else
      var last := |worlds| - 1;
      var d := Deliver(cfg, rows, outbox, m, worlds[..last]);
      Deliveries(EvidenceAfter(cfg, d.rows, d.outbox, m, worlds[last]), OutboxAfter(cfg, d.outbox, m, worlds[last]),
                 d.handed + HandedOver(cfg, d.rows, m, worlds[last]), d.replies + [ReplyTo(cfg, d.outbox, m, worlds[last])])
  }

  /** How many of these worlds hand the credit over. */
  function Passing(cfg: Config, m: Notification, worlds: seq<World>): nat {
    if worlds == [] then 0
    else Passing(cfg, m, worlds[..|worlds| - 1]) + (if Passes(cfg, m, worlds[|worlds| - 1]) then 1 else 0)
  }

  /** However often a message is delivered, each delivery that passes hands the credit over once, as it
      came. */
  lemma {:induction false} EachPassHandsOver(cfg: Config, rows: Evidence.Rows, outbox: Outbox.Rows, m: Notification, worlds: seq<World>)
    ensures var d := Deliver(cfg, rows, outbox, m, worlds);
            |d.handed| == Passing(cfg, m, worlds) && forall h :: h in d.handed ==> h.raw == m.raw
    decreases |worlds|
  {
    if worlds != [] {
      var front := worlds[..|worlds| - 1];
      EachPassHandsOver(cfg, rows, outbox, m, front);
      HandedOverOnce(cfg, Deliver(cfg, rows, outbox, m, front).rows, m, worlds[|worlds| - 1]);
    }
  }

  /** The core banking system took the credit. */
  predicate Taken(cfg: Config, m: Notification, w: World) {
    Passes(cfg, m, w) && w.cbs.Acked?
  }

  /** What one delivery did, read off its reply. */
  lemma ReplyTells(cfg: Config, outbox: Outbox.Rows, m: Notification, w: World)
    ensures var reply := ReplyTo(cfg, outbox, m, w);
            && (reply.Credited? <==> Taken(cfg, m, w))
            && (reply.Returned? <==> OutboxAfter(cfg, outbox, m, w) != outbox)
            && (Transient(reply) ==> !Taken(cfg, m, w) && OutboxAfter(cfg, outbox, m, w) == outbox)
  {
    RepliesExactly(cfg, outbox, m, w);
    ReturnsExactlyWhatIsRefused(cfg, outbox, m, w);
  }

  predicate AllTransient(replies: seq<Reply>) {
    forall i :: 0 <= i < |replies| ==> Transient(replies[i])
  }

  lemma AllTransientInPart(replies: seq<Reply>, last: Reply)
    requires AllTransient(replies + [last])
    ensures AllTransient(replies) && Transient(last)
  {
    var all := replies + [last];
    assert all[|replies|] == last;
    assert forall i :: 0 <= i < |replies| ==> all[i] == replies[i];
  }

  /** As long as the replies are transient, no credit was taken and no return made. */
  lemma {:induction false} TransientMeansNothingDone(cfg: Config, rows: Evidence.Rows, outbox: Outbox.Rows, m: Notification, worlds: seq<World>)
    requires AllTransient(Deliver(cfg, rows, outbox, m, worlds).replies)
    ensures Deliver(cfg, rows, outbox, m, worlds).outbox == outbox
    ensures forall i :: 0 <= i < |worlds| ==> !Taken(cfg, m, worlds[i])
    decreases |worlds|
  {
    if worlds != [] {
      var front, w := worlds[..|worlds| - 1], worlds[|worlds| - 1];
      var e := Deliver(cfg, rows, outbox, m, front);
      AllTransientInPart(e.replies, ReplyTo(cfg, e.outbox, m, w));
      TransientMeansNothingDone(cfg, rows, outbox, m, front);
      ReplyTells(cfg, e.outbox, m, w);
      forall i | 0 <= i < |worlds|
        ensures !Taken(cfg, m, worlds[i])
      {
        assert i < |front| ==> front[i] == worlds[i];
      }
    }
  }

  /** So a sender that delivers again only after transient replies never has a credit taken twice, or both
      taken and returned: up to the last delivery nothing was done, and the last reply tells what is now. */
  lemma RetriedCreditIsTakenOnce(cfg: Config, rows: Evidence.Rows, outbox: Outbox.Rows, m: Notification, worlds: seq<World>)
    requires worlds != [] && AllTransient(Deliver(cfg, rows, outbox, m, worlds[..|worlds| - 1]).replies)
    ensures var d, last := Deliver(cfg, rows, outbox, m, worlds), |worlds| - 1;
            && (forall i :: 0 <= i < last ==> !Taken(cfg, m, worlds[i]))
            && (d.replies[last].Credited? <==> Taken(cfg, m, worlds[last]))
            && (d.replies[last].Returned? <==> d.outbox != outbox)
  {
    var front := worlds[..|worlds| - 1];
    TransientMeansNothingDone(cfg, rows, outbox, m, front);
    assert forall i :: 0 <= i < |front| ==> front[i] == worlds[i];
    ReplyTells(cfg, Deliver(cfg, rows, outbox, m, front).outbox, m, worlds[|worlds| - 1]);
  }
}
