/**
 Returns between the two nodes of a corridor. Customers of either node promise payments, each promise
 is relayed to the other node any number of times, and a credit refused there for good mints a return
 promise the other way. Returns end after one hop, repay what was refused to whoever sent it, and are
 never more than the refusals.
 */
module Returns {
  import opened Prelude
  import opened Commitments
  import opened Beneficiary
  import Outbox

  /** A return on the books of a node: its id, the promise of the other node it answers, and the
      notification that brought it. */
  datatype Mint = Mint(node: nat, id: string, source: string, notification: Notification)

  datatype System = System(
    outboxes: seq<Outbox.Rows>,             // one a node
    promises: seq<map<string, Payment>>,    // what each outbox row's payload spells
    mints: seq<Mint>,
    refusals: nat)                          // deliveries of credits, not themselves returns, refused for good
  {
    predicate Shaped() {
      |outboxes| == 2 && |promises| == 2
    }

    /** The table and what it spells, together. */
    function WithRow(n: nat, rows: Outbox.Rows, id: string, payment: Payment): System
      requires Shaped() && n < 2
    {
      this.(outboxes := outboxes[n := rows], promises := promises[n := promises[n][id := payment]])
    }
  }

  /** The two nodes, and how a promise is rendered into its preimage. */
  datatype Corridor = Corridor(nodes: seq<Config>, render: (string, string, string, string) -> string) {
    predicate Shaped() {
      |nodes| == 2
    }

    /** Reading a preimage back yields the bank and the originator of the promise it was made from. */
    ghost predicate PreimagesRead(n: nat)
      requires Shaped() && n < 2
    {
      forall id, account, p ::
        nodes[1 - n].read(render(id, nodes[n].bankId, account, nodes[n].write(p)))
        == Fields(Some(nodes[n].bankId), p.originatorName, p.originatorScheme, p.originatorAddress)
    }
  }

  datatype Step =
    | Pay(n: nat, id: string, account: string, payment: Payment, salt: string, now: nat)
    | Deliver(n: nat, source: string, m: Notification, w: World)

  /** What OBP-API relays of a promise of node `n`: its amount, its currency and whether it is a return,
      and its preimage as revealed or nothing. The id is one OBP-API chose. */
  ghost predicate Relays(c: Corridor, n: nat, id: string, row: Outbox.Row, p: Payment, m: Notification)
    requires c.Shaped() && n < 2
  {
    && m.currency == p.currency && m.amount == p.amount && m.returnOf == p.returnOf
    && (m.preimage.Some? ==>
          m.preimage.value == c.render(id, row.request.bankId, row.request.accountId, row.request.payload))
  }

  ghost predicate Enabled(c: Corridor, s: System, step: Step)
    requires c.Shaped() && s.Shaped()
  {
    match step
    case Pay(n, id, _, _, _, _) => n < 2 && id !in s.outboxes[n]
    case Deliver(n, source, m, w) =>
      && n < 2
      && source in s.promises[1 - n] && source in s.outboxes[1 - n]
      && Relays(c, 1 - n, source, s.outboxes[1 - n][source], s.promises[1 - n][source], m)
  }

  ghost predicate IsRefusal(c: Corridor, step: Step)
    requires c.Shaped() && step.Deliver? && step.n < 2
  {
    GoesToCbs(c.nodes[step.n], step.m, step.w) && RefusedForGood(step.w) && step.m.returnOf.None?
  }

  ghost function Apply(c: Corridor, s: System, step: Step): (t: System)
    requires c.Shaped() && s.Shaped() && Enabled(c, s, step)
    ensures t.Shaped()
  {
    match step
    case Pay(n, id, account, payment, salt, now) =>
      var request := Outbox.Request(c.nodes[n].bankId, account, c.nodes[n].write(payment), salt);
      s.WithRow(n, Outbox.Inserted(s.outboxes[n], id, request, now), id, payment)
    case Deliver(n, source, m, w) =>
      var minted := Minted(c.nodes[n], s.outboxes[n], m, w);
      var counted := s.(refusals := s.refusals + (if IsRefusal(c, step) then 1 else 0));
      if minted.None? then counted
      else counted.WithRow(n, OutboxAfter(c.nodes[n], s.outboxes[n], m, w), w.returnId, minted.value)
                  .(mints := s.mints + [Mint(n, w.returnId, source, m)])
  }

  ghost predicate Reaches(c: Corridor, s: System, steps: seq<Step>, t: System)
    requires c.Shaped() && s.Shaped()
    decreases |steps|
  {
    if steps == [] then s == t
    else Enabled(c, s, steps[0]) && Reaches(c, Apply(c, s, steps[0]), steps[1..], t)
  }

  const EMPTY := System([map[], map[]], [map[], map[]], [], 0)

  // ---------- the invariant ----------

  /** A table and what its payloads spell. */
  ghost predicate Spelled(cfg: Config, rows: Outbox.Rows, promises: map<string, Payment>) {
    && promises.Keys == rows.Keys
    && (forall id :: id in promises ==>
          rows[id].request.bankId == cfg.bankId && rows[id].request.payload == cfg.write(promises[id]))
  }

  ghost predicate RowsMatch(c: Corridor, s: System, n: nat)
    requires c.Shaped() && s.Shaped() && n < 2
  {
    Spelled(c.nodes[n], s.outboxes[n], s.promises[n])
  }

  /** The return `r` repays `q`, a promise of the bank `bank` that is not itself a return, to whoever
      originated it. */
  ghost predicate Repays(r: Payment, q: Payment, bank: string, notified: string) {
    && q.returnOf == None && r.returnOf == Some(notified)
    && r.currency == q.currency && r.amount == q.amount
    && r.toBank == bank && r.toName == q.originatorName
    && r.toScheme == q.originatorScheme && r.toAddress == q.originatorAddress
  }

  ghost predicate MintSound(c: Corridor, s: System, mint: Mint)
    requires c.Shaped() && s.Shaped()
  {
    && mint.node < 2 && mint.id in s.promises[mint.node] && mint.source in s.promises[1 - mint.node]
    && Repays(s.promises[mint.node][mint.id], s.promises[1 - mint.node][mint.source],
              c.nodes[1 - mint.node].bankId, mint.notification.id)
  }

  ghost predicate Sound(c: Corridor, s: System)
    requires c.Shaped() && s.Shaped()
  {
    && RowsMatch(c, s, 0) && RowsMatch(c, s, 1)
    && (forall i :: 0 <= i < |s.mints| ==> MintSound(c, s, s.mints[i]))
    && |s.mints| <= s.refusals
  }

  ghost predicate Readable(c: Corridor)
    requires c.Shaped()
  {
    c.PreimagesRead(0) && c.PreimagesRead(1)
  }

  lemma AddingKeepsSpelled(cfg: Config, rows: Outbox.Rows, promises: map<string, Payment>, id: string,
                           request: Outbox.Request, now: nat, payment: Payment)
    requires Spelled(cfg, rows, promises) && id !in rows
    requires request.bankId == cfg.bankId && request.payload == cfg.write(payment)
    ensures Spelled(cfg, Outbox.Inserted(rows, id, request, now), promises[id := payment])
    ensures forall k :: k in promises ==> promises[id := payment][k] == promises[k]
  {
  }

  lemma MintingKeepsSpelled(cfg: Config, rows: Outbox.Rows, promises: map<string, Payment>, m: Notification, w: World)
    requires Spelled(cfg, rows, promises) && Minted(cfg, rows, m, w).Some?
    ensures w.returnId !in promises
    ensures Spelled(cfg, OutboxAfter(cfg, rows, m, w), promises[w.returnId := Minted(cfg, rows, m, w).value])
  {
    var payment := Minted(cfg, rows, m, w).value;
    AddingKeepsSpelled(cfg, rows, promises, w.returnId,
                       Outbox.Request(cfg.bankId, cfg.accountId, cfg.write(payment), w.returnSalt), w.now, payment);
  }

  /** Rows are only added. */
  lemma PromisesStay(c: Corridor, s: System, step: Step, n: nat)
    requires c.Shaped() && s.Shaped() && Enabled(c, s, step) && n < 2 && RowsMatch(c, s, n)
    ensures RowsMatch(c, Apply(c, s, step), n)
    ensures forall id :: id in s.promises[n] ==>
              id in Apply(c, s, step).promises[n] && Apply(c, s, step).promises[n][id] == s.promises[n][id]
  {
    if step.n == n {
      var cfg, rows, promises := c.nodes[n], s.outboxes[n], s.promises[n];
      match step {
        case Pay(_, id, account, payment, salt, now) =>
          AddingKeepsSpelled(cfg, rows, promises, id, Outbox.Request(cfg.bankId, account, cfg.write(payment), salt), now, payment);
        case Deliver(_, _, m, w) =>
          if Minted(cfg, rows, m, w).Some? {
            MintingKeepsSpelled(cfg, rows, promises, m, w);
          }
      }
    }
  }

  lemma MintedRepays(cfg: Config, outbox: Outbox.Rows, m: Notification, w: World, q: Payment, bank: string)
    requires Minted(cfg, outbox, m, w).Some?
    requires m.currency == q.currency && m.amount == q.amount && m.returnOf == q.returnOf
    requires m.preimage.Some? ==>
               cfg.read(m.preimage.value) == Fields(Some(bank), q.originatorName, q.originatorScheme, q.originatorAddress)
    ensures Repays(Minted(cfg, outbox, m, w).value, q, bank, m.id)
  {
  }

  lemma MintRepaysItsSource(c: Corridor, s: System, n: nat, source: string, m: Notification, w: World)
    requires c.Shaped() && s.Shaped() && Readable(c) && Enabled(c, s, Deliver(n, source, m, w)) && RowsMatch(c, s, 1 - n)
    requires Minted(c.nodes[n], s.outboxes[n], m, w).Some?
    ensures Repays(Minted(c.nodes[n], s.outboxes[n], m, w).value, s.promises[1 - n][source], c.nodes[1 - n].bankId, m.id)
  {
    var row, q := s.outboxes[1 - n][source], s.promises[1 - n][source];
    assert c.PreimagesRead(1 - n);
    assert m.preimage.value == c.render(source, c.nodes[1 - n].bankId, row.request.accountId, c.nodes[1 - n].write(q));
    MintedRepays(c.nodes[n], s.outboxes[n], m, w, q, c.nodes[1 - n].bankId);
  }

  lemma NewMintIsSound(c: Corridor, s: System, n: nat, source: string, m: Notification, w: World)
    requires c.Shaped() && s.Shaped() && Readable(c) && Sound(c, s) && Enabled(c, s, Deliver(n, source, m, w))
    requires Minted(c.nodes[n], s.outboxes[n], m, w).Some?
    ensures MintSound(c, Apply(c, s, Deliver(n, source, m, w)), Mint(n, w.returnId, source, m))
  {
    assert RowsMatch(c, s, 1 - n);
    MintRepaysItsSource(c, s, n, source, m, w);
    PromisesStay(c, s, Deliver(n, source, m, w), 1 - n);
  }

  ghost predicate Grows(s: System, t: System)
    requires s.Shaped() && t.Shaped()
  {
    forall n, id :: 0 <= n < 2 && id in s.promises[n] ==> id in t.promises[n] && t.promises[n][id] == s.promises[n][id]
  }

  lemma MintStaysSound(c: Corridor, s: System, t: System, mint: Mint)
    requires c.Shaped() && s.Shaped() && t.Shaped() && Grows(s, t) && MintSound(c, s, mint)
    ensures MintSound(c, t, mint)
  {
  }

  lemma StepGrows(c: Corridor, s: System, step: Step)
    requires c.Shaped() && s.Shaped() && Sound(c, s) && Enabled(c, s, step)
    ensures Grows(s, Apply(c, s, step))
    ensures RowsMatch(c, Apply(c, s, step), 0) && RowsMatch(c, Apply(c, s, step), 1)
  {
    PromisesStay(c, s, step, 0);
    PromisesStay(c, s, step, 1);
  }

  ghost predicate Mints(c: Corridor, s: System, step: Step)
    requires c.Shaped() && s.Shaped() && Enabled(c, s, step)
  {
    step.Deliver? && Minted(c.nodes[step.n], s.outboxes[step.n], step.m, step.w).Some?
  }

  lemma StepAddsAtMostOneMint(c: Corridor, s: System, step: Step)
    requires c.Shaped() && s.Shaped() && Enabled(c, s, step)
    ensures var t := Apply(c, s, step);
            if Mints(c, s, step)
            then t.mints == s.mints + [Mint(step.n, step.w.returnId, step.source, step.m)] && t.refusals == s.refusals + 1
            else t.mints == s.mints && t.refusals >= s.refusals
  {
  }

  lemma StepKeepsSound(c: Corridor, s: System, step: Step)
    requires c.Shaped() && s.Shaped() && Readable(c) && Sound(c, s) && Enabled(c, s, step)
    ensures Sound(c, Apply(c, s, step))
  {
    var t := Apply(c, s, step);
    StepGrows(c, s, step);
    StepAddsAtMostOneMint(c, s, step);
    if Mints(c, s, step) {
      NewMintIsSound(c, s, step.n, step.source, step.m, step.w);
    }
    forall i | 0 <= i < |t.mints|
      ensures MintSound(c, t, t.mints[i])
    {
      if i < |s.mints| {
        MintStaysSound(c, s, t, s.mints[i]);
      }
    }
  }

  lemma {:induction false} RunKeepsSound(c: Corridor, s: System, steps: seq<Step>, t: System)
    requires c.Shaped() && s.Shaped() && Readable(c) && Sound(c, s) && Reaches(c, s, steps, t)
    ensures t.Shaped() && Sound(c, t)
    decreases |steps|
  {
    if steps != [] {
      StepKeepsSound(c, s, steps[0]);
      RunKeepsSound(c, Apply(c, s, steps[0]), steps[1..], t);
    }
  }

  /** Over every run, each minted return repays one promise of the other node: the same amount and
      currency, to the bank and account of its originator; it is never the return of a return; and
      returns are no more than the refusals of credits that were not returns. */
  lemma ReturnsRepayWhatWasRefused(c: Corridor, steps: seq<Step>, t: System, i: nat)
    requires c.Shaped() && Readable(c) && Reaches(c, EMPTY, steps, t)
    ensures t.Shaped() && |t.mints| <= t.refusals
    ensures i < |t.mints| ==> MintSound(c, t, t.mints[i])
  {
    RunKeepsSound(c, EMPTY, steps, t);
  }

  /** A minted return ends there: relayed to the other node and refused in its turn, it mints nothing. */
  lemma OneHopOnly(c: Corridor, steps: seq<Step>, s: System, i: nat, n: nat, m: Notification, w: World)
    requires c.Shaped() && Readable(c) && Reaches(c, EMPTY, steps, s) && s.Shaped()
    requires i < |s.mints| && n + s.mints[i].node == 1
    requires Enabled(c, s, Deliver(n, s.mints[i].id, m, w))
    ensures Apply(c, s, Deliver(n, s.mints[i].id, m, w)) == s
  {
    RunKeepsSound(c, EMPTY, steps, s);
    assert MintSound(c, s, s.mints[i]);
  }
}
