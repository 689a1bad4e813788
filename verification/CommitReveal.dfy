/** Commit and reveal, end to end: from the originator's dispatcher to the beneficiary's check. */
module CommitReveal {
  import opened Prelude
  import opened Commitments
  import opened DispatcherRuns
  import Beneficiary
  import DispatcherSafety
  import Outbox

  ghost predicate Carries(m: Beneficiary.Notification, e: Evidence) {
    m.commitment == Some(e.commitment) && m.salt == Some(e.salt) && m.preimage == Some(e.preimage)
  }

  /** Whatever the originator's node revealed, in any run, the beneficiary accepts when it is relayed as
      it was. */
  lemma VerbatimRelayIsAccepted(setup: Setup, chainLabel: string, steps: seq<Step>, t: State, id: string, i: nat,
                                cfg: Beneficiary.Config, outbox: Outbox.Rows, m: Beneficiary.Notification,
                                w: Beneficiary.World)
    requires Reaches(setup, Initial(chainLabel), steps, t) && i < |t.Past(id).evidence|
    requires cfg.scheme == setup.scheme && Carries(m, t.Past(id).evidence[i])
    ensures Beneficiary.Verified(cfg, m)
    ensures w.upsertUp ==> Beneficiary.GoesToCbs(cfg, m, w)
    ensures Beneficiary.ReplyTo(cfg, outbox, m, w) != Beneficiary.CommitmentMismatch
  {
    DispatcherSafety.RevealMatchesCommitment(setup, chainLabel, steps, t, id, i);
  }

  /** And, without collisions, when the relay kept the on-chain commitment, it accepts exactly the salt
      and preimage that were revealed, read on end. */
  lemma OnlyTheRevealedTextIsAccepted(setup: Setup, chainLabel: string, steps: seq<Step>, t: State, id: string, i: nat,
                                      cfg: Beneficiary.Config, m: Beneficiary.Notification)
    requires Reaches(setup, Initial(chainLabel), steps, t) && i < |t.Past(id).evidence|
    requires cfg.scheme == setup.scheme && setup.scheme.CollisionFree()
    requires m.HasEvidence() && m.commitment.value == t.Past(id).evidence[i].commitment
    ensures var e := t.Past(id).evidence[i];
            Beneficiary.Verified(cfg, m) <==> m.salt.value + m.preimage.value == e.salt + e.preimage
  {
    DispatcherSafety.RevealMatchesCommitment(setup, chainLabel, steps, t, id, i);
    DispatcherSafety.ReachableIsSound(setup, chainLabel, steps, t, id);
    var e := t.Past(id).evidence[i];
    BindsExactlyTheJoinedText(setup.scheme, e.preimage, e.salt, m.preimage.value, m.salt.value);
  }

  /** What is committed on chain and revealed for a row is the hash of its salt and its canonical text, which
      is made of its id, bank, account and payload as they were inserted. */
  lemma CommitmentIsOfTheRequest(setup: Setup, chainLabel: string, steps: seq<Step>, t: State, id: string, i: nat)
    requires Reaches(setup, Initial(chainLabel), steps, t) && i < |t.Past(id).evidence|
    ensures DispatcherSafety.FirstInsert(steps, id).Some?
    ensures var (request, _) := DispatcherSafety.FirstInsert(steps, id).value;
            var e := t.Past(id).evidence[i];
            && e.preimage == setup.render(id, request.bankId, request.accountId, request.payload)
            && e.salt == request.salt
            && e.commitment == setup.scheme.sha256Hex(request.salt + e.preimage)
            && forall j :: 0 <= j < |t.Past(id).commitments| ==> t.Past(id).commitments[j] == e.commitment
  {
    DispatcherSafety.ReachableIsSound(setup, chainLabel, steps, t, id);
    DispatcherSafety.RowIsWhatWasInserted(setup, Initial(chainLabel), steps, t, id);
  }

  /** Without collisions, two requests with salts of one length have one commitment exactly if salts and
      canonical texts are the same. */
  lemma CommitmentBindsTheRequest(setup: Setup, id: string, r: Outbox.Request, other: string, q: Outbox.Request)
    requires setup.scheme.CollisionFree() && |r.salt| == |q.salt|
    ensures setup.CommitmentOf(id, r) == setup.CommitmentOf(other, q) <==>
            && r.salt == q.salt
            && setup.render(id, r.bankId, r.accountId, r.payload) == setup.render(other, q.bankId, q.accountId, q.payload)
  {
    BindsExactlyTheJoinedText(setup.scheme, setup.Preimage(id, r), r.salt, setup.Preimage(other, q), q.salt);
  }
}
