/** The commitment shared by every notary record: a hash over the salt followed by the cleartext. */
module Commitments {
  import opened Prelude

  /** The hash, left open: any function from texts to lower-case hex. */
  datatype Scheme = Scheme(sha256Hex: string -> string) {
    function Commitment(cleartext: string, salt: string): string {
      sha256Hex(salt + cleartext)
    }

    predicate Verifies(cleartext: string, salt: string, expected: string) {
      EqIgnoreCase(Commitment(cleartext, salt), expected)
    }

    /** No two texts share a digest, and digests are in lower case. */
    ghost predicate CollisionFree() {
      && (forall a, b :: sha256Hex(a) == sha256Hex(b) ==> a == b)
      && (forall a :: Lower(sha256Hex(a)) == sha256Hex(a))
    }
  }

  /** A reveal is accepted however the relay changed the case of the hex digits. */
  lemma HonestRevealVerifies(scheme: Scheme, cleartext: string, salt: string, expected: string)
    requires expected == scheme.Commitment(cleartext, salt) || expected == Lower(scheme.Commitment(cleartext, salt))
    ensures scheme.Verifies(cleartext, salt, expected)
  {
  }

  /** Without collisions another pair is accepted exactly when salt and cleartext, read on end, are the
      same text; so between salts of one length the commitment fixes both. */
  lemma BindsExactlyTheJoinedText(scheme: Scheme, c0: string, s0: string, c1: string, s1: string)
    requires scheme.CollisionFree()
    ensures scheme.Verifies(c1, s1, scheme.Commitment(c0, s0)) <==> s1 + c1 == s0 + c0
    ensures |s0| == |s1| && scheme.Verifies(c1, s1, scheme.Commitment(c0, s0)) ==> c1 == c0 && s1 == s0
  {
    var a, b := s1 + c1, s0 + c0;
    assert scheme.Verifies(c1, s1, scheme.Commitment(c0, s0)) <==> scheme.sha256Hex(a) == scheme.sha256Hex(b);
    if |s0| == |s1| && a == b {
      assert s1 == a[..|s1|] && s0 == b[..|s0|];
      assert c1 == a[|s1|..] && c0 == b[|s0|..];
    }
  }
}
