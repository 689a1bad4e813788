/** `ORDER BY stamp ASC LIMIT n` over a table: the n keys with the oldest stamps, oldest first. */
module Worklist {
  import opened Prelude

  ghost predicate Distinct(keys: seq<string>) {
    forall i, j :: 0 <= i < j < |keys| ==> keys[i] != keys[j]
  }

  ghost predicate Oldest(stamps: map<string, nat>, keys: seq<string>, limit: nat) {
    && |keys| == Min(limit, |stamps|)
    && Distinct(keys)
    && (forall i :: 0 <= i < |keys| ==> keys[i] in stamps)
    && (forall i, j :: 0 <= i < j < |keys| ==> stamps[keys[i]] <= stamps[keys[j]])
    && (forall i, k :: 0 <= i < |keys| && k in stamps && k !in keys ==> stamps[keys[i]] <= stamps[k])
  }

  /** One of the oldest keys. */
  method OldestKey(stamps: map<string, nat>) returns (best: string)
    requires stamps != map[]
    ensures best in stamps
    ensures forall k :: k in stamps ==> stamps[best] <= stamps[k]
  {
    best :| best in stamps;
    var todo := stamps.Keys - {best};
    while todo != {}
      invariant todo <= stamps.Keys && best in stamps
      invariant forall k :: k in stamps && k !in todo ==> stamps[best] <= stamps[k]
      decreases |todo|
    {
      var k :| k in todo;
      todo := todo - {k};
      if stamps[k] < stamps[best] {
        best := k;
      }
    }
  }

  method TakeOldest(stamps: map<string, nat>, limit: nat) returns (keys: seq<string>)
    ensures Oldest(stamps, keys, limit)
  {
    keys := [];
    var rest := stamps;
    while rest != map[] && |keys| < limit
      invariant |keys| <= limit && |keys| + |rest| == |stamps|
      invariant Distinct(keys)
      invariant forall i :: 0 <= i < |keys| ==> keys[i] in stamps && keys[i] !in rest
      invariant forall k :: k in rest <==> k in stamps && k !in keys
      invariant forall k :: k in rest ==> rest[k] == stamps[k]
      invariant forall i, j :: 0 <= i < j < |keys| ==> stamps[keys[i]] <= stamps[keys[j]]
      invariant forall i, k :: 0 <= i < |keys| && k in rest ==> stamps[keys[i]] <= stamps[k]
      decreases |rest|
    {
      var best := OldestKey(rest);
      assert rest.Keys == (rest - {best}).Keys + {best};
      rest := rest - {best};
      keys := keys + [best];
    }
  }
}
