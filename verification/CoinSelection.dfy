/**
 Largest-first coin selection: sort by value, then take coins until the running total covers the
 target. Proved complete, minimal and monotone although the running total saturates, and
 independent of the order of the coins exactly when no two differ only in their index.
 */
module CoinSelection {
  import opened Prelude
  import opened TextOrder

  type U64 = n: nat | n <= U64_MAX

  function SaturatingAdd(a: nat, b: nat): (r: U64)
    ensures r == if a + b <= U64_MAX then a + b else U64_MAX
  {
    Min(a + b, U64_MAX)
  }

  datatype Utxo = Utxo(txHash: string, index: nat, lovelace: U64)

  // ---------- the order ----------

  /** Larger first; equal values by transaction hash; the index plays no part. */
  predicate Before(a: Utxo, b: Utxo) {
    a.lovelace > b.lovelace || (a.lovelace == b.lovelace && TextLess(a.txHash, b.txHash))
  }

  predicate Tied(a: Utxo, b: Utxo) {
    a.lovelace == b.lovelace && a.txHash == b.txHash
  }

  lemma OrderIsTotal(a: Utxo, b: Utxo)
    ensures Before(a, b) || Before(b, a) || Tied(a, b)
    ensures !(Before(a, b) && Before(b, a)) && (Tied(a, b) ==> !Before(a, b))
  {
    TextLessIsTotal(a.txHash, b.txHash);
  }

  lemma NotBeforeIsTransitive(a: Utxo, b: Utxo, c: Utxo)
    requires !Before(b, a) && !Before(c, b)
    ensures !Before(c, a)
  {
    TextLessIsTotal(a.txHash, b.txHash);
    TextLessIsTotal(b.txHash, c.txHash);
    TextLessIsTotal(a.txHash, c.txHash);
    if TextLess(a.txHash, b.txHash) && TextLess(b.txHash, c.txHash) {
      TextLessIsTransitive(a.txHash, b.txHash, c.txHash);
    }
  }

  ghost predicate Ordered(s: seq<Utxo>) {
    forall i, j :: 0 <= i < j < |s| ==> !Before(s[j], s[i])
  }

  // ---------- the stable sort ----------

  function Insert(u: Utxo, sorted: seq<Utxo>): seq<Utxo> {
    if sorted != [] && Before(sorted[0], u) then [sorted[0]] + Insert(u, sorted[1..]) else [u] + sorted
  }

  function Sort(utxos: seq<Utxo>): seq<Utxo> {
    if utxos == [] then [] else Insert(utxos[0], Sort(utxos[1..]))
  }

  lemma HeadAndTail(s: seq<Utxo>)
    requires s != []
    ensures s == [s[0]] + s[1..] && multiset(s) == multiset{s[0]} + multiset(s[1..])
  {
    assert s == [s[0]] + s[1..];
  }

  lemma CancelOne(u: Utxo, x: multiset<Utxo>, y: multiset<Utxo>)
    requires multiset{u} + x <= multiset{u} + y
    ensures x <= y
  {
    forall v
      ensures x[v] <= y[v]
    {
      assert (multiset{u} + x)[v] <= (multiset{u} + y)[v];
    }
  }

  lemma {:induction false} InsertPermutes(u: Utxo, sorted: seq<Utxo>)
    ensures multiset(Insert(u, sorted)) == multiset{u} + multiset(sorted)
  {
    if sorted != [] && Before(sorted[0], u) {
      InsertPermutes(u, sorted[1..]);
      HeadAndTail(sorted);
    }
  }

  lemma PrependKeepsOrder(x: Utxo, s: seq<Utxo>)
    requires Ordered(s) && forall j :: 0 <= j < |s| ==> !Before(s[j], x)
    ensures Ordered([x] + s)
  {
  }

  lemma FirstPrecedesAll(u: Utxo, sorted: seq<Utxo>)
    requires Ordered(sorted) && sorted != [] && !Before(sorted[0], u)
    ensures forall j :: 0 <= j < |sorted| ==> !Before(sorted[j], u)
  {
    forall j | 0 <= j < |sorted|
      ensures !Before(sorted[j], u)
    {
      if j > 0 {
        NotBeforeIsTransitive(u, sorted[0], sorted[j]);
      }
    }
  }

  lemma {:induction false} InsertKeepsOrder(u: Utxo, sorted: seq<Utxo>)
    requires Ordered(sorted)
    ensures Ordered(Insert(u, sorted))
  {
    if sorted != [] && Before(sorted[0], u) {
      var rest := sorted[1..];
      InsertKeepsOrder(u, rest);
      var r := Insert(u, rest);
      InsertPermutes(u, rest);
      OrderIsTotal(sorted[0], u);
      forall j | 0 <= j < |r|
        ensures !Before(r[j], sorted[0])
      {
        assert r[j] in multiset(r);
        if r[j] != u {
          assert r[j] in rest;
          var i :| 0 <= i < |rest| && rest[i] == r[j];
          assert !Before(sorted[i + 1], sorted[0]);
        }
      }
      PrependKeepsOrder(sorted[0], r);
    } else if sorted != [] {
      FirstPrecedesAll(u, sorted);
      PrependKeepsOrder(u, sorted);
    }
  }

  lemma {:induction false} SortPermutes(utxos: seq<Utxo>)
    ensures multiset(Sort(utxos)) == multiset(utxos) && |Sort(utxos)| == |utxos|
  {
    if utxos != [] {
      SortPermutes(utxos[1..]);
      InsertPermutes(utxos[0], Sort(utxos[1..]));
      HeadAndTail(utxos);
    }
    assert |multiset(Sort(utxos))| == |multiset(utxos)|;
  }

  lemma {:induction false} SortOrders(utxos: seq<Utxo>)
    ensures Ordered(Sort(utxos))
  {
    if utxos != [] {
      SortOrders(utxos[1..]);
      InsertKeepsOrder(utxos[0], Sort(utxos[1..]));
    }
  }

  // ---------- the selection ----------

  function Sum(utxos: seq<Utxo>): nat {
    if utxos == [] then 0 else Sum(utxos[..|utxos| - 1]) + utxos[|utxos| - 1].lovelace
  }

  /** The running total stops at the largest 64-bit number. */
  function RunningTotal(utxos: seq<Utxo>): U64 {
    if utxos == [] then 0
    else SaturatingAdd(RunningTotal(utxos[..|utxos| - 1]), utxos[|utxos| - 1].lovelace)
  }

  /** The first prefix longer than `n` whose running total reaches the target. */
  function FirstCovering(sorted: seq<Utxo>, n: nat, target: U64): (r: Option<seq<Utxo>>)
    decreases |sorted| - n
  {
    if n >= |sorted| then None
    else if RunningTotal(sorted[..n + 1]) >= target then Some(sorted[..n + 1])
    else FirstCovering(sorted, n + 1, target)
  }

  function Selected(utxos: seq<Utxo>, target: U64): Option<seq<Utxo>> {
    FirstCovering(Sort(utxos), 0, target)
  }

  method SelectLargestFirst(utxos: seq<Utxo>, target: U64) returns (r: Option<seq<Utxo>>)
    ensures r == Selected(utxos, target)
  {
    var sorted := Sort(utxos);
    var chosen: seq<Utxo> := [];
    var acc: U64 := 0;
    var i := 0;
    while i < |sorted|
      invariant i <= |sorted|
      invariant chosen == sorted[..i] && acc == RunningTotal(sorted[..i])
      invariant FirstCovering(sorted, i, target) == FirstCovering(sorted, 0, target)
    {
      assert sorted[..i + 1][..i] == sorted[..i];
      acc := SaturatingAdd(acc, sorted[i].lovelace);
      chosen := chosen + [sorted[i]];
      if acc >= target {
        assert chosen == sorted[..i + 1];
        return Some(chosen);
      }
      i := i + 1;
    }
    return None;
  }

  // ---------- what is selected ----------

  lemma {:induction false} RunningTotalSaturates(utxos: seq<Utxo>)
    ensures RunningTotal(utxos) == Min(Sum(utxos), U64_MAX)
  {
    if utxos != [] {
      RunningTotalSaturates(utxos[..|utxos| - 1]);
    }
  }

  /** `r` is the shortest nonempty prefix longer than `n` whose true total covers the target. */
  ghost predicate IsShortestCover(sorted: seq<Utxo>, n: nat, target: U64, r: Option<seq<Utxo>>) {
    match r
    case None => forall m :: n < m <= |sorted| ==> Sum(sorted[..m]) < target
    case Some(chosen) =>
      && n < |chosen| <= |sorted| && chosen == sorted[..|chosen|] && Sum(chosen) >= target
      && (forall m :: n < m < |chosen| ==> Sum(sorted[..m]) < target)
  }

  lemma {:induction false} FirstCoveringIsShortest(sorted: seq<Utxo>, n: nat, target: U64)
    ensures IsShortestCover(sorted, n, target, FirstCovering(sorted, n, target))
    decreases |sorted| - n
  {
    if n < |sorted| {
      RunningTotalSaturates(sorted[..n + 1]);
      if RunningTotal(sorted[..n + 1]) < target {
        FirstCoveringIsShortest(sorted, n + 1, target);
      }
    }
  }

  lemma {:induction false} PrefixSumsGrow(s: seq<Utxo>, m: nat, n: nat)
    requires m <= n <= |s|
    ensures Sum(s[..m]) <= Sum(s[..n])
    decreases n
  {
    if m < n {
      assert s[..n][..n - 1] == s[..n - 1];
      PrefixSumsGrow(s, m, n - 1);
    }
  }

  lemma {:induction false} SumOfConcat(a: seq<Utxo>, b: seq<Utxo>)
    ensures Sum(a + b) == Sum(a) + Sum(b)
    decreases |b|
  {
    if b == [] {
      assert a + b == a;
    } else {
      assert (a + b)[..|a + b| - 1] == a + b[..|b| - 1];
      SumOfConcat(a, b[..|b| - 1]);
    }
  }

  lemma SumOfOne(u: Utxo)
    ensures Sum([u]) == u.lovelace
  {
    assert [u][..0] == [];
  }

  lemma SumOfHeadAndTail(s: seq<Utxo>)
    requires s != []
    ensures Sum(s) == s[0].lovelace + Sum(s[1..])
  {
    HeadAndTail(s);
    SumOfConcat([s[0]], s[1..]);
    SumOfOne(s[0]);
  }

  /** The coins without the one at this position. */
  function Except(s: seq<Utxo>, i: nat): seq<Utxo>
    requires i < |s|
  {
    s[..i] + s[i + 1..]
  }

  lemma SumExcept(s: seq<Utxo>, i: nat)
    requires i < |s|
    ensures Sum(s) == s[i].lovelace + Sum(Except(s, i))
  {
    var front, back := s[..i], s[i..];
    assert s == front + back && back[1..] == s[i + 1..];
    SumOfConcat(front, back);
    SumOfHeadAndTail(back);
    SumOfConcat(front, back[1..]);
  }

  lemma MultisetExcept(s: seq<Utxo>, i: nat)
    requires i < |s|
    ensures multiset(s) == multiset{s[i]} + multiset(Except(s, i)) && |Except(s, i)| == |s| - 1
  {
    var front, back := s[..i], s[i..];
    assert s == front + back && back[1..] == s[i + 1..];
    HeadAndTail(back);
  }

  lemma {:induction false} SumIgnoresOrder(a: seq<Utxo>, b: seq<Utxo>)
    requires multiset(a) == multiset(b)
    ensures Sum(a) == Sum(b)
    decreases |a|
  {
    if a == [] {
      assert |multiset(b)| == 0;
    } else {
      assert a[0] in multiset(b);
      var i :| 0 <= i < |b| && b[i] == a[0];
      HeadAndTail(a);
      MultisetExcept(b, i);
      CancelOne(a[0], multiset(a[1..]), multiset(Except(b, i)));
      CancelOne(a[0], multiset(Except(b, i)), multiset(a[1..]));
      SumIgnoresOrder(a[1..], Except(b, i));
      SumOfHeadAndTail(a);
      SumExcept(b, i);
    }
  }

  lemma SortKeepsSum(utxos: seq<Utxo>)
    ensures Sum(Sort(utxos)) == Sum(utxos)
  {
    SortPermutes(utxos);
    SumIgnoresOrder(Sort(utxos), utxos);
  }

  /** For a positive target, selection succeeds exactly when the true total covers it. */
  lemma SelectsExactlyWhenCovered(utxos: seq<Utxo>, target: U64)
    requires target > 0
    ensures Selected(utxos, target).Some? <==> Sum(utxos) >= target
  {
    var sorted := Sort(utxos);
    SortKeepsSum(utxos);
    FirstCoveringIsShortest(sorted, 0, target);
    assert sorted[..|sorted|] == sorted;
    if Selected(utxos, target).Some? {
      PrefixSumsGrow(sorted, |Selected(utxos, target).value|, |sorted|);
    } else if |sorted| > 0 {
      assert Sum(sorted[..|sorted|]) < target;
    }
  }

  /** Among coins in order, no m of them are worth more than the first m. */
  lemma {:induction false} FirstCoinsAreLargest(sorted: seq<Utxo>, pick: seq<Utxo>)
    requires Ordered(sorted) && multiset(pick) <= multiset(sorted)
    ensures |pick| <= |sorted| && Sum(pick) <= Sum(sorted[..|pick|])
    decreases |sorted|
  {
    if sorted == [] {
      EmptyPick(pick);
    } else if sorted[0] in pick {
      var i :| 0 <= i < |pick| && pick[i] == sorted[0];
      var fewer, rest := Except(pick, i), sorted[1..];
      MultisetExcept(pick, i);
      HeadAndTail(sorted);
      CancelOne(sorted[0], multiset(fewer), multiset(rest));
      FirstCoinsAreLargest(rest, fewer);
      SumExcept(pick, i);
      SumOfHeadAndTail(sorted[..|pick|]);
      assert sorted[..|pick|][1..] == rest[..|fewer|];
    } else {
      PickAvoidsHead(sorted, pick);
      FirstCoinsAreLargest(sorted[1..], pick);
      ShiftedSumIsSmaller(sorted, |pick|);
    }
  }

  lemma EmptyPick(pick: seq<Utxo>)
    requires multiset(pick) <= multiset([])
    ensures pick == []
  {
    assert multiset(pick) == multiset{};
    assert |multiset(pick)| == 0;
  }

  lemma PickAvoidsHead(sorted: seq<Utxo>, pick: seq<Utxo>)
    requires sorted != [] && sorted[0] !in pick && multiset(pick) <= multiset(sorted)
    ensures multiset(pick) <= multiset(sorted[1..])
  {
    HeadAndTail(sorted);
    assert sorted[0] !in multiset(pick);
  }

  lemma {:induction false} ShiftedSumIsSmaller(sorted: seq<Utxo>, m: nat)
    requires Ordered(sorted) && m < |sorted|
    ensures Sum(sorted[1..][..m]) <= Sum(sorted[..m])
  {
    if m > 0 {
      ShiftedSumIsSmaller(sorted, m - 1);
      assert sorted[1..][..m][..m - 1] == sorted[1..][..m - 1];
      assert sorted[..m][..m - 1] == sorted[..m - 1];
      assert !Before(sorted[m], sorted[m - 1]);
    }
  }

  /** No smaller number of coins covers the target. */
  lemma NoSmallerSelectionCovers(utxos: seq<Utxo>, target: U64, pick: seq<Utxo>)
    requires target > 0 && Selected(utxos, target).Some?
    requires multiset(pick) <= multiset(utxos)
    requires Sum(pick) >= target
    ensures |pick| >= |Selected(utxos, target).value|
  {
    var sorted := Sort(utxos);
    SortPermutes(utxos);
    SortOrders(utxos);
    FirstCoinsAreLargest(sorted, pick);
    FirstCoveringIsShortest(sorted, 0, target);
    assert pick != [];
    assert Sum(sorted[..|pick|]) >= target;
  }

  lemma PrefixIsSubMultiset(s: seq<Utxo>, n: nat)
    requires n <= |s|
    ensures multiset(s[..n]) <= multiset(s)
  {
    assert s == s[..n] + s[n..];
  }

  /** The selection is made of the wallet's own coins, each at most as often as it has it, and covers
      the target. */
  lemma SelectionCovers(utxos: seq<Utxo>, target: U64)
    requires Selected(utxos, target).Some?
    ensures var chosen := Selected(utxos, target).value;
            && chosen != [] && Sum(chosen) >= target
            && multiset(chosen) <= multiset(utxos)
            && Sum(chosen) <= Sum(utxos)
            && |chosen| <= |Sort(utxos)| == |utxos| && chosen == Sort(utxos)[..|chosen|]
  {
    var sorted := Sort(utxos);
    SortPermutes(utxos);
    SortKeepsSum(utxos);
    FirstCoveringIsShortest(sorted, 0, target);
    var n := |Selected(utxos, target).value|;
    PrefixIsSubMultiset(sorted, n);
    PrefixSumsGrow(sorted, n, |sorted|);
    assert sorted[..|sorted|] == sorted;
  }

  /** A larger target keeps every coin of the smaller selection: the same order, a longer prefix. */
  lemma LargerTargetSelectsSuperset(utxos: seq<Utxo>, small: U64, large: U64)
    requires small <= large
    requires Selected(utxos, large).Some?
    ensures Selected(utxos, small).Some?
    ensures Selected(utxos, small).value <= Selected(utxos, large).value
  {
    var sorted := Sort(utxos);
    FirstCoveringIsShortest(sorted, 0, small);
    FirstCoveringIsShortest(sorted, 0, large);
  }

  /** When any one coin is worth the rise from `small` to `top`, no target in between takes more than
      one extra coin, and with the extra coin the selection covers the top. */
  lemma OneCoinCoversTheRise(utxos: seq<Utxo>, small: U64, target: U64, top: nat)
    requires small <= target <= top
    requires forall u :: u in utxos ==> small + u.lovelace >= top
    requires Selected(utxos, small).Some? && Selected(utxos, target).Some?
    ensures |Selected(utxos, target).value| <= |Selected(utxos, small).value| + 1
    ensures |Selected(utxos, target).value| == |Selected(utxos, small).value| + 1
            ==> Sum(Selected(utxos, target).value) >= top
  {
    var sorted, n := Sort(utxos), |Selected(utxos, small).value|;
    FirstCoveringIsShortest(sorted, 0, small);
    FirstCoveringIsShortest(sorted, 0, target);
    if n < |sorted| {
      SortPermutes(utxos);
      assert sorted[n] in multiset(utxos);
      assert sorted[..n + 1][..n] == sorted[..n];
      assert Sum(sorted[..n + 1]) >= top;
    }
  }

  ghost predicate AllDifferent(utxos: seq<Utxo>) {
    forall i, j :: 0 <= i < j < |utxos| ==> utxos[i] != utxos[j]
  }

  lemma {:induction false} CountOfDifferent(utxos: seq<Utxo>, u: Utxo)
    requires AllDifferent(utxos)
    ensures multiset(utxos)[u] <= 1
  {
    if utxos != [] {
      HeadAndTail(utxos);
      CountOfDifferent(utxos[1..], u);
      assert utxos[0] !in utxos[1..];
    }
  }

  lemma SelectedAreDifferent(inputs: seq<Utxo>, utxos: seq<Utxo>)
    requires multiset(inputs) <= multiset(utxos) && AllDifferent(utxos)
    ensures AllDifferent(inputs)
  {
    forall i, j | 0 <= i < j < |inputs|
      ensures inputs[i] != inputs[j]
    {
      CountOfDifferent(utxos, inputs[i]);
      MultisetExcept(inputs, i);
      assert Except(inputs, i)[j - 1] == inputs[j];
      assert inputs[j] in multiset(Except(inputs, i));
    }
  }

  // ---------- what the order of the wallet's coins changes ----------

  ghost predicate NoTies(utxos: seq<Utxo>) {
    forall a, b :: a in utxos && b in utxos && Tied(a, b) ==> a == b
  }

  /** The coins that compare equal to this one, in the order they stand. */
  function TiedWith(u: Utxo, s: seq<Utxo>): seq<Utxo> {
    if s == [] then [] else (if Tied(s[0], u) then [s[0]] else []) + TiedWith(u, s[1..])
  }

  lemma {:induction false} InsertIsStable(x: Utxo, sorted: seq<Utxo>, u: Utxo)
    ensures TiedWith(u, Insert(x, sorted)) == TiedWith(u, [x] + sorted)
  {
    assert ([x] + sorted)[1..] == sorted;
    if sorted != [] && Before(sorted[0], x) {
      InsertIsStable(x, sorted[1..], u);
      assert ([x] + sorted[1..])[1..] == sorted[1..];
      assert Insert(x, sorted)[1..] == Insert(x, sorted[1..]);
      OrderIsTotal(sorted[0], x);
      assert !(Tied(sorted[0], u) && Tied(x, u));
    } else {
      assert Insert(x, sorted)[1..] == sorted;
    }
  }

  lemma {:induction false} SortIsStable(s: seq<Utxo>, u: Utxo)
    ensures TiedWith(u, Sort(s)) == TiedWith(u, s)
  {
    if s != [] {
      SortIsStable(s[1..], u);
      InsertIsStable(s[0], Sort(s[1..]), u);
      assert ([s[0]] + Sort(s[1..]))[1..] == Sort(s[1..]);
    }
  }

  /** Of two orderings of the same coins without ties, both start with the same coin. */
  lemma SameFirst(a: seq<Utxo>, b: seq<Utxo>)
    requires Ordered(a) && Ordered(b) && multiset(a) == multiset(b) && NoTies(a) && a != [] && b != []
    ensures a[0] == b[0]
  {
    assert a[0] in multiset(b) && b[0] in multiset(a);
    var i :| 0 <= i < |b| && b[i] == a[0];
    var j :| 0 <= j < |a| && a[j] == b[0];
    OrderIsTotal(a[0], b[0]);
    assert i > 0 ==> !Before(b[i], b[0]);
    assert j > 0 ==> !Before(a[j], a[0]);
  }

  lemma {:induction false} OrderedPermutationsAgree(a: seq<Utxo>, b: seq<Utxo>)
    requires Ordered(a) && Ordered(b) && multiset(a) == multiset(b) && NoTies(a)
    ensures a == b
    decreases |a|
  {
    assert |multiset(a)| == |multiset(b)|;
    if a != [] {
      SameFirst(a, b);
      HeadAndTail(a);
      HeadAndTail(b);
      CancelOne(a[0], multiset(a[1..]), multiset(b[1..]));
      CancelOne(a[0], multiset(b[1..]), multiset(a[1..]));
      assert forall u :: u in a[1..] ==> u in a;
      OrderedPermutationsAgree(a[1..], b[1..]);
    }
  }

  ghost predicate OrderIndependent(utxos: seq<Utxo>) {
    forall other :: multiset(other) == multiset(utxos) ==> Sort(other) == Sort(utxos)
  }

  /** The order coins are taken in depends only on which coins there are, exactly when no two coins
      differ in their index alone: the comparison ignores the index, so the ledger's listing order
      decides between them. */
  lemma DeterministicExactlyWithoutTies(utxos: seq<Utxo>)
    ensures OrderIndependent(utxos) <==> NoTies(utxos)
  {
    if NoTies(utxos) {
      forall other | multiset(other) == multiset(utxos)
        ensures Sort(other) == Sort(utxos)
      {
        WithoutTiesOrderIsForced(utxos, other);
      }
    } else {
      var a, b :| a in utxos && b in utxos && Tied(a, b) && a != b;
      var first, second := TiesCanSwap(utxos, a, b);
    }
  }

  lemma WithoutTiesOrderIsForced(utxos: seq<Utxo>, other: seq<Utxo>)
    requires NoTies(utxos) && multiset(other) == multiset(utxos)
    ensures Sort(other) == Sort(utxos)
  {
    SortPermutes(other);
    SortPermutes(utxos);
    SortOrders(other);
    SortOrders(utxos);
    forall u | u in Sort(other)
      ensures u in utxos
    {
      assert u in multiset(Sort(other));
    }
    OrderedPermutationsAgree(Sort(other), Sort(utxos));
  }

  lemma TiesCanSwap(utxos: seq<Utxo>, a: Utxo, b: Utxo) returns (first: seq<Utxo>, second: seq<Utxo>)
    requires a in utxos && b in utxos && Tied(a, b) && a != b
    ensures multiset(first) == multiset(utxos) == multiset(second)
    ensures Sort(first) != Sort(second)
  {
    var rest := Without(utxos, a, b);
    first, second := [a] + ([b] + rest), [b] + ([a] + rest);
    SortIsStable(first, a);
    SortIsStable(second, a);
    assert first[1..] == [b] + rest && second[1..] == [a] + rest;
    assert TiedWith(a, first)[0] == a && TiedWith(a, second)[0] == b;
  }

  lemma Without(utxos: seq<Utxo>, a: Utxo, b: Utxo) returns (rest: seq<Utxo>)
    requires a in utxos && b in utxos && a != b
    ensures multiset(utxos) == multiset{a} + multiset{b} + multiset(rest)
  {
    var i :| 0 <= i < |utxos| && utxos[i] == a;
    MultisetExcept(utxos, i);
    var r := Except(utxos, i);
    assert b in multiset(r);
    var j :| 0 <= j < |r| && r[j] == b;
    MultisetExcept(r, j);
    rest := Except(r, j);
  }
}
