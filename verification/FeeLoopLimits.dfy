/**
 How many rounds the fee loop can need. Twice the number of coins plus five always suffice, and so do
 twice the size limit plus five (TxBuilder). But the cap must grow with the size limit: whatever the
 fixed sizes of a transaction and of an input and whatever the fee a byte, when the limit leaves room for
 enough inputs, a wallet of one coin that covers the first target to the lovelace and many coins worth
 exactly the fee of their own input stays under-paid in every round. The coins of a network whose outputs
 have a minimum are never so small, and there eight rounds are enough.
 */
module FeeLoopLimits {
  import opened Prelude
  import opened TextOrder
  import opened CoinSelection
  import opened TxBuilder

  /** The product, added up. */
  function Times(d: nat, k: nat): nat {
    if k == 0 then 0 else Times(d, k - 1) + d
  }

  lemma {:induction false} TimesIsProduct(d: nat, k: nat)
    ensures Times(d, k) == d * k
  {
    if k > 0 {
      TimesIsProduct(d, k - 1);
    }
  }

  lemma {:induction false} TimesAdds(d: nat, k: nat, g: nat)
    ensures Times(d, k + g) == Times(d, k) + Times(d, g)
  {
    if g > 0 {
      TimesAdds(d, k, g - 1);
    }
  }

  // ---------- the coins ----------

  function Hash(): (r: string)
    ensures IsHash(r)
  {
    seq(64, _ => 'a')
  }

  /** One coin, and then n small ones. */
  function Coins(first: U64, dust: U64, n: nat): seq<Utxo> {
    seq(n + 1, i requires 0 <= i < n + 1 => Utxo(Hash(), i, if i == 0 then first else dust))
  }

  lemma {:induction false} CoinSums(first: U64, dust: U64, n: nat, k: nat)
    requires k <= n
    ensures Sum(Coins(first, dust, n)[..k + 1]) == first + Times(dust, k)
  {
    var s := Coins(first, dust, n)[..k + 1];
    assert s[..k] == Coins(first, dust, n)[..k];
    if k > 0 {
      CoinSums(first, dust, n, k - 1);
    } else {
      assert Sum(s[..0]) == 0;
    }
  }

  lemma {:induction false} OrderedStays(s: seq<Utxo>)
    requires Ordered(s)
    ensures Sort(s) == s
  {
    if s != [] {
      OrderedStays(s[1..]);
      assert s == [s[0]] + s[1..];
      if |s| > 1 {
        assert !Before(s[1], s[0]);
      }
    }
  }

  lemma ShortestIsNoLonger(sorted: seq<Utxo>, target: U64, r: Option<seq<Utxo>>, m: nat)
    requires IsShortestCover(sorted, 0, target, r)
    requires 0 < m <= |sorted| && Sum(sorted[..m]) >= target
    ensures r.Some? && |r.value| <= m
  {
  }

  /** The shortest cover of a target that m of the small coins can pay: the first coin and k of them, k
      at most m, and less than one small coin too much. */
  lemma CoverOfCoins(first: U64, dust: U64, n: nat, target: U64, m: nat, r: Option<seq<Utxo>>) returns (k: nat)
    requires first <= target <= first + Times(dust, m) && m <= n
    requires IsShortestCover(Coins(first, dust, n), 0, target, r)
    ensures k <= m && r == Some(Coins(first, dust, n)[..k + 1])
    ensures target <= first + Times(dust, k)
    ensures first + Times(dust, k) - target < dust || first + Times(dust, k) == target
  {
    var coins := Coins(first, dust, n);
    CoinSums(first, dust, n, m);
    ShortestIsNoLonger(coins, target, r, m + 1);
    k := |r.value| - 1;
    CoinSums(first, dust, n, k);
    if k > 0 {
      assert Sum(coins[..k]) < target;
      CoinSums(first, dust, n, k - 1);
    }
  }

  lemma SelectedCoins(first: U64, dust: U64, n: nat, target: U64, m: nat) returns (k: nat)
    requires first >= dust && first <= target <= first + Times(dust, m) && m <= n
    ensures k <= m && Selected(Coins(first, dust, n), target) == Some(Coins(first, dust, n)[..k + 1])
    ensures target <= first + Times(dust, k)
    ensures first + Times(dust, k) - target < dust || first + Times(dust, k) == target
  {
    TextLessIsTotal(Hash(), Hash());
    OrderedStays(Coins(first, dust, n));
    FirstCoveringIsShortest(Coins(first, dust, n), 0, target);
    k := CoverOfCoins(first, dust, n, target, m, Selected(Coins(first, dust, n), target));
  }

  // ---------- the encoder and the parameters ----------

  /** An encoder: so many bytes for the rest of the transaction, an input, a change output. */
  datatype Encoder = Encoder(rest: nat, input: nat, change: nat) {
    function Core(inputs: seq<Utxo>, withChange: bool): nat {
      rest + Times(input, |inputs|) + (if withChange then change else 0)
    }

    function AsLayout(): Layout {
      Layout((inputs, withChange) => Core(inputs, withChange))
    }
  }

  datatype Case = Case(e: Encoder, pp: Params, payment: nat) {
    function FirstFee(): nat {
      pp.MinFee(FIRST_SIZE)
    }

    /** The fee of one input's bytes. */
    function Dust(): nat {
      pp.coefficient * e.input
    }

    /** The size with k + 1 inputs, no change and a fee field of this width. */
    function SizeWith(k: nat, width: nat): nat {
      e.rest + Times(e.input, k + 1) + Width(payment) + width
    }

    function Required(k: nat, width: nat): nat {
      pp.MinFee(SizeWith(k, width) + FEE_SIZE_MARGIN)
    }

    /** A payment of at least the minimum, inputs that cost something but no more than the minimum, and
        a smallest transaction that is larger than the first estimate takes it to be. */
    predicate Suitable() {
      && payment >= MIN_UTXO_LOVELACE
      && 1 <= Dust() <= MIN_UTXO_LOVELACE
      && FirstFee() < Required(0, Width(FirstFee()))
    }

    /** `grab` small coins pay for whatever one round can ask on top of its own inputs. */
    predicate Grabs(grab: nat) {
      Required(0, 9) <= FirstFee() + Times(Dust(), grab)
    }

    /** The amounts fit 64 bits, and n small coins fit one transaction. */
    predicate Fits(n: nat) {
      && payment + FirstFee() + Times(Dust(), n) <= U64_MAX
      && payment + pp.MaxFee() <= U64_MAX
      && SizeWith(n, 9) <= pp.maxSize
    }

    function OrderOf(n: nat): Order
      requires payment + FirstFee() <= U64_MAX && Dust() <= U64_MAX
    {
      Order(Coins(payment + FirstFee(), Dust(), n), payment, pp, e.AsLayout())
    }
  }

  lemma {:induction false} RequiredGrowsByDust(c: Case, k: nat, width: nat)
    ensures c.Required(k, width) == c.Required(0, width) + Times(c.Dust(), k)
  {
    if k > 0 {
      RequiredGrowsByDust(c, k - 1, width);
      OneInputMore(c.pp, c.SizeWith(k - 1, width) + FEE_SIZE_MARGIN, c.e.input);
    }
  }

  lemma OneInputMore(pp: Params, size: nat, input: nat)
    ensures pp.MinFee(size + input) == pp.MinFee(size) + pp.coefficient * input
  {
  }

  /** What k small coins pay on top of the first fee is too little, and what is missing `grab` more would
      pay. */
  lemma RequiredLiesBetween(c: Case, k: nat, width: nat, grab: nat)
    requires c.Suitable() && c.Grabs(grab) && Width(c.FirstFee()) <= width <= 9
    ensures c.FirstFee() + Times(c.Dust(), k) < c.Required(k, width)
    ensures c.Required(k, width) <= c.FirstFee() + Times(c.Dust(), k + grab)
  {
    RequiredGrowsByDust(c, k, width);
    MinFeeIsMonotone(c.pp, c.SizeWith(0, Width(c.FirstFee())) + FEE_SIZE_MARGIN, c.SizeWith(0, width) + FEE_SIZE_MARGIN);
    MinFeeIsMonotone(c.pp, c.SizeWith(0, width) + FEE_SIZE_MARGIN, c.SizeWith(0, 9) + FEE_SIZE_MARGIN);
    TimesAdds(c.Dust(), k, grab);
  }

  // ---------- one round ----------

  lemma OrderFits(c: Case, n: nat)
    requires c.Suitable() && c.Fits(n)
    ensures c.OrderOf(n).Fits() && c.FirstFee() <= c.pp.MaxFee()
  {
    var o := c.OrderOf(n);
    CoinSums(c.payment + c.FirstFee(), c.Dust(), n, n);
    assert o.utxos[..n + 1] == o.utxos;
    FirstFeeIsAllowed(o);
  }

  lemma WidthsAreSmall(n: nat)
    ensures 1 <= Width(n) <= 9
  {
  }

  /** When what is selected exceeds the target by less than the minimum, all of it goes to the payment
      and the fee. */
  lemma RoundOfSelection(o: Order, fee: nat, chosen: seq<Utxo>, all: nat)
    requires o.Fits() && fee <= o.pp.MaxFee() && Selected(o.utxos, o.lovelace + fee) == Some(chosen)
    requires Sum(chosen) == o.lovelace + all && fee <= all < fee + MIN_UTXO_LOVELACE
    ensures RoundOf(o, fee) == Measured(o, Tx(chosen, o.lovelace, None, all))
  {
    assert Balanced(chosen, o.lovelace, fee) == Tx(chosen, o.lovelace, None, all);
  }

  /** What a fee selects that m of the small coins can pay: k of them, k at most m. */
  lemma SelectedForFee(payment: nat, f0: nat, dust: U64, n: nat, fee: nat, m: nat) returns (k: nat, chosen: seq<Utxo>)
    requires payment + f0 <= U64_MAX && payment + fee <= U64_MAX && dust <= payment && m <= n
    requires 1 <= dust <= MIN_UTXO_LOVELACE && f0 <= fee <= f0 + Times(dust, m)
    ensures k <= m && chosen == Coins(payment + f0, dust, n)[..k + 1]
    ensures Selected(Coins(payment + f0, dust, n), payment + fee) == Some(chosen)
    ensures Sum(chosen) == payment + (f0 + Times(dust, k)) && fee <= f0 + Times(dust, k) < fee + MIN_UTXO_LOVELACE
  {
    k := SelectedCoins(payment + f0, dust, n, payment + fee, m);
    chosen := Coins(payment + f0, dust, n)[..k + 1];
    CoinSums(payment + f0, dust, n, k);
  }

  /** A wallet of one coin for the first target and n small ones. */
  ghost predicate Holds(o: Order, f0: nat, dust: U64, n: nat) {
    && o.Fits() && o.lovelace + f0 <= U64_MAX && o.utxos == Coins(o.lovelace + f0, dust, n)
    && 1 <= dust <= MIN_UTXO_LOVELACE <= o.lovelace
  }

  /** The transaction with k small coins and no change. */
  function TakingAll(o: Order, f0: nat, dust: U64, k: nat): Tx
    requires k < |o.utxos|
  {
    Tx(o.utxos[..k + 1], o.lovelace, None, f0 + Times(dust, k))
  }

  /** Each of them is under-paid, and `grab` more small coins would pay what it asks. */
  ghost predicate AlwaysUnderpays(o: Order, f0: nat, dust: U64, n: nat, grab: nat)
    requires Holds(o, f0, dust, n)
  {
    forall k: nat :: k <= n ==>
      var r := Measured(o, TakingAll(o, f0, dust, k));
      r.Underpaid? && r.required <= f0 + Times(dust, k + grab)
  }

  lemma RoundOnCoins(o: Order, f0: nat, dust: U64, n: nat, fee: nat, m: nat) returns (k: nat)
    requires Holds(o, f0, dust, n) && m <= n
    requires f0 <= fee <= f0 + Times(dust, m) && fee <= o.pp.MaxFee()
    ensures k <= m && RoundOf(o, fee) == Measured(o, TakingAll(o, f0, dust, k))
  {
    var chosen;
    k, chosen := SelectedForFee(o.lovelace, f0, dust, n, fee, m);
    RoundOfSelection(o, fee, chosen, f0 + Times(dust, k));
  }

  lemma RoundIsUnderpaid(o: Order, f0: nat, dust: U64, n: nat, fee: nat, m: nat, grab: nat)
    requires Holds(o, f0, dust, n) && AlwaysUnderpays(o, f0, dust, n, grab) && m <= n
    requires f0 <= fee <= f0 + Times(dust, m) && fee <= o.pp.MaxFee()
    ensures RoundOf(o, fee).Underpaid? && RoundOf(o, fee).required <= f0 + Times(dust, m + grab)
  {
    var k := RoundOnCoins(o, f0, dust, n, fee, m);
    TimesAdds(dust, k + grab, m - k);
  }

  // ---------- no cap suffices ----------

  lemma OneMoreRound(o: Order, fee: nat, rounds: nat)
    requires o.Fits() && fee <= o.pp.MaxFee() && rounds > 0 && RoundOf(o, fee).Underpaid?
    ensures fee < RoundOf(o, fee).required <= o.pp.MaxFee()
    ensures BuildFrom(o, fee, rounds) == BuildFrom(o, RoundOf(o, fee).required, rounds - 1)
  {
    FeesStrictlyIncrease(o, fee);
  }

  lemma {:induction false} GoesOn(o: Order, f0: nat, dust: U64, n: nat, fee: nat, m: nat, grab: nat, rounds: nat)
    requires Holds(o, f0, dust, n) && AlwaysUnderpays(o, f0, dust, n, grab) && m + Times(grab, rounds) <= n
    requires f0 <= fee <= f0 + Times(dust, m) && fee <= o.pp.MaxFee()
    ensures BuildFrom(o, fee, rounds) == Err(NotConverged)
    decreases rounds
  {
    if rounds > 0 {
      RoundIsUnderpaid(o, f0, dust, n, fee, m, grab);
      OneMoreRound(o, fee, rounds);
      GoesOn(o, f0, dust, n, RoundOf(o, fee).required, m + grab, grab, rounds - 1);
    }
  }

  lemma SizeIsAllowed(c: Case, n: nat, o: Order, k: nat, tx: Tx)
    requires c.Fits(n) && c.Suitable() && k <= n && o == c.OrderOf(n)
    requires |tx.inputs| == k + 1 && tx.payment == c.payment && tx.change.None?
    ensures o.layout.Size(tx) == c.SizeWith(k, Width(tx.fee)) <= c.pp.maxSize
  {
    WidthsAreSmall(tx.fee);
    TimesAdds(c.e.input, k + 1, n - k);
  }

  lemma PaysTooLittle(c: Case, n: nat, o: Order, k: nat, tx: Tx, grab: nat)
    requires c.Suitable() && c.Fits(n) && c.Grabs(grab) && k <= n && o == c.OrderOf(n)
    requires |tx.inputs| == k + 1 && tx.payment == c.payment && tx.change.None?
    requires forall u :: u in tx.inputs ==> u.txHash == Hash()
    requires tx.fee == c.FirstFee() + Times(c.Dust(), k)
    ensures Measured(o, tx).Underpaid? && Measured(o, tx).required <= c.FirstFee() + Times(c.Dust(), k + grab)
  {
    SizeIsAllowed(c, n, o, k, tx);
    WiderOrNot(c.FirstFee(), tx.fee);
    WidthsAreSmall(tx.fee);
    RequiredLiesBetween(c, k, Width(tx.fee), grab);
  }

  lemma CaseAlwaysUnderpays(c: Case, n: nat, o: Order, grab: nat)
    requires c.Suitable() && c.Fits(n) && c.Grabs(grab) && o == c.OrderOf(n)
    ensures Holds(o, c.FirstFee(), c.Dust(), n) && AlwaysUnderpays(o, c.FirstFee(), c.Dust(), n, grab)
  {
    OrderFits(c, n);
    forall k: nat | k <= n
      ensures var r := Measured(o, TakingAll(o, c.FirstFee(), c.Dust(), k));
              r.Underpaid? && r.required <= c.FirstFee() + Times(c.Dust(), k + grab)
    {
      PaysTooLittle(c, n, o, k, TakingAll(o, c.FirstFee(), c.Dust(), k), grab);
    }
  }

  /** Whatever the cap: for every encoder whose inputs have a fixed size and whose smallest transaction is
      larger than the first estimate, every payment of at least the minimum and every fee a byte that makes
      an input cost something but no more than the minimum, once the size limit has room for the coins of
      that many rounds and the amounts fit their words, there is a wallet that exhausts it. */
  lemma CapsFailAsTheSizeLimitGrows(c: Case, grab: nat, cap: nat)
    requires c.Suitable() && c.Grabs(grab) && c.Fits(Times(grab, cap))
    ensures c.OrderOf(Times(grab, cap)).Fits() && c.FirstFee() <= c.pp.MaxFee()
    ensures BuildFrom(c.OrderOf(Times(grab, cap)), c.FirstFee(), cap) == Err(NotConverged)
  {
    var n := Times(grab, cap);
    OrderFits(c, n);
    CaseAlwaysUnderpays(c, n, c.OrderOf(n), grab);
    GoesOn(c.OrderOf(n), c.FirstFee(), c.Dust(), n, c.FirstFee(), 0, grab, cap);
  }

  // ---------- the network's parameters ----------

  /** 44 lovelace a byte on top of 155381, and at most 16384 bytes. */
  const NETWORK := Params(44, 155_381, 16_384)

  /** 209 bytes, 36 an input and 60 a change output. */
  const ENCODER := Encoder(209, 36, 60)

  /** Where no coin is worth less than 710072 lovelace (the least an output may hold is about 0.97 ADA),
      eight rounds always reach a verdict, whatever the encoder. */
  lemma EightRoundsSufficeOnTheNetwork(o: Order)
    requires o.Fits() && o.pp == NETWORK && forall u :: u in o.utxos ==> u.lovelace >= 710_072
    ensures Build(o) != Err(NotConverged)
  {
    assert NETWORK.MinFee(16_388) - NETWORK.MinFee(FIRST_SIZE) == 710_072;
    EightRoundsSuffice(o);
  }

  const SMALL := Case(ENCODER, NETWORK, 1_000_000)

  lemma SmallIsSuitable()
    ensures SMALL.FirstFee() == 166_381 && SMALL.Dust() == 1_584
    ensures SMALL.Suitable() && SMALL.Grabs(1)
  {
    assert SMALL.SizeWith(0, 5) == 255 && SMALL.SizeWith(0, 9) == 259;
    assert Width(166_381) == 5;
  }

  lemma SmallFits()
    ensures SMALL.Fits(MAX_FEE_ITERS) && Times(1, MAX_FEE_ITERS) == MAX_FEE_ITERS
  {
    TimesIsProduct(1, MAX_FEE_ITERS);
    TimesIsProduct(SMALL.Dust(), MAX_FEE_ITERS);
    TimesIsProduct(36, MAX_FEE_ITERS + 1);
    assert SMALL.pp.MaxFee() == 155_381 + 44 * 16_388;
  }

  /** Without that minimum nine coins defeat the eight rounds: one of 1166381 lovelace and eight of 1584. */
  lemma EightRoundsCanFail(o: Order)
    requires o == Order(Coins(1_166_381, 1_584, 8), 1_000_000, NETWORK, ENCODER.AsLayout())
    ensures o.Fits() && Build(o) == Err(NotConverged)
  {
    SmallIsSuitable();
    SmallFits();
    assert o == SMALL.OrderOf(MAX_FEE_ITERS);
    CapsFailAsTheSizeLimitGrows(SMALL, 1, MAX_FEE_ITERS);
  }

  /** The network's fees and this encoder under a limit with room for that many small coins more. */
  function Roomy(cap: nat): Case {
    Case(ENCODER, NETWORK.(maxSize := 16_384 + 36 * cap), 1_000_000)
  }

  lemma RoomyFits(cap: nat)
    requires cap <= 1_000_000_000
    ensures Roomy(cap).Suitable() && Roomy(cap).Grabs(1) && Roomy(cap).Fits(cap) && Times(1, cap) == cap
  {
    var c := Roomy(cap);
    TimesIsProduct(1, cap);
    TimesIsProduct(1_584, cap);
    TimesIsProduct(36, cap + 1);
    assert c.FirstFee() == 166_381 && c.Dust() == 1_584 && Width(166_381) == 5;
    assert c.SizeWith(0, 5) == 255 && c.SizeWith(0, 9) == 259;
    assert c.pp.MaxFee() == 155_381 + 44 * (16_388 + 36 * cap);
  }

  /** The rounds needed do grow with the limit: room for one more small coin is room for one more round. */
  lemma RoundsGrowWithTheLimit(cap: nat) returns (o: Order)
    requires cap <= 1_000_000_000
    ensures o.Fits() && InputsTakeRoom(o.layout) && o.pp == NETWORK.(maxSize := 16_384 + 36 * cap)
    ensures o.pp.MinFee(FIRST_SIZE) <= o.pp.MaxFee()
    ensures BuildFrom(o, o.pp.MinFee(FIRST_SIZE), cap) == Err(NotConverged)
  {
    RoomyFits(cap);
    o := Roomy(cap).OrderOf(cap);
    CapsFailAsTheSizeLimitGrows(Roomy(cap), 1, cap);
    forall inputs, withChange
      ensures o.layout.core(inputs, withChange) >= |inputs|
    {
      TimesIsProduct(36, |inputs|);
    }
  }

  // ---------- more than two passes ----------

  function A(): Utxo {
    Utxo(Hash(), 0, 3_166_381)
  }

  function B(): Utxo {
    Utxo(Hash(), 1, 2_000_000)
  }

  lemma TwoCoinSelections(target: U64)
    ensures 0 < target <= A().lovelace ==> Selected([A(), B()], target) == Some([A()])
    ensures A().lovelace < target <= A().lovelace + B().lovelace ==> Selected([A(), B()], target) == Some([A(), B()])
    ensures Sum([A()]) == A().lovelace && Sum([A(), B()]) == A().lovelace + B().lovelace
  {
    TextLessIsTotal(Hash(), Hash());
    OrderedStays([A(), B()]);
    FirstCoveringIsShortest([A(), B()], 0, target);
    SumOfOne(A());
    assert [A(), B()][..1] == [A()] && [A(), B()][..2] == [A(), B()];
    assert Sum([A(), B()]) == Sum([A()]) + B().lovelace;
    if 0 < target <= A().lovelace {
      ShortestIsNoLonger([A(), B()], target, Selected([A(), B()], target), 1);
    } else if A().lovelace < target <= A().lovelace + B().lovelace {
      ShortestIsNoLonger([A(), B()], target, Selected([A(), B()], target), 2);
    }
  }

  function Plain(inputs: seq<Utxo>, change: Option<nat>, fee: nat): Tx {
    Tx(inputs, 3_000_000, change, fee)
  }

  /** The sizes are 255 bytes with one input and no change, 356 with two and change. */
  lemma PlainSizes(fee: nat, change: nat)
    requires 0x1_0000 <= fee < 0x1_0000_0000 && 0x1_0000 <= change < 0x1_0000_0000
    ensures ENCODER.AsLayout().Size(Plain([A()], None, fee)) == 255
    ensures ENCODER.AsLayout().Size(Plain([A(), B()], Some(change), fee)) == 356
  {
    TimesIsProduct(36, 1);
    TimesIsProduct(36, 2);
    assert Width(3_000_000) == 5;
  }

  lemma MeasuredPlain(o: Order, tx: Tx, size: nat)
    requires o.pp == NETWORK && o.layout.Size(tx) == size <= 16_384
    requires forall u :: u in tx.inputs ==> u == A() || u == B()
    ensures Measured(o, tx) ==
            if tx.fee >= 155_557 + 44 * size then Done(tx) else Underpaid(tx, 155_557 + 44 * size)
  {
  }

  /** An ordinary wallet of two coins, of 3.166381 and 2 ADA, paying 3 ADA: under-paid in the first pass
      and in the second, built in the third. */
  lemma TwoPassesCanFail(o: Order)
    requires o == Order([A(), B()], 3_000_000, NETWORK, ENCODER.AsLayout())
    ensures o.Fits() && NETWORK.MinFee(FIRST_SIZE) <= o.pp.MaxFee()
    ensures BuildFrom(o, NETWORK.MinFee(FIRST_SIZE), 2) == Err(NotConverged)
    ensures Build(o) == Ok(Plain([A(), B()], Some(1_995_160), 171_221))
  {
    assert NETWORK.MinFee(FIRST_SIZE) == 166_381 && o.pp.MaxFee() == 155_381 + 44 * 16_388;
    TwoCoinSelections(1);
    FirstPass(o);
    SecondPass(o);
    ThirdPass(o);
    OneMoreRound(o, 166_381, 2);
    OneMoreRound(o, 166_777, 1);
    OneMoreRound(o, 166_381, 8);
    OneMoreRound(o, 166_777, 7);
  }

  ghost predicate Ordinary(o: Order) {
    o == Order([A(), B()], 3_000_000, NETWORK, ENCODER.AsLayout()) && o.Fits() && o.pp.MaxFee() == 155_381 + 44 * 16_388
  }

  lemma FirstPass(o: Order)
    requires Ordinary(o)
    ensures RoundOf(o, 166_381) == Underpaid(Plain([A()], None, 166_381), 166_777)
  {
    TwoCoinSelections(3_166_381);
    RoundOfSelection(o, 166_381, [A()], 166_381);
    PlainSizes(166_381, 100_000);
    MeasuredPlain(o, Plain([A()], None, 166_381), 255);
  }

  lemma RoundWithChange(o: Order, fee: nat)
    requires Ordinary(o) && 166_381 < fee <= 200_000
    ensures RoundOf(o, fee) ==
            var tx := Plain([A(), B()], Some(2_166_381 - fee), fee);
            if fee >= 171_221 then Done(tx) else Underpaid(tx, 171_221)
  {
    TwoCoinSelections(3_000_000 + fee);
    SelectionCovers(o.utxos, o.lovelace + fee);
    var tx := Plain([A(), B()], Some(2_166_381 - fee), fee);
    assert Balanced([A(), B()], 3_000_000, fee) == tx;
    PlainSizes(fee, 2_166_381 - fee);
    MeasuredPlain(o, tx, 356);
  }

  lemma SecondPass(o: Order)
    requires Ordinary(o)
    ensures RoundOf(o, 166_777) == Underpaid(Plain([A(), B()], Some(1_999_604), 166_777), 171_221)
  {
    RoundWithChange(o, 166_777);
  }

  lemma ThirdPass(o: Order)
    requires Ordinary(o)
    ensures RoundOf(o, 171_221) == Done(Plain([A(), B()], Some(1_995_160), 171_221))
  {
    RoundWithChange(o, 171_221);
  }
}
