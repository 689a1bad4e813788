/**
 Building a payment: the fee changes the selection, the selection changes the size, and the size
 changes the fee. Every transaction the loop returns balances and pays enough; each under-paid round
 makes real progress; and eight rounds are enough when no coin is worth less than the fee can move.
 */
module TxBuilder {
  import opened Prelude
  import opened CoinSelection

  const MIN_UTXO_LOVELACE: nat := 1_000_000
  const FEE_SIZE_MARGIN: nat := 4
  const MAX_FEE_ITERS: nat := 8
  const FIRST_SIZE: nat := 250

  datatype Params = Params(coefficient: nat, constant: nat, maxSize: nat) {
    function MinFee(size: nat): nat {
      constant + coefficient * size
    }

    /** No fee tried by the loop is larger. */
    function MaxFee(): nat {
      MinFee(Max(FIRST_SIZE, maxSize + FEE_SIZE_MARGIN))
    }
  }

  /** Bytes of a CBOR unsigned integer: head byte plus argument (RFC 8949, section 3). */
  function Width(n: nat): nat {
    if n < 24 then 1 else if n < 0x100 then 2 else if n < 0x1_0000 then 3 else if n < 0x1_0000_0000 then 5 else 9
  }

  /** How many wider encodings a number still has ahead of it. */
  function WidthsAhead(n: nat): nat {
    if n < 24 then 4 else if n < 0x100 then 3 else if n < 0x1_0000 then 2 else if n < 0x1_0000_0000 then 1 else 0
  }

  /** What assembly can parse as a transaction hash: 32 bytes in hex. */
  predicate IsHash(text: string) {
    |text| == 64
    && forall i :: 0 <= i < 64 ==> '0' <= text[i] <= '9' || 'a' <= text[i] <= 'f' || 'A' <= text[i] <= 'F'
  }

  datatype Tx = Tx(inputs: seq<Utxo>, payment: nat, change: Option<nat>, fee: nat)

  /** The encoded size: whatever the inputs, the addresses, the metadata and the witness take, which
      depends only on the inputs and on whether there is a change output, plus the three amounts. */
  datatype Layout = Layout(core: (seq<Utxo>, bool) -> nat) {
    function Size(tx: Tx): nat {
      core(tx.inputs, tx.change.Some?) + Width(tx.payment)
      + (if tx.change.Some? then Width(tx.change.value) else 0) + Width(tx.fee)
    }
  }

  datatype BuildError = BadAddress | InsufficientFunds | AssemblyFailed | TooLarge(size: nat) | NotConverged

  /** What is to be paid, from which coins, under which parameters. */
  datatype Order = Order(utxos: seq<Utxo>, lovelace: nat, pp: Params, layout: Layout) {
    /** The sums the loop forms fit 64 bits. */
    predicate Fits() {
      Sum(utxos) <= U64_MAX && lovelace + pp.MaxFee() <= U64_MAX
    }
  }

  // ---------- one round ----------

  datatype Round =
    | Stop(error: BuildError)
    | Done(tx: Tx)
    | Underpaid(tx: Tx, required: nat)

  /** The transaction these coins make at this fee; change below the minimum is folded into the fee. */
  function Balanced(chosen: seq<Utxo>, lovelace: nat, fee: nat): Tx
    requires Sum(chosen) >= lovelace + fee
  {
    var remainder := Sum(chosen) - lovelace - fee;
    if remainder >= MIN_UTXO_LOVELACE then Tx(chosen, lovelace, Some(remainder), fee)
    else Tx(chosen, lovelace, None, fee + remainder)
  }

  /** Build it, measure it, and compare the fee it pays with the fee its size requires. */
  function Measured(o: Order, tx: Tx): Round {
    if exists u :: u in tx.inputs && !IsHash(u.txHash) then Stop(AssemblyFailed)
    else
      var size := o.layout.Size(tx);
      if size > o.pp.maxSize then Stop(TooLarge(size))
      else
        var required := o.pp.MinFee(size + FEE_SIZE_MARGIN);
        if tx.fee >= required then Done(tx) else Underpaid(tx, required)
  }

  function RoundOf(o: Order, fee: nat): Round
    requires o.Fits() && fee <= o.pp.MaxFee()
  {
    var target := o.lovelace + fee;
    var chosen := Selected(o.utxos, target);
    if chosen.None? then Stop(InsufficientFunds)
    else
      SelectionCovers(o.utxos, target);
      Measured(o, Balanced(chosen.value, o.lovelace, fee))
  }

  lemma MinFeeIsMonotone(pp: Params, a: nat, b: nat)
    requires a <= b
    ensures pp.MinFee(a) <= pp.MinFee(b)
  {
    assert pp.coefficient * a <= pp.coefficient * b;
  }

  lemma SelectionCoversIfAny(utxos: seq<Utxo>, target: U64)
    ensures Selected(utxos, target).Some? ==>
              var chosen := Selected(utxos, target).value;
              Sum(chosen) >= target && multiset(chosen) <= multiset(utxos)
  {
    if Selected(utxos, target).Some? {
      SelectionCovers(utxos, target);
    }
  }

  /** What an under-paid round built and asked for. */
  lemma UnderpaidRound(o: Order, fee: nat)
    requires o.Fits() && fee <= o.pp.MaxFee() && RoundOf(o, fee).Underpaid?
    ensures var r := RoundOf(o, fee);
            && Selected(o.utxos, o.lovelace + fee) == Some(r.tx.inputs)
            && Sum(r.tx.inputs) >= o.lovelace + fee
            && r.tx == Balanced(r.tx.inputs, o.lovelace, fee)
            && fee <= r.tx.fee < r.required == o.pp.MinFee(o.layout.Size(r.tx) + FEE_SIZE_MARGIN)
            && o.layout.Size(r.tx) <= o.pp.maxSize
  {
    SelectionCoversIfAny(o.utxos, o.lovelace + fee);
  }

  /** An under-paid round asks for a strictly larger fee, and never one past the maximum. */
  lemma FeesStrictlyIncrease(o: Order, fee: nat)
    requires o.Fits() && fee <= o.pp.MaxFee() && RoundOf(o, fee).Underpaid?
    ensures fee < RoundOf(o, fee).required <= o.pp.MinFee(o.pp.maxSize + FEE_SIZE_MARGIN) <= o.pp.MaxFee()
  {
    UnderpaidRound(o, fee);
    var tx := RoundOf(o, fee).tx;
    MinFeeIsMonotone(o.pp, o.layout.Size(tx) + FEE_SIZE_MARGIN, o.pp.maxSize + FEE_SIZE_MARGIN);
    MinFeeIsMonotone(o.pp, o.pp.maxSize + FEE_SIZE_MARGIN, Max(FIRST_SIZE, o.pp.maxSize + FEE_SIZE_MARGIN));
  }

  // ---------- the loop ----------

  function BuildFrom(o: Order, fee: nat, rounds: nat): Result<Tx, BuildError>
    requires o.Fits() && fee <= o.pp.MaxFee()
    decreases rounds
  {
    if rounds == 0 then Err(NotConverged)
    else
      match RoundOf(o, fee)
      case Stop(e) => Err(e)
      case Done(tx) => Ok(tx)
      case Underpaid(_, required) =>
        FeesStrictlyIncrease(o, fee);
        BuildFrom(o, required, rounds - 1)
  }

  lemma FirstFeeIsAllowed(o: Order)
    ensures o.pp.MinFee(FIRST_SIZE) <= o.pp.MaxFee()
  {
    MinFeeIsMonotone(o.pp, FIRST_SIZE, Max(FIRST_SIZE, o.pp.maxSize + FEE_SIZE_MARGIN));
  }

  function Build(o: Order): Result<Tx, BuildError>
    requires o.Fits()
  {
    FirstFeeIsAllowed(o);
    BuildFrom(o, o.pp.MinFee(FIRST_SIZE), MAX_FEE_ITERS)
  }

  /** The body of the loop, once. */
  method BuildOnce(o: Order, fee: nat) returns (r: Round)
    requires o.Fits() && fee <= o.pp.MaxFee()
    ensures r == RoundOf(o, fee)
  {
    var selection := SelectLargestFirst(o.utxos, SaturatingAdd(o.lovelace, fee));
    if selection.None? {
      return Stop(InsufficientFunds);
    }
    var chosen := selection.value;
    SelectionCoversIfAny(o.utxos, o.lovelace + fee);
    var remainder := Sum(chosen) - o.lovelace - fee;
    var effective, change := fee, Some(remainder);
    if remainder < MIN_UTXO_LOVELACE {
      effective, change := fee + remainder, None;
    }
    r := MeasureTx(o, Tx(chosen, o.lovelace, change, effective));
  }

  method MeasureTx(o: Order, tx: Tx) returns (r: Round)
    ensures r == Measured(o, tx)
  {
    if exists u :: u in tx.inputs && !IsHash(u.txHash) {
      return Stop(AssemblyFailed);
    }
    var size := o.layout.Size(tx);
    if size > o.pp.maxSize {
      return Stop(TooLarge(size));
    }
    var required := o.pp.MinFee(size + FEE_SIZE_MARGIN);
    r := if tx.fee >= required then Done(tx) else Underpaid(tx, required);
  }

  method BuildSignedPayment(o: Order, addressesOk: bool) returns (r: Result<Tx, BuildError>)
    requires o.Fits()
    ensures r == if addressesOk then Build(o) else Err(BadAddress)
  {
    if !addressesOk {
      return Err(BadAddress);
    }
    FirstFeeIsAllowed(o);
    var fee: nat := o.pp.MinFee(FIRST_SIZE);
    for i := 0 to MAX_FEE_ITERS
      invariant fee <= o.pp.MaxFee()
      invariant BuildFrom(o, fee, MAX_FEE_ITERS - i) == Build(o)
    {
      var round := BuildOnce(o, fee);
      match round {
        case Stop(e) => return Err(e);
        case Done(tx) => return Ok(tx);
        case Underpaid(_, required) =>
          FeesStrictlyIncrease(o, fee);
          fee := required;
      }
    }
    return Err(NotConverged);
  }

  // ---------- every transaction returned ----------

  /** Value in equals value out, from the wallet's own coins, each spent at most once; the fee covers
      the size; the size is allowed; and there is no dust change. */
  ghost predicate Sendable(o: Order, tx: Tx) {
    && Sum(tx.inputs) == o.lovelace + tx.change.GetOr(0) + tx.fee
    && tx.payment == o.lovelace
    && multiset(tx.inputs) <= multiset(o.utxos)
    && tx.fee >= o.pp.MinFee(o.layout.Size(tx) + FEE_SIZE_MARGIN)
    && o.layout.Size(tx) <= o.pp.maxSize
    && (tx.change.Some? ==> tx.change.value >= MIN_UTXO_LOVELACE)
    && (tx.change.Some? ==> tx.fee <= o.pp.MaxFee())
    && (tx.change.None? ==> tx.fee < o.pp.MaxFee() + MIN_UTXO_LOVELACE)
  }

  lemma {:induction false} ReturnedIsSendable(o: Order, fee: nat, rounds: nat)
    requires o.Fits() && fee <= o.pp.MaxFee() && BuildFrom(o, fee, rounds).Ok?
    ensures Sendable(o, BuildFrom(o, fee, rounds).value)
    decreases rounds
  {
    SelectionCoversIfAny(o.utxos, o.lovelace + fee);
    if RoundOf(o, fee).Underpaid? {
      FeesStrictlyIncrease(o, fee);
      ReturnedIsSendable(o, RoundOf(o, fee).required, rounds - 1);
    }
  }

  lemma BuiltTransactionIsSendable(o: Order)
    requires o.Fits() && Build(o).Ok?
    ensures Sendable(o, Build(o).value)
  {
    FirstFeeIsAllowed(o);
    ReturnedIsSendable(o, o.pp.MinFee(FIRST_SIZE), MAX_FEE_ITERS);
  }

  /** A wallet that lists each coin once is never made to spend one twice. */
  lemma NoInputIsUsedTwice(o: Order)
    requires o.Fits() && Build(o).Ok? && AllDifferent(o.utxos)
    ensures AllDifferent(Build(o).value.inputs)
  {
    BuiltTransactionIsSendable(o);
    SelectedAreDifferent(Build(o).value.inputs, o.utxos);
  }

  /** The builder gives up for lack of funds only when the wallet cannot cover the largest fee. */
  lemma {:induction false} InsufficientMeansInsufficient(o: Order, fee: nat, rounds: nat)
    requires o.Fits() && fee <= o.pp.MaxFee() && o.lovelace + fee > 0
    requires BuildFrom(o, fee, rounds) == Err(InsufficientFunds)
    ensures Sum(o.utxos) < o.lovelace + o.pp.MaxFee()
    decreases rounds
  {
    if RoundOf(o, fee).Underpaid? {
      FeesStrictlyIncrease(o, fee);
      InsufficientMeansInsufficient(o, RoundOf(o, fee).required, rounds - 1);
    } else {
      SelectsExactlyWhenCovered(o.utxos, o.lovelace + fee);
    }
  }

  // ---------- progress ----------

  lemma UnderpaidInputs(o: Order, fee: nat)
    requires o.Fits() && fee <= o.pp.MaxFee() && RoundOf(o, fee).Underpaid?
    ensures Selected(o.utxos, o.lovelace + fee) == Some(RoundOf(o, fee).tx.inputs)
  {
    UnderpaidRound(o, fee);
  }

  /** A larger fee keeps every coin chosen for a smaller one. */
  lemma LaterRoundsKeepCoins(o: Order, fee: nat, next: nat)
    requires o.Fits() && fee <= next <= o.pp.MaxFee()
    requires RoundOf(o, fee).Underpaid? && RoundOf(o, next).Underpaid?
    ensures RoundOf(o, fee).tx.inputs <= RoundOf(o, next).tx.inputs
  {
    UnderpaidInputs(o, fee);
    UnderpaidInputs(o, next);
    LargerTargetSelectsSuperset(o.utxos, o.lovelace + fee, o.lovelace + next);
  }

  lemma WiderOrNot(a: nat, b: nat)
    requires a <= b
    ensures Width(a) <= Width(b) && WidthsAhead(a) >= WidthsAhead(b)
    ensures Width(a) < Width(b) ==> WidthsAhead(a) > WidthsAhead(b)
  {
  }

  lemma CheaperSizeIsSmaller(pp: Params, a: nat, b: nat)
    requires pp.MinFee(a) < pp.MinFee(b)
    ensures a < b
  {
    if b <= a {
      MinFeeIsMonotone(pp, b, a);
    }
  }

  /** Of two under-paid rounds in a row, the later takes more coins, or drops the change output, or
      writes its fee in a wider field; and after a round without change it always takes more coins. */
  lemma UnderpaidRoundsMakeProgress(o: Order, fee: nat)
    requires o.Fits() && fee <= o.pp.MaxFee() && RoundOf(o, fee).Underpaid?
    requires RoundOf(o, fee).required <= o.pp.MaxFee()
    requires RoundOf(o, RoundOf(o, fee).required).Underpaid?
    ensures var next := RoundOf(o, fee).required;
            var a, b := RoundOf(o, fee).tx, RoundOf(o, next).tx;
            || |a.inputs| < |b.inputs|
            || (a.inputs == b.inputs && a.change.Some? && b.change.None?)
            || (a.inputs == b.inputs && a.change.Some? && b.change.Some? && Width(fee) < Width(next))
  {
    FeesStrictlyIncrease(o, fee);
    var next := RoundOf(o, fee).required;
    LaterRoundsKeepCoins(o, fee, next);
    UnderpaidRound(o, fee);
    UnderpaidRound(o, next);
    var a, b := RoundOf(o, fee).tx, RoundOf(o, next).tx;
    if |a.inputs| == |b.inputs| {
      assert a.inputs == b.inputs;
      if a.change.Some? && b.change.Some? {
        WiderOrNot(b.change.value, a.change.value);
        CheaperSizeIsSmaller(o.pp, o.layout.Size(a) + FEE_SIZE_MARGIN, o.layout.Size(b) + FEE_SIZE_MARGIN);
      }
    }
  }

  /** The measure of an under-paid round, against a bound on the number of coins. */
  function Measure(tx: Tx, fee: nat, coins: nat): int {
    2 * (coins - |tx.inputs|) + (if tx.change.Some? then 1 else 0) + WidthsAhead(fee)
  }

  lemma MeasureFalls(o: Order, fee: nat, coins: nat)
    requires o.Fits() && fee <= o.pp.MaxFee() && RoundOf(o, fee).Underpaid?
    requires RoundOf(o, fee).required <= o.pp.MaxFee()
    requires RoundOf(o, RoundOf(o, fee).required).Underpaid?
    ensures var next := RoundOf(o, fee).required;
            Measure(RoundOf(o, next).tx, next, coins) < Measure(RoundOf(o, fee).tx, fee, coins)
  {
    FeesStrictlyIncrease(o, fee);
    UnderpaidRoundsMakeProgress(o, fee);
    WiderOrNot(fee, RoundOf(o, fee).required);
  }

  lemma InputsAreTheWallets(o: Order, fee: nat)
    requires o.Fits() && fee <= o.pp.MaxFee() && RoundOf(o, fee).Underpaid?
    ensures 1 <= |RoundOf(o, fee).tx.inputs| <= |o.utxos|
  {
    SelectionCovers(o.utxos, o.lovelace + fee);
  }

  /** Without its cap the loop ends: it needs no more rounds than the first measure allows. */
  lemma {:induction false} LoopEnds(o: Order, fee: nat, rounds: nat)
    requires o.Fits() && fee <= o.pp.MaxFee() && rounds >= 1
    requires RoundOf(o, fee).Underpaid? ==> rounds >= Measure(RoundOf(o, fee).tx, fee, |o.utxos|) + 2
    ensures BuildFrom(o, fee, rounds) != Err(NotConverged)
    decreases rounds
  {
    if RoundOf(o, fee).Underpaid? {
      FeesStrictlyIncrease(o, fee);
      InputsAreTheWallets(o, fee);
      var next := RoundOf(o, fee).required;
      if RoundOf(o, next).Underpaid? {
        MeasureFalls(o, fee, |o.utxos|);
      }
      LoopEnds(o, next, rounds - 1);
    }
  }

  /** With a cap of twice the number of coins plus five, no wallet can make the loop give up. */
  lemma RoundsPerCoinSuffice(o: Order)
    requires o.Fits()
    ensures o.pp.MinFee(FIRST_SIZE) <= o.pp.MaxFee()
    ensures BuildFrom(o, o.pp.MinFee(FIRST_SIZE), 2 * |o.utxos| + 5) != Err(NotConverged)
  {
    FirstFeeIsAllowed(o);
    var fee := o.pp.MinFee(FIRST_SIZE);
    if RoundOf(o, fee).Underpaid? {
      InputsAreTheWallets(o, fee);
    }
    LoopEnds(o, fee, 2 * |o.utxos| + 5);
  }

  // ---------- a cap for every wallet ----------

  /** Each input takes at least a byte. */
  ghost predicate InputsTakeRoom(layout: Layout) {
    forall inputs, withChange :: layout.core(inputs, withChange) >= |inputs|
  }

  lemma InputsFitTheLimit(o: Order, fee: nat)
    requires o.Fits() && fee <= o.pp.MaxFee() && RoundOf(o, fee).Underpaid? && InputsTakeRoom(o.layout)
    ensures |RoundOf(o, fee).tx.inputs| <= o.pp.maxSize
  {
    UnderpaidRound(o, fee);
    var tx := RoundOf(o, fee).tx;
    assert o.layout.core(tx.inputs, tx.change.Some?) >= |tx.inputs|;
  }

  lemma {:induction false} LoopEndsWithinTheLimit(o: Order, fee: nat, rounds: nat)
    requires o.Fits() && fee <= o.pp.MaxFee() && rounds >= 1 && InputsTakeRoom(o.layout)
    requires RoundOf(o, fee).Underpaid? ==> rounds >= Measure(RoundOf(o, fee).tx, fee, o.pp.maxSize) + 2
    ensures BuildFrom(o, fee, rounds) != Err(NotConverged)
    decreases rounds
  {
    if RoundOf(o, fee).Underpaid? {
      FeesStrictlyIncrease(o, fee);
      InputsFitTheLimit(o, fee);
      var next := RoundOf(o, fee).required;
      if RoundOf(o, next).Underpaid? {
        MeasureFalls(o, fee, o.pp.maxSize);
      }
      LoopEndsWithinTheLimit(o, next, rounds - 1);
    }
  }

  /** For given parameters one cap is enough for every wallet, however many coins it has: twice the size
      limit plus five. */
  lemma RoundsPerByteSuffice(o: Order)
    requires o.Fits() && InputsTakeRoom(o.layout)
    ensures o.pp.MinFee(FIRST_SIZE) <= o.pp.MaxFee()
    ensures BuildFrom(o, o.pp.MinFee(FIRST_SIZE), 2 * o.pp.maxSize + 5) != Err(NotConverged)
  {
    FirstFeeIsAllowed(o);
    var fee := o.pp.MinFee(FIRST_SIZE);
    if RoundOf(o, fee).Underpaid? {
      InputsFitTheLimit(o, fee);
      InputsAreTheWallets(o, fee);
    }
    LoopEndsWithinTheLimit(o, fee, 2 * o.pp.maxSize + 5);
  }

  // ---------- eight rounds suffice ----------

  /** Every coin is worth at least what the fee can still rise after the first round. */
  ghost predicate CoinsCoverTheRise(o: Order) {
    forall u :: u in o.utxos ==>
      u.lovelace + o.pp.MinFee(FIRST_SIZE) >= o.pp.MinFee(o.pp.maxSize + FEE_SIZE_MARGIN)
  }

  /** Then the selection grows by at most one coin, and the grown one is short of nothing. */
  lemma OneMoreCoinIsEnough(o: Order, first: nat, fee: nat)
    requires o.Fits() && CoinsCoverTheRise(o)
    requires o.pp.MinFee(FIRST_SIZE) == first <= fee <= o.pp.MaxFee()
    requires fee <= o.pp.MinFee(o.pp.maxSize + FEE_SIZE_MARGIN)
    requires RoundOf(o, first).Underpaid? && RoundOf(o, fee).Underpaid?
    ensures |RoundOf(o, first).tx.inputs| <= |RoundOf(o, fee).tx.inputs| <= |RoundOf(o, first).tx.inputs| + 1
    ensures |RoundOf(o, fee).tx.inputs| == |RoundOf(o, first).tx.inputs| + 1 ==> RoundOf(o, fee).tx.change.Some?
  {
    LaterRoundsKeepCoins(o, first, fee);
    UnderpaidRound(o, first);
    UnderpaidRound(o, fee);
    OneCoinCoversTheRise(o.utxos, o.lovelace + first, o.lovelace + fee,
                         o.lovelace + o.pp.MinFee(o.pp.maxSize + FEE_SIZE_MARGIN));
    FeesStrictlyIncrease(o, fee);
  }

  lemma {:induction false} FewRoundsLeft(o: Order, fee: nat, rounds: nat)
    requires o.Fits() && CoinsCoverTheRise(o) && rounds >= 1
    requires o.pp.MinFee(FIRST_SIZE) <= fee <= o.pp.MaxFee()
    requires RoundOf(o, o.pp.MinFee(FIRST_SIZE)).Underpaid?
    requires fee <= o.pp.MinFee(o.pp.maxSize + FEE_SIZE_MARGIN)
    requires RoundOf(o, fee).Underpaid? ==>
               rounds > Measure(RoundOf(o, fee).tx, fee, |RoundOf(o, o.pp.MinFee(FIRST_SIZE)).tx.inputs| + 1)
    ensures BuildFrom(o, fee, rounds) != Err(NotConverged)
    decreases rounds
  {
    if RoundOf(o, fee).Underpaid? {
      FeesStrictlyIncrease(o, fee);
      OneMoreCoinIsEnough(o, o.pp.MinFee(FIRST_SIZE), fee);
      var next := RoundOf(o, fee).required;
      if RoundOf(o, next).Underpaid? {
        MeasureFalls(o, fee, |RoundOf(o, o.pp.MinFee(FIRST_SIZE)).tx.inputs| + 1);
      }
      FewRoundsLeft(o, next, rounds - 1);
    }
  }

  /** Eight rounds suffice, and "fee did not converge" is unreachable, whatever the widths of the
      numbers: at most one change output is dropped, one coin added and four wider fields tried. */
  lemma EightRoundsSuffice(o: Order)
    requires o.Fits() && CoinsCoverTheRise(o)
    ensures Build(o) != Err(NotConverged)
  {
    FirstFeeIsAllowed(o);
    var f0 := o.pp.MinFee(FIRST_SIZE);
    if RoundOf(o, f0).Underpaid? {
      FeesStrictlyIncrease(o, f0);
      FewRoundsLeft(o, f0, MAX_FEE_ITERS);
    }
  }
}
