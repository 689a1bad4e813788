/**
 When the builder builds, and what each of its errors means: a hash that is not 32 bytes, a balanced
 transaction over the limit, a wallet that cannot pay the largest fee, a fee loop cut short.
 */
module BuildOutcomes {
  import opened Prelude
  import opened CoinSelection
  import opened TxBuilder
  import KeyDecoding

  /** The text is 32 bytes in hex. */
  predicate Decodes(text: string) {
    KeyDecoding.HexDecode(text).Some? && |KeyDecoding.HexDecode(text).value| == 32
  }

  predicate IsHex(text: string) {
    forall i :: 0 <= i < |text| ==> KeyDecoding.HexValue(text[i]).Some?
  }

  lemma {:induction false} HexDecodesExactlyPairs(text: string)
    ensures KeyDecoding.HexDecode(text).Some? <==> |text| % 2 == 0 && IsHex(text)
    ensures KeyDecoding.HexDecode(text).Some? ==> |KeyDecoding.HexDecode(text).value| * 2 == |text|
    decreases |text|
  {
    if |text| >= 2 {
      var rest := text[2..];
      HexDecodesExactlyPairs(rest);
      assert forall i :: 2 <= i < |text| ==> text[i] == rest[i - 2];
      assert IsHex(text) <==> KeyDecoding.HexValue(text[0]).Some? && KeyDecoding.HexValue(text[1]).Some? && IsHex(rest);
    }
  }

  /** Assembly takes a hash exactly when it decodes to 32 bytes. */
  lemma HashesAreThirtyTwoBytes(text: string)
    ensures IsHash(text) <==> Decodes(text)
  {
    HexDecodesExactlyPairs(text);
    if |text| == 64 {
      assert forall i :: 0 <= i < 64 ==>
        (KeyDecoding.HexValue(text[i]).Some? <==> '0' <= text[i] <= '9' || 'a' <= text[i] <= 'f' || 'A' <= text[i] <= 'F');
    }
  }

  // ---------- what a round tries ----------

  /** A transaction the loop may try: the largest coins, none of which the payment with the largest fee
      could spare; value in is value out; change of 1 ADA or more, what is less being part of the fee. */
  ghost predicate Tried(o: Order, tx: Tx) {
    && tx.inputs != [] && tx.inputs <= Sort(o.utxos)
    && Sum(tx.inputs[..|tx.inputs| - 1]) < Max(1, o.lovelace + o.pp.MaxFee())
    && tx.payment == o.lovelace
    && Sum(tx.inputs) == o.lovelace + tx.change.GetOr(0) + tx.fee
    && (match tx.change
        case Some(c) => c >= 1_000_000 && tx.fee <= o.pp.MaxFee()
        case None => tx.fee < o.pp.MaxFee() + 1_000_000)
  }

  /** A selection is the shortest covering run of the largest coins. */
  lemma ChosenIsShortest(utxos: seq<Utxo>, target: U64)
    requires Selected(utxos, target).Some?
    ensures var chosen := Selected(utxos, target).value;
            && chosen != [] && chosen <= Sort(utxos) && Sum(chosen) >= target
            && Sum(chosen[..|chosen| - 1]) < Max(1, target)
  {
    var sorted, chosen := Sort(utxos), Selected(utxos, target).value;
    FirstCoveringIsShortest(sorted, 0, target);
    var m: nat := |chosen| - 1;
    assert chosen[..m] == sorted[..m];
    if m > 0 {
      assert Sum(sorted[..m]) < target;
    }
  }

  lemma ChosenIsTried(o: Order, fee: nat)
    requires o.Fits() && fee <= o.pp.MaxFee() && Selected(o.utxos, o.lovelace + fee).Some?
    ensures var chosen := Selected(o.utxos, o.lovelace + fee).value;
            Sum(chosen) >= o.lovelace + fee && Tried(o, Balanced(chosen, o.lovelace, fee))
  {
    ChosenIsShortest(o.utxos, o.lovelace + fee);
  }

  /** What one round can say, read off the coins. */
  ghost predicate Means(o: Order, r: Round) {
    match r
    case Stop(InsufficientFunds) => o.utxos == [] || Sum(o.utxos) < o.lovelace + o.pp.MaxFee()
    case Stop(AssemblyFailed) => exists u :: u in o.utxos && !Decodes(u.txHash)
    case Stop(TooLarge(n)) => exists tx :: Tried(o, tx) && n == o.layout.Size(tx) > o.pp.maxSize
    case Stop(_) => false
    case Done(tx) => Tried(o, tx) && forall u :: u in tx.inputs ==> Decodes(u.txHash)
    case Underpaid(tx, required) => Tried(o, tx) && required == o.pp.MinFee(o.layout.Size(tx) + 4) > tx.fee
  }

  lemma RoundIsMeasured(o: Order, fee: nat)
    requires o.Fits() && fee <= o.pp.MaxFee()
    ensures match Selected(o.utxos, o.lovelace + fee)
            case None => RoundOf(o, fee) == Stop(InsufficientFunds)
            case Some(chosen) => Sum(chosen) >= o.lovelace + fee && RoundOf(o, fee) == Measured(o, Balanced(chosen, o.lovelace, fee))
  {
    SelectionCoversIfAny(o.utxos, o.lovelace + fee);
  }

  lemma RoundSays(o: Order, fee: nat)
    requires o.Fits() && fee <= o.pp.MaxFee()
    ensures Means(o, RoundOf(o, fee))
  {
    RoundIsMeasured(o, fee);
    match Selected(o.utxos, o.lovelace + fee) {
      case None => NothingSelected(o.utxos, o.lovelace + fee);
      case Some(chosen) =>
        ChosenIsTried(o, fee);
        var tx := Balanced(chosen, o.lovelace, fee);
        MeasuredSays(o, tx);
        assert RoundOf(o, fee) == Measured(o, tx);
    }
  }

  lemma NothingSelected(utxos: seq<Utxo>, target: U64)
    requires Selected(utxos, target).None?
    ensures utxos == [] || Sum(utxos) < target
  {
    if target > 0 {
      SelectsExactlyWhenCovered(utxos, target);
    } else {
      FirstCoveringIsShortest(Sort(utxos), 0, target);
      SortPermutes(utxos);
      assert |multiset(utxos)| == |multiset(Sort(utxos))| == 0;
    }
  }

  lemma MeasuredSays(o: Order, tx: Tx)
    requires Tried(o, tx)
    ensures Means(o, Measured(o, tx))
  {
    forall u | u in tx.inputs
      ensures u in o.utxos && (IsHash(u.txHash) <==> Decodes(u.txHash))
    {
      SortPermutes(o.utxos);
      assert u in Sort(o.utxos);
      assert u in multiset(Sort(o.utxos));
      HashesAreThirtyTwoBytes(u.txHash);
    }
  }

  // ---------- what the loop says ----------

  /** What each error of the builder means, whatever the number of rounds. */
  lemma {:induction false} ErrorsSay(o: Order, fee: nat, rounds: nat)
    requires o.Fits() && fee <= o.pp.MaxFee() && BuildFrom(o, fee, rounds).Err?
    ensures match BuildFrom(o, fee, rounds).error
            case InsufficientFunds => o.utxos == [] || Sum(o.utxos) < o.lovelace + o.pp.MaxFee()
            case AssemblyFailed => exists u :: u in o.utxos && !Decodes(u.txHash)
            case TooLarge(n) => exists tx :: Tried(o, tx) && n == o.layout.Size(tx) > o.pp.maxSize
            case NotConverged => true
            case BadAddress => false
    decreases rounds
  {
    if rounds > 0 {
      RoundSays(o, fee);
      if RoundOf(o, fee).Underpaid? {
        FeesStrictlyIncrease(o, fee);
        ErrorsSay(o, RoundOf(o, fee).required, rounds - 1);
      }
    }
  }

  lemma BuildErrorsSay(o: Order)
    requires o.Fits() && Build(o).Err?
    ensures match Build(o).error
            case InsufficientFunds => o.utxos == [] || Sum(o.utxos) < o.lovelace + o.pp.MaxFee()
            case AssemblyFailed => exists u :: u in o.utxos && !Decodes(u.txHash)
            case TooLarge(n) => exists tx :: Tried(o, tx) && n == o.layout.Size(tx) > o.pp.maxSize
            case NotConverged => !CoinsCoverTheRise(o)
            case BadAddress => false
  {
    FirstFeeIsAllowed(o);
    ErrorsSay(o, o.pp.MinFee(FIRST_SIZE), MAX_FEE_ITERS);
    if CoinsCoverTheRise(o) {
      EightRoundsSuffice(o);
    }
  }

  /** So a payment is built whenever the wallet's hashes are hashes, its coins cover payment and largest
      fee, what the loop may try fits the limit, and no coin is smaller than the fee can rise. */
  lemma EnoughMeansBuilt(o: Order)
    requires o.Fits() && o.utxos != [] && Sum(o.utxos) >= o.lovelace + o.pp.MaxFee()
    requires forall u :: u in o.utxos ==> Decodes(u.txHash)
    requires forall tx :: Tried(o, tx) ==> o.layout.Size(tx) <= o.pp.maxSize
    requires CoinsCoverTheRise(o)
    ensures Build(o).Ok?
  {
    if Build(o).Err? {
      BuildErrorsSay(o);
      assert false;
    }
  }

  /** No fee is made up: with its dust taken off it is the fee of 250 bytes, or what the size of another
      transaction tried, with the margin of four, required. */
  ghost predicate Asked(o: Order, fee: nat) {
    fee == o.pp.MinFee(250) || exists tx :: Tried(o, tx) && fee == o.pp.MinFee(o.layout.Size(tx) + 4) > tx.fee
  }

  lemma {:induction false} ReturnedPaysWhatWasAsked(o: Order, fee: nat, rounds: nat) returns (last: nat)
    requires o.Fits() && fee <= o.pp.MaxFee() && BuildFrom(o, fee, rounds).Ok? && Asked(o, fee)
    ensures Asked(o, last) && last <= o.pp.MaxFee()
    ensures var tx := BuildFrom(o, fee, rounds).value;
            Tried(o, tx) && (if tx.change.Some? then tx.fee == last else last <= tx.fee < last + 1_000_000)
    decreases rounds
  {
    RoundSays(o, fee);
    if RoundOf(o, fee).Underpaid? {
      FeesStrictlyIncrease(o, fee);
      last := ReturnedPaysWhatWasAsked(o, RoundOf(o, fee).required, rounds - 1);
    } else {
      SelectionCoversIfAny(o.utxos, o.lovelace + fee);
      last := fee;
    }
  }

  lemma BuiltPaysWhatWasAsked(o: Order) returns (asked: nat)
    requires o.Fits() && Build(o).Ok?
    ensures Asked(o, asked) && asked <= o.pp.MaxFee()
    ensures var tx := Build(o).value;
            Tried(o, tx) && (if tx.change.Some? then tx.fee == asked else asked <= tx.fee < asked + 1_000_000)
  {
    FirstFeeIsAllowed(o);
    asked := ReturnedPaysWhatWasAsked(o, o.pp.MinFee(FIRST_SIZE), MAX_FEE_ITERS);
  }
}
