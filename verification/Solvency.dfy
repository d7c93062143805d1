/** QUB value over whole chains: no block creates more than its subsidy, and all subsidies together stay below the cap. */
module Solvency {
  import opened Arithmetic
  import opened Consensus
  import opened Infusion
  import opened MapSums
  import opened Outcome
  import opened UtxoSet
  import opened Wire

  // ---- The subsidy schedule ----------------------------------------------------------------

  /** Everything minted up to and including this height. */
  function Minted(rules: Rules, height: nat): nat
    requires rules.halving > 0
  {
    if height == 0 then 0 else Minted(rules, height - 1) + Subsidy(rules, height)
  }

  /** What the schedule can still mint after `height`: the rest of the current era at its rate, then as much again. */
  function Ahead(rules: Rules, height: nat): nat
    requires rules.halving > 0
  {
    DivMod(height, rules.halving);
    AheadOf(rules.halving, height % rules.halving, Halved(rules.initialSubsidy, height / rules.halving))
  }

  function AheadOf(d: nat, r: nat, rate: nat): nat
    requires r <= d
  {
    Times(d - r, rate) + Times(d, rate)
  }

  lemma AheadNextBlock(d: nat, r: nat, rate: nat)
    requires r < d
    ensures rate + AheadOf(d, r + 1, rate) == AheadOf(d, r, rate)
  {
    assert (d - r) * rate == (d - (r + 1)) * rate + rate;
  }

  lemma AheadNextEra(d: nat, rate: nat)
    requires d > 0
    ensures rate + AheadOf(d, 0, rate / 2) <= AheadOf(d, d - 1, rate)
  {
    HalfTwice(d, rate);
    assert (d - (d - 1)) * rate == rate;
  }

  lemma NextEra(height: nat, d: nat)
    requires d > 0
    ensures height % d == d - 1 ==> (height + 1) / d == height / d + 1 && (height + 1) % d == 0
    ensures height % d < d - 1 ==> (height + 1) / d == height / d && (height + 1) % d == height % d + 1
  {
    DivMod(height, d);
    if height % d == d - 1 {
      assert (height / d + 1) * d == height / d * d + d;
      DivideUnique(height + 1, d, height / d + 1, 0);
    } else {
      DivideUnique(height + 1, d, height / d, height % d + 1);
    }
  }

  /** The schedule itself: the initial subsidy in the first era, half of it one era later, nothing after 64 eras. */
  lemma SubsidyHalves(rules: Rules, height: nat)
    requires rules.halving > 0 && height > 0
    ensures height <= rules.halving ==> Subsidy(rules, height) == rules.initialSubsidy
    ensures height <= 63 * rules.halving ==> Subsidy(rules, height + rules.halving) == Subsidy(rules, height) / 2
    ensures height > 64 * rules.halving ==> Subsidy(rules, height) == 0
  {
    var d, n := rules.halving, height - 1;
    DivMod(n, d);
    assert (n / d + 1) * d == n / d * d + d;
    DivideUnique(n + d, d, n / d + 1, n % d);
    if height <= d {
      DivideUnique(n, d, 0, n);
    }
    if height <= 63 * d {
      CompareScaled(n / d, 63, d);
    }
    if height > 64 * d {
      DivideAtLeast(n, d, 64);
    }
  }

  lemma HalfTwice(d: nat, r: nat)
    ensures d * (r / 2) + d * (r / 2) <= d * r
  {
    ScaleMonotone(2 * (r / 2), r, d);
    assert 2 * (r / 2) * d == d * (r / 2) + d * (r / 2);
    assert r * d == d * r;
  }

  lemma AheadStep(rules: Rules, height: nat)
    requires rules.halving > 0
    ensures Subsidy(rules, height + 1) + Ahead(rules, height + 1) <= Ahead(rules, height)
  {
    hide AheadOf;
    var d := rules.halving;
    var rate := Halved(rules.initialSubsidy, height / d);
    DivMod(height, d);
    NextEra(height, d);
    if height % d == d - 1 {
      AheadNextEra(d, rate);
    } else {
      AheadNextBlock(d, height % d, rate);
    }
  }

  lemma {:induction false} MintedAndAhead(rules: Rules, height: nat)
    requires rules.halving > 0
    ensures Minted(rules, height) + Ahead(rules, height) <= Ahead(rules, 0)
  {
    hide Ahead, Subsidy;
    if height > 0 {
      MintedAndAhead(rules, height - 1);
      AheadStep(rules, height - 1);
    }
  }

  function Cap(rules: Rules): nat
  {
    Product(rules.halving, rules.initialSubsidy);
    2 * (rules.halving * rules.initialSubsidy)
  }

  /** All subsidies together never exceed twice the first era. */
  lemma MintedBelowCap(rules: Rules, height: nat)
    requires rules.halving > 0
    ensures Minted(rules, height) <= Cap(rules)
  {
    hide Minted, Ahead, Subsidy;
    MintedAndAhead(rules, height);
    AheadOfAll(rules);
  }

  lemma AheadOfAll(rules: Rules)
    requires rules.halving > 0
    ensures Ahead(rules, 0) == Cap(rules)
  {
    DivideUnique(0, rules.halving, 0, 0);
    assert Ahead(rules, 0) == rules.halving * rules.initialSubsidy + rules.halving * rules.initialSubsidy;
  }

  /** With the mainnet parameters the cap is exactly 21 million QUB. */
  lemma MainnetCap(rules: Rules)
    requires rules.initialSubsidy == 500_000_000 && rules.halving == 2_100_000
    ensures Cap(rules) == MAX_MONEY_ATOMS
  {
  }

  // ---- One block ---------------------------------------------------------------------------

  /** Atoms declared burned by the transactions of a block. */
  function Burned(rules: Rules, txs: seq<Transaction>, height: nat): nat
  {
    if txs == [] then 0
    else
      var burn := Burn(rules, txs[|txs| - 1], height);
      Burned(rules, txs[..|txs| - 1], height) + if burn.Ok? then burn.value else 0
  }

  lemma ClaimPaysOut(rules: Rules, tx: Transaction, u: Utxos, height: nat)
    requires IsClaim(rules, tx) && ClaimOk(rules, tx, u, height)
    ensures OutValue(tx.outputs) <= InValue(u, tx.inputs)
  {
    assert tx.inputs[..0] == [];
    assert InValue(u, tx.inputs) == u[tx.inputs[0].previous].out.value;
    if |tx.outputs| == 1 {
      assert OutValue(tx.outputs) == OutValue(tx.outputs[..0]) + tx.outputs[0].value;
    } else {
      assert tx.outputs[..1][..0] == [];
      assert OutValue(tx.outputs) == OutValue(tx.outputs[..1]) + tx.outputs[1].value;
      assert OutValue(tx.outputs[..1]) == tx.outputs[0].value;
    }
  }

  /** The 64-bit cast in the fee loses nothing as long as the spent value fits, and a fee is covered by the inputs. */
  lemma FeeIsCovered(rules: Rules, tx: Transaction, u: Utxos, height: nat)
    requires RawFee(rules, tx, u, height).Ok? && !IsPoolShare(tx) && !IsCoinbase(tx) && InValue(u, tx.inputs) < TWO_64
    ensures OutValue(tx.outputs) + RawFee(rules, tx, u, height).value <= InValue(u, tx.inputs)
    ensures !IsClaim(rules, tx) ==> OutValue(tx.outputs) + RawFee(rules, tx, u, height).value == InValue(u, tx.inputs)
  {
    hide InValue, OutValue, ClaimOk, InputsOk, Stateless;
    if IsClaim(rules, tx) {
      ClaimPaysOut(rules, tx, u, height);
    }
  }

  // One transaction, on the scratch set s of the validator and the set c that is really connected.
  lemma StepConserves(rules: Rules, tx: Transaction, s: Utxos, c: Utxos, height: nat)
    requires Within(s, c) && Total(s) < TWO_64 && !IsCoinbase(tx)
    requires NetFee(rules, tx, s, height).Ok?
    requires ConnectTx(s, rules.id(tx), tx, height, false).Ok? && ConnectTx(c, rules.id(tx), tx, height, false).Ok?
    ensures var (s', c') := (ConnectTx(s, rules.id(tx), tx, height, false).value, ConnectTx(c, rules.id(tx), tx, height, false).value);
            var spent := NetFee(rules, tx, s, height).value + Burn(rules, tx, height).value;
            Burn(rules, tx, height).Ok? && Within(s', c') && Total(c') + spent <= Total(c) && Total(s') <= Total(s)
  {
    hide RawFee, Burn, ExtraFee, ConnectTx, Total, Within;
    ConnectWithin(s, c, rules.id(tx), tx, height);
    if IsPoolShare(tx) {
      ShareIsFree(rules, tx, s, height);
      ShareConnects(rules, tx, s, height);
      ShareConnects(rules, tx, c, height);
    } else {
      FeeIsCovered(rules, tx, s, height);
      ConnectTotal(s, rules.id(tx), tx, height, false);
      ConnectTotal(c, rules.id(tx), tx, height, false);
    }
  }

  lemma ShareIsFree(rules: Rules, tx: Transaction, u: Utxos, height: nat)
    requires IsPoolShare(tx)
    ensures RawFee(rules, tx, u, height) == Ok(0)
  {
  }

  lemma ShareConnects(rules: Rules, tx: Transaction, u: Utxos, height: nat)
    requires IsPoolShare(tx)
    ensures ConnectTx(u, rules.id(tx), tx, height, false) == Ok(u)
  {
  }

  /** Connecting transactions one after the other, none of them a coinbase. */
  function ConnectRest(rules: Rules, txs: seq<Transaction>, u: Utxos, height: nat): Result<Utxos>
  {
    if txs == [] then Ok(u)
    else
      var before :- ConnectRest(rules, txs[..|txs| - 1], u, height);
      ConnectTx(before, rules.id(txs[|txs| - 1]), txs[|txs| - 1], height, false)
  }

  lemma {:induction false} ConnectCoinbaseFirst(rules: Rules, txs: seq<Transaction>, u: Utxos, height: nat)
    requires txs != [] && ConnectAll(rules, txs, u, height).Ok?
    ensures ConnectTx(u, rules.id(txs[0]), txs[0], height, true).Ok?
    ensures ConnectRest(rules, txs[1..], ConnectTx(u, rules.id(txs[0]), txs[0], height, true).value, height) == ConnectAll(rules, txs, u, height)
  {
    hide ConnectTx;
    var n := |txs| - 1;
    if n == 0 {
      assert ConnectAll(rules, txs[..0], u, height) == Ok(u);
    } else {
      ConnectCoinbaseFirst(rules, txs[..n], u, height);
      assert txs[1..][..n - 1] == txs[..n][1..];
    }
  }

  lemma {:induction false} RestConserves(rules: Rules, txs: seq<Transaction>, u: Utxos, c: Utxos, height: nat)
    requires Within(u, c) && Total(u) < TWO_64 && forall i :: 0 <= i < |txs| ==> !IsCoinbase(txs[i])
    requires Tallied(rules, txs, u, height).Ok? && ConnectRest(rules, txs, c, height).Ok?
    ensures var (tally, c') := (Tallied(rules, txs, u, height).value, ConnectRest(rules, txs, c, height).value);
            Within(tally.utxos, c') && Total(tally.utxos) <= Total(u)
            && Total(c') + tally.fees + Burned(rules, txs, height) <= Total(c)
  {
    hide NetFee, Burn, ConnectTx, Total, Within;
    if txs != [] {
      var n := |txs| - 1;
      RestConserves(rules, txs[..n], u, c, height);
      StepConserves(rules, txs[n], Tallied(rules, txs[..n], u, height).value.utxos, ConnectRest(rules, txs[..n], c, height).value, height);
    }
  }

  /** An accepted block: spendable plus burned value grows by at most the subsidy. */
  lemma BlockConserves(rules: Rules, blocks: seq<Block>, u: Utxos, b: Block, now: U32)
    requires rules.Valid() && blocks != [] && Total(u) < TWO_64 && Accept(rules, blocks, u, b, now).Ok?
    ensures Total(Accept(rules, blocks, u, b, now).value) + Burned(rules, b.transactions[1..], |blocks|)
         <= Total(u) + Subsidy(rules, |blocks|)
  {
    hide Tallied, ConnectTx, Total, Within, Stateless, HeaderOk, Subsidy, OutValue;
    var height, coinbase := |blocks|, b.transactions[0];
    ConnectCoinbaseFirst(rules, b.transactions, u, height);
    ConnectTotal(u, rules.id(coinbase), coinbase, height, true);
    var c := ConnectTx(u, rules.id(coinbase), coinbase, height, true).value;
    RestConserves(rules, b.transactions[1..], u, c, height);
  }

  // ---- Chains ------------------------------------------------------------------------------

  /** Atoms burned on a chain. */
  function BurnedOn(rules: Rules, blocks: seq<Block>): nat
  {
    if |blocks| <= 1 then 0
    else
      var txs := blocks[|blocks| - 1].transactions;
      BurnedOn(rules, blocks[..|blocks| - 1]) + if txs == [] then 0 else Burned(rules, txs[1..], |blocks| - 1)
  }

  lemma {:induction false} ChainConserves(rules: Rules, blocks: seq<Block>, now: U32)
    requires rules.Valid() && Cap(rules) < TWO_64 && Replay(rules, blocks, now).Ok?
    ensures Total(Replay(rules, blocks, now).value) + BurnedOn(rules, blocks) <= Minted(rules, |blocks| - 1)
  {
    hide Accept, Total, Cap, Subsidy, Burned;
    var n := |blocks| - 1;
    if n == 0 {
      NothingYet();
    } else {
      ChainConserves(rules, blocks[..n], now);
      MintedBelowCap(rules, n - 1);
      AcceptedHasCoinbase(rules, blocks[..n], Replay(rules, blocks[..n], now).value, blocks[n], now);
      BlockConserves(rules, blocks[..n], Replay(rules, blocks[..n], now).value, blocks[n], now);
    }
  }

  lemma NothingYet()
    ensures Total(map[]) == 0
  {
  }

  lemma AcceptedHasCoinbase(rules: Rules, blocks: seq<Block>, u: Utxos, b: Block, now: U32)
    requires rules.Valid() && blocks != [] && Accept(rules, blocks, u, b, now).Ok?
    ensures b.transactions != []
  {
  }

  /** Full reserve on the QUB side: spendable plus burned atoms <= minted atoms <= 21 million QUB, on every accepted chain. */
  lemma CirculationBelowCap(rules: Rules, blocks: seq<Block>, now: U32)
    requires rules.Valid() && rules.initialSubsidy == 500_000_000 && rules.halving == 2_100_000
    requires Replay(rules, blocks, now).Ok?
    ensures Total(Replay(rules, blocks, now).value) + BurnedOn(rules, blocks) <= Minted(rules, |blocks| - 1) <= MAX_MONEY_ATOMS
  {
    hide Total, Minted, Accept;
    MainnetCap(rules);
    ChainConserves(rules, blocks, now);
    MintedBelowCap(rules, |blocks| - 1);
  }
}
