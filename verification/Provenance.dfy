/**
  Where coins come from and how often they go (src/lib.rs): over a whole accepted chain every outpoint is
  spent at most as often as it was created, and every spend names a coin that an earlier transaction made.
 */
module Provenance {
  import opened Consensus
  import opened Merkle
  import opened Outcome
  import opened UtxoSet
  import opened Wire

  // ---- Counting ----------------------------------------------------------------------------

  function One(b: bool): nat
  {
    if b then 1 else 0
  }

  /** How often these inputs name o. */
  function SpentBy(ins: seq<TxIn>, o: OutPoint): nat
  {
    if ins == [] then 0 else SpentBy(ins[..|ins| - 1], o) + One(ins[|ins| - 1].previous == o)
  }

  /** How often these outputs become o. */
  function CreatedBy(id: Hash, outs: seq<TxOut>, o: OutPoint): nat
  {
    if outs == [] then 0 else CreatedBy(id, outs[..|outs| - 1], o) + One(Created(id, |outs| - 1) == o)
  }

  /** Spends and creations of o by the transactions of a block; the first one is the coinbase and spends nothing. */
  function Spends(txs: seq<Transaction>, o: OutPoint): nat
  {
    if txs == [] then 0
    else
      var tx := txs[|txs| - 1];
      Spends(txs[..|txs| - 1], o) + if |txs| == 1 || IsPoolShare(tx) then 0 else SpentBy(tx.inputs, o)
  }

  function Creations(rules: Rules, txs: seq<Transaction>, o: OutPoint): nat
  {
    if txs == [] then 0
    else
      var tx := txs[|txs| - 1];
      Creations(rules, txs[..|txs| - 1], o) + if IsPoolShare(tx) then 0 else CreatedBy(rules.id(tx), tx.outputs, o)
  }

  function SpendsOn(blocks: seq<Block>, o: OutPoint): nat
  {
    if |blocks| <= 1 then 0 else SpendsOn(blocks[..|blocks| - 1], o) + Spends(blocks[|blocks| - 1].transactions, o)
  }

  function CreationsOn(rules: Rules, blocks: seq<Block>, o: OutPoint): nat
  {
    if |blocks| <= 1 then 0 else CreationsOn(rules, blocks[..|blocks| - 1], o) + Creations(rules, blocks[|blocks| - 1].transactions, o)
  }

  lemma {:induction false} SpendCounts(u: Utxos, ins: seq<TxIn>, o: OutPoint)
    requires SpendInputs(u, ins).Ok?
    ensures One(o in SpendInputs(u, ins).value) + SpentBy(ins, o) == One(o in u)
  {
    if ins != [] {
      SpendCounts(u, ins[..|ins| - 1], o);
    }
  }

  lemma {:induction false} AddCounts(u: Utxos, id: Hash, outs: seq<TxOut>, height: nat, isCoinbase: bool, o: OutPoint)
    requires AddOutputs(u, id, outs, height, isCoinbase).Ok?
    ensures One(o in AddOutputs(u, id, outs, height, isCoinbase).value) == One(o in u) + CreatedBy(id, outs, o)
  {
    hide Created;
    if outs != [] {
      AddCounts(u, id, outs[..|outs| - 1], height, isCoinbase, o);
    }
  }

  lemma {:induction false} ConnectCounts(rules: Rules, txs: seq<Transaction>, u: Utxos, height: nat, o: OutPoint)
    requires ConnectAll(rules, txs, u, height).Ok?
    ensures One(o in ConnectAll(rules, txs, u, height).value) + Spends(txs, o) == One(o in u) + Creations(rules, txs, o)
  {
    hide SpendInputs, AddOutputs, SpentBy, CreatedBy;
    if txs != [] {
      var n := |txs| - 1;
      ConnectCounts(rules, txs[..n], u, height, o);
      var before, tx := ConnectAll(rules, txs[..n], u, height).value, txs[n];
      if !IsPoolShare(tx) {
        if n > 0 {
          SpendCounts(before, tx.inputs, o);
          AddCounts(SpendInputs(before, tx.inputs).value, rules.id(tx), tx.outputs, height, false, o);
        } else {
          AddCounts(before, rules.id(tx), tx.outputs, height, true, o);
        }
      }
    }
  }

  lemma AcceptedConnects(rules: Rules, blocks: seq<Block>, u: Utxos, b: Block, now: U32)
    requires rules.Valid() && blocks != [] && Accept(rules, blocks, u, b, now).Ok?
    ensures ConnectAll(rules, b.transactions, u, |blocks|) == Accept(rules, blocks, u, b, now)
    ensures b.transactions != [] && Tallied(rules, b.transactions[1..], u, |blocks|).Ok?
    ensures forall i :: 1 <= i < |b.transactions| ==> !IsCoinbase(b.transactions[i])
  {
    hide ConnectAll, Tallied, HeaderOk, Stateless, Subsidy, OutValue;
  }

  /** No double spend: on an accepted chain an outpoint was created once more than it was spent if it is unspent, else equally often. */
  lemma {:induction false} EveryOutpointBalances(rules: Rules, blocks: seq<Block>, now: U32, o: OutPoint)
    requires rules.Valid() && Replay(rules, blocks, now).Ok?
    ensures CreationsOn(rules, blocks, o) == SpendsOn(blocks, o) + One(o in Replay(rules, blocks, now).value)
  {
    hide Accept, ConnectAll, Spends, Creations;
    if |blocks| > 1 {
      var n := |blocks| - 1;
      EveryOutpointBalances(rules, blocks[..n], now, o);
      AcceptedConnects(rules, blocks[..n], Replay(rules, blocks[..n], now).value, blocks[n], now);
      ConnectCounts(rules, blocks[n].transactions, Replay(rules, blocks[..n], now).value, n, o);
    }
  }

  // ---- Origins -----------------------------------------------------------------------------

  /** Output k of transaction i of a block at this height is this coin. */
  predicate MadeAt(rules: Rules, b: Block, height: nat, i: nat, k: nat, o: OutPoint, coin: Coin)
  {
    && i < |b.transactions| && k < |b.transactions[i].outputs|
    && o == Created(rules.id(b.transactions[i]), k)
    && coin == Coin(b.transactions[i].outputs[k], height, i == 0)
  }

  ghost predicate MadeIn(rules: Rules, b: Block, height: nat, before: nat, o: OutPoint, coin: Coin)
  {
    exists i: nat, k: nat :: i < before && MadeAt(rules, b, height, i, k, o, coin)
  }

  /** Some block of the chain made this coin. */
  ghost predicate HasOrigin(rules: Rules, blocks: seq<Block>, o: OutPoint, coin: Coin)
  {
    exists h :: 1 <= h < |blocks| && MadeIn(rules, blocks[h], h, |blocks[h].transactions|, o, coin)
  }

  ghost predicate AllHaveOrigin(rules: Rules, blocks: seq<Block>, u: Utxos)
  {
    forall o :: o in u ==> HasOrigin(rules, blocks, o, u[o])
  }

  lemma {:induction false} AddedByTx(u: Utxos, id: Hash, outs: seq<TxOut>, height: nat, isCoinbase: bool, o: OutPoint)
    requires AddOutputs(u, id, outs, height, isCoinbase).Ok? && o in AddOutputs(u, id, outs, height, isCoinbase).value
    ensures var v := AddOutputs(u, id, outs, height, isCoinbase).value;
            (o in u && v[o] == u[o]) || exists k :: 0 <= k < |outs| && o == Created(id, k) && v[o] == Coin(outs[k], height, isCoinbase)
  {
    hide Created;
    if outs != [] {
      var n := |outs| - 1;
      if o != Created(id, n) {
        AddedByTx(u, id, outs[..n], height, isCoinbase, o);
        var before := AddOutputs(u, id, outs[..n], height, isCoinbase).value;
        if !(o in u && before[o] == u[o]) {
          var k :| 0 <= k < n && o == Created(id, k) && before[o] == Coin(outs[..n][k], height, isCoinbase);
          assert outs[..n][k] == outs[k];
        }
      }
    }
  }

  // A coin after connecting one transaction was there before or is one of its outputs.
  lemma ConnectedCoin(u: Utxos, id: Hash, tx: Transaction, height: nat, isCoinbase: bool, o: OutPoint)
    requires ConnectTx(u, id, tx, height, isCoinbase).Ok? && o in ConnectTx(u, id, tx, height, isCoinbase).value
    ensures var v := ConnectTx(u, id, tx, height, isCoinbase).value;
            (o in u && v[o] == u[o]) || exists k :: 0 <= k < |tx.outputs| && o == Created(id, k) && v[o] == Coin(tx.outputs[k], height, isCoinbase)
  {
    hide Created;
    if IsPoolShare(tx) {
    } else if isCoinbase {
      AddedByTx(u, id, tx.outputs, height, true, o);
    } else {
      SpendTotal(u, tx.inputs);
      AddedByTx(SpendInputs(u, tx.inputs).value, id, tx.outputs, height, false, o);
    }
  }

  lemma {:induction false} BlockCoin(rules: Rules, b: Block, n: nat, u: Utxos, height: nat, o: OutPoint)
    requires n <= |b.transactions| && ConnectAll(rules, b.transactions[..n], u, height).Ok? && o in ConnectAll(rules, b.transactions[..n], u, height).value
    ensures var v := ConnectAll(rules, b.transactions[..n], u, height).value;
            (o in u && v[o] == u[o]) || MadeIn(rules, b, height, n, o, v[o])
  {
    hide ConnectTx, Created;
    if n > 0 {
      var txs := b.transactions[..n];
      assert txs[..n - 1] == b.transactions[..n - 1];
      var before, v := ConnectAll(rules, b.transactions[..n - 1], u, height).value, ConnectAll(rules, txs, u, height).value;
      ConnectedCoin(before, rules.id(txs[n - 1]), txs[n - 1], height, n == 1, o);
      if o in before && v[o] == before[o] {
        BlockCoin(rules, b, n - 1, u, height, o);
        if !(o in u && v[o] == u[o]) {
          var i: nat, k: nat :| i < n - 1 && MadeAt(rules, b, height, i, k, o, before[o]);
          assert MadeAt(rules, b, height, i, k, o, v[o]);
        }
      } else {
        var k :| 0 <= k < |txs[n - 1].outputs| && o == Created(rules.id(txs[n - 1]), k) && v[o] == Coin(txs[n - 1].outputs[k], height, n == 1);
        assert MadeAt(rules, b, height, n - 1, k, o, v[o]);
      }
    }
  }

  lemma OriginStays(rules: Rules, blocks: seq<Block>, b: Block, o: OutPoint, coin: Coin)
    requires HasOrigin(rules, blocks, o, coin)
    ensures HasOrigin(rules, blocks + [b], o, coin)
  {
    hide MadeIn;
    var h :| 1 <= h < |blocks| && MadeIn(rules, blocks[h], h, |blocks[h].transactions|, o, coin);
    assert (blocks + [b])[h] == blocks[h];
  }

  /** Every unspent coin of an accepted chain is an output of one of its transactions, with that block's height and kind. */
  lemma {:induction false} CoinsHaveOrigins(rules: Rules, blocks: seq<Block>, now: U32)
    requires rules.Valid() && Replay(rules, blocks, now).Ok?
    ensures AllHaveOrigin(rules, blocks, Replay(rules, blocks, now).value)
  {
    hide Accept, ConnectAll, HasOrigin, MadeIn;
    if |blocks| > 1 {
      var n := |blocks| - 1;
      var (prior, b) := (blocks[..n], blocks[n]);
      CoinsHaveOrigins(rules, prior, now);
      var u := Replay(rules, prior, now).value;
      AcceptedConnects(rules, prior, u, b, now);
      assert b.transactions[..|b.transactions|] == b.transactions && prior + [b] == blocks;
      forall o | o in Replay(rules, blocks, now).value
        ensures HasOrigin(rules, blocks, o, Replay(rules, blocks, now).value[o])
      {
        BlockCoin(rules, b, |b.transactions|, u, n, o);
        if o in u && Replay(rules, blocks, now).value[o] == u[o] {
          OriginStays(rules, prior, b, o, u[o]);
        } else {
          MadeInTip(rules, blocks, o, Replay(rules, blocks, now).value[o]);
        }
      }
    }
  }

  lemma MadeInTip(rules: Rules, blocks: seq<Block>, o: OutPoint, coin: Coin)
    requires |blocks| > 1 && MadeIn(rules, blocks[|blocks| - 1], |blocks| - 1, |blocks[|blocks| - 1].transactions|, o, coin)
    ensures HasOrigin(rules, blocks, o, coin)
  {
    hide MadeIn;
  }

  // ---- Spending ----------------------------------------------------------------------------

  /** What an ordinary input must have behind it: a coin with an origin, a signature, and for a coinbase the maturity. */
  ghost predicate SpendsProperly(rules: Rules, blocks: seq<Block>, b: Block, height: nat, i: nat, k: nat)
    requires i < |b.transactions| && k < |b.transactions[i].inputs|
  {
    exists coin: Coin ::
      && rules.signed(b.transactions[i], k, coin)
      && (coin.isCoinbase ==> coin.height < height && height - coin.height >= rules.maturity)
      && (HasOrigin(rules, blocks, b.transactions[i].inputs[k].previous, coin)
          || MadeIn(rules, b, height, i, b.transactions[i].inputs[k].previous, coin))
  }

  lemma Shorter(txs: seq<Transaction>, n: nat)
    requires 2 <= n <= |txs|
    ensures txs[1..n][..|txs[1..n]| - 1] == txs[1..n - 1] && |txs[1..n]| == n - 1 && txs[1..n][n - 2] == txs[n - 1]
  {
  }

  // A coin on the validator's scratch set came with the chain or from an earlier transaction of this block, never from the coinbase.
  lemma {:induction false} ScratchCoin(rules: Rules, b: Block, n: nat, u: Utxos, height: nat, o: OutPoint)
    requires 1 <= n <= |b.transactions| && Tallied(rules, b.transactions[1..n], u, height).Ok? && o in Tallied(rules, b.transactions[1..n], u, height).value.utxos
    ensures var s := Tallied(rules, b.transactions[1..n], u, height).value.utxos;
            (o in u && s[o] == u[o]) || (!s[o].isCoinbase && MadeIn(rules, b, height, n, o, s[o]))
  {
    hide ConnectTx, Created, NetFee;
    var txs := b.transactions[1..n];
    if n > 1 {
      Shorter(b.transactions, n);
      var before, s := Tallied(rules, b.transactions[1..n - 1], u, height).value.utxos, Tallied(rules, txs, u, height).value.utxos;
      var tx := b.transactions[n - 1];
      ConnectedCoin(before, rules.id(tx), tx, height, false, o);
      if o in before && s[o] == before[o] {
        ScratchCoin(rules, b, n - 1, u, height, o);
        if !(o in u && s[o] == u[o]) {
          var i: nat, k: nat :| i < n - 1 && MadeAt(rules, b, height, i, k, o, before[o]);
          assert MadeAt(rules, b, height, i, k, o, s[o]);
        }
      } else {
        var k :| 0 <= k < |tx.outputs| && o == Created(rules.id(tx), k) && s[o] == Coin(tx.outputs[k], height, false);
        assert MadeAt(rules, b, height, n - 1, k, o, s[o]);
      }
    }
  }

  lemma {:induction false} TalliedPrefix(rules: Rules, txs: seq<Transaction>, u: Utxos, height: nat, n: nat)
    requires n < |txs| && Tallied(rules, txs, u, height).Ok?
    ensures Tallied(rules, txs[..n], u, height).Ok? && NetFee(rules, txs[n], Tallied(rules, txs[..n], u, height).value.utxos, height).Ok?
  {
    hide NetFee, ConnectTx;
    if n < |txs| - 1 {
      TalliedPrefix(rules, txs[..|txs| - 1], u, height, n);
      assert txs[..|txs| - 1][..n] == txs[..n];
    }
  }

  lemma InputIsOk(rules: Rules, tx: Transaction, s: Utxos, height: nat, k: nat)
    requires NetFee(rules, tx, s, height).Ok? && !IsPoolShare(tx) && !IsCoinbase(tx) && !IsClaim(rules, tx) && k < |tx.inputs|
    ensures InputOk(rules, tx, k, s, height)
  {
    hide Stateless, Burn, ExtraFee, InputOk, InValue, OutValue;
  }

  // A coin of the chain is older than the block that spends it.
  lemma OriginIsOlder(rules: Rules, blocks: seq<Block>, o: OutPoint, coin: Coin)
    requires HasOrigin(rules, blocks, o, coin)
    ensures coin.height < |blocks|
  {
  }

  /**
    On an accepted chain every input of an ordinary transaction spends a coin made by an earlier transaction,
    with a valid signature over it, and a coinbase only once it is mature.
   */
  lemma SpendsAreProper(rules: Rules, prior: seq<Block>, b: Block, now: U32, i: nat, k: nat)
    requires rules.Valid() && Replay(rules, prior + [b], now).Ok? && prior != []
    requires 0 < i < |b.transactions| && k < |b.transactions[i].inputs|
    requires !IsPoolShare(b.transactions[i]) && !IsClaim(rules, b.transactions[i])
    ensures SpendsProperly(rules, prior, b, |prior|, i, k)
  {
    hide Accept, HasOrigin, MadeIn, Tallied, ConnectAll, NetFee, IsCoinbase, IsPoolShare, IsClaim;
    assert (prior + [b])[..|prior|] == prior;
    var u, tx := Replay(rules, prior, now).value, b.transactions[i];
    AcceptedConnects(rules, prior, u, b, now);
    CoinsHaveOrigins(rules, prior, now);
    TalliedPrefix(rules, b.transactions[1..], u, |prior|, i - 1);
    assert b.transactions[1..][..i - 1] == b.transactions[1..i];
    var s := Tallied(rules, b.transactions[1..i], u, |prior|).value.utxos;
    InputIsOk(rules, tx, s, |prior|, k);
    var o := tx.inputs[k].previous;
    ScratchCoin(rules, b, i, u, |prior|, o);
    if o in u && s[o] == u[o] {
      OriginIsOlder(rules, prior, o, s[o]);
    }
  }
}
