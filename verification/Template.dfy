/**
  Block templates (candidate_mempool_transactions and build_candidate_block in src/lib.rs): whatever is
  pending, what the greedy selection chooses passes the validator it was chosen for.
 */
module Template {
  import opened Bytes
  import opened Consensus
  import opened Difficulty
  import opened HeaderChain
  import opened Infusion
  import opened Mempool
  import opened Merkle
  import opened Outcome
  import opened PayoutPlan
  import opened PoolsOnChain
  import opened PoolWindow
  import opened Sorting
  import opened UtxoSet
  import opened Wire
  import Solvency

  /** The other features' state (names, JIN, library, governance): how it starts and what trying a transaction does. */
  datatype Features<!S> = Features(
    init: seq<Block> -> Result<S>, standard: Transaction -> bool, attempt: (S, Transaction, Utxos) -> Result<S>)

  const U64_MAX: nat := 0xffff_ffff_ffff_ffff

  function OrMax(r: Result<U64>): nat
  {
    if r.Ok? then r.value else U64_MAX
  }

  /** The extra fee as the template computes it: a fee that cannot be computed counts as the largest word. */
  function TemplateExtra(rules: Rules, tx: Transaction, height: nat): Result<nat>
  {
    var sum := OrMax(rules.qnsFee(tx, height)) + OrMax(rules.libraryFee(tx, height)) + OrMax(rules.swapFee(tx, height));
    if sum > U64_MAX then Err else Ok(sum)
  }

  /** A fee that is not itself the largest word meets the template's requirement only if it meets the validator's. */
  lemma TemplateFeeIsEnough(rules: Rules, tx: Transaction, height: nat, fee: nat)
    requires fee < U64_MAX && TemplateExtra(rules, tx, height).Ok? && fee >= TemplateExtra(rules, tx, height).value
    ensures ExtraFee(rules, tx, height).Ok? && fee >= ExtraFee(rules, tx, height).value
  {
  }

  predicate NoMarkers(rules: Rules, tx: Transaction, height: nat)
  {
    rules.markers(tx) == [] && rules.qnsFee(tx, height) == Ok(0) && rules.libraryFee(tx, height) == Ok(0) && rules.swapFee(tx, height) == Ok(0)
  }

  /** Features read their markers and fees off the outputs, so a transaction without outputs has none. */
  ghost predicate NoOutputsNoMarkers(rules: Rules)
  {
    forall tx: Transaction, height: nat :: tx.outputs == [] ==> NoMarkers(rules, tx, height)
  }

  // ---- What has been chosen so far ---------------------------------------------------------

  /** The chosen list passes both validators' loops, with this context, scratch set and fee total. */
  ghost predicate Chosen(rules: Rules, p: PoolRules, blocks: seq<Block>, u: Utxos, start: Checking,
                         txs: seq<Transaction>, ctx: Checking, scratch: Utxos, fees: nat)
    requires p.Pools().Valid()
  {
    && Tallied(rules, txs, u, |blocks|) == Ok(Tally(scratch, fees))
    && CheckTxs(rules, p, txs, blocks, u, |blocks|, start).Ok?
    && CheckTxs(rules, p, txs, blocks, u, |blocks|, start).value.ctx == ctx
    && CheckTxs(rules, p, txs, blocks, u, |blocks|, start).value.utxos == scratch
    && (forall i :: 0 <= i < |txs| ==> !IsCoinbase(txs[i]))
    && NULL_OUTPOINT !in scratch && Total(scratch) + fees <= Total(u)
  }

  lemma NothingChosen(rules: Rules, p: PoolRules, blocks: seq<Block>, u: Utxos, start: Checking)
    requires p.Pools().Valid() && NULL_OUTPOINT !in u
    ensures Chosen(rules, p, blocks, u, start, [], start, u, 0)
  {
  }

  // A coinbase-shaped transaction spends an outpoint that never exists.
  lemma CoinbaseCannotConnect(rules: Rules, tx: Transaction, u: Utxos, height: nat)
    requires IsCoinbase(tx) && NULL_OUTPOINT !in u
    ensures ConnectTx(u, rules.id(tx), tx, height, false).Err?
  {
    assert SpendInputs(u, tx.inputs[..0]) == Ok(u);
    assert SpendInputs(u, tx.inputs).Err?;
  }

  lemma {:induction false} NullStaysOut(u: Utxos, id: Hash, outs: seq<TxOut>, height: nat, isCoinbase: bool)
    requires NULL_OUTPOINT !in u && id != ZERO_HASH && AddOutputs(u, id, outs, height, isCoinbase).Ok?
    ensures NULL_OUTPOINT !in AddOutputs(u, id, outs, height, isCoinbase).value
  {
    if outs != [] {
      NullStaysOut(u, id, outs[..|outs| - 1], height, isCoinbase);
    }
  }

  lemma ConnectKeepsNullOut(rules: Rules, tx: Transaction, u: Utxos, height: nat, isCoinbase: bool)
    requires NULL_OUTPOINT !in u && rules.id(tx) != ZERO_HASH && ConnectTx(u, rules.id(tx), tx, height, isCoinbase).Ok?
    ensures NULL_OUTPOINT !in ConnectTx(u, rules.id(tx), tx, height, isCoinbase).value
  {
    if IsPoolShare(tx) {
    } else if isCoinbase {
      NullStaysOut(u, rules.id(tx), tx.outputs, height, true);
    } else {
      SpendTotal(u, tx.inputs);
      NullStaysOut(SpendInputs(u, tx.inputs).value, rules.id(tx), tx.outputs, height, false);
    }
  }

  lemma {:induction false} ConnectAllKeepsNullOut(rules: Rules, txs: seq<Transaction>, u: Utxos, height: nat)
    requires NULL_OUTPOINT !in u && ConnectAll(rules, txs, u, height).Ok? && forall tx :: tx in txs ==> rules.id(tx) != ZERO_HASH
    ensures NULL_OUTPOINT !in ConnectAll(rules, txs, u, height).value
  {
    hide ConnectTx;
    if txs != [] {
      var n := |txs| - 1;
      ConnectAllKeepsNullOut(rules, txs[..n], u, height);
      ConnectKeepsNullOut(rules, txs[n], ConnectAll(rules, txs[..n], u, height).value, height, |txs| == 1);
    }
  }

  /** The outpoint that coinbases name is never unspent on an accepted chain. */
  lemma {:induction false} NullIsNeverUnspent(rules: Rules, blocks: seq<Block>, now: U32)
    requires rules.Valid() && Replay(rules, blocks, now).Ok?
    requires forall i, tx :: 0 <= i < |blocks| && tx in blocks[i].transactions ==> rules.id(tx) != ZERO_HASH
    ensures NULL_OUTPOINT !in Replay(rules, blocks, now).value
  {
    hide BlockOk, ConnectAll, RequiredWorkBits;
    if |blocks| > 1 {
      var n := |blocks| - 1;
      NullIsNeverUnspent(rules, blocks[..n], now);
      ConnectAllKeepsNullOut(rules, blocks[n].transactions, Replay(rules, blocks[..n], now).value, n);
    }
  }

  lemma WithinItself(u: Utxos)
    ensures Within(u, u)
  {
  }

  /** One more transaction that passes the template's own tests. */
  lemma ChooseOne(rules: Rules, p: PoolRules, blocks: seq<Block>, u: Utxos, start: Checking,
                  txs: seq<Transaction>, ctx: Checking, scratch: Utxos, fees: nat, tx: Transaction, raw: nat)
    requires p.Pools().Valid() && Chosen(rules, p, blocks, u, start, txs, ctx, scratch, fees) && Total(u) < TWO_64
    requires RawFee(rules, tx, scratch, |blocks|) == Ok(raw) && NetFee(rules, tx, scratch, |blocks|).Ok?
    requires CheckTx(p, tx, rules.id(tx), blocks, scratch, |blocks|, raw, ctx).Ok?
    requires ConnectTx(scratch, rules.id(tx), tx, |blocks|, false).Ok? && rules.id(tx) != ZERO_HASH
    ensures Chosen(rules, p, blocks, u, start, txs + [tx], CheckTx(p, tx, rules.id(tx), blocks, scratch, |blocks|, raw, ctx).value,
                   ConnectTx(scratch, rules.id(tx), tx, |blocks|, false).value, fees + NetFee(rules, tx, scratch, |blocks|).value)
  {
    hide RawFee, NetFee, CheckTx, ConnectTx, Total, IsCoinbase, Within;
    assert (txs + [tx])[..|txs|] == txs;
    if IsCoinbase(tx) {
      CoinbaseCannotConnect(rules, tx, scratch, |blocks|);
    }
    ConnectKeepsNullOut(rules, tx, scratch, |blocks|, false);
    WithinItself(scratch);
    Solvency.StepConserves(rules, tx, scratch, scratch, |blocks|);
  }

  lemma ShareFee(rules: Rules, tx: Transaction, u: Utxos, height: nat)
    requires NoOutputsNoMarkers(rules) && IsPoolShare(tx)
    ensures RawFee(rules, tx, u, height) == Ok(0) && NetFee(rules, tx, u, height) == Ok(0)
    ensures ConnectTx(u, rules.id(tx), tx, height, false) == Ok(u)
  {
    assert NoMarkers(rules, tx, height);
  }

  lemma CountSharesAppend(txs: seq<Transaction>, tx: Transaction)
    ensures CountShares(txs + [tx]) == CountShares(txs) + if IsPoolShare(tx) then 1 else 0
  {
    assert (txs + [tx])[..|txs|] == txs;
  }

  // ---- Distinctness ------------------------------------------------------------------------

  lemma {:induction false} PartDistinct(txs: seq<Transaction>, shares: bool)
    requires AllDistinct(txs)
    ensures AllDistinct(Part(txs, shares))
  {
    if txs != [] {
      PartDistinct(txs[..|txs| - 1], shares);
    }
  }

  lemma QueueFacts(rules: Rules, mempool: seq<Transaction>, shares: bool, order: (Transaction, Transaction) -> bool)
    requires DistinctIds(rules, mempool)
    ensures AllDistinct(Sort(Part(mempool, shares), order))
    ensures forall tx :: tx in Sort(Part(mempool, shares), order) ==> tx in mempool && IsPoolShare(tx) == shares
  {
    assert AllDistinct(mempool);
    PartDistinct(mempool, shares);
    DistinctPermutation(Part(mempool, shares), Sort(Part(mempool, shares), order));
    SortMembers(Part(mempool, shares), order);
  }

  lemma DistinctMeansIds(rules: Rules, mempool: seq<Transaction>, txs: seq<Transaction>)
    requires DistinctIds(rules, mempool) && AllDistinct(txs) && forall tx :: tx in txs ==> tx in mempool
    ensures DistinctIds(rules, txs)
  {
    forall i, j | 0 <= i < j < |txs|
      ensures rules.id(txs[i]) != rules.id(txs[j])
    {
      assert txs[i] in mempool && txs[j] in mempool;
      var k :| 0 <= k < |mempool| && mempool[k] == txs[i];
      var l :| 0 <= l < |mempool| && mempool[l] == txs[j];
    }
  }

  // ---- The two loops -----------------------------------------------------------------------

  predicate RoomFor(rules: Rules, txs: seq<Transaction>)
  {
    |txs| + 1 < rules.maxTransactions
  }

  /** Shares taken in queue order: each one that fits the caps and passes both checks. */
  function PickShares(rules: Rules, p: PoolRules, blocks: seq<Block>, u: Utxos, start: Checking, queue: seq<Transaction>): (seq<Transaction>, Checking)
    requires p.Pools().Valid()
  {
    if queue == [] then ([], start)
    else
      var (txs, ctx) := PickShares(rules, p, blocks, u, start, queue[..|queue| - 1]);
      var tx := queue[|queue| - 1];
      var after := CheckTx(p, tx, rules.id(tx), blocks, u, |blocks|, 0, ctx);
      if RoomFor(rules, txs) && CountShares(txs) < p.Pools().maxShares && RawFee(rules, tx, u, |blocks|).Ok? && after.Ok?
      then (txs + [tx], after.value) else (txs, ctx)
  }

  /** The selection in progress. */
  datatype Pick<S> = Pick(txs: seq<Transaction>, ctx: Checking, scratch: Utxos, fees: nat, state: S)

  /** Every test of one ordinary transaction, and what it changes when all of them pass. */
  function Try<S>(rules: Rules, p: PoolRules, features: Features<S>, blocks: seq<Block>, now: Pick<S>, tx: Transaction): Result<Pick<S>>
    requires p.Pools().Valid()
  {
    if !features.standard(tx) then Err
    else
      var raw :- RawFee(rules, tx, now.scratch, |blocks|);
      var burn :- Burn(rules, tx, |blocks|);
      if raw < burn then Err
      else
        var extra :- TemplateExtra(rules, tx, |blocks|);
        if raw - burn < extra then Err
        else
          var ctx :- CheckTx(p, tx, rules.id(tx), blocks, now.scratch, |blocks|, raw, now.ctx);
          var state :- features.attempt(now.state, tx, now.scratch);
          var scratch :- ConnectTx(now.scratch, rules.id(tx), tx, |blocks|, false);
          Ok(Pick(now.txs + [tx], ctx, scratch, now.fees + (raw - burn), state))
  }

  /** Ordinary transactions taken in queue order on top of what is already picked. */
  function PickOrdinary<S>(rules: Rules, p: PoolRules, features: Features<S>, blocks: seq<Block>, first: Pick<S>, queue: seq<Transaction>): Pick<S>
    requires p.Pools().Valid()
  {
    if queue == [] then first
    else
      var now := PickOrdinary(rules, p, features, blocks, first, queue[..|queue| - 1]);
      var tried := Try(rules, p, features, blocks, now, queue[|queue| - 1]);
      if RoomFor(rules, now.txs) && tried.Ok? then tried.value else now
  }

  /** The part of the queue that is looked at. */
  function Scanned(sorted: seq<Transaction>, limit: nat): (r: seq<Transaction>)
    ensures r <= sorted && |r| == if limit < |sorted| then limit else |sorted|
  {
    if |sorted| <= limit then sorted else sorted[..limit]
  }

  // A share refused once stays refused when another one joins.
  lemma ShareStaysOut(rules: Rules, p: PoolRules, blocks: seq<Block>, u: Utxos, ctx: Checking, added: Transaction, tx: Transaction)
    requires p.Pools().Valid() && IsPoolShare(tx) && IsPoolShare(added)
    requires CheckTx(p, tx, rules.id(tx), blocks, u, |blocks|, 0, ctx).Err?
    requires CheckTx(p, added, rules.id(added), blocks, u, |blocks|, 0, ctx).Ok?
    ensures CheckTx(p, tx, rules.id(tx), blocks, u, |blocks|, 0, CheckTx(p, added, rules.id(added), blocks, u, |blocks|, 0, ctx).value).Err?
  {
    hide ParentOk, IsPoolShare, PoolWindow.Fits, AddShare, ParseShare;
    ShareHasNoActions(p.Pools(), tx);
    ShareHasNoActions(p.Pools(), added);
    if ParseShare(p.shares, tx).Some? {
      var s, t := ParseShare(p.shares, tx).value, ParseShare(p.shares, added).value;
      if s.pool in ctx.registry && !PoolWindow.Fits(ctx.window, s, ctx.registry[s.pool].capacity) {
        RefusedStaysRefused(ctx.window, t, s, ctx.registry[t.pool].capacity, ctx.registry[s.pool].capacity);
      }
    }
  }

  /** With room in the block and under the share cap, no share that was passed over could still be added. */
  lemma {:induction false} ChosenSharesAreMaximal(rules: Rules, p: PoolRules, blocks: seq<Block>, u: Utxos, start: Checking, queue: seq<Transaction>, i: nat)
    requires p.Pools().Valid() && i < |queue| && forall tx :: tx in queue ==> IsPoolShare(tx)
    ensures var (txs, ctx) := PickShares(rules, p, blocks, u, start, queue);
            || !RoomFor(rules, txs) || CountShares(txs) >= p.Pools().maxShares || queue[i] in txs
            || RawFee(rules, queue[i], u, |blocks|).Err? || CheckTx(p, queue[i], rules.id(queue[i]), blocks, u, |blocks|, 0, ctx).Err?
  {
    hide CheckTx, RawFee, IsPoolShare;
    var n := |queue| - 1;
    var (txs, ctx) := PickShares(rules, p, blocks, u, start, queue[..n]);
    assert (txs + [queue[n]])[..|txs|] == txs;
    if i < n {
      ChosenSharesAreMaximal(rules, p, blocks, u, start, queue[..n], i);
      if CheckTx(p, queue[n], rules.id(queue[n]), blocks, u, |blocks|, 0, ctx).Ok? && CheckTx(p, queue[i], rules.id(queue[i]), blocks, u, |blocks|, 0, ctx).Err? {
        ShareStaysOut(rules, p, blocks, u, ctx, queue[n], queue[i]);
      }
    }
  }

  /** What the block validator computes as a miner's fee is enough for the template. */
  lemma ValidatedIsTried<S>(rules: Rules, p: PoolRules, features: Features<S>, blocks: seq<Block>, now: Pick<S>, tx: Transaction)
    requires p.Pools().Valid() && features.standard(tx) && NetFee(rules, tx, now.scratch, |blocks|).Ok?
    requires CheckTx(p, tx, rules.id(tx), blocks, now.scratch, |blocks|, RawFee(rules, tx, now.scratch, |blocks|).value, now.ctx).Ok?
    requires features.attempt(now.state, tx, now.scratch).Ok? && ConnectTx(now.scratch, rules.id(tx), tx, |blocks|, false).Ok?
    ensures Try(rules, p, features, blocks, now, tx).Ok?
  {
    hide RawFee, Burn, CheckTx, ConnectTx;
  }

  lemma {:induction false} PickedStays<S>(rules: Rules, p: PoolRules, features: Features<S>, blocks: seq<Block>, first: Pick<S>, queue: seq<Transaction>, n: nat)
    requires p.Pools().Valid() && n <= |queue|
    ensures PickOrdinary(rules, p, features, blocks, first, queue[..n]).txs <= PickOrdinary(rules, p, features, blocks, first, queue).txs
    decreases |queue| - n
  {
    hide Try, RoomFor;
    if n < |queue| {
      assert queue[..n + 1][..n] == queue[..n];
      var now := PickOrdinary(rules, p, features, blocks, first, queue[..n]);
      if Try(rules, p, features, blocks, now, queue[n]).Ok? {
        TriedAppends(rules, p, features, blocks, now, queue[n]);
      }
      PickedStays(rules, p, features, blocks, first, queue, n + 1);
    } else {
      assert queue[..n] == queue;
    }
  }

  lemma TriedAppends<S>(rules: Rules, p: PoolRules, features: Features<S>, blocks: seq<Block>, now: Pick<S>, tx: Transaction)
    requires p.Pools().Valid() && Try(rules, p, features, blocks, now, tx).Ok?
    ensures Try(rules, p, features, blocks, now, tx).value.txs == now.txs + [tx]
  {
    hide RawFee, Burn, CheckTx, ConnectTx;
  }

  /** Nothing acceptable is skipped: a candidate that all validators accept at its turn, with room in the block, is in the selection. */
  lemma AcceptableIsChosen<S>(rules: Rules, p: PoolRules, features: Features<S>, blocks: seq<Block>, first: Pick<S>, queue: seq<Transaction>, i: nat)
    requires p.Pools().Valid() && i < |queue|
    requires var now, tx := PickOrdinary(rules, p, features, blocks, first, queue[..i]), queue[i];
             && |now.txs| + 1 < rules.maxTransactions && features.standard(tx) && NetFee(rules, tx, now.scratch, |blocks|).Ok?
             && CheckTx(p, tx, rules.id(tx), blocks, now.scratch, |blocks|, RawFee(rules, tx, now.scratch, |blocks|).value, now.ctx).Ok?
             && features.attempt(now.state, tx, now.scratch).Ok? && ConnectTx(now.scratch, rules.id(tx), tx, |blocks|, false).Ok?
    ensures queue[i] in PickOrdinary(rules, p, features, blocks, first, queue).txs
  {
    hide RawFee, NetFee, CheckTx, ConnectTx, Try;
    var now := PickOrdinary(rules, p, features, blocks, first, queue[..i]);
    ValidatedIsTried(rules, p, features, blocks, now, queue[i]);
    TriedAppends(rules, p, features, blocks, now, queue[i]);
    assert queue[..i + 1][..i] == queue[..i];
    var next := PickOrdinary(rules, p, features, blocks, first, queue[..i + 1]);
    assert next.txs[|now.txs|] == queue[i];
    PickedStays(rules, p, features, blocks, first, queue, i + 1);
  }

  lemma {:induction false} SharesStuck(rules: Rules, p: PoolRules, blocks: seq<Block>, u: Utxos, start: Checking, queue: seq<Transaction>, n: nat)
    requires p.Pools().Valid() && n <= |queue| && !RoomFor(rules, PickShares(rules, p, blocks, u, start, queue[..n]).0)
    ensures PickShares(rules, p, blocks, u, start, queue) == PickShares(rules, p, blocks, u, start, queue[..n])
    decreases |queue| - n
  {
    hide CheckTx, RawFee, CountShares;
    if n < |queue| {
      assert queue[..n + 1][..n] == queue[..n];
      SharesStuck(rules, p, blocks, u, start, queue, n + 1);
    } else {
      assert queue[..n] == queue;
    }
  }

  lemma {:induction false} OrdinaryStuck<S>(rules: Rules, p: PoolRules, features: Features<S>, blocks: seq<Block>, first: Pick<S>, queue: seq<Transaction>, n: nat)
    requires p.Pools().Valid() && n <= |queue| && !RoomFor(rules, PickOrdinary(rules, p, features, blocks, first, queue[..n]).txs)
    ensures PickOrdinary(rules, p, features, blocks, first, queue) == PickOrdinary(rules, p, features, blocks, first, queue[..n])
    decreases |queue| - n
  {
    hide Try;
    if n < |queue| {
      assert queue[..n + 1][..n] == queue[..n];
      OrdinaryStuck(rules, p, features, blocks, first, queue, n + 1);
    } else {
      assert queue[..n] == queue;
    }
  }

  ghost predicate Fits(rules: Rules, p: PoolRules, txs: seq<Transaction>)
  {
    (txs == [] || |txs| + 1 <= rules.maxTransactions) && CountShares(txs) <= p.Pools().maxShares
  }

  /** Shares first, never more than one block may hold. */
  method ChooseShares(rules: Rules, p: PoolRules, blocks: seq<Block>, u: Utxos, start: Checking, queue: seq<Transaction>)
    returns (txs: seq<Transaction>, ctx: Checking)
    requires p.Pools().Valid() && NoOutputsNoMarkers(rules) && Total(u) < TWO_64 && NULL_OUTPOINT !in u
    requires AllDistinct(queue) && forall tx :: tx in queue ==> IsPoolShare(tx) && rules.id(tx) != ZERO_HASH
    ensures Chosen(rules, p, blocks, u, start, txs, ctx, u, 0) && Fits(rules, p, txs)
    ensures AllDistinct(txs) && forall tx :: tx in txs ==> tx in queue
    ensures (txs, ctx) == PickShares(rules, p, blocks, u, start, queue)
  {
    hide Chosen, RawFee, CheckTx, Total, NoOutputsNoMarkers, IsPoolShare, CountShares, Fits;
    txs, ctx := [], start;
    var selected := 0;
    NothingFits(rules, p);
    NothingChosen(rules, p, blocks, u, start);
    for i := 0 to |queue|
      invariant Chosen(rules, p, blocks, u, start, txs, ctx, u, 0) && Fits(rules, p, txs) && selected == CountShares(txs)
      invariant AllDistinct(txs) && forall tx :: tx in txs ==> tx in queue[..i]
      invariant (txs, ctx) == PickShares(rules, p, blocks, u, start, queue[..i])
    {
      if !RoomFor(rules, txs) {
        SharesStuck(rules, p, blocks, u, start, queue, i);
        return;
      }
      var tx := queue[i];
      assert tx in queue;
      assert queue[..i + 1] == queue[..i] + [tx] && queue[..i + 1][..i] == queue[..i];
      if selected < p.Pools().maxShares {
        var fee := ValidateTxContextual(rules, tx, u, |blocks|);
        var after := CheckTx(p, tx, rules.id(tx), blocks, u, |blocks|, 0, ctx);
        if fee.Ok? && after.Ok? {
          ShareJoins(rules, p, blocks, u, start, txs, ctx, tx);
          NotBefore(queue, i, txs);
          txs, ctx, selected := txs + [tx], after.value, selected + 1;
        }
      }
    }
    assert queue[..|queue|] == queue;
  }

  lemma NothingFits(rules: Rules, p: PoolRules)
    ensures Fits(rules, p, []) && CountShares([]) == 0
  {
  }

  // A share that passes both checks joins the selection; it costs nothing and connects nothing.
  lemma ShareJoins(rules: Rules, p: PoolRules, blocks: seq<Block>, u: Utxos, start: Checking, txs: seq<Transaction>, ctx: Checking, tx: Transaction)
    requires p.Pools().Valid() && NoOutputsNoMarkers(rules) && Total(u) < TWO_64 && rules.id(tx) != ZERO_HASH
    requires Chosen(rules, p, blocks, u, start, txs, ctx, u, 0) && Fits(rules, p, txs) && RoomFor(rules, txs)
    requires IsPoolShare(tx) && CountShares(txs) < p.Pools().maxShares && CheckTx(p, tx, rules.id(tx), blocks, u, |blocks|, 0, ctx).Ok?
    ensures Chosen(rules, p, blocks, u, start, txs + [tx], CheckTx(p, tx, rules.id(tx), blocks, u, |blocks|, 0, ctx).value, u, 0)
    ensures Fits(rules, p, txs + [tx]) && CountShares(txs + [tx]) == CountShares(txs) + 1
  {
    hide Chosen, RawFee, NetFee, CheckTx, ConnectTx, Total, NoOutputsNoMarkers, IsPoolShare;
    ShareFee(rules, tx, u, |blocks|);
    ChooseOne(rules, p, blocks, u, start, txs, ctx, u, 0, tx, 0);
    CountSharesAppend(txs, tx);
  }

  lemma NotBefore(queue: seq<Transaction>, i: nat, txs: seq<Transaction>)
    requires AllDistinct(queue) && i < |queue| && AllDistinct(txs) && forall tx :: tx in txs ==> tx in queue[..i] || !(tx in queue)
    ensures queue[i] !in txs && AllDistinct(txs + [queue[i]])
  {
    assert queue[i] in queue;
  }

  /** Then the ordinary transactions in order, each tried against everything chosen before it. */
  method ChooseOrdinary<S>(rules: Rules, p: PoolRules, features: Features<S>, blocks: seq<Block>, u: Utxos, start: Checking,
                           first: Pick<S>, queue: seq<Transaction>)
    returns (picked: Pick<S>)
    requires p.Pools().Valid() && Total(u) < U64_MAX
    requires Chosen(rules, p, blocks, u, start, first.txs, first.ctx, first.scratch, first.fees) && Fits(rules, p, first.txs) && AllDistinct(first.txs)
    requires forall tx :: tx in first.txs ==> IsPoolShare(tx)
    requires AllDistinct(queue) && forall tx :: tx in queue ==> !IsPoolShare(tx) && rules.id(tx) != ZERO_HASH
    ensures picked == PickOrdinary(rules, p, features, blocks, first, queue)
    ensures Chosen(rules, p, blocks, u, start, picked.txs, picked.ctx, picked.scratch, picked.fees) && Fits(rules, p, picked.txs)
    ensures AllDistinct(picked.txs) && forall tx :: tx in picked.txs ==> tx in first.txs || tx in queue
  {
    hide Chosen, Total, IsPoolShare, Try, Fits, CountShares;
    picked := first;
    for i := 0 to |queue|
      invariant picked == PickOrdinary(rules, p, features, blocks, first, queue[..i])
      invariant Chosen(rules, p, blocks, u, start, picked.txs, picked.ctx, picked.scratch, picked.fees) && Fits(rules, p, picked.txs)
      invariant AllDistinct(picked.txs) && forall tx :: tx in picked.txs ==> tx in first.txs || tx in queue[..i]
    {
      if !RoomFor(rules, picked.txs) {
        OrdinaryStuck(rules, p, features, blocks, first, queue, i);
        return;
      }
      var tx := queue[i];
      assert tx in queue;
      assert queue[..i + 1] == queue[..i] + [tx] && queue[..i + 1][..i] == queue[..i];
      var choice := TryOne(rules, p, features, blocks, picked, tx);
      if choice.Ok? {
        TriedJoins(rules, p, features, blocks, u, start, picked, tx);
        NotBefore(queue, i, picked.txs);
        picked := choice.value;
      }
    }
    assert queue[..|queue|] == queue;
  }

  // A transaction that passes every test joins the selection, and both validators' loops pass it too.
  lemma TriedJoins<S>(rules: Rules, p: PoolRules, features: Features<S>, blocks: seq<Block>, u: Utxos, start: Checking, now: Pick<S>, tx: Transaction)
    requires p.Pools().Valid() && Total(u) < U64_MAX && rules.id(tx) != ZERO_HASH && !IsPoolShare(tx)
    requires Chosen(rules, p, blocks, u, start, now.txs, now.ctx, now.scratch, now.fees) && Fits(rules, p, now.txs) && RoomFor(rules, now.txs)
    requires Try(rules, p, features, blocks, now, tx).Ok?
    ensures var then' := Try(rules, p, features, blocks, now, tx).value;
            && Chosen(rules, p, blocks, u, start, then'.txs, then'.ctx, then'.scratch, then'.fees)
            && Fits(rules, p, then'.txs) && then'.txs == now.txs + [tx]
  {
    hide Chosen, RawFee, CheckTx, ConnectTx, Total, Burn, ExtraFee, TemplateExtra, IsPoolShare, NetFee;
    var raw := RawFee(rules, tx, now.scratch, |blocks|).value;
    ChosenBounds(rules, p, blocks, u, start, now.txs, now.ctx, now.scratch, now.fees);
    TriedIsEnough(rules, tx, now.scratch, |blocks|, raw, raw - Burn(rules, tx, |blocks|).value);
    ChooseOne(rules, p, blocks, u, start, now.txs, now.ctx, now.scratch, now.fees, tx, raw);
    CountSharesAppend(now.txs, tx);
  }

  lemma ChosenBounds(rules: Rules, p: PoolRules, blocks: seq<Block>, u: Utxos, start: Checking,
                     txs: seq<Transaction>, ctx: Checking, scratch: Utxos, fees: nat)
    requires p.Pools().Valid() && Chosen(rules, p, blocks, u, start, txs, ctx, scratch, fees)
    ensures Total(scratch) + fees <= Total(u) && NULL_OUTPOINT !in scratch
  {
  }

  /** What the trials establish about a transaction's fee. */
  ghost predicate FeeTried(rules: Rules, tx: Transaction, u: Utxos, height: nat, raw: nat, fee: nat)
  {
    && RawFee(rules, tx, u, height) == Ok(raw) && Burn(rules, tx, height).Ok? && raw - Burn(rules, tx, height).value == fee
    && TemplateExtra(rules, tx, height).Ok? && fee >= TemplateExtra(rules, tx, height).value
  }

  // The fee of a transaction that connects is covered by coins, so it is far from the largest word.
  lemma TriedIsEnough(rules: Rules, tx: Transaction, u: Utxos, height: nat, raw: nat, fee: nat)
    requires FeeTried(rules, tx, u, height, raw, fee) && Total(u) < U64_MAX && ConnectTx(u, rules.id(tx), tx, height, false).Ok?
    ensures NetFee(rules, tx, u, height) == Ok(fee)
  {
    hide Burn, ExtraFee, TemplateExtra, Total, Stateless, InputsOk, ClaimOk;
    if !IsPoolShare(tx) && !IsCoinbase(tx) {
      SpendTotal(u, tx.inputs);
      Solvency.FeeIsCovered(rules, tx, u, height);
    }
    TemplateFeeIsEnough(rules, tx, height, fee);
  }

  /** All the trials of one ordinary transaction; nothing is kept unless all of them pass. */
  method TryOne<S>(rules: Rules, p: PoolRules, features: Features<S>, blocks: seq<Block>, now: Pick<S>, tx: Transaction) returns (r: Result<Pick<S>>)
    requires p.Pools().Valid()
    ensures r == Try(rules, p, features, blocks, now, tx)
  {
    hide RawFee, CheckTx, ConnectTx, Burn, TemplateExtra;
    if !features.standard(tx) {
      return Err;
    }
    var raw :- ValidateTxContextual(rules, tx, now.scratch, |blocks|);
    var burn :- Burn(rules, tx, |blocks|);
    if raw < burn {
      return Err;
    }
    var extra :- TemplateExtra(rules, tx, |blocks|);
    if raw - burn < extra {
      return Err;
    }
    var ctx :- CheckTx(p, tx, rules.id(tx), blocks, now.scratch, |blocks|, raw, now.ctx);
    var state :- features.attempt(now.state, tx, now.scratch);
    var scratch :- ConnectTxUtxos(now.scratch, rules.id(tx), tx, |blocks|, false);
    return Ok(Pick(now.txs + [tx], ctx, scratch, now.fees + (raw - burn), state));
  }

  /** What the validators ask of the transactions of a block at the next height, the coinbase aside. */
  ghost predicate PassesValidators(rules: Rules, p: PoolRules, blocks: seq<Block>, u: Utxos, txs: seq<Transaction>, fees: nat)
    requires p.Pools().Valid()
  {
    && Tallied(rules, txs, u, |blocks|).Ok? && Tallied(rules, txs, u, |blocks|).value.fees == fees <= Total(u)
    && FromConfirmed(rules, p, blocks, |blocks|).Ok?
    && CheckTxs(rules, p, txs, blocks, u, |blocks|, FromConfirmed(rules, p, blocks, |blocks|).value).Ok?
    && Fits(rules, p, txs) && DistinctIds(rules, txs)
    && (forall i :: 0 <= i < |txs| ==> !IsCoinbase(txs[i]))
  }

  lemma ChosenPasses(rules: Rules, p: PoolRules, blocks: seq<Block>, u: Utxos, txs: seq<Transaction>, ctx: Checking, scratch: Utxos, fees: nat)
    requires p.Pools().Valid() && FromConfirmed(rules, p, blocks, |blocks|).Ok?
    requires Chosen(rules, p, blocks, u, FromConfirmed(rules, p, blocks, |blocks|).value, txs, ctx, scratch, fees)
    requires Fits(rules, p, txs) && DistinctIds(rules, txs)
    ensures PassesValidators(rules, p, blocks, u, txs, fees)
  {
    hide Tallied, CheckTxs, FromConfirmed, Total;
  }

  /** candidate_mempool_transactions: for any pending list the selection passes the validators it will meet. */
  method CandidateTransactions<S>(rules: Rules, p: PoolRules, features: Features<S>, policy: Policy, scanLimit: nat,
                                  blocks: seq<Block>, u: Utxos, mempool: seq<Transaction>)
    returns (r: Result<(seq<Transaction>, nat)>)
    requires p.Pools().Valid() && NoOutputsNoMarkers(rules) && Total(u) < U64_MAX && NULL_OUTPOINT !in u
    requires DistinctIds(rules, mempool) && forall tx :: tx in mempool ==> rules.id(tx) != ZERO_HASH
    ensures FromConfirmed(rules, p, blocks, |blocks|).Err? ==> r.Err?
    ensures FromConfirmed(rules, p, blocks, |blocks|).Ok? ==>
              var start := FromConfirmed(rules, p, blocks, |blocks|).value;
              var (shares, ctx) := PickShares(rules, p, blocks, u, start, Sort(Part(mempool, true), policy.shareOrder));
              var queue := Scanned(Sort(Part(mempool, false), policy.ordinaryOrder), scanLimit);
              if |shares| + 1 >= rules.maxTransactions || queue == [] then r == Ok((shares, 0))
              else if features.init(blocks).Err? then r.Err?
              else
                var picked := PickOrdinary(rules, p, features, blocks, Pick(shares, ctx, u, 0, features.init(blocks).value), queue);
                r == Ok((picked.txs, picked.fees))
    ensures r.Ok? ==> PassesValidators(rules, p, blocks, u, r.value.0, r.value.1)
    ensures r.Ok? ==> forall tx :: tx in r.value.0 ==> tx in mempool
  {
    hide Chosen, Total, NoOutputsNoMarkers, FromConfirmed, PassesValidators, Fits, PickShares, PickOrdinary, Sort, Part, Scanned, IsPoolShare, DistinctIds;
    var start :- FromConfirmed(rules, p, blocks, |blocks|);
    var shareQueue := Sort(Part(mempool, true), policy.shareOrder);
    var sorted := Sort(Part(mempool, false), policy.ordinaryOrder);
    QueueFacts(rules, mempool, true, policy.shareOrder);
    QueueFacts(rules, mempool, false, policy.ordinaryOrder);
    var queue := Scanned(sorted, scanLimit);
    assert forall tx :: tx in queue ==> tx in sorted;
    var shares, ctx := ChooseShares(rules, p, blocks, u, start, shareQueue);
    if !RoomFor(rules, shares) || queue == [] {
      DistinctMeansIds(rules, mempool, shares);
      ChosenPasses(rules, p, blocks, u, shares, ctx, u, 0);
      return Ok((shares, 0));
    }
    var state :- features.init(blocks);
    var picked := ChooseOrdinary(rules, p, features, blocks, u, start, Pick(shares, ctx, u, 0, state), queue);
    DistinctMeansIds(rules, mempool, picked.txs);
    ChosenPasses(rules, p, blocks, u, picked.txs, picked.ctx, picked.scratch, picked.fees);
    return Ok((picked.txs, picked.fees));
  }

  // ---- The solo block ----------------------------------------------------------------------

  /** create_coinbase. */
  function CreateCoinbase(script: Script, signature: Script, reward: U64): Transaction
  {
    Transaction(1, [TxIn(NULL_OUTPOINT, signature, 0xffff_ffff)], [TxOut(reward, script)], 0)
  }

  /** block_from_candidate_parts, with the nonce that mining found. */
  function BlockFrom(rules: Rules, blocks: seq<Block>, coinbase: Transaction, txs: seq<Transaction>, bits: U32, time: U32, nonce: U32): Block
    requires blocks != []
  {
    var all := [coinbase] + txs;
    Block(Header(rules.version(|blocks|), BlockHash(rules.h, blocks[|blocks| - 1]), Root(rules.h, Ids(rules, all)), time, bits, nonce), all)
  }

  lemma CoinbaseShape(script: Script, signature: Script, reward: U64, rules: Rules)
    ensures var tx := CreateCoinbase(script, signature, reward);
            && IsCoinbase(tx) && !IsPoolShare(tx) && OutValue(tx.outputs) == reward
            && (Stateless(rules, tx) <==> 0 < reward && reward <= rules.maxMoney && reward <= MAX_MONEY_ATOMS)
  {
    var tx := CreateCoinbase(script, signature, reward);
    assert tx.outputs[..0] == [];
  }

  lemma CoinbaseIdIsNew(rules: Rules, coinbase: Transaction, txs: seq<Transaction>, all: set<Transaction>)
    requires IsCoinbase(coinbase) && DistinctIds(rules, txs) && forall i :: 0 <= i < |txs| ==> !IsCoinbase(txs[i])
    requires IdsInjective(rules, all) && coinbase in all && forall tx :: tx in txs ==> tx in all
    ensures NoDuplicates(Ids(rules, [coinbase] + txs))
  {
    var ids := Ids(rules, [coinbase] + txs);
    forall i, j | 0 <= i < j < |ids|
      ensures ids[i] != ids[j]
    {
      assert ids[j] == rules.id(txs[j - 1]) && txs[j - 1] in txs;
      if i > 0 {
        assert ids[i] == rules.id(txs[i - 1]);
      }
    }
  }

  /**
    A solo template claims exactly subsidy plus net fees, and once mined it passes validate_block exactly when
    that reward is positive: a coinbase output of zero atoms is refused.
   */
  lemma SoloBlockPasses(rules: Rules, p: PoolRules, blocks: seq<Block>, u: Utxos, txs: seq<Transaction>, fees: nat,
                        script: Script, signature: Script, bits: U32, time: U32, nonce: U32, now: U32, all: set<Transaction>)
    requires rules.Valid() && p.Pools().Valid() && blocks != [] && rules.maxTransactions >= 1
    requires PassesValidators(rules, p, blocks, u, txs, fees)
    requires Subsidy(rules, |blocks|) + Total(u) <= rules.maxMoney <= MAX_MONEY_ATOMS
    requires Subsidy(rules, |blocks|) + fees < TWO_64
    requires var coinbase := CreateCoinbase(script, signature, Subsidy(rules, |blocks|) + fees);
             IdsInjective(rules, all) && coinbase in all && forall tx :: tx in txs ==> tx in all
    requires time <= now
    requires ProofOfWork(rules, BlockFrom(rules, blocks, CreateCoinbase(script, signature, Subsidy(rules, |blocks|) + fees), txs, bits, time, nonce))
    ensures var b := BlockFrom(rules, blocks, CreateCoinbase(script, signature, Subsidy(rules, |blocks|) + fees), txs, bits, time, nonce);
            && OutValue(b.transactions[0].outputs) == Subsidy(rules, |blocks|) + fees
            && (BlockOk(rules, b, u, BlockHash(rules.h, blocks[|blocks| - 1]), |blocks|, bits, now) <==> Subsidy(rules, |blocks|) + fees > 0)
  {
    hide Tallied, CheckTxs, FromConfirmed, Total, Subsidy, ProofOfWork, BlockHash, Stateless, OutValue, IsCoinbase, IdsInjective, DistinctIds;
    var reward := Subsidy(rules, |blocks|) + fees;
    var coinbase := CreateCoinbase(script, signature, reward);
    CoinbaseShape(script, signature, reward, rules);
    CoinbaseIdIsNew(rules, coinbase, txs, all);
    var b := BlockFrom(rules, blocks, coinbase, txs, bits, time, nonce);
    assert b.transactions[1..] == txs;
  }

  // ---- The pool block ----------------------------------------------------------------------

  /**
    A pool template pays out subsidy plus net fees by the payout plan. The pool validator wants subsidy plus
    raw fees paid out, so it accepts the mined template exactly when the selection burns nothing.
   */
  lemma PoolBlockPasses(rules: Rules, p: PoolRules, blocks: seq<Block>, u: Utxos, txs: seq<Transaction>, fees: nat, b: Block)
    requires rules.Valid() && p.Pools().Valid() && p.Pools().Active(|blocks|) && PassesValidators(rules, p, blocks, u, txs, fees)
    requires b.transactions != [] && b.transactions[1..] == txs && p.marker(b).Some?
    requires PayoutOk(rules, p, blocks, |blocks|, b, fees)
    ensures PoolsBlockOk(rules, p, blocks, u, |blocks|, b) <==> Solvency.Burned(rules, txs, |blocks|) == 0
  {
    hide Tallied, CheckTxs, Total, Subsidy, OutValue, DistinctIds, PayoutOk, CountShares, Quiet, Solvency.Burned;
    var ctx := FromConfirmed(rules, p, blocks, |blocks|).value;
    var raw := CheckTxs(rules, p, txs, blocks, u, |blocks|, ctx).value.fees;
    RawFeesAreNetPlusBurned(rules, p, txs, blocks, u, |blocks|, ctx);
    PoolBlockClaimsEverything(rules, p, blocks, |blocks|, b, fees);
    if PayoutOk(rules, p, blocks, |blocks|, b, raw) {
      PoolBlockClaimsEverything(rules, p, blocks, |blocks|, b, raw);
    }
  }
}
