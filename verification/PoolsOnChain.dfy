/**
  Pools on accepted chains: what validate_pools_block (src/pools.rs) together with block validation and
  connection (src/lib.rs) guarantees about registry and shares over the whole history.
 */
module PoolsOnChain {
  import opened Addresses
  import opened Consensus
  import opened Infusion
  import opened Merkle
  import opened Outcome
  import opened PayoutPlan
  import opened PoolRegistry
  import opened PoolRewards
  import opened PoolWindow
  import opened UtxoSet
  import opened Wire
  import Solvency

  // ---- validate_pools_block ----------------------------------------------------------------

  datatype Checking = Checking(registry: Registry, window: Window)

  /** PoolValidationContext::validate_and_apply. */
  function CheckTx(p: PoolRules, tx: Transaction, id: Hash, prior: seq<Block>, u: Utxos, height: nat, fee: nat, ctx: Checking): Result<Checking>
    requires p.Pools().Valid()
  {
    if Actions(p.Pools(), tx) == [] && !IsPoolShare(tx) then Ok(ctx)
    else if !p.Pools().enabled then Err
    else if IsPoolShare(tx) then
      var window :- ValidateShare(p.shares, tx, prior, height, ctx.registry, ctx.window);
      Ok(ctx.(window := window))
    else
      var registry :- ValidateAction(p.Pools(), tx, id, fee, height, ctx.registry, u);
      Ok(ctx.(registry := registry))
  }

  datatype PoolTally = PoolTally(ctx: Checking, utxos: Utxos, fees: nat)

  function CheckTxs(rules: Rules, p: PoolRules, txs: seq<Transaction>, prior: seq<Block>, u: Utxos, height: nat, ctx: Checking): Result<PoolTally>
    requires p.Pools().Valid()
  {
    if txs == [] then Ok(PoolTally(ctx, u, 0))
    else
      var before :- CheckTxs(rules, p, txs[..|txs| - 1], prior, u, height, ctx);
      var tx := txs[|txs| - 1];
      var fee :- RawFee(rules, tx, before.utxos, height);
      var after :- CheckTx(p, tx, rules.id(tx), prior, before.utxos, height, fee, before.ctx);
      var connected :- ConnectTx(before.utxos, rules.id(tx), tx, height, false);
      Ok(PoolTally(after, connected, before.fees + fee))
  }

  function CountShares(txs: seq<Transaction>): nat
  {
    if txs == [] then 0 else CountShares(txs[..|txs| - 1]) + if IsPoolShare(txs[|txs| - 1]) then 1 else 0
  }

  predicate Quiet(p: PoolRules, txs: seq<Transaction>)
  {
    forall i :: 0 <= i < |txs| ==> !IsPoolShare(txs[i]) && Actions(p.Pools(), txs[i]) == []
  }

  /** PoolValidationContext::from_confirmed. */
  function FromConfirmed(rules: Rules, p: PoolRules, prior: seq<Block>, height: nat): Result<Checking>
    requires p.Pools().Valid()
  {
    var registry :- FromBlocks(p.Pools(), rules.id, prior);
    Ok(Checking(registry, WindowFromBlocks(p.shares, prior, height)))
  }

  /** A pool block's coinbase must be exactly the payout plan. */
  predicate PayoutOk(rules: Rules, p: PoolRules, prior: seq<Block>, height: nat, b: Block, fees: nat)
    requires rules.Valid() && p.Pools().Valid() && b.transactions != []
  {
    p.marker(b).Some? ==>
      var total := Subsidy(rules, height) + fees;
      var plan := PlanOf(p, rules.id, prior, p.marker(b).value, total);
      plan.Ok? && CoinbaseOutputs(p.ScriptOf, plan.value, total) == Ok(b.transactions[0].outputs)
  }

  predicate PoolsBlockOk(rules: Rules, p: PoolRules, prior: seq<Block>, u: Utxos, height: nat, b: Block)
    requires rules.Valid() && p.Pools().Valid() && b.transactions != []
  {
    var txs := b.transactions[1..];
    || (p.marker(b).None? && Quiet(p, txs))
    || (&& p.Pools().Active(height) && CountShares(txs) <= p.Pools().maxShares
        && FromConfirmed(rules, p, prior, height).Ok?
        && var tally := CheckTxs(rules, p, txs, prior, u, height, FromConfirmed(rules, p, prior, height).value);
        tally.Ok? && PayoutOk(rules, p, prior, height, b, tally.value.fees))
  }

  lemma {:induction false} CheckTxsErr(rules: Rules, p: PoolRules, txs: seq<Transaction>, prior: seq<Block>, u: Utxos, height: nat, ctx: Checking, n: nat)
    requires p.Pools().Valid() && n <= |txs| && CheckTxs(rules, p, txs[..n], prior, u, height, ctx).Err?
    ensures CheckTxs(rules, p, txs, prior, u, height, ctx).Err?
    decreases |txs| - n
  {
    hide RawFee, CheckTx, ConnectTx;
    if n < |txs| {
      assert txs[..n + 1][..n] == txs[..n];
      CheckTxsErr(rules, p, txs, prior, u, height, ctx, n + 1);
    } else {
      assert txs[..n] == txs;
    }
  }

  /** The context one block, template or batch of transactions is validated in; a refused transaction leaves no trace. */
  class PoolValidationContext {
    var registry: Registry
    const window: PoolWindowState

    function Value(): Checking
      reads this, window
    {
      Checking(registry, window.Value())
    }

    constructor (registry: Registry, window: PoolWindowState)
      ensures this.registry == registry && this.window == window
    {
      this.registry, this.window := registry, window;
    }

    method ValidateAndApply(p: PoolRules, tx: Transaction, id: Hash, prior: seq<Block>, u: Utxos, height: nat, fee: nat) returns (ok: bool)
      requires p.Pools().Valid()
      modifies this, window
      ensures ok <==> CheckTx(p, tx, id, prior, u, height, fee, old(Value())).Ok?
      ensures Value() == if ok then CheckTx(p, tx, id, prior, u, height, fee, old(Value())).value else old(Value())
    {
      hide Actions, ValidateAction, Fits, AddShare, ParentOk;
      if Actions(p.Pools(), tx) == [] && !IsPoolShare(tx) {
        return true;
      }
      if !p.Pools().enabled {
        return false;
      }
      if !IsPoolShare(tx) {
        var applied := ValidateAction(p.Pools(), tx, id, fee, height, registry, u);
        if applied.Ok? {
          registry := applied.value;
        }
        return applied.Ok?;
      }
      if !p.Pools().Active(height) || ParseShare(p.shares, tx).None? {
        return false;
      }
      var share := ParseShare(p.shares, tx).value;
      if !IsAddress(p.Pools().addresses, share.miner) {
        return false;
      }
      if share.pool !in registry || !ParentOk(p.shares, share, prior, height, registry[share.pool]) || !p.shares.genuine(share) {
        return false;
      }
      ok := window.ValidateAndAddShare(share, registry[share.pool].capacity);
    }
  }

  /** The transaction loop of validate_pools_block; shares are checked but connect nothing. */
  method CheckTransactions(rules: Rules, p: PoolRules, txs: seq<Transaction>, prior: seq<Block>, u: Utxos, height: nat, ctx: PoolValidationContext)
    returns (r: Result<(Utxos, nat)>)
    requires p.Pools().Valid()
    modifies ctx, ctx.window
    ensures match CheckTxs(rules, p, txs, prior, u, height, old(ctx.Value()))
            case Ok(tally) => r == Ok((tally.utxos, tally.fees)) && ctx.Value() == tally.ctx
            case Err => r.Err?
  {
    hide RawFee, CheckTx, ConnectTx;
    ghost var start := ctx.Value();
    var scratch, fees := u, 0;
    for i := 0 to |txs|
      invariant CheckTxs(rules, p, txs[..i], prior, u, height, start) == Ok(PoolTally(ctx.Value(), scratch, fees))
    {
      assert txs[..i + 1][..i] == txs[..i];
      if CheckTxs(rules, p, txs[..i + 1], prior, u, height, start).Err? {
        CheckTxsErr(rules, p, txs, prior, u, height, start, i + 1);
      }
      var fee :- ValidateTxContextual(rules, txs[i], scratch, height);
      var ok := ctx.ValidateAndApply(p, txs[i], rules.id(txs[i]), prior, scratch, height, fee);
      if !ok {
        return Err;
      }
      SharesConnectNothing(rules, txs[i], scratch, height);
      if !IsPoolShare(txs[i]) {
        scratch :- ConnectTxUtxos(scratch, rules.id(txs[i]), txs[i], height, false);
      }
      fees := fees + fee;
    }
    assert txs[..|txs|] == txs;
    return Ok((scratch, fees));
  }

  /** validate_pools_block. */
  method ValidatePoolsBlock(rules: Rules, p: PoolRules, prior: seq<Block>, u: Utxos, height: nat, b: Block) returns (ok: bool)
    requires rules.Valid() && p.Pools().Valid() && b.transactions != []
    ensures ok <==> PoolsBlockOk(rules, p, prior, u, height, b)
  {
    hide CheckTxs, Quiet, CountShares, FromBlocks, PayoutOk, WindowFromBlocks;
    var txs := b.transactions[1..];
    if p.marker(b).None? && Quiet(p, txs) {
      return true;
    }
    if !p.Pools().Active(height) || CountShares(txs) > p.Pools().maxShares {
      return false;
    }
    var registry := FromBlocks(p.Pools(), rules.id, prior);
    if registry.Err? {
      return false;
    }
    var window := PoolWindowState.FromBlocks(p.shares, prior, height);
    var ctx := new PoolValidationContext(registry.value, window);
    var tally := CheckTransactions(rules, p, txs, prior, u, height, ctx);
    if tally.Err? {
      return false;
    }
    ok := PayoutMatches(rules, p, prior, height, b, tally.value.1);
  }

  /** The last part of validate_pools_block: compare the coinbase with expected_pool_coinbase_outputs. */
  method PayoutMatches(rules: Rules, p: PoolRules, prior: seq<Block>, height: nat, b: Block, fees: nat) returns (ok: bool)
    requires rules.Valid() && p.Pools().Valid() && b.transactions != []
    ensures ok <==> PayoutOk(rules, p, prior, height, b, fees)
  {
    hide PlanOf, CoinbaseOutputs;
    if p.marker(b).None? {
      return true;
    }
    var total := Subsidy(rules, height) + fees;
    var plan := PoolPayoutPlan(p, rules.id, prior, p.marker(b).value, total);
    return plan.Ok? && CoinbaseOutputs(p.ScriptOf, plan.value, total) == Ok(b.transactions[0].outputs);
  }

  lemma SharesConnectNothing(rules: Rules, tx: Transaction, u: Utxos, height: nat)
    ensures IsPoolShare(tx) ==> ConnectTx(u, rules.id(tx), tx, height, false) == Ok(u)
  {
  }

  /** A pool block's coinbase claims exactly subsidy plus raw fees. */
  lemma PoolBlockClaimsEverything(rules: Rules, p: PoolRules, prior: seq<Block>, height: nat, b: Block, fees: nat)
    requires rules.Valid() && p.Pools().Valid() && b.transactions != [] && p.marker(b).Some? && PayoutOk(rules, p, prior, height, b, fees)
    ensures OutValue(b.transactions[0].outputs) == Subsidy(rules, height) + fees
  {
    hide CoinbaseOutputs, Divides, PlanOf;
    var total := Subsidy(rules, height) + fees;
    PlansDivide(p, rules.id, prior, p.marker(b).value, total);
    CoinbasePaysEverything(p.ScriptOf, PlanOf(p, rules.id, prior, p.marker(b).value, total).value, total);
  }

  // ---- Anchors -----------------------------------------------------------------------------

  /** Creation markers are neither pay-to-key scripts nor vaults, so nothing can spend them. */
  ghost predicate MarkersUnspendable(rules: Rules, p: PoolRules)
  {
    && (forall script :: ParseCreate(p.Pools(), script).Some? ==> rules.blast.vault(script).None?)
    && (forall tx: Transaction, i: nat, coin: Coin :: ParseCreate(p.Pools(), coin.out.script).Some? ==> !rules.signed(tx, i, coin))
  }

  ghost predicate IdsInjective(rules: Rules, txs: set<Transaction>)
  {
    forall a, b :: a in txs && b in txs && rules.id(a) == rules.id(b) ==> a == b
  }

  predicate IsMarker(p: PoolRules, out: TxOut)
  {
    ParseCreate(p.Pools(), out.script).Some?
  }

  /** The pool's creating transaction still has its marker output unspent. */
  predicate AnchoredBy(rules: Rules, p: PoolRules, u: Utxos, id: Hash, tx: Transaction, k: nat)
  {
    && rules.id(tx) == id && k < |tx.outputs| && IsMarker(p, tx.outputs[k])
    && Created(id, k) in u && u[Created(id, k)].out == tx.outputs[k]
  }

  ghost predicate Anchored(rules: Rules, p: PoolRules, u: Utxos, id: Hash, txs: set<Transaction>)
  {
    exists tx, k :: tx in txs && AnchoredBy(rules, p, u, id, tx, k)
  }

  ghost predicate AllAnchored(rules: Rules, p: PoolRules, u: Utxos, reg: Registry, txs: set<Transaction>)
  {
    forall id :: id in reg ==> Anchored(rules, p, u, id, txs)
  }

  lemma {:induction false} SpendKeepsOthers(u: Utxos, ins: seq<TxIn>, o: OutPoint)
    requires SpendInputs(u, ins).Ok? && o in u && forall i :: 0 <= i < |ins| ==> ins[i].previous != o
    ensures o in SpendInputs(u, ins).value && SpendInputs(u, ins).value[o] == u[o]
  {
    if ins != [] {
      SpendKeepsOthers(u, ins[..|ins| - 1], o);
    }
  }

  lemma {:induction false} OutputsAreNew(u: Utxos, id: Hash, outs: seq<TxOut>, height: nat, isCoinbase: bool, k: nat)
    requires AddOutputs(u, id, outs, height, isCoinbase).Ok? && k < |outs|
    ensures Created(id, k) !in u
    ensures Created(id, k) in AddOutputs(u, id, outs, height, isCoinbase).value
    ensures AddOutputs(u, id, outs, height, isCoinbase).value[Created(id, k)].out == outs[k]
  {
    hide Created;
    var n := |outs| - 1;
    AddTotal(u, id, outs[..n], height, isCoinbase);
    if k < n {
      OutputsAreNew(u, id, outs[..n], height, isCoinbase, k);
    }
  }

  // What a valid transaction spends is never a creation marker.
  lemma MarkersAreNotSpent(rules: Rules, p: PoolRules, tx: Transaction, u: Utxos, height: nat, i: nat)
    requires MarkersUnspendable(rules, p) && RawFee(rules, tx, u, height).Ok? && !IsPoolShare(tx) && !IsCoinbase(tx)
    requires i < |tx.inputs| && tx.inputs[i].previous in u
    ensures !IsMarker(p, u[tx.inputs[i].previous].out)
  {
    hide ParseCreate, Stateless, InValue, OutValue;
    if IsClaim(rules, tx) {
      assert i == 0;
    } else {
      assert InputOk(rules, tx, i, u, height);
    }
  }

  // A marker output survives every valid transaction.
  lemma MarkerStays(rules: Rules, p: PoolRules, tx: Transaction, s: Utxos, c: Utxos, height: nat, o: OutPoint)
    requires MarkersUnspendable(rules, p) && RawFee(rules, tx, s, height).Ok? && !IsCoinbase(tx) && Within(s, c)
    requires ConnectTx(s, rules.id(tx), tx, height, false).Ok? && ConnectTx(c, rules.id(tx), tx, height, false).Ok?
    requires o in c && IsMarker(p, c[o].out)
    ensures o in ConnectTx(c, rules.id(tx), tx, height, false).value && ConnectTx(c, rules.id(tx), tx, height, false).value[o] == c[o]
    ensures forall k :: 0 <= k < |tx.outputs| ==> Created(rules.id(tx), k) != o
  {
    hide RawFee, IsMarker, MarkersUnspendable, Created;
    if !IsPoolShare(tx) {
      SpentInScratch(s, tx.inputs);
      forall i | 0 <= i < |tx.inputs|
        ensures tx.inputs[i].previous != o
      {
        MarkersAreNotSpent(rules, p, tx, s, height, i);
      }
      SpendKeepsOthers(c, tx.inputs, o);
      var spent := SpendInputs(c, tx.inputs).value;
      AddTotal(spent, rules.id(tx), tx.outputs, height, false);
      forall k | 0 <= k < |tx.outputs|
        ensures Created(rules.id(tx), k) != o
      {
        OutputsAreNew(spent, rules.id(tx), tx.outputs, height, false, k);
      }
    }
  }

  lemma {:induction false} SpentInScratch(u: Utxos, ins: seq<TxIn>)
    requires SpendInputs(u, ins).Ok?
    ensures forall i :: 0 <= i < |ins| ==> ins[i].previous in u
  {
    if ins != [] {
      SpentInScratch(u, ins[..|ins| - 1]);
      SpendTotal(u, ins[..|ins| - 1]);
    }
  }

  lemma AnchorStays(rules: Rules, p: PoolRules, tx: Transaction, s: Utxos, c: Utxos, height: nat, id: Hash, txs: set<Transaction>)
    requires MarkersUnspendable(rules, p) && RawFee(rules, tx, s, height).Ok? && !IsCoinbase(tx) && Within(s, c)
    requires ConnectTx(s, rules.id(tx), tx, height, false).Ok? && ConnectTx(c, rules.id(tx), tx, height, false).Ok?
    requires IdsInjective(rules, txs) && tx in txs && Anchored(rules, p, c, id, txs)
    ensures Anchored(rules, p, ConnectTx(c, rules.id(tx), tx, height, false).value, id, txs)
    ensures rules.id(tx) != id
  {
    hide RawFee, IsMarker, MarkersUnspendable, Created, ConnectTx;
    var t, k :| t in txs && AnchoredBy(rules, p, c, id, t, k);
    MarkerStays(rules, p, tx, s, c, height, Created(id, k));
    assert AnchoredBy(rules, p, ConnectTx(c, rules.id(tx), tx, height, false).value, id, t, k);
  }

  lemma CreateIsMarked(p: PoolRules, tx: Transaction) returns (k: nat)
    requires Creates(p.Pools(), tx) != []
    ensures k < |tx.outputs| && IsMarker(p, tx.outputs[k])
  {
    var parse := script => ParseCreate(p.Pools(), script);
    MarkersParsed(tx.outputs, parse, 0);
    k :| 0 <= k < |tx.outputs| && parse(tx.outputs[k].script) == Some(Creates(p.Pools(), tx)[0].marker);
  }

  lemma NewAnchor(rules: Rules, p: PoolRules, tx: Transaction, c: Utxos, height: nat, txs: set<Transaction>)
    requires ConnectTx(c, rules.id(tx), tx, height, false).Ok? && tx in txs && Creates(p.Pools(), tx) != []
    ensures Anchored(rules, p, ConnectTx(c, rules.id(tx), tx, height, false).value, rules.id(tx), txs)
  {
    hide IsMarker, Created, Creates;
    var k := CreateIsMarked(p, tx);
    var spent := SpendInputs(c, tx.inputs).value;
    OutputsAreNew(spent, rules.id(tx), tx.outputs, height, false, k);
    assert AnchoredBy(rules, p, ConnectTx(c, rules.id(tx), tx, height, false).value, rules.id(tx), tx, k);
  }

  // ---- One transaction ---------------------------------------------------------------------

  /** What is known between two transactions of a block; c is the set really connected, s the validator's. */
  ghost predicate Known(rules: Rules, p: PoolRules, ctx: Checking, log: Log, s: Utxos, c: Utxos, height: nat, txs: set<Transaction>)
    requires p.Pools().Valid()
  {
    && RegistryOk(p.Pools(), ctx.registry) && HistoryOk(p.shares, log, height, ctx.registry)
    && Summarises(ctx.window, log, Before(height, p.shares.pools.stale), Before(height, p.shares.pools.window))
    && AllAnchored(rules, p, c, ctx.registry, txs) && Within(s, c)
  }

  function Noted(p: PoolRules, log: Log, tx: Transaction, height: nat): Log
  {
    match ParseShare(p.shares, tx) case Some(share) => log + [Logged(height, share)] case None => log
  }

  lemma ShareHasNoActions(s: Pools, tx: Transaction)
    requires IsPoolShare(tx)
    ensures Actions(s, tx) == []
  {
  }

  lemma ValidatedKeys(s: Pools, tx: Transaction, id: Hash, fee: nat, height: nat, reg: Registry, u: Utxos)
    requires s.Valid() && ValidateAction(s, tx, id, fee, height, reg, u).Ok?
    ensures var after := ValidateAction(s, tx, id, fee, height, reg, u).value;
            forall i :: i in after ==> i in reg || (i == id && Creates(s, tx) != [])
  {
    hide Actions, CreatePrice, TopUpPrice, CapacityOk, ExtraOk, Normalize, PaidFor, Authorised;
    var actions := Actions(s, tx);
    if actions != [] && actions[0].Opened? {
      CreatedFirst(s, tx);
    }
  }

  // The registry half: replayed, well-formed, evolved, and anchored again.
  lemma ActionStep(rules: Rules, p: PoolRules, tx: Transaction, s: Utxos, c: Utxos, height: nat, fee: nat, reg: Registry, txs: set<Transaction>)
    requires p.Pools().Valid() && MarkersUnspendable(rules, p) && IdsInjective(rules, txs) && tx in txs
    requires RawFee(rules, tx, s, height).Ok? && !IsCoinbase(tx) && Within(s, c)
    requires ConnectTx(s, rules.id(tx), tx, height, false).Ok? && ConnectTx(c, rules.id(tx), tx, height, false).Ok?
    requires RegistryOk(p.Pools(), reg) && AllAnchored(rules, p, c, reg, txs)
    requires ValidateAction(p.Pools(), tx, rules.id(tx), fee, height, reg, s).Ok?
    ensures var after := ValidateAction(p.Pools(), tx, rules.id(tx), fee, height, reg, s).value;
            && RegistryOk(p.Pools(), after) && Evolves(reg, after)
            && AllAnchored(rules, p, ConnectTx(c, rules.id(tx), tx, height, false).value, after, txs)
            && ReplayActions(p.Pools(), reg, rules.id(tx), height, Actions(p.Pools(), tx)) == Ok(after)
  {
    hide RawFee, ConnectTx, ValidateAction, Anchored, MarkersUnspendable, IdsInjective, RegistryOk, Evolves, ReplayActions, Actions, Creates, Within;
    var id := rules.id(tx);
    var after := ValidateAction(p.Pools(), tx, id, fee, height, reg, s).value;
    var c' := ConnectTx(c, id, tx, height, false).value;
    forall i | i in reg
      ensures Anchored(rules, p, c', i, txs) && i != id
    {
      AnchorStays(rules, p, tx, s, c, height, i, txs);
    }
    ValidatedIsReplayed(p.Pools(), tx, id, fee, height, reg, s);
    ValidatedKeepsOk(p.Pools(), tx, id, fee, height, reg, s);
    ValidatedEvolves(p.Pools(), tx, id, fee, height, reg, s);
    ValidatedKeys(p.Pools(), tx, id, fee, height, reg, s);
    if Creates(p.Pools(), tx) != [] {
      NewAnchor(rules, p, tx, c, height, txs);
    }
  }

  lemma NothingValidated(s: Pools, tx: Transaction, id: Hash, fee: nat, height: nat, reg: Registry, u: Utxos)
    requires s.Valid() && Actions(s, tx) == []
    ensures ValidateAction(s, tx, id, fee, height, reg, u) == Ok(reg)
  {
  }

  lemma TxStep(rules: Rules, p: PoolRules, tx: Transaction, prior: seq<Block>, ctx: Checking, log: Log,
               s: Utxos, c: Utxos, height: nat, fee: nat, txs: set<Transaction>)
    requires p.Pools().Valid() && MarkersUnspendable(rules, p) && IdsInjective(rules, txs) && tx in txs
    requires Known(rules, p, ctx, log, s, c, height, txs) && RawFee(rules, tx, s, height).Ok? && !IsCoinbase(tx)
    requires ConnectTx(s, rules.id(tx), tx, height, false).Ok? && ConnectTx(c, rules.id(tx), tx, height, false).Ok?
    requires CheckTx(p, tx, rules.id(tx), prior, s, height, fee, ctx).Ok?
    ensures var after := CheckTx(p, tx, rules.id(tx), prior, s, height, fee, ctx).value;
            && Known(rules, p, after, Noted(p, log, tx, height), ConnectTx(s, rules.id(tx), tx, height, false).value,
                     ConnectTx(c, rules.id(tx), tx, height, false).value, height, txs)
            && Evolves(ctx.registry, after.registry)
            && ReplayActions(p.Pools(), ctx.registry, rules.id(tx), height, Actions(p.Pools(), tx)) == Ok(after.registry)
  {
    hide RawFee, ConnectTx, ValidateAction, ValidateShare, MarkersUnspendable, IdsInjective, RegistryOk, Evolves, ReplayActions, Actions,
         AllAnchored, HistoryOk, Summarises, Within, ParseShare;
    ConnectWithin(s, c, rules.id(tx), tx, height);
    if IsPoolShare(tx) {
      ShareHasNoActions(p.Pools(), tx);
      NothingValidated(p.Pools(), tx, rules.id(tx), fee, height, ctx.registry, s);
      ActionStep(rules, p, tx, s, c, height, fee, ctx.registry, txs);
      ShareKeepsHistory(p.shares, log, ctx.window, tx, prior, height, ctx.registry);
    } else {
      NoShareParsed(p, tx);
      if Actions(p.Pools(), tx) == [] {
        NothingValidated(p.Pools(), tx, rules.id(tx), fee, height, ctx.registry, s);
      }
      ActionStep(rules, p, tx, s, c, height, fee, ctx.registry, txs);
      HistoryKept(p.shares, log, height, height, ctx.registry, CheckTx(p, tx, rules.id(tx), prior, s, height, fee, ctx).value.registry);
    }
  }

  lemma NoShareParsed(p: PoolRules, tx: Transaction)
    requires !IsPoolShare(tx)
    ensures ParseShare(p.shares, tx).None?
  {
  }

  // ---- One block ---------------------------------------------------------------------------

  lemma NotedBlock(p: PoolRules, log: Log, txs: seq<Transaction>, height: nat)
    requires txs != []
    ensures var n := |txs| - 1;
            Noted(p, log + Tagged(BlockShares(p.shares, txs[..n]), height), txs[n], height) == log + Tagged(BlockShares(p.shares, txs), height)
  {
    hide BlockShares, ParseShare;
    var n := |txs| - 1;
    var before := BlockShares(p.shares, txs[..n]);
    LastShare(p.shares, txs);
    match ParseShare(p.shares, txs[n]) {
      case Some(share) => TaggedAppend(log, before, share, height);
      case None =>
    }
  }

  lemma LastShare(r: ShareRules, txs: seq<Transaction>)
    requires txs != []
    ensures var (before, last) := (BlockShares(r, txs[..|txs| - 1]), ParseShare(r, txs[|txs| - 1]));
            BlockShares(r, txs) == if last.Some? then before + [last.value] else before
  {
    hide ParseShare;
  }

  lemma TaggedAppend(log: Log, shares: seq<Share>, share: Share, height: nat)
    ensures log + Tagged(shares + [share], height) == log + Tagged(shares, height) + [Logged(height, share)]
  {
    assert Tagged(shares + [share], height) == Tagged(shares, height) + [Logged(height, share)];
  }

  lemma {:induction false} TxsStep(rules: Rules, p: PoolRules, txs: seq<Transaction>, prior: seq<Block>, ctx: Checking, log: Log,
                                   u: Utxos, c: Utxos, height: nat, all: set<Transaction>)
    requires p.Pools().Valid() && MarkersUnspendable(rules, p) && IdsInjective(rules, all)
    requires forall i :: 0 <= i < |txs| ==> txs[i] in all && !IsCoinbase(txs[i])
    requires Known(rules, p, ctx, log, u, c, height, all)
    requires CheckTxs(rules, p, txs, prior, u, height, ctx).Ok? && Solvency.ConnectRest(rules, txs, c, height).Ok?
    ensures var tally := CheckTxs(rules, p, txs, prior, u, height, ctx).value;
            && Known(rules, p, tally.ctx, log + Tagged(BlockShares(p.shares, txs), height), tally.utxos, Solvency.ConnectRest(rules, txs, c, height).value, height, all)
            && Evolves(ctx.registry, tally.ctx.registry)
            && ReplayTxs(p.Pools(), rules.id, ctx.registry, txs, height) == Ok(tally.ctx.registry)
  {
    hide RawFee, ConnectTx, CheckTx, MarkersUnspendable, IdsInjective, Evolves, ReplayActions, Actions, Known, BlockShares, Noted;
    if txs == [] {
      NothingShared(p, log, height);
      SelfEvolves(ctx.registry);
    } else {
      var n := |txs| - 1;
      TxsStep(rules, p, txs[..n], prior, ctx, log, u, c, height, all);
      var before := CheckTxs(rules, p, txs[..n], prior, u, height, ctx).value;
      TxStep(rules, p, txs[n], prior, before.ctx, log + Tagged(BlockShares(p.shares, txs[..n]), height), before.utxos,
             Solvency.ConnectRest(rules, txs[..n], c, height).value, height, RawFee(rules, txs[n], before.utxos, height).value, all);
      NotedBlock(p, log, txs, height);
      EvolvesTransitive(ctx.registry, before.ctx.registry, CheckTxs(rules, p, txs, prior, u, height, ctx).value.ctx.registry);
    }
  }

  lemma NothingShared(p: PoolRules, log: Log, height: nat)
    ensures log + Tagged(BlockShares(p.shares, []), height) == log
  {
  }

  lemma SelfEvolves(reg: Registry)
    ensures Evolves(reg, reg)
  {
  }

  // A block without pool data passes the loop unchanged.
  lemma {:induction false} QuietChecks(rules: Rules, p: PoolRules, txs: seq<Transaction>, prior: seq<Block>, u: Utxos, height: nat, ctx: Checking)
    requires p.Pools().Valid() && Quiet(p, txs) && Tallied(rules, txs, u, height).Ok?
    ensures var tally := CheckTxs(rules, p, txs, prior, u, height, ctx);
            tally.Ok? && tally.value.ctx == ctx && tally.value.utxos == Tallied(rules, txs, u, height).value.utxos
  {
    hide RawFee, ConnectTx, Actions, Burn, ExtraFee;
    if txs != [] {
      QuietChecks(rules, p, txs[..|txs| - 1], prior, u, height, ctx);
    }
  }

  /** What holds of pools on every accepted chain. */
  ghost predicate PoolsHold(rules: Rules, p: PoolRules, blocks: seq<Block>, u: Utxos, all: set<Transaction>)
    requires p.Pools().Valid() && blocks != []
  {
    var reg := FromBlocks(p.Pools(), rules.id, blocks);
    && reg.Ok? && RegistryOk(p.Pools(), reg.value)
    && HistoryOk(p.shares, History(p.shares, blocks), |blocks| - 1, reg.value)
    && AllAnchored(rules, p, u, reg.value, all)
  }

  /** The feature validators of the rules include the pools'. */
  ghost predicate ChecksPools(rules: Rules, p: PoolRules)
    requires rules.Valid() && p.Pools().Valid()
  {
    forall prior, u, height, b: Block :: rules.features(prior, u, height, b) && b.transactions != [] ==> PoolsBlockOk(rules, p, prior, u, height, b)
  }

  lemma AcceptedParts(rules: Rules, p: PoolRules, prior: seq<Block>, u: Utxos, b: Block, now: U32)
    requires rules.Valid() && p.Pools().Valid() && prior != [] && ChecksPools(rules, p) && Accept(rules, prior, u, b, now).Ok?
    ensures b.transactions != [] && forall i :: 1 <= i < |b.transactions| ==> !IsCoinbase(b.transactions[i])
    ensures Tallied(rules, b.transactions[1..], u, |prior|).Ok? && PoolsBlockOk(rules, p, prior, u, |prior|, b)
    ensures ConnectAll(rules, b.transactions, u, |prior|) == Accept(rules, prior, u, b, now)
  {
    hide Tallied, HeaderOk, Stateless, Subsidy, OutValue, ConnectAll, PoolsBlockOk;
  }

  // ---- What an accepted pool block pays ----------------------------------------------------

  /** Both validators walk the same set; the pools' fees are those of the block plus what its transactions burn. */
  lemma {:induction false} RawFeesAreNetPlusBurned(rules: Rules, p: PoolRules, txs: seq<Transaction>, prior: seq<Block>, u: Utxos, height: nat, ctx: Checking)
    requires p.Pools().Valid() && CheckTxs(rules, p, txs, prior, u, height, ctx).Ok? && Tallied(rules, txs, u, height).Ok?
    ensures var (raw, net) := (CheckTxs(rules, p, txs, prior, u, height, ctx).value, Tallied(rules, txs, u, height).value);
            raw.utxos == net.utxos && raw.fees == net.fees + Solvency.Burned(rules, txs, height)
  {
    hide RawFee, CheckTx, ConnectTx, Burn, ExtraFee;
    if txs != [] {
      RawFeesAreNetPlusBurned(rules, p, txs[..|txs| - 1], prior, u, height, ctx);
    }
  }

  /**
    An accepted pool block burns nothing: its coinbase has to claim all raw fees, and block validation
    grants it only what the burns leave of them.
   */
  lemma PoolBlocksBurnNothing(rules: Rules, p: PoolRules, prior: seq<Block>, u: Utxos, b: Block, now: U32)
    requires rules.Valid() && p.Pools().Valid() && prior != [] && ChecksPools(rules, p) && Accept(rules, prior, u, b, now).Ok?
    requires p.marker(b).Some?
    ensures b.transactions != [] && Solvency.Burned(rules, b.transactions[1..], |prior|) == 0
    ensures Tallied(rules, b.transactions[1..], u, |prior|).Ok?
    ensures OutValue(b.transactions[0].outputs) == Subsidy(rules, |prior|) + Tallied(rules, b.transactions[1..], u, |prior|).value.fees
  {
    hide Accept, ChecksPools, CheckTxs, Tallied, FromBlocks, WindowFromBlocks, Solvency.Burned, Quiet, CountShares, OutValue, Subsidy, PayoutOk;
    AcceptedParts(rules, p, prior, u, b, now);
    AcceptedClaim(rules, prior, u, b, now);
    var txs, ctx := b.transactions[1..], FromConfirmed(rules, p, prior, |prior|).value;
    RawFeesAreNetPlusBurned(rules, p, txs, prior, u, |prior|, ctx);
    PoolBlockClaimsEverything(rules, p, prior, |prior|, b, CheckTxs(rules, p, txs, prior, u, |prior|, ctx).value.fees);
  }

  lemma AcceptedClaim(rules: Rules, prior: seq<Block>, u: Utxos, b: Block, now: U32)
    requires rules.Valid() && prior != [] && Accept(rules, prior, u, b, now).Ok?
    ensures b.transactions != [] && Tallied(rules, b.transactions[1..], u, |prior|).Ok?
    ensures OutValue(b.transactions[0].outputs) <= Subsidy(rules, |prior|) + Tallied(rules, b.transactions[1..], u, |prior|).value.fees
  {
    hide Tallied, HeaderOk, Stateless, Subsidy, OutValue, ConnectAll;
  }

  // ---- Confirmed miners are addresses ------------------------------------------------------

  lemma {:induction false} QuietHasNoShares(p: PoolRules, txs: seq<Transaction>)
    requires Quiet(p, txs)
    ensures BlockShares(p.shares, txs) == []
  {
    hide Actions;
    if txs != [] {
      QuietHasNoShares(p, txs[..|txs| - 1]);
    }
  }

  lemma {:induction false} CheckedMiners(rules: Rules, p: PoolRules, txs: seq<Transaction>, prior: seq<Block>, u: Utxos, height: nat, ctx: Checking)
    requires p.Pools().Valid() && CheckTxs(rules, p, txs, prior, u, height, ctx).Ok?
    ensures AllMinersAre(p.Pools().addresses, BlockShares(p.shares, txs))
  {
    hide RawFee, ConnectTx, Actions, ValidateAction, IsAddress, Fits, ParentOk;
    if txs != [] {
      CheckedMiners(rules, p, txs[..|txs| - 1], prior, u, height, ctx);
    }
  }

  /** Every share of an accepted chain was sent for an address. */
  lemma {:induction false} AcceptedMiners(rules: Rules, p: PoolRules, blocks: seq<Block>, now: U32)
    requires rules.Valid() && p.Pools().Valid() && ChecksPools(rules, p) && Replay(rules, blocks, now).Ok?
    ensures MinersAreAddresses(p.shares, blocks)
  {
    hide Accept, ChecksPools, CheckTxs, BlockShares, Quiet, FromBlocks, WindowFromBlocks, CountShares, PayoutOk, AllMinersAre, Tallied, ConnectAll;
    if |blocks| > 1 {
      var n := |blocks| - 1;
      var u := Replay(rules, blocks[..n], now).value;
      AcceptedMiners(rules, p, blocks[..n], now);
      AcceptedParts(rules, p, blocks[..n], u, blocks[n], now);
      var txs := blocks[n].transactions[1..];
      assert AllMinersAre(p.Pools().addresses, BlockShares(p.shares, txs)) by {
        if p.marker(blocks[n]).None? && Quiet(p, txs) {
          NoMiners(p, txs);
        } else {
          CheckedMiners(rules, p, txs, blocks[..n], u, n, FromConfirmed(rules, p, blocks[..n], n).value);
        }
      }
      OneMoreBlock(p.shares, blocks, n);
    }
  }

  lemma NoMiners(p: PoolRules, txs: seq<Transaction>)
    requires Quiet(p, txs)
    ensures AllMinersAre(p.Pools().addresses, BlockShares(p.shares, txs))
  {
    hide Quiet;
    QuietHasNoShares(p, txs);
  }

  lemma OneMoreBlock(r: ShareRules, blocks: seq<Block>, n: nat)
    requires n == |blocks| - 1 && MinersAreAddresses(r, blocks[..n])
    requires AllMinersAre(r.pools.addresses, BlockShares(r, AfterCoinbase(blocks[n])))
    ensures MinersAreAddresses(r, blocks)
  {
    hide AllMinersAre, BlockShares;
    forall h | 1 <= h < |blocks|
      ensures AllMinersAre(r.pools.addresses, BlockShares(r, AfterCoinbase(blocks[h])))
    {
      if h < n {
        assert blocks[..n][h] == blocks[h];
      }
    }
  }

  // The coinbase only adds coins.
  lemma CoinbaseKeepsAnchors(rules: Rules, p: PoolRules, u: Utxos, c: Utxos, reg: Registry, all: set<Transaction>)
    requires Within(u, c) && AllAnchored(rules, p, u, reg, all)
    ensures AllAnchored(rules, p, c, reg, all)
  {
    hide IsMarker, Created;
    forall id | id in reg
      ensures Anchored(rules, p, c, id, all)
    {
      var tx, k :| tx in all && AnchoredBy(rules, p, u, id, tx, k);
      assert AnchoredBy(rules, p, c, id, tx, k);
    }
  }

  /** In either case of validate_pools_block the loop's context starts from the confirmed one. */
  lemma LoopPasses(rules: Rules, p: PoolRules, prior: seq<Block>, u: Utxos, height: nat, b: Block)
    requires rules.Valid() && p.Pools().Valid() && b.transactions != [] && PoolsBlockOk(rules, p, prior, u, height, b)
    requires Tallied(rules, b.transactions[1..], u, height).Ok? && FromBlocks(p.Pools(), rules.id, prior).Ok?
    ensures CheckTxs(rules, p, b.transactions[1..], prior, u, height, FromConfirmed(rules, p, prior, height).value).Ok?
    ensures p.Pools().Active(height) || Quiet(p, b.transactions[1..])
  {
    hide CheckTxs, Tallied, PayoutOk, FromBlocks, CountShares, Quiet;
    if p.marker(b).None? && Quiet(p, b.transactions[1..]) {
      QuietChecks(rules, p, b.transactions[1..], prior, u, height, FromConfirmed(rules, p, prior, height).value);
    }
  }

  lemma {:induction false} QuietReplays(p: PoolRules, id: Transaction -> Hash, txs: seq<Transaction>, reg: Registry, height: nat)
    requires p.Pools().Valid() && Quiet(p, txs)
    ensures ReplayTxs(p.Pools(), id, reg, txs, height) == Ok(reg)
  {
    hide Actions;
    if txs != [] {
      QuietReplays(p, id, txs[..|txs| - 1], reg, height);
    }
  }

  lemma FromBlocksStep(s: Pools, id: Transaction -> Hash, prior: seq<Block>, b: Block)
    requires s.Valid() && prior != [] && b.transactions != [] && FromBlocks(s, id, prior).Ok?
    ensures s.Active(|prior|) ==> FromBlocks(s, id, prior + [b]) == ReplayTxs(s, id, FromBlocks(s, id, prior).value, b.transactions[1..], |prior|)
    ensures !s.Active(|prior|) ==> FromBlocks(s, id, prior + [b]) == FromBlocks(s, id, prior)
  {
    hide ReplayTxs;
    assert (prior + [b])[..|prior|] == prior;
  }

  // The registry of the longer chain.
  lemma NextRegistry(rules: Rules, p: PoolRules, prior: seq<Block>, b: Block, after: Registry)
    requires p.Pools().Valid() && prior != [] && b.transactions != [] && FromBlocks(p.Pools(), rules.id, prior).Ok?
    requires ReplayTxs(p.Pools(), rules.id, FromBlocks(p.Pools(), rules.id, prior).value, b.transactions[1..], |prior|) == Ok(after)
    requires p.Pools().Active(|prior|) || Quiet(p, b.transactions[1..])
    ensures FromBlocks(p.Pools(), rules.id, prior + [b]) == Ok(after)
  {
    hide ReplayTxs, Quiet, FromBlocks;
    FromBlocksStep(p.Pools(), rules.id, prior, b);
    if !p.Pools().Active(|prior|) {
      QuietReplays(p, rules.id, b.transactions[1..], FromBlocks(p.Pools(), rules.id, prior).value, |prior|);
    }
  }

  lemma NextHistory(p: PoolRules, prior: seq<Block>, b: Block)
    requires prior != [] && b.transactions != []
    ensures History(p.shares, prior + [b]) == History(p.shares, prior) + Tagged(BlockShares(p.shares, b.transactions[1..]), |prior|)
  {
    hide BlockShares;
    assert (prior + [b])[..|prior|] == prior;
  }

  lemma BlockStep(rules: Rules, p: PoolRules, prior: seq<Block>, u: Utxos, b: Block, now: U32, all: set<Transaction>)
    requires rules.Valid() && p.Pools().Valid() && prior != [] && ChecksPools(rules, p) && MarkersUnspendable(rules, p) && IdsInjective(rules, all)
    requires forall tx :: tx in b.transactions ==> tx in all
    requires PoolsHold(rules, p, prior, u, all) && Accept(rules, prior, u, b, now).Ok?
    ensures PoolsHold(rules, p, prior + [b], Accept(rules, prior, u, b, now).value, all)
    ensures Evolves(FromBlocks(p.Pools(), rules.id, prior).value, FromBlocks(p.Pools(), rules.id, prior + [b]).value)
  {
    hide Accept, FromBlocks, CheckTxs, Tallied, MarkersUnspendable, IdsInjective, ChecksPools, PoolsBlockOk, History, HistoryOk, RegistryOk,
         AllAnchored, Within, ConnectTx, ReplayTxs, Evolves, Summarises, WindowFromBlocks, ConnectAll, Quiet;
    var height, txs, reg := |prior|, b.transactions, FromBlocks(p.Pools(), rules.id, prior).value;
    AcceptedParts(rules, p, prior, u, b, now);
    LoopPasses(rules, p, prior, u, height, b);
    Solvency.ConnectCoinbaseFirst(rules, txs, u, height);
    var c := ConnectTx(u, rules.id(txs[0]), txs[0], height, true).value;
    CoinbaseWithin(rules, txs[0], u, height);
    CoinbaseKeepsAnchors(rules, p, u, c, reg, all);
    WindowSummarisesHistory(p.shares, prior);
    SelfEvolves(reg);
    HistoryKept(p.shares, History(p.shares, prior), height - 1, height, reg, reg);
    var ctx := FromConfirmed(rules, p, prior, height).value;
    TxsStep(rules, p, txs[1..], prior, ctx, History(p.shares, prior), u, c, height, all);
    NextRegistry(rules, p, prior, b, CheckTxs(rules, p, txs[1..], prior, u, height, ctx).value.ctx.registry);
    NextHistory(p, prior, b);
  }

  lemma CoinbaseWithin(rules: Rules, tx: Transaction, u: Utxos, height: nat)
    requires ConnectTx(u, rules.id(tx), tx, height, true).Ok?
    ensures Within(u, ConnectTx(u, rules.id(tx), tx, height, true).value)
  {
    if !IsPoolShare(tx) {
      ConnectTotal(u, rules.id(tx), tx, height, true);
    }
  }

  // ---- Main results ------------------------------------------------------------------------

  ghost predicate TxsWithin(blocks: seq<Block>, all: set<Transaction>)
  {
    forall i, tx :: 0 <= i < |blocks| && tx in blocks[i].transactions ==> tx in all
  }

  /**
    On every accepted chain: the registry replays, every pool's capacity is on the grid and paid for, no
    share is confirmed twice, a miner's shares a window apart name one pool, and no pool is overfull.
   */
  lemma {:induction false} AcceptedChainsHold(rules: Rules, p: PoolRules, blocks: seq<Block>, now: U32, all: set<Transaction>)
    requires rules.Valid() && p.Pools().Valid() && ChecksPools(rules, p) && MarkersUnspendable(rules, p)
    requires IdsInjective(rules, all) && TxsWithin(blocks, all) && Replay(rules, blocks, now).Ok?
    ensures PoolsHold(rules, p, blocks, Replay(rules, blocks, now).value, all)
  {
    hide Accept, PoolsHold, ChecksPools, MarkersUnspendable, IdsInjective;
    if |blocks| == 1 {
      GenesisHolds(rules, p, blocks, all);
    } else {
      var n := |blocks| - 1;
      AcceptedChainsHold(rules, p, blocks[..n], now, all);
      BlockStep(rules, p, blocks[..n], Replay(rules, blocks[..n], now).value, blocks[n], now, all);
      assert blocks[..n] + [blocks[n]] == blocks;
    }
  }

  lemma GenesisHolds(rules: Rules, p: PoolRules, blocks: seq<Block>, all: set<Transaction>)
    requires p.Pools().Valid() && |blocks| == 1
    ensures PoolsHold(rules, p, blocks, map[], all)
  {
  }

  // The step from the chain without its last block.
  lemma LastBlockEvolves(rules: Rules, p: PoolRules, blocks: seq<Block>, now: U32, all: set<Transaction>)
    requires rules.Valid() && p.Pools().Valid() && ChecksPools(rules, p) && MarkersUnspendable(rules, p) && |blocks| > 1
    requires IdsInjective(rules, all) && TxsWithin(blocks, all) && Replay(rules, blocks, now).Ok?
    ensures var before := blocks[..|blocks| - 1];
            && Replay(rules, before, now).Ok? && TxsWithin(before, all)
            && FromBlocks(p.Pools(), rules.id, before).Ok? && FromBlocks(p.Pools(), rules.id, blocks).Ok?
            && Evolves(FromBlocks(p.Pools(), rules.id, before).value, FromBlocks(p.Pools(), rules.id, blocks).value)
  {
    hide Accept, RegistryOk, HistoryOk, AllAnchored, ChecksPools, MarkersUnspendable, IdsInjective, Evolves, FromBlocks;
    var n := |blocks| - 1;
    AcceptedChainsHold(rules, p, blocks[..n], now, all);
    BlockStep(rules, p, blocks[..n], Replay(rules, blocks[..n], now).value, blocks[n], now, all);
    assert blocks[..n] + [blocks[n]] == blocks;
  }

  /** Along an accepted chain a pool's capacity never shrinks, its commission never rises, and its manager stays. */
  lemma {:induction false} PoolsOnlyEvolve(rules: Rules, p: PoolRules, blocks: seq<Block>, now: U32, all: set<Transaction>, earlier: nat)
    requires rules.Valid() && p.Pools().Valid() && ChecksPools(rules, p) && MarkersUnspendable(rules, p)
    requires IdsInjective(rules, all) && TxsWithin(blocks, all) && Replay(rules, blocks, now).Ok? && 0 < earlier <= |blocks|
    ensures FromBlocks(p.Pools(), rules.id, blocks[..earlier]).Ok? && FromBlocks(p.Pools(), rules.id, blocks).Ok?
    ensures Evolves(FromBlocks(p.Pools(), rules.id, blocks[..earlier]).value, FromBlocks(p.Pools(), rules.id, blocks).value)
  {
    hide RegistryOk, HistoryOk, AllAnchored, ChecksPools, MarkersUnspendable, IdsInjective, Evolves, FromBlocks, Replay, TxsWithin;
    AcceptedChainsHold(rules, p, blocks, now, all);
    if earlier == |blocks| {
      assert blocks[..earlier] == blocks;
      SelfEvolves(FromBlocks(p.Pools(), rules.id, blocks).value);
    } else {
      var n := |blocks| - 1;
      LastBlockEvolves(rules, p, blocks, now, all);
      PoolsOnlyEvolve(rules, p, blocks[..n], now, all, earlier);
      assert blocks[..n][..earlier] == blocks[..earlier];
      EvolvesTransitive(FromBlocks(p.Pools(), rules.id, blocks[..earlier]).value, FromBlocks(p.Pools(), rules.id, blocks[..n]).value,
                        FromBlocks(p.Pools(), rules.id, blocks).value);
    }
  }
}
