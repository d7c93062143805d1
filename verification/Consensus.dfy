/**
  Block validation and connection of src/lib.rs. Signatures, marker parsing and the feature
  validators are parameters of the rules; everything about value, ids and headers is modelled.
 */
module Consensus {
  import opened Arithmetic
  import opened Bytes
  import opened Difficulty
  import opened HeaderChain
  import opened Infusion
  import opened Merkle
  import opened Outcome
  import opened Sorting
  import opened UtxoSet
  import opened Wire

  const MAX_SEND_ENTRIES_PER_TX: nat := 256

  /** A vault claim: where it pays and what its code hashes to. */
  datatype Claim = Claim(payTo: Script, codeHash: Result<Hash>)
  datatype Vault = Vault(isQub: bool, codeHash: Hash, perClaim: nat, remaining: nat, manager: string)

  datatype BlastRules = BlastRules(
    active: nat -> bool, createsOk: (Transaction, nat) -> bool,
    claim: Script -> Option<Claim>, vault: Script -> Option<Vault>, vaultScript: Vault -> Result<Script>)

  datatype Rules = Rules(
    h: Hasher, id: Transaction -> Hash, genesis: Block, version: nat -> U32, work: WorkSettings,
    maxTransactions: nat, maxFuture: U32, maxMoney: nat, maturity: nat, initialSubsidy: nat, halving: nat,
    checkpoint: Option<(nat, Hash)>,
    signed: (Transaction, nat, Coin) -> bool,
    jinOn: bool, infusionFrom: Option<nat>, markers: Transaction -> seq<Placed<Marker>>,
    blast: BlastRules,
    qnsFee: (Transaction, nat) -> Result<U64>, libraryFee: (Transaction, nat) -> Result<U64>,
    swapFee: (Transaction, nat) -> Result<U64>,
    features: (seq<Block>, Utxos, nat, Block) -> bool)
  {
    predicate InfusionActive(height: nat) { jinOn && infusionFrom.Some? && height >= infusionFrom.value }

    /** Configuration loading insists on these. */
    predicate Valid() { work.Valid() && halving > 0 }
  }

  // ---- Transactions ------------------------------------------------------------------------

  predicate DistinctInputs(ins: seq<TxIn>)
  {
    forall i, j :: 0 <= i < j < |ins| ==> ins[i].previous != ins[j].previous
  }

  predicate AmountOk(rules: Rules, v: nat)
  {
    0 < v <= rules.maxMoney && v <= MAX_MONEY_ATOMS
  }

  predicate AmountsOk(rules: Rules, outs: seq<TxOut>)
  {
    (forall i :: 0 <= i < |outs| ==> AmountOk(rules, outs[i].value)) && OutValue(outs) <= rules.maxMoney
  }

  predicate Stateless(rules: Rules, tx: Transaction)
  {
    || IsPoolShare(tx)
    || (if tx.inputs == [] || tx.outputs == [] then IsCoinbase(tx)
        else (IsCoinbase(tx) || |tx.outputs| <= MAX_SEND_ENTRIES_PER_TX + 4)
             && DistinctInputs(tx.inputs) && AmountsOk(rules, tx.outputs))
  }

  lemma {:induction false} OutValueMonotone(outs: seq<TxOut>, n: nat)
    requires n <= |outs|
    ensures OutValue(outs[..n]) <= OutValue(outs)
    decreases |outs| - n
  {
    if n < |outs| {
      OutValueStep(outs, n);
      OutValueMonotone(outs, n + 1);
    } else {
      assert outs[..n] == outs;
    }
  }

  lemma OutValueStep(outs: seq<TxOut>, n: nat)
    requires n < |outs|
    ensures OutValue(outs[..n + 1]) == OutValue(outs[..n]) + outs[n].value
  {
    assert outs[..n + 1][..n] == outs[..n];
  }

  /** validate_tx_stateless. */
  method ValidateTxStateless(rules: Rules, tx: Transaction) returns (ok: bool)
    ensures ok <==> Stateless(rules, tx)
  {
    if IsPoolShare(tx) {
      return true;
    }
    if tx.inputs == [] || tx.outputs == [] {
      return IsCoinbase(tx);
    }
    if !IsCoinbase(tx) && |tx.outputs| > MAX_SEND_ENTRIES_PER_TX + 4 {
      return false;
    }
    var distinct := AllNew(Previous(tx.inputs));
    if !distinct {
      return false;
    }
    var total := 0;
    for i := 0 to |tx.outputs|
      invariant total == OutValue(tx.outputs[..i]) && total <= rules.maxMoney + if i == 0 then total else 0
      invariant forall k :: 0 <= k < i ==> AmountOk(rules, tx.outputs[k].value)
    {
      OutValueStep(tx.outputs, i);
      OutValueMonotone(tx.outputs, i + 1);
      if !AmountOk(rules, tx.outputs[i].value) {
        return false;
      }
      total := total + tx.outputs[i].value;
      if total > rules.maxMoney {
        return false;
      }
    }
    assert tx.outputs[..|tx.outputs|] == tx.outputs;
    return true;
  }

  /** A hash set that every element must be new to. */
  method AllNew<T(==)>(s: seq<T>) returns (ok: bool)
    ensures ok <==> AllDistinct(s)
  {
    var seen: set<T> := {};
    for i := 0 to |s|
      invariant forall x :: x in seen <==> x in s[..i]
      invariant AllDistinct(s[..i])
    {
      if s[i] in seen {
        return false;
      }
      seen := seen + {s[i]};
      assert s[..i + 1] == s[..i] + [s[i]];
    }
    assert s[..|s|] == s;
    return true;
  }

  function Previous(ins: seq<TxIn>): (r: seq<OutPoint>)
    ensures |r| == |ins| && forall i :: 0 <= i < |ins| ==> r[i] == ins[i].previous
  {
    seq(|ins|, i requires 0 <= i < |ins| => ins[i].previous)
  }

  predicate IsClaim(rules: Rules, tx: Transaction)
  {
    |tx.inputs| == 1 && rules.blast.claim(tx.inputs[0].script).Some?
  }

  /** validate_blast_claim_contextual: the vault pays one claim and is recreated with the rest. */
  predicate ClaimOk(rules: Rules, tx: Transaction, u: Utxos, height: nat)
    requires IsClaim(rules, tx)
  {
    var claim := rules.blast.claim(tx.inputs[0].script).value;
    && rules.blast.active(height)
    && 1 <= |tx.outputs| <= 2
    && tx.inputs[0].previous in u
    && var coin := u[tx.inputs[0].previous];
    && rules.blast.vault(coin.out.script).Some?
    && var vault := rules.blast.vault(coin.out.script).value;
    && vault.isQub && claim.codeHash == Ok(vault.codeHash)
    && vault.perClaim < TWO_64 && vault.perClaim <= coin.out.value
    && tx.outputs[0].value == vault.perClaim && tx.outputs[0].script == claim.payTo
    && var left, claims := coin.out.value - vault.perClaim, if vault.remaining == 0 then 0 else vault.remaining - 1;
    if left == 0 || claims == 0 then |tx.outputs| == 1
    else |tx.outputs| == 2 && tx.outputs[1].value == left
         && rules.blast.vaultScript(vault.(remaining := claims)) == Ok(tx.outputs[1].script)
  }

  predicate InputOk(rules: Rules, tx: Transaction, i: nat, u: Utxos, height: nat)
    requires i < |tx.inputs|
  {
    var o := tx.inputs[i].previous;
    && o in u
    && !(u[o].isCoinbase && (if height < u[o].height then 0 else height - u[o].height) < rules.maturity)
    && rules.signed(tx, i, u[o])
  }

  predicate InputsOk(rules: Rules, tx: Transaction, u: Utxos, height: nat)
  {
    forall i :: 0 <= i < |tx.inputs| ==> InputOk(rules, tx, i, u, height)
  }

  /** validate_tx_contextual: the fee, as the 64-bit word the code casts it to. */
  function RawFee(rules: Rules, tx: Transaction, u: Utxos, height: nat): Result<nat>
  {
    if !Stateless(rules, tx) then Err
    else if IsCoinbase(tx) || IsPoolShare(tx) then Ok(0)
    else if !rules.blast.createsOk(tx, height) then Err
    else if IsClaim(rules, tx) then (if ClaimOk(rules, tx, u, height) then Ok(0) else Err)
    else if !InputsOk(rules, tx, u, height) then Err
    else if InValue(u, tx.inputs) < OutValue(tx.outputs) then Err
    else Ok((InValue(u, tx.inputs) - OutValue(tx.outputs)) % TWO_64)
  }

  method ValidateTxContextual(rules: Rules, tx: Transaction, u: Utxos, height: nat) returns (r: Result<nat>)
    ensures r == RawFee(rules, tx, u, height)
  {
    hide Stateless, ClaimOk, InputOk;
    var stateless := ValidateTxStateless(rules, tx);
    if !stateless {
      return Err;
    }
    if IsCoinbase(tx) || IsPoolShare(tx) {
      return Ok(0);
    }
    if !rules.blast.createsOk(tx, height) {
      return Err;
    }
    if IsClaim(rules, tx) {
      return if ClaimOk(rules, tx, u, height) then Ok(0) else Err;
    }
    var totalIn, totalOut := 0, OutValue(tx.outputs);
    for i := 0 to |tx.inputs|
      invariant totalIn == InValue(u, tx.inputs[..i])
      invariant forall k :: 0 <= k < i ==> InputOk(rules, tx, k, u, height)
    {
      if !InputOk(rules, tx, i, u, height) {
        return Err;
      }
      InValueStep(rules, tx, u, height, i);
      totalIn := totalIn + u[tx.inputs[i].previous].out.value;
    }
    assert tx.inputs[..|tx.inputs|] == tx.inputs;
    if totalIn < totalOut {
      return Err;
    }
    return Ok((totalIn - totalOut) % TWO_64);
  }

  lemma InValueStep(rules: Rules, tx: Transaction, u: Utxos, height: nat, i: nat)
    requires i < |tx.inputs| && InputOk(rules, tx, i, u, height)
    ensures tx.inputs[i].previous in u
    ensures InValue(u, tx.inputs[..i + 1]) == InValue(u, tx.inputs[..i]) + u[tx.inputs[i].previous].out.value
  {
    assert tx.inputs[..i + 1][..i] == tx.inputs[..i];
  }

  /** qub_jin_melt_burn_atoms_for_fee: the atoms a transaction declares burned. */
  function Burn(rules: Rules, tx: Transaction, height: nat): Result<nat>
  {
    var markers := rules.markers(tx);
    if markers == [] then Ok(0)
    else if !rules.InfusionActive(height) || |markers| != 1 then Err
    else match markers[0].marker
      case MeltQub(_, atoms, _) => Ok(atoms)
      case InfuseJin(_, _) => Ok(0)
  }

  /** Name, library and swap fees the miner must be paid. */
  function ExtraFee(rules: Rules, tx: Transaction, height: nat): Result<nat>
  {
    var qns :- rules.qnsFee(tx, height);
    var library :- rules.libraryFee(tx, height);
    var swap :- rules.swapFee(tx, height);
    if qns + library + swap >= TWO_64 then Err else Ok(qns + library + swap)
  }

  /** The miner's fee for a transaction, its burn taken off. */
  function NetFee(rules: Rules, tx: Transaction, u: Utxos, height: nat): Result<nat>
  {
    var raw :- RawFee(rules, tx, u, height);
    var burn :- Burn(rules, tx, height);
    if raw < burn then Err
    else
      var extra :- ExtraFee(rules, tx, height);
      if raw - burn < extra then Err else Ok(raw - burn)
  }

  // ---- What transactions are accepted ------------------------------------------------------

  /** An input is good when its coin is there, signed for and, if a coinbase made it, old enough. */
  lemma InputMeans(rules: Rules, tx: Transaction, i: nat, u: Utxos, height: nat)
    requires i < |tx.inputs|
    ensures InputOk(rules, tx, i, u, height) <==>
              && tx.inputs[i].previous in u && rules.signed(tx, i, u[tx.inputs[i].previous])
              && (u[tx.inputs[i].previous].isCoinbase ==> rules.maturity == 0 || height >= u[tx.inputs[i].previous].height + rules.maturity)
  {
  }

  /** A payment is accepted exactly when it is in shape, its coins are good and cover its outputs; its fee is the difference. */
  lemma PaymentMeans(rules: Rules, tx: Transaction, u: Utxos, height: nat)
    requires !IsCoinbase(tx) && !IsPoolShare(tx) && !IsClaim(rules, tx)
    ensures RawFee(rules, tx, u, height).Ok? <==>
              && tx.inputs != [] && 0 < |tx.outputs| <= MAX_SEND_ENTRIES_PER_TX + 4 && rules.blast.createsOk(tx, height)
              && (forall i, j :: 0 <= i < j < |tx.inputs| ==> tx.inputs[i].previous != tx.inputs[j].previous)
              && (forall i :: 0 <= i < |tx.outputs| ==> 0 < tx.outputs[i].value <= Min(rules.maxMoney, MAX_MONEY_ATOMS))
              && OutValue(tx.outputs) <= rules.maxMoney
              && (forall i :: 0 <= i < |tx.inputs| ==> InputOk(rules, tx, i, u, height))
              && OutValue(tx.outputs) <= InValue(u, tx.inputs)
    ensures RawFee(rules, tx, u, height).Ok? ==> RawFee(rules, tx, u, height).value == (InValue(u, tx.inputs) - OutValue(tx.outputs)) % TWO_64
  {
    hide InputOk, OutValue, InValue;
  }

  /** What a claim has to pay out: one claim to whoever made it and, unless it was the last one, the rest to the vault's successor. */
  function ClaimOutputs(rules: Rules, claim: Claim, vault: Vault, value: U64): Result<seq<TxOut>>
    requires vault.perClaim <= value
  {
    var paid := [TxOut(vault.perClaim, claim.payTo)];
    if value == vault.perClaim || vault.remaining <= 1 then Ok(paid)
    else
      var successor :- rules.blast.vaultScript(vault.(remaining := vault.remaining - 1));
      Ok(paid + [TxOut(value - vault.perClaim, successor)])
  }

  /** A claim is accepted exactly when its vault is there and open to its code, and it pays out just that. */
  lemma ClaimMeans(rules: Rules, tx: Transaction, u: Utxos, height: nat)
    requires IsClaim(rules, tx)
    ensures ClaimOk(rules, tx, u, height) <==>
              && rules.blast.active(height) && tx.inputs[0].previous in u
              && var coin, claim := u[tx.inputs[0].previous], rules.blast.claim(tx.inputs[0].script).value;
                 match rules.blast.vault(coin.out.script)
                 case None => false
                 case Some(vault) =>
                   && vault.isQub && claim.codeHash == Ok(vault.codeHash) && vault.perClaim < TWO_64 && vault.perClaim <= coin.out.value
                   && ClaimOutputs(rules, claim, vault, coin.out.value) == Ok(tx.outputs)
  {
    if |tx.outputs| == 1 {
      assert tx.outputs == [TxOut(tx.outputs[0].value, tx.outputs[0].script)];
    } else if |tx.outputs| == 2 {
      assert tx.outputs == [TxOut(tx.outputs[0].value, tx.outputs[0].script)] + [TxOut(tx.outputs[1].value, tx.outputs[1].script)];
    }
  }

  /** A claim costs no fee, and what it does not claim goes back. */
  lemma ClaimIsFree(rules: Rules, tx: Transaction, u: Utxos, height: nat)
    requires IsClaim(rules, tx) && !IsCoinbase(tx) && !IsPoolShare(tx)
    ensures RawFee(rules, tx, u, height).Ok? <==>
              Stateless(rules, tx) && rules.blast.createsOk(tx, height) && ClaimOk(rules, tx, u, height)
    ensures RawFee(rules, tx, u, height).Ok? ==> RawFee(rules, tx, u, height).value == 0
  {
    hide Stateless, ClaimOk;
  }

  /** Atoms that vault markers melt; a transaction may carry one marker, once infusion is active. */
  function Melted(m: Marker): nat
  {
    match m case MeltQub(_, atoms, _) => atoms case InfuseJin(_, _) => 0
  }

  /** The miner's fee is what the melt leaves of the difference, and it has to cover the further fees. */
  lemma NetFeeMeans(rules: Rules, tx: Transaction, u: Utxos, height: nat)
    ensures var (raw, markers) := (RawFee(rules, tx, u, height), rules.markers(tx));
            var (qns, library, swap) := (rules.qnsFee(tx, height), rules.libraryFee(tx, height), rules.swapFee(tx, height));
            var melted := if markers == [] then 0 else Melted(markers[0].marker);
            && (NetFee(rules, tx, u, height).Ok? <==>
                  && raw.Ok? && (markers == [] || (|markers| == 1 && rules.InfusionActive(height)))
                  && qns.Ok? && library.Ok? && swap.Ok? && qns.value + library.value + swap.value < TWO_64
                  && raw.value >= melted + qns.value + library.value + swap.value)
            && (NetFee(rules, tx, u, height).Ok? ==> NetFee(rules, tx, u, height).value == raw.value - melted)
  {
    hide RawFee;
  }

  // ---- Blocks ------------------------------------------------------------------------------

  /** The scratch set and fees after the transaction loop of validate_block. */
  datatype Tally = Tally(utxos: Utxos, fees: nat)

  function Tallied(rules: Rules, txs: seq<Transaction>, u: Utxos, height: nat): Result<Tally>
  {
    if txs == [] then Ok(Tally(u, 0))
    else
      var before :- Tallied(rules, txs[..|txs| - 1], u, height);
      var tx := txs[|txs| - 1];
      var fee :- NetFee(rules, tx, before.utxos, height);
      var after :- ConnectTx(before.utxos, rules.id(tx), tx, height, false);
      Ok(Tally(after, before.fees + fee))
  }

  function Halved(v: nat, times: nat): nat
  {
    if times == 0 then v else Halved(v, times - 1) / 2
  }

  /** block_subsidy. */
  function Subsidy(rules: Rules, height: nat): nat
    requires rules.halving > 0
  {
    if height == 0 then 0
    else if (height - 1) / rules.halving >= 64 then 0
    else Halved(rules.initialSubsidy, (height - 1) / rules.halving)
  }

  function Ids(rules: Rules, txs: seq<Transaction>): (r: seq<Hash>)
    ensures |r| == |txs| && forall i :: 0 <= i < |txs| ==> r[i] == rules.id(txs[i])
  {
    seq<Hash>(|txs|, i requires 0 <= i < |txs| => rules.id(txs[i]))
  }

  predicate ProofOfWork(rules: Rules, b: Block)
  {
    var target := TargetFromCompact(b.header.bits);
    target.Ok? && LittleEndian(BlockHash(rules.h, b)) <= BigEndian(target.value)
  }

  predicate HeaderOk(rules: Rules, b: Block, prev: Hash, height: nat, bits: U32, now: U32)
  {
    && b.header.version == rules.version(height)
    && b.header.prev == prev
    && b.header.bits == bits
    && b.header.merkleRoot == Root(rules.h, Ids(rules, b.transactions))
    && ProofOfWork(rules, b)
    && b.header.time <= Min(now + rules.maxFuture, TWO_32 - 1)
  }

  predicate ShapeOk(rules: Rules, b: Block)
  {
    && 1 <= |b.transactions| <= rules.maxTransactions
    && IsCoinbase(b.transactions[0])
    && (forall i :: 1 <= i < |b.transactions| ==> !IsCoinbase(b.transactions[i]))
    && NoDuplicates(Ids(rules, b.transactions))
  }

  /** The checks of validate_block. */
  predicate BlockOk(rules: Rules, b: Block, u: Utxos, prev: Hash, height: nat, bits: U32, now: U32)
    requires rules.Valid()
  {
    && ShapeOk(rules, b) && HeaderOk(rules, b, prev, height, bits, now)
    && Tallied(rules, b.transactions[1..], u, height).Ok?
    && Stateless(rules, b.transactions[0])
    && OutValue(b.transactions[0].outputs) <= Subsidy(rules, height) + Tallied(rules, b.transactions[1..], u, height).value.fees
  }

  /** The hash read as a number is at most the target the bits stand for. */
  lemma WorkMeans(rules: Rules, b: Block)
    ensures ProofOfWork(rules, b) <==> Decodable(b.header.bits) && LittleEndian(BlockHash(rules.h, b)) <= CompactValue(b.header.bits)
  {
    hide TargetFromCompact, Decodable, CompactValue, BigEndian, LittleEndian;
    TargetFromCompactIs(b.header.bits);
  }

  lemma CoinbaseStateless(rules: Rules, tx: Transaction)
    requires IsCoinbase(tx)
    ensures Stateless(rules, tx) <==>
              && (forall i :: 0 <= i < |tx.outputs| ==> 0 < tx.outputs[i].value <= Min(rules.maxMoney, MAX_MONEY_ATOMS))
              && OutValue(tx.outputs) <= rules.maxMoney
  {
  }

  /**
    What makes a block valid, one condition at a time. The hash decides alone among headers that are right
    otherwise, and saturating the future limit at the largest time makes no difference.
   */
  lemma BlockOkMeans(rules: Rules, b: Block, u: Utxos, prev: Hash, height: nat, bits: U32, now: U32)
    requires rules.Valid()
    ensures BlockOk(rules, b, u, prev, height, bits, now) <==>
              && 1 <= |b.transactions| <= rules.maxTransactions
              && IsCoinbase(b.transactions[0]) && (forall i :: 1 <= i < |b.transactions| ==> !IsCoinbase(b.transactions[i]))
              && (forall i, j :: 0 <= i < j < |b.transactions| ==> rules.id(b.transactions[i]) != rules.id(b.transactions[j]))
              && b.header.version == rules.version(height) && b.header.prev == prev && b.header.bits == bits
              && b.header.merkleRoot == Root(rules.h, Ids(rules, b.transactions))
              && b.header.time <= now + rules.maxFuture
              && Decodable(bits) && LittleEndian(BlockHash(rules.h, b)) <= CompactValue(bits)
              && Tallied(rules, b.transactions[1..], u, height).Ok?
              && (forall i :: 0 <= i < |b.transactions[0].outputs| ==> 0 < b.transactions[0].outputs[i].value <= Min(rules.maxMoney, MAX_MONEY_ATOMS))
              && OutValue(b.transactions[0].outputs) <= rules.maxMoney
              && OutValue(b.transactions[0].outputs) <= Subsidy(rules, height) + Tallied(rules, b.transactions[1..], u, height).value.fees
  {
    hide Tallied, Subsidy, OutValue, Root, BlockHash, ProofOfWork, Decodable, CompactValue, LittleEndian, Stateless, IsCoinbase;
    WorkMeans(rules, b);
    if b.transactions != [] && IsCoinbase(b.transactions[0]) {
      CoinbaseStateless(rules, b.transactions[0]);
    }
  }

  function ConnectAll(rules: Rules, txs: seq<Transaction>, u: Utxos, height: nat): Result<Utxos>
  {
    if txs == [] then Ok(u)
    else
      var before :- ConnectAll(rules, txs[..|txs| - 1], u, height);
      var tx := txs[|txs| - 1];
      ConnectTx(before, rules.id(tx), tx, height, |txs| == 1)
  }

  predicate CheckpointOk(rules: Rules, height: nat, hash: Hash)
  {
    rules.checkpoint.Some? && rules.checkpoint.value.0 == height ==> hash == rules.checkpoint.value.1
  }

  /** What one accepted block does to the unspent set; Err exactly when it is rejected. */
  function Accept(rules: Rules, blocks: seq<Block>, u: Utxos, b: Block, now: U32): Result<Utxos>
    requires rules.Valid() && blocks != []
  {
    var height := |blocks|;
    var bits :- RequiredWorkBits(rules.work, blocks, height);
    if !BlockOk(rules, b, u, BlockHash(rules.h, blocks[height - 1]), height, bits, now) then Err
    else if !rules.features(blocks, u, height, b) || !CheckpointOk(rules, height, BlockHash(rules.h, b)) then Err
    else ConnectAll(rules, b.transactions, u, height)
  }

  /** A block is accepted exactly when it is valid with the bits required next, every feature accepts it, and a checkpoint at its height names it. */
  lemma AcceptMeans(rules: Rules, blocks: seq<Block>, u: Utxos, b: Block, now: U32)
    requires rules.Valid() && blocks != []
    ensures Accept(rules, blocks, u, b, now).Ok? <==>
              && RequiredWorkBits(rules.work, blocks, |blocks|).Ok?
              && BlockOk(rules, b, u, BlockHash(rules.h, blocks[|blocks| - 1]), |blocks|, RequiredWorkBits(rules.work, blocks, |blocks|).value, now)
              && rules.features(blocks, u, |blocks|, b)
              && (forall hash :: rules.checkpoint == Some((|blocks|, hash)) ==> BlockHash(rules.h, b) == hash)
              && ConnectAll(rules, b.transactions, u, |blocks|).Ok?
    ensures Accept(rules, blocks, u, b, now).Ok? ==> Accept(rules, blocks, u, b, now) == ConnectAll(rules, b.transactions, u, |blocks|)
  {
    hide RequiredWorkBits, BlockOk, BlockHash, ConnectAll;
    if rules.checkpoint.Some? && rules.checkpoint.value.0 == |blocks| {
      assert rules.checkpoint == Some((|blocks|, rules.checkpoint.value.1));
    }
  }

  /** Replaying a whole chain from genesis. */
  function Replay(rules: Rules, blocks: seq<Block>, now: U32): Result<Utxos>
    requires rules.Valid()
  {
    if blocks == [] then Err
    else if |blocks| == 1 then (if blocks[0] == rules.genesis then Ok(map[]) else Err)
    else
      var before :- Replay(rules, blocks[..|blocks| - 1], now);
      Accept(rules, blocks[..|blocks| - 1], before, blocks[|blocks| - 1], now)
  }

  // ---- The loops of validate_block and connect_block_utxos ---------------------------------

  lemma {:induction false} TalliedErr(rules: Rules, txs: seq<Transaction>, u: Utxos, height: nat, n: nat)
    requires n <= |txs| && Tallied(rules, txs[..n], u, height).Err?
    ensures Tallied(rules, txs, u, height).Err?
    decreases |txs| - n
  {
    hide NetFee, ConnectTx;
    if n < |txs| {
      assert txs[..n + 1][..n] == txs[..n];
      TalliedErr(rules, txs, u, height, n + 1);
    } else {
      assert txs[..n] == txs;
    }
  }

  lemma {:induction false} ConnectAllErr(rules: Rules, txs: seq<Transaction>, u: Utxos, height: nat, n: nat)
    requires n <= |txs| && ConnectAll(rules, txs[..n], u, height).Err?
    ensures ConnectAll(rules, txs, u, height).Err?
    decreases |txs| - n
  {
    hide ConnectTx;
    if n < |txs| {
      assert txs[..n + 1][..n] == txs[..n];
      ConnectAllErr(rules, txs, u, height, n + 1);
    } else {
      assert txs[..n] == txs;
    }
  }

  method TallyTransactions(rules: Rules, txs: seq<Transaction>, u: Utxos, height: nat) returns (r: Result<Tally>)
    ensures r == Tallied(rules, txs, u, height)
  {
    hide RawFee, Burn, ExtraFee, ConnectTx;
    var scratch, fees := u, 0;
    for i := 0 to |txs|
      invariant Tallied(rules, txs[..i], u, height) == Ok(Tally(scratch, fees))
    {
      ghost var step := Tallied(rules, txs[..i + 1], u, height);
      assert txs[..i + 1][..i] == txs[..i];
      if step.Err? {
        TalliedErr(rules, txs, u, height, i + 1);
      }
      var raw :- ValidateTxContextual(rules, txs[i], scratch, height);
      var burn :- Burn(rules, txs[i], height);
      if raw < burn {
        return Err;
      }
      var extra :- ExtraFee(rules, txs[i], height);
      if raw - burn < extra {
        return Err;
      }
      fees := fees + (raw - burn);
      scratch :- ConnectTxUtxos(scratch, rules.id(txs[i]), txs[i], height, false);
    }
    assert txs[..|txs|] == txs;
    return Ok(Tally(scratch, fees));
  }

  /** connect_block_utxos. */
  method ConnectBlockUtxos(rules: Rules, b: Block, u: Utxos, height: nat) returns (r: Result<Utxos>)
    ensures r == ConnectAll(rules, b.transactions, u, height)
  {
    hide ConnectTx;
    var txs := b.transactions;
    var utxos := u;
    for i := 0 to |txs|
      invariant ConnectAll(rules, txs[..i], u, height) == Ok(utxos)
    {
      assert txs[..i + 1][..i] == txs[..i];
      ghost var step := ConnectAll(rules, txs[..i + 1], u, height);
      if step.Err? {
        ConnectAllErr(rules, txs, u, height, i + 1);
      }
      utxos :- ConnectTxUtxos(utxos, rules.id(txs[i]), txs[i], height, i == 0);
    }
    assert txs[..|txs|] == txs;
    return Ok(utxos);
  }

  /** validate_block: cheap checks first, then the transactions, then the coinbase's claim. */
  method ValidateBlock(rules: Rules, b: Block, u: Utxos, prev: Hash, height: nat, bits: U32, now: U32) returns (ok: bool)
    requires rules.Valid()
    ensures ok <==> BlockOk(rules, b, u, prev, height, bits, now)
  {
    hide Tallied, Stateless, HeaderOk, Subsidy, OutValue;
    if b.transactions == [] || |b.transactions| > rules.maxTransactions {
      return false;
    }
    if !HeaderOk(rules, b, prev, height, bits, now) || !IsCoinbase(b.transactions[0]) {
      return false;
    }
    for i := 1 to |b.transactions|
      invariant forall k :: 1 <= k < i ==> !IsCoinbase(b.transactions[k])
    {
      if IsCoinbase(b.transactions[i]) {
        return false;
      }
    }
    var distinct := AllNew(Ids(rules, b.transactions));
    if !distinct {
      return false;
    }
    var tally := TallyTransactions(rules, b.transactions[1..], u, height);
    if tally.Err? {
      return false;
    }
    var stateless := ValidateTxStateless(rules, b.transactions[0]);
    return stateless && OutValue(b.transactions[0].outputs) <= Subsidy(rules, height) + tally.value.fees;
  }
}
