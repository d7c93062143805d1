/** Which pending transactions a node keeps: admission, rebuild and what survives a reorganisation (src/lib.rs). */
module Mempool {
  import opened Addresses
  import opened Consensus
  import opened HeaderChain
  import opened Merkle
  import opened Outcome
  import opened PayoutPlan
  import opened PoolRegistry
  import opened PoolWindow
  import opened PoolsOnChain
  import opened Sorting
  import opened UtxoSet
  import opened Wire

  /**
    Local policy. `jinFee` and `features` stand for the JIN, name, library, sale and governance
    validators, seen from a chain state and the transactions already pending; `standard` for the limits
    on public-sale purchases.
   */
  datatype Policy = Policy(
    totalLimit: nat, shareLimit: nat, minRelayFee: nat, pools: LoadedRules,
    standard: Transaction -> bool,
    jinFee: (seq<Block>, Utxos, seq<Transaction>, Transaction) -> Result<nat>,
    features: (seq<Block>, Utxos, seq<Transaction>, Transaction) -> bool,
    shareOrder: (Transaction, Transaction) -> bool,
    ordinaryOrder: (Transaction, Transaction) -> bool)

  // ---- Lists of distinct transactions ------------------------------------------------------

  predicate HasId(rules: Rules, txs: seq<Transaction>, id: Hash)
  {
    exists i :: 0 <= i < |txs| && rules.id(txs[i]) == id
  }

  ghost predicate DistinctIds(rules: Rules, txs: seq<Transaction>)
  {
    forall i, j :: 0 <= i < j < |txs| ==> rules.id(txs[i]) != rules.id(txs[j])
  }

  /** The first transaction of every id. */
  function Unique(rules: Rules, txs: seq<Transaction>): seq<Transaction>
  {
    if txs == [] then []
    else
      var before, last := Unique(rules, txs[..|txs| - 1]), txs[|txs| - 1];
      if HasId(rules, before, rules.id(last)) then before else before + [last]
  }

  lemma {:induction false} UniqueKeepsAll(rules: Rules, txs: seq<Transaction>)
    ensures DistinctIds(rules, Unique(rules, txs))
    ensures forall tx :: tx in Unique(rules, txs) ==> tx in txs
    ensures forall i :: 0 <= i < |txs| ==> HasId(rules, Unique(rules, txs), rules.id(txs[i]))
  {
    if txs != [] {
      var n := |txs| - 1;
      UniqueKeepsAll(rules, txs[..n]);
      var before, after := Unique(rules, txs[..n]), Unique(rules, txs);
      assert after == before || after == before + [txs[n]];
      forall i | 0 <= i < |txs|
        ensures HasId(rules, after, rules.id(txs[i]))
      {
        if i < n {
          assert txs[..n][i] == txs[i];
          HasIdGrows(rules, before, txs[n], rules.id(txs[i]));
        } else if after == before + [txs[n]] {
          assert after[|before|] == txs[n];
        }
      }
    }
  }

  lemma HasIdGrows(rules: Rules, txs: seq<Transaction>, tx: Transaction, id: Hash)
    ensures HasId(rules, txs, id) ==> HasId(rules, txs + [tx], id)
  {
    if HasId(rules, txs, id) {
      var i :| 0 <= i < |txs| && rules.id(txs[i]) == id;
      assert (txs + [tx])[i] == txs[i];
    }
  }

  /** The set of ids already seen, the form the code keeps it in. */
  method KeepUnique(rules: Rules, txs: seq<Transaction>) returns (r: seq<Transaction>)
    ensures r == Unique(rules, txs)
  {
    var seen: set<Hash> := {};
    r := [];
    for i := 0 to |txs|
      invariant r == Unique(rules, txs[..i])
      invariant forall id :: id in seen <==> HasId(rules, r, id)
    {
      assert txs[..i + 1][..i] == txs[..i];
      var id := rules.id(txs[i]);
      if id !in seen {
        seen := seen + {id};
        AddedId(rules, r, txs[i]);
        r := r + [txs[i]];
      }
    }
    assert txs[..|txs|] == txs;
  }

  lemma AddedId(rules: Rules, r: seq<Transaction>, tx: Transaction)
    ensures forall id :: HasId(rules, r + [tx], id) <==> HasId(rules, r, id) || id == rules.id(tx)
  {
    forall id
      ensures HasId(rules, r + [tx], id) <==> HasId(rules, r, id) || id == rules.id(tx)
    {
      HasIdGrows(rules, r, tx, id);
      assert (r + [tx])[|r|] == tx;
    }
  }

  // ---- The pending list --------------------------------------------------------------------

  /** Two transactions that cannot both be confirmed. */
  predicate Conflict(a: Transaction, b: Transaction)
  {
    exists i, j :: 0 <= i < |a.inputs| && 0 <= j < |b.inputs|
      && a.inputs[i].previous == b.inputs[j].previous && a.inputs[i].previous != NULL_OUTPOINT
  }

  /** No id twice and no outpoint spent twice. */
  ghost predicate Coherent(rules: Rules, pool: seq<Transaction>)
  {
    DistinctIds(rules, pool) && forall i, j :: 0 <= i < j < |pool| ==> !Conflict(pool[i], pool[j])
  }

  function Shares(pool: seq<Transaction>): nat
  {
    if pool == [] then 0 else Shares(pool[..|pool| - 1]) + if IsPoolShare(pool[|pool| - 1]) then 1 else 0
  }

  predicate Spends(pool: seq<Transaction>, tx: Transaction)
  {
    exists k :: 0 <= k < |pool| && Conflict(pool[k], tx)
  }

  /** The share names a recent block of this chain as its parent; others can never be confirmed. */
  predicate Confirmable(policy: Policy, blocks: seq<Block>, tx: Transaction)
  {
    match ParseShare(policy.pools.shares, tx)
    case None => false
    case Some(s) =>
      && s.parentHeight < |blocks| && |blocks| - s.parentHeight <= policy.pools.Pools().stale
      && s.parentHash == BlockHash(policy.pools.shares.h, blocks[s.parentHeight])
  }

  /** prune_unconfirmable_pool_shares. */
  function Retained(policy: Policy, blocks: seq<Block>, pool: seq<Transaction>): (r: seq<Transaction>)
    ensures forall tx :: tx in r ==> tx in pool
  {
    if pool == [] then []
    else
      var before, last := Retained(policy, blocks, pool[..|pool| - 1]), pool[|pool| - 1];
      if IsPoolShare(last) && !Confirmable(policy, blocks, last) then before else before + [last]
  }

  /** What a full list gives up: exactly the shares that no block on this tip can confirm. */
  lemma {:induction false} RetainedMembers(policy: Policy, blocks: seq<Block>, pool: seq<Transaction>, tx: Transaction)
    ensures tx in Retained(policy, blocks, pool) <==>
              tx in pool && (IsPoolShare(tx) ==>
                match ParseShare(policy.pools.shares, tx)
                case None => false
                case Some(s) =>
                  && s.parentHeight < |blocks| <= s.parentHeight + policy.pools.Pools().stale
                  && s.parentHash == BlockHash(policy.pools.shares.h, blocks[s.parentHeight]))
  {
    hide IsPoolShare, ParseShare, BlockHash;
    if pool != [] {
      RetainedMembers(policy, blocks, pool[..|pool| - 1], tx);
    }
  }

  lemma UnconfirmableIsRefused(policy: Policy, blocks: seq<Block>, tx: Transaction, reg: Registry, w: Window)
    requires !Confirmable(policy, blocks, tx)
    ensures ValidateShare(policy.pools.shares, tx, blocks, |blocks|, reg, w).Err?
  {
    hide ParseShare, BlockHash, IsAddress, Fits;
  }

  /** absorb_mempool_shares: pending shares take part in the window without being checked again. */
  function Absorb(policy: Policy, blocks: seq<Block>, ctx: Checking, pool: seq<Transaction>): Checking
  {
    if pool == [] then ctx
    else
      var before := Absorb(policy, blocks, ctx, pool[..|pool| - 1]);
      match ParseShare(policy.pools.shares, pool[|pool| - 1])
      case None => before
      case Some(s) =>
        if s.pool in before.registry && ParentOk(policy.pools.shares, s, blocks, |blocks|, before.registry[s.pool])
        then before.(window := ScanShare(before.window, s, |blocks|, 0, 0)) else before
  }

  /** The pending shares a batch context counts: for a pool it knows, with a parent a block on this tip accepts. */
  function PendingLog(policy: Policy, blocks: seq<Block>, reg: Registry, pool: seq<Transaction>): Log
  {
    if pool == [] then []
    else
      var before := PendingLog(policy, blocks, reg, pool[..|pool| - 1]);
      match ParseShare(policy.pools.shares, pool[|pool| - 1])
      case None => before
      case Some(s) =>
        if s.pool in reg && reg[s.pool].createdAt <= s.parentHeight < |blocks| <= s.parentHeight + policy.pools.Pools().stale
           && s.parentHash == BlockHash(policy.pools.shares.h, blocks[s.parentHeight])
        then before + [Logged(|blocks|, s)] else before
  }

  /** The batch context knows the confirmed history and, behind it, those pending shares. */
  lemma {:induction false} AbsorbedIsKnown(policy: Policy, blocks: seq<Block>, ctx: Checking, pool: seq<Transaction>, log: Log)
    requires Summarises(ctx.window, log, Before(|blocks|, policy.pools.Pools().stale), Before(|blocks|, policy.pools.Pools().window))
    ensures var after := Absorb(policy, blocks, ctx, pool);
            && after.registry == ctx.registry
            && Summarises(after.window, log + PendingLog(policy, blocks, ctx.registry, pool),
                          Before(|blocks|, policy.pools.Pools().stale), Before(|blocks|, policy.pools.Pools().window))
  {
    hide Summarises, ParseShare, BlockHash, ScanShare;
    if pool == [] {
      assert log + [] == log;
    } else {
      var n := |pool| - 1;
      AbsorbedIsKnown(policy, blocks, ctx, pool[..n], log);
      var before := Absorb(policy, blocks, ctx, pool[..n]);
      var known := log + PendingLog(policy, blocks, ctx.registry, pool[..n]);
      if ParseShare(policy.pools.shares, pool[n]).Some? {
        var s := ParseShare(policy.pools.shares, pool[n]).value;
        ScansAlike(before.window, s, |blocks|, Before(|blocks|, policy.pools.Pools().stale), Before(|blocks|, policy.pools.Pools().window));
        ScanShareSummarises(before.window, known, s, |blocks|, Before(|blocks|, policy.pools.Pools().stale), Before(|blocks|, policy.pools.Pools().window));
        assert log + (PendingLog(policy, blocks, ctx.registry, pool[..n]) + [Logged(|blocks|, s)]) == known + [Logged(|blocks|, s)];
      }
    }
  }

  lemma ScansAlike(w: Window, s: Share, height: nat, duplicateStart: nat, activeStart: nat)
    requires duplicateStart <= height && activeStart <= height
    ensures ScanShare(w, s, height, 0, 0) == ScanShare(w, s, height, duplicateStart, activeStart)
  {
  }

  lemma BatchContextMeans(rules: Rules, policy: Policy, blocks: seq<Block>, pool: seq<Transaction>)
    ensures BatchContext(rules, policy, blocks, pool).Ok? <==> FromBlocks(policy.pools.Pools(), rules.id, blocks).Ok?
    ensures BatchContext(rules, policy, blocks, pool).Ok? ==>
              var (ctx, reg) := (BatchContext(rules, policy, blocks, pool).value, FromBlocks(policy.pools.Pools(), rules.id, blocks).value);
              && ctx.registry == reg
              && Summarises(ctx.window, History(policy.pools.shares, blocks) + PendingLog(policy, blocks, reg, pool),
                            Before(|blocks|, policy.pools.Pools().stale), Before(|blocks|, policy.pools.Pools().window))
  {
    hide Summarises, FromBlocks, History, WindowFromBlocks, Absorb, PendingLog;
    WindowSummarisesHistory(policy.pools.shares, blocks);
    if FromBlocks(policy.pools.Pools(), rules.id, blocks).Ok? {
      AbsorbedIsKnown(policy, blocks, FromConfirmed(rules, policy.pools, blocks, |blocks|).value, pool, History(policy.pools.shares, blocks));
    }
  }

  /** The context a batch of admissions starts from. */
  function BatchContext(rules: Rules, policy: Policy, blocks: seq<Block>, pool: seq<Transaction>): Result<Checking>
  {
    var confirmed :- FromConfirmed(rules, policy.pools, blocks, |blocks|);
    Ok(Absorb(policy, blocks, confirmed, pool))
  }

  /** What admission asks of a transaction while there is room: the pool context afterwards, or a refusal. */
  function Admitted(rules: Rules, policy: Policy, blocks: seq<Block>, u: Utxos, pool: seq<Transaction>, ctx: Checking, tx: Transaction): Result<Checking>
  {
    var height := |blocks|;
    if HasId(rules, pool, rules.id(tx)) || !policy.standard(tx) then Err
    else if IsPoolShare(tx) then
      var fee :- RawFee(rules, tx, u, height);
      CheckTx(policy.pools, tx, rules.id(tx), blocks, u, height, 0, ctx)
    else if Spends(pool, tx) then Err
    else
      var fee :- RawFee(rules, tx, u, height);
      var after :- CheckTx(policy.pools, tx, rules.id(tx), blocks, u, height, fee, ctx);
      var net :- NetFee(rules, tx, u, height);
      var jin :- policy.jinFee(blocks, u, pool, tx);
      if (!IsClaim(rules, tx) && net < policy.minRelayFee && jin == 0) || !policy.features(blocks, u, pool, tx) then Err else Ok(after)
  }

  lemma {:induction false} RetainedCoherent(rules: Rules, policy: Policy, blocks: seq<Block>, pool: seq<Transaction>)
    requires Coherent(rules, pool)
    ensures Coherent(rules, Retained(policy, blocks, pool))
    ensures Shares(Retained(policy, blocks, pool)) <= Shares(pool) && |Retained(policy, blocks, pool)| <= |pool|
  {
    if pool != [] {
      var n := |pool| - 1;
      RetainedCoherent(rules, policy, blocks, pool[..n]);
      var before := Retained(policy, blocks, pool[..n]);
      forall i | 0 <= i < |before|
        ensures rules.id(before[i]) != rules.id(pool[n]) && !Conflict(before[i], pool[n])
      {
        assert before[i] in pool[..n];
      }
      assert (before + [pool[n]])[..|before|] == before;
    }
  }

  lemma AppendCoherent(rules: Rules, pool: seq<Transaction>, tx: Transaction)
    requires Coherent(rules, pool) && !HasId(rules, pool, rules.id(tx))
    requires IsPoolShare(tx) || !Spends(pool, tx)
    ensures Coherent(rules, pool + [tx])
    ensures Shares(pool + [tx]) == Shares(pool) + if IsPoolShare(tx) then 1 else 0
  {
    assert (pool + [tx])[..|pool|] == pool;
    forall k | 0 <= k < |pool|
      ensures rules.id(pool[k]) != rules.id(tx) && !Conflict(pool[k], tx)
    {
    }
  }

  /** A pending transaction on its own is worth what it declares: fee, burn and further fees against the chain's coins. */
  predicate Funded(rules: Rules, blocks: seq<Block>, u: Utxos, tx: Transaction)
  {
    if IsPoolShare(tx) then RawFee(rules, tx, u, |blocks|).Ok? else NetFee(rules, tx, u, |blocks|).Ok?
  }

  /** The pending list between calls. */
  ghost predicate Settled(rules: Rules, policy: Policy, blocks: seq<Block>, u: Utxos, pool: seq<Transaction>)
  {
    && Coherent(rules, pool) && |pool| <= policy.totalLimit && Shares(pool) <= policy.shareLimit
    && forall tx :: tx in pool ==> Funded(rules, blocks, u, tx)
  }

  lemma AdmittedIsFunded(rules: Rules, policy: Policy, blocks: seq<Block>, u: Utxos, pool: seq<Transaction>, ctx: Checking, tx: Transaction)
    requires Admitted(rules, policy, blocks, u, pool, ctx, tx).Ok?
    ensures Funded(rules, blocks, u, tx) && !HasId(rules, pool, rules.id(tx)) && (IsPoolShare(tx) || !Spends(pool, tx))
  {
    hide RawFee, CheckTx, NetFee, HasId, Spends, IsClaim;
  }

  /**
    accept_transaction_to_mempool_with_context. A full queue is first cleared of unconfirmable shares,
    which renews the context; a transaction is then added or the list is otherwise left alone.
   */
  method Admit(rules: Rules, policy: Policy, blocks: seq<Block>, u: Utxos, pool: seq<Transaction>, shareCount: nat, ctx: Checking, tx: Transaction)
    returns (ok: bool, after: seq<Transaction>, shares: nat, context: Checking)
    requires Settled(rules, policy, blocks, u, pool) && shareCount == Shares(pool)
    ensures Settled(rules, policy, blocks, u, after) && shares == Shares(after)
    ensures var full := |pool| >= policy.totalLimit || (IsPoolShare(tx) && Shares(pool) >= policy.shareLimit);
            var kept := if full then Retained(policy, blocks, pool) else pool;
            match if |kept| != |pool| then BatchContext(rules, policy, blocks, kept) else Ok(ctx)
            case Err => !ok && after == kept && context == ctx
            case Ok(now) =>
              if |kept| >= policy.totalLimit || (IsPoolShare(tx) && Shares(kept) >= policy.shareLimit) then !ok && after == kept && context == now
              else match Admitted(rules, policy, blocks, u, kept, now, tx)
                case Ok(next) => ok && after == kept + [tx] && context == next
                case Err => !ok && after == kept && context == now
  {
    hide Coherent, Conflict, Shares, Spends, HasId, Retained, RawFee, NetFee, CheckTx, Absorb, FromConfirmed, Admitted, Funded, IsPoolShare, Confirmable;
    after, shares, context := pool, shareCount, ctx;
    if |after| >= policy.totalLimit || (IsPoolShare(tx) && shares >= policy.shareLimit) {
      RetainedCoherent(rules, policy, blocks, pool);
      after := Retained(policy, blocks, pool);
      shares := Shares(after);
      if |after| != |pool| {
        var renewed := BatchContext(rules, policy, blocks, after);
        if renewed.Err? {
          return false, after, shares, context;
        }
        context := renewed.value;
      }
    }
    if |after| >= policy.totalLimit || (IsPoolShare(tx) && shares >= policy.shareLimit) {
      return false, after, shares, context;
    }
    var next := Admitted(rules, policy, blocks, u, after, context, tx);
    if next.Err? {
      return false, after, shares, context;
    }
    AdmittedIsFunded(rules, policy, blocks, u, after, context, tx);
    AppendCoherent(rules, after, tx);
    return true, after + [tx], shares + (if IsPoolShare(tx) then 1 else 0), next.value;
  }

  /**
    With room, an ordinary transaction is admitted exactly when it is new, standard, spends nothing that
    something pending spends, pays every fee the block will ask, passes the features, and, unless it claims
    from a vault or offers a JIN fee, leaves the miner at least the relay floor.
   */
  lemma AdmittedMeans(rules: Rules, policy: Policy, blocks: seq<Block>, u: Utxos, pool: seq<Transaction>, ctx: Checking, tx: Transaction)
    requires !IsPoolShare(tx)
    ensures var (net, jin) := (NetFee(rules, tx, u, |blocks|), policy.jinFee(blocks, u, pool, tx));
            Admitted(rules, policy, blocks, u, pool, ctx, tx).Ok? <==>
              && (forall k :: 0 <= k < |pool| ==> rules.id(pool[k]) != rules.id(tx) && !Conflict(pool[k], tx))
              && policy.standard(tx) && policy.features(blocks, u, pool, tx)
              && net.Ok? && jin.Ok? && (IsClaim(rules, tx) || jin.value > 0 || net.value >= policy.minRelayFee)
              && CheckTx(policy.pools, tx, rules.id(tx), blocks, u, |blocks|, RawFee(rules, tx, u, |blocks|).value, ctx).Ok?
  {
    hide CheckTx, RawFee, Burn, ExtraFee, Conflict, IsClaim;
  }

  /** And a share exactly when it is new, standard and acceptable to the pools. */
  lemma ShareAdmittedMeans(rules: Rules, policy: Policy, blocks: seq<Block>, u: Utxos, pool: seq<Transaction>, ctx: Checking, tx: Transaction)
    requires IsPoolShare(tx)
    ensures Admitted(rules, policy, blocks, u, pool, ctx, tx).Ok? <==>
              && (forall k :: 0 <= k < |pool| ==> rules.id(pool[k]) != rules.id(tx)) && policy.standard(tx)
              && policy.pools.Pools().enabled && ValidateShare(policy.pools.shares, tx, blocks, |blocks|, ctx.registry, ctx.window).Ok?
  {
    hide ValidateShare;
    ShareHasNoActions(policy.pools.Pools(), tx);
  }

  // ---- What pending transactions can spend -------------------------------------------------

  /** Admission looks at confirmed coins only: who spends anything else is refused, whatever is pending. */
  lemma UnconfirmedInputIsRefused(rules: Rules, policy: Policy, blocks: seq<Block>, u: Utxos, pool: seq<Transaction>, ctx: Checking,
                                  tx: Transaction, i: nat)
    requires !IsPoolShare(tx) && !IsCoinbase(tx) && i < |tx.inputs| && tx.inputs[i].previous !in u
    ensures Admitted(rules, policy, blocks, u, pool, ctx, tx).Err?
  {
    hide CheckTx, NetFee, HasId, Spends, Stateless;
    assert !InputOk(rules, tx, i, u, |blocks|);
  }

  /** So no chain of pending transactions ever forms: everything pending spends coins of the chain itself. */
  lemma PendingSpendsConfirmed(rules: Rules, policy: Policy, blocks: seq<Block>, u: Utxos, pool: seq<Transaction>, tx: Transaction, i: nat)
    requires Settled(rules, policy, blocks, u, pool) && tx in pool && !IsPoolShare(tx) && !IsCoinbase(tx) && i < |tx.inputs|
    ensures tx.inputs[i].previous in u
  {
    hide Coherent, Stateless, Burn, ExtraFee;
    assert Funded(rules, blocks, u, tx);
    if !IsClaim(rules, tx) {
      assert InputOk(rules, tx, i, u, |blocks|);
    }
  }

  // ---- Rebuild -----------------------------------------------------------------------------

  function Part(txs: seq<Transaction>, shares: bool): (r: seq<Transaction>)
    ensures forall tx :: tx in r <==> tx in txs && IsPoolShare(tx) == shares
  {
    if txs == [] then []
    else
      var before, last := Part(txs[..|txs| - 1], shares), txs[|txs| - 1];
      if IsPoolShare(last) == shares then before + [last] else before
  }

  /** The shares a rebuild keeps: each in its turn, while their queue has room. */
  function Picked(rules: Rules, policy: Policy, blocks: seq<Block>, u: Utxos, start: Checking, queue: seq<Transaction>): (seq<Transaction>, Checking)
  {
    if queue == [] then ([], start)
    else
      var (pool, ctx) := Picked(rules, policy, blocks, u, start, queue[..|queue| - 1]);
      if |pool| >= policy.totalLimit || Shares(pool) >= policy.shareLimit then (pool, ctx)
      else match Admitted(rules, policy, blocks, u, pool, ctx, queue[|queue| - 1])
        case Ok(c) => (pool + [queue[|queue| - 1]], c)
        case Err => (pool, ctx)
  }

  // Once full, the queue stays as it is.
  lemma {:induction false} FullStaysPicked(rules: Rules, policy: Policy, blocks: seq<Block>, u: Utxos, start: Checking, queue: seq<Transaction>, n: nat)
    requires n <= |queue|
    requires var pool := Picked(rules, policy, blocks, u, start, queue[..n]).0; |pool| >= policy.totalLimit || Shares(pool) >= policy.shareLimit
    ensures Picked(rules, policy, blocks, u, start, queue) == Picked(rules, policy, blocks, u, start, queue[..n])
    decreases |queue| - n
  {
    hide Admitted, Shares;
    if n < |queue| {
      assert queue[..n + 1][..n] == queue[..n];
      FullStaysPicked(rules, policy, blocks, u, start, queue, n + 1);
    } else {
      assert queue[..n] == queue;
    }
  }

  // A share the window has no place for finds none after another one was added either.
  lemma RefusedStaysRefused(w: Window, added: Share, s: Share, addedRoom: nat, room: nat)
    requires Fits(w, added, addedRoom) && !Fits(w, s, room) && (added.pool == s.pool ==> addedRoom == room)
    ensures !Fits(AddShare(w, added), s, room)
  {
    hide KeyOf;
    SubsetSize(MinersOf(w, s.pool), MinersOf(w, s.pool) + {added.miner});
  }

  lemma ShareStaysRefused(rules: Rules, policy: Policy, blocks: seq<Block>, u: Utxos, pool: seq<Transaction>, ctx: Checking, added: Transaction, tx: Transaction)
    requires IsPoolShare(tx) && IsPoolShare(added) && Admitted(rules, policy, blocks, u, pool, ctx, tx).Err?
    requires Admitted(rules, policy, blocks, u, pool, ctx, added).Ok?
    ensures Admitted(rules, policy, blocks, u, pool + [added], Admitted(rules, policy, blocks, u, pool, ctx, added).value, tx).Err?
  {
    hide RawFee, ParentOk, HasId, IsPoolShare, Fits, AddShare, ParseShare;
    HasIdGrows(rules, pool, added, rules.id(tx));
    ShareHasNoActions(policy.pools.Pools(), tx);
    ShareHasNoActions(policy.pools.Pools(), added);
    if ParseShare(policy.pools.shares, tx).Some? {
      var s, t := ParseShare(policy.pools.shares, tx).value, ParseShare(policy.pools.shares, added).value;
      if s.pool in ctx.registry && !Fits(ctx.window, s, ctx.registry[s.pool].capacity) {
        RefusedStaysRefused(ctx.window, t, s, ctx.registry[t.pool].capacity, ctx.registry[s.pool].capacity);
      }
    }
  }

  /** With room left, no share that was passed over could still be added. */
  lemma {:induction false} PickedIsMaximal(rules: Rules, policy: Policy, blocks: seq<Block>, u: Utxos, start: Checking, queue: seq<Transaction>, i: nat)
    requires i < |queue| && forall tx :: tx in queue ==> IsPoolShare(tx)
    ensures var (pool, ctx) := Picked(rules, policy, blocks, u, start, queue);
            |pool| >= policy.totalLimit || Shares(pool) >= policy.shareLimit || queue[i] in pool || Admitted(rules, policy, blocks, u, pool, ctx, queue[i]).Err?
  {
    hide Admitted, Shares, IsPoolShare;
    var n := |queue| - 1;
    var (pool, ctx) := Picked(rules, policy, blocks, u, start, queue[..n]);
    PickedMembers(rules, policy, blocks, u, start, queue[..n]);
    if i < n {
      PickedIsMaximal(rules, policy, blocks, u, start, queue[..n], i);
      if queue[i] !in pool && |pool| < policy.totalLimit && Shares(pool) < policy.shareLimit && Admitted(rules, policy, blocks, u, pool, ctx, queue[n]).Ok? {
        ShareStaysRefused(rules, policy, blocks, u, pool, ctx, queue[n], queue[i]);
      }
    }
  }

  lemma {:induction false} PickedMembers(rules: Rules, policy: Policy, blocks: seq<Block>, u: Utxos, start: Checking, queue: seq<Transaction>)
    ensures forall tx :: tx in Picked(rules, policy, blocks, u, start, queue).0 ==> tx in queue
  {
    hide Admitted, Shares;
    if queue != [] {
      PickedMembers(rules, policy, blocks, u, start, queue[..|queue| - 1]);
    }
  }

  /** First pass of the rebuild: the oldest shares while their queue has room. */
  method RebuildShares(rules: Rules, policy: Policy, blocks: seq<Block>, u: Utxos, start: Checking, candidates: seq<Transaction>)
    returns (pool: seq<Transaction>, ctx: Checking)
    requires forall tx :: tx in candidates ==> IsPoolShare(tx)
    ensures Settled(rules, policy, blocks, u, pool) && (pool, ctx) == Picked(rules, policy, blocks, u, start, candidates)
  {
    hide Settled, Admitted, Shares;
    pool, ctx := [], start;
    var count := 0;
    EmptyIsCoherent(rules, policy, blocks, u);
    for i := 0 to |candidates|
      invariant Settled(rules, policy, blocks, u, pool) && count == Shares(pool)
      invariant (pool, ctx) == Picked(rules, policy, blocks, u, start, candidates[..i])
    {
      assert candidates[..i + 1][..i] == candidates[..i];
      if |pool| >= policy.totalLimit || count >= policy.shareLimit {
        FullStaysPicked(rules, policy, blocks, u, start, candidates, i);
        return;
      }
      var ok;
      ok, pool, count, ctx := Admit(rules, policy, blocks, u, pool, count, ctx, candidates[i]);
    }
    assert candidates[..|candidates|] == candidates;
  }

  lemma EmptyIsCoherent(rules: Rules, policy: Policy, blocks: seq<Block>, u: Utxos)
    ensures Settled(rules, policy, blocks, u, []) && Shares([]) == 0
  {
  }

  /** One sweep over what is still pending; `left` is what was refused. */
  method Sweep(rules: Rules, policy: Policy, blocks: seq<Block>, u: Utxos, start: seq<Transaction>, context: Checking, pending: seq<Transaction>)
    returns (pool: seq<Transaction>, ctx: Checking, left: seq<Transaction>)
    requires Settled(rules, policy, blocks, u, start) && forall tx :: tx in pending ==> !IsPoolShare(tx)
    ensures Settled(rules, policy, blocks, u, pool) && |left| <= |pending|
    ensures forall tx :: tx in pool ==> tx in start || tx in pending
    ensures forall tx :: tx in left ==> tx in pending
    ensures |pool| < policy.totalLimit ==> |pool| + |left| == |start| + |pending| && forall tx :: tx in pending ==> tx in pool || tx in left
    ensures forall tx :: tx in start ==> tx in pool
    ensures |start| <= |pool|
    ensures |pool| < policy.totalLimit && |left| == |pending| ==>
              pool == start && ctx == context && forall tx :: tx in pending ==> Admitted(rules, policy, blocks, u, pool, ctx, tx).Err?
  {
    hide Settled, Admitted, Shares;
    pool, ctx, left := start, context, [];
    var count := Shares(pool);
    for i := 0 to |pending|
      invariant Settled(rules, policy, blocks, u, pool) && count == Shares(pool) && |left| <= i
      invariant forall tx :: tx in pool ==> tx in start || tx in pending
      invariant forall tx :: tx in left ==> tx in pending
      invariant forall tx :: tx in start ==> tx in pool
      invariant |pool| + |left| == |start| + i
      invariant forall k :: 0 <= k < i ==> pending[k] in pool || pending[k] in left
      invariant |left| == i ==> pool == start && ctx == context && forall k :: 0 <= k < i ==> Admitted(rules, policy, blocks, u, start, context, pending[k]).Err?
    {
      if |pool| >= policy.totalLimit {
        break;
      }
      assert pending[i] in pending;
      var ok;
      ok, pool, count, ctx := Admit(rules, policy, blocks, u, pool, count, ctx, pending[i]);
      if !ok {
        left := left + [pending[i]];
      }
    }
  }

  const REBUILD_PASSES: nat := 8

  /**
    What a rebuild leaves: the shares picked in their order, and then, unless the list is full, either eight
    ordinary transactions or more, or every ordinary candidate that could still be admitted.
   */
  ghost predicate Rebuilt(rules: Rules, policy: Policy, blocks: seq<Block>, u: Utxos, txs: seq<Transaction>, pool: seq<Transaction>, ctx: Checking)
  {
    && Settled(rules, policy, blocks, u, pool) && (forall tx :: tx in pool ==> tx in txs)
    && match FromConfirmed(rules, policy.pools, blocks, |blocks|)
       case Err => pool == []
       case Ok(start) =>
         var picked := Picked(rules, policy, blocks, u, start, Sort(Part(Unique(rules, txs), true), policy.shareOrder)).0;
         && (forall tx :: tx in picked ==> tx in pool)
         && (|pool| >= policy.totalLimit || |pool| >= |picked| + 8 || NothingLeft(rules, policy, blocks, u, Unique(rules, txs), pool, ctx))
  }

  /** No ordinary candidate outside the list could be added to it. */
  ghost predicate NothingLeft(rules: Rules, policy: Policy, blocks: seq<Block>, u: Utxos, candidates: seq<Transaction>, pool: seq<Transaction>, ctx: Checking)
  {
    forall tx :: tx in candidates && !IsPoolShare(tx) ==> tx in pool || Admitted(rules, policy, blocks, u, pool, ctx, tx).Err?
  }

  /** rebuild_mempool_from: the shares in their order, then up to eight sweeps over the rest. */
  method Rebuild(rules: Rules, policy: Policy, blocks: seq<Block>, u: Utxos, txs: seq<Transaction>) returns (pool: seq<Transaction>, ghost ctx: Checking)
    ensures Rebuilt(rules, policy, blocks, u, txs, pool, ctx)
  {
    hide Settled, Admitted, Shares, FromConfirmed, Picked, Unique;
    var unique := KeepUnique(rules, txs);
    UniqueKeepsAll(rules, txs);
    var shares := Sort(Part(unique, true), policy.shareOrder);
    var pending := Sort(Part(unique, false), policy.ordinaryOrder);
    SortMembers(Part(unique, true), policy.shareOrder);
    SortMembers(Part(unique, false), policy.ordinaryOrder);
    var confirmed := FromConfirmed(rules, policy.pools, blocks, |blocks|);
    if confirmed.Err? {
      EmptyIsCoherent(rules, policy, blocks, u);
      return [], Checking(map[], EMPTY_WINDOW);
    }
    var context;
    pool, context := RebuildShares(rules, policy, blocks, u, confirmed.value, shares);
    PickedMembers(rules, policy, blocks, u, confirmed.value, shares);
    ghost var picked := pool;
    ctx := context;
    for pass := 0 to REBUILD_PASSES
      invariant Settled(rules, policy, blocks, u, pool) && ctx == context
      invariant |pool| >= policy.totalLimit || |pool| >= |picked| + pass
      invariant forall tx :: tx in picked ==> tx in pool
      invariant forall tx :: tx in pool ==> tx in txs
      invariant forall tx :: tx in pending ==> tx in unique && !IsPoolShare(tx)
      invariant |pool| < policy.totalLimit ==> forall tx :: tx in unique && !IsPoolShare(tx) ==> tx in pool || tx in pending
    {
      if pending == [] || |pool| >= policy.totalLimit {
        break;
      }
      var left;
      pool, context, left := Sweep(rules, policy, blocks, u, pool, context, pending);
      ctx := context;
      if |left| == |pending| {
        break;
      }
      pending := left;
    }
  }
}
