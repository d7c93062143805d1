/**
  Pool shares (src/pools.rs): the bounded window a share is checked against, and why checking only
  recent blocks is enough for rules about the whole history.
 */
module PoolWindow {
  import opened Addresses
  import opened Arithmetic
  import opened HeaderChain
  import opened Merkle
  import opened Outcome
  import opened PoolRegistry
  import opened UtxoSet
  import opened Wire

  /** `proof` is what the share's key leaves out: public key and signature. */
  datatype Share = Share(pool: Hash, miner: string, parentHeight: nat, parentHash: Hash, nonce: nat, proof: string)

  /** pool_share_key, as the tuple its text is made of. */
  datatype ShareKey = ShareKey(pool: Hash, miner: string, parentHeight: nat, parentHash: Hash, nonce: nat)

  /** Splitting a share into its fields, and the checks on work, key and signature that depend on the share alone. */
  datatype ShareRules = ShareRules(pools: Pools, h: Hasher, share: Script -> Option<Share>, genuine: Share -> bool)

  datatype Window = Window(poolOf: map<string, Hash>, minersOf: map<Hash, set<string>>, seen: set<ShareKey>)

  const EMPTY_WINDOW: Window := Window(map[], map[], {})

  function KeyOf(s: Share): ShareKey
  {
    ShareKey(s.pool, s.miner, s.parentHeight, s.parentHash, s.nonce)
  }

  /** parse_pool_share_tx. */
  function ParseShare(r: ShareRules, tx: Transaction): Option<Share>
  {
    if IsPoolShare(tx) then r.share(tx.inputs[0].script) else None
  }

  function Before(height: nat, distance: nat): nat
  {
    if height < distance then 0 else height - distance
  }

  // ---- The window --------------------------------------------------------------------------

  function MinersOf(w: Window, pool: Hash): set<string>
  {
    if pool in w.minersOf then w.minersOf[pool] else {}
  }

  /** add_active_unchecked. */
  function AddActive(w: Window, s: Share): Window
  {
    w.(poolOf := if s.miner in w.poolOf then w.poolOf else w.poolOf[s.miner := s.pool],
       minersOf := w.minersOf[s.pool := MinersOf(w, s.pool) + {s.miner}])
  }

  function ScanShare(w: Window, s: Share, height: nat, duplicateStart: nat, activeStart: nat): Window
  {
    var noted := if height >= duplicateStart then w.(seen := w.seen + {KeyOf(s)}) else w;
    if height >= activeStart then AddActive(noted, s) else noted
  }

  function BlockShares(r: ShareRules, txs: seq<Transaction>): seq<Share>
  {
    if txs == [] then []
    else
      var before, last := BlockShares(r, txs[..|txs| - 1]), ParseShare(r, txs[|txs| - 1]);
      if last.Some? then before + [last.value] else before
  }

  /** The shares of a block are what its share transactions carry, in order. */
  lemma {:induction false} BlockSharesConcat(r: ShareRules, a: seq<Transaction>, b: seq<Transaction>)
    ensures BlockShares(r, a + b) == BlockShares(r, a) + BlockShares(r, b)
    ensures a == [] ==> BlockShares(r, a) == []
    ensures |a| == 1 ==>
              BlockShares(r, a) == if IsPoolShare(a[0]) && r.share(a[0].inputs[0].script).Some? then [r.share(a[0].inputs[0].script).value] else []
  {
    hide IsPoolShare;
    if b == [] {
      assert a + b == a;
    } else {
      assert (a + b)[..|a + b| - 1] == a + b[..|b| - 1];
      BlockSharesConcat(r, a, b[..|b| - 1]);
    }
    if |a| == 1 {
      assert a[..0] == [];
    }
  }

  function ScanShares(w: Window, shares: seq<Share>, height: nat, duplicateStart: nat, activeStart: nat): Window
  {
    if shares == [] then w
    else ScanShare(ScanShares(w, shares[..|shares| - 1], height, duplicateStart, activeStart), shares[|shares| - 1], height, duplicateStart, activeStart)
  }

  function Scan(r: ShareRules, blocks: seq<Block>, from: nat, to: nat, duplicateStart: nat, activeStart: nat): Window
    requires to <= |blocks|
  {
    if to <= from then EMPTY_WINDOW
    else ScanShares(Scan(r, blocks, from, to - 1, duplicateStart, activeStart), BlockShares(r, AfterCoinbase(blocks[to - 1])), to - 1, duplicateStart, activeStart)
  }

  /** PoolWindowState::from_blocks. */
  function WindowFromBlocks(r: ShareRules, blocks: seq<Block>, spendHeight: nat): Window
  {
    var activeStart, duplicateStart := Before(spendHeight, r.pools.window), Before(spendHeight, r.pools.stale);
    Scan(r, blocks, Max(Min(activeStart, duplicateStart), 1), Min(spendHeight, |blocks|), duplicateStart, activeStart)
  }

  /** The checks of validate_and_add_share. */
  predicate Fits(w: Window, s: Share, capacity: nat)
  {
    && KeyOf(s) !in w.seen
    && (s.miner in w.poolOf ==> w.poolOf[s.miner] == s.pool)
    && (s.miner in MinersOf(w, s.pool) || |MinersOf(w, s.pool)| < capacity)
  }

  function AddShare(w: Window, s: Share): Window
  {
    Window(w.poolOf[s.miner := s.pool], w.minersOf[s.pool := MinersOf(w, s.pool) + {s.miner}], w.seen + {KeyOf(s)})
  }

  /** The parent must be one of the `stale` blocks before the spending height, at or after the pool's creation. */
  predicate ParentOk(r: ShareRules, s: Share, prior: seq<Block>, height: nat, pool: PoolRecord)
  {
    && pool.createdAt <= s.parentHeight < |prior|
    && s.parentHash == BlockHash(r.h, prior[s.parentHeight])
    && s.parentHeight < height && height - s.parentHeight <= r.pools.stale
  }

  /** validate_share_tx_against_context. */
  function ValidateShare(r: ShareRules, tx: Transaction, prior: seq<Block>, height: nat, reg: Registry, w: Window): Result<Window>
  {
    if !r.pools.Active(height) || ParseShare(r, tx).None? then Err
    else
      var s := ParseShare(r, tx).value;
      if !IsAddress(r.pools.addresses, s.miner) || s.pool !in reg || !ParentOk(r, s, prior, height, reg[s.pool]) || !r.genuine(s) || !Fits(w, s, reg[s.pool].capacity) then Err
      else Ok(AddShare(w, s))
  }

  // ---- The object the code updates in place ------------------------------------------------

  class PoolWindowState {
    var activePoolByMiner: map<string, Hash>
    var activeMinersByPool: map<Hash, set<string>>
    var seenShareKeys: set<ShareKey>

    function Value(): Window
      reads this
    {
      Window(activePoolByMiner, activeMinersByPool, seenShareKeys)
    }

    constructor Empty()
      ensures Value() == EMPTY_WINDOW
    {
      activePoolByMiner, activeMinersByPool, seenShareKeys := map[], map[], {};
    }

    method AddActiveUnchecked(s: Share)
      modifies this
      ensures Value() == AddActive(old(Value()), s)
    {
      if s.miner !in activePoolByMiner {
        activePoolByMiner := activePoolByMiner[s.miner := s.pool];
      }
      var miners := if s.pool in activeMinersByPool then activeMinersByPool[s.pool] else {};
      activeMinersByPool := activeMinersByPool[s.pool := miners + {s.miner}];
    }

    /** A rejected share leaves the context untouched. */
    method ValidateAndAddShare(s: Share, capacity: nat) returns (ok: bool)
      modifies this
      ensures ok <==> Fits(old(Value()), s, capacity)
      ensures Value() == if ok then AddShare(old(Value()), s) else old(Value())
    {
      if KeyOf(s) in seenShareKeys {
        return false;
      }
      if s.miner in activePoolByMiner && activePoolByMiner[s.miner] != s.pool {
        return false;
      }
      var miners := if s.pool in activeMinersByPool then activeMinersByPool[s.pool] else {};
      if s.miner !in miners && |miners| >= capacity {
        return false;
      }
      seenShareKeys := seenShareKeys + {KeyOf(s)};
      activeMinersByPool := activeMinersByPool[s.pool := miners + {s.miner}];
      activePoolByMiner := activePoolByMiner[s.miner := s.pool];
      return true;
    }

    method ScanBlock(r: ShareRules, b: Block, height: nat, duplicateStart: nat, activeStart: nat)
      modifies this
      ensures Value() == ScanShares(old(Value()), BlockShares(r, AfterCoinbase(b)), height, duplicateStart, activeStart)
    {
      hide ParseShare, ScanShare, AddActive;
      ghost var start := Value();
      var txs := AfterCoinbase(b);
      for i := 0 to |txs|
        invariant Value() == ScanShares(start, BlockShares(r, txs[..i]), height, duplicateStart, activeStart)
      {
        assert txs[..i + 1][..i] == txs[..i];
        var share := ParseShare(r, txs[i]);
        if share.Some? {
          ScanSharesAppend(start, BlockShares(r, txs[..i]), share.value, height, duplicateStart, activeStart);
          ScanOne(share.value, height, duplicateStart, activeStart);
        }
      }
      assert txs[..|txs|] == txs;
    }

    method ScanOne(s: Share, height: nat, duplicateStart: nat, activeStart: nat)
      modifies this
      ensures Value() == ScanShare(old(Value()), s, height, duplicateStart, activeStart)
    {
      hide AddActive;
      if height >= duplicateStart {
        seenShareKeys := seenShareKeys + {KeyOf(s)};
      }
      if height >= activeStart {
        AddActiveUnchecked(s);
      }
    }

    static method FromBlocks(r: ShareRules, blocks: seq<Block>, spendHeight: nat) returns (state: PoolWindowState)
      ensures fresh(state) && state.Value() == WindowFromBlocks(r, blocks, spendHeight)
    {
      hide ScanShares, BlockShares;
      state := new PoolWindowState.Empty();
      var activeStart, duplicateStart := Before(spendHeight, r.pools.window), Before(spendHeight, r.pools.stale);
      var start, end := Max(Min(activeStart, duplicateStart), 1), Min(spendHeight, |blocks|);
      if start < end {
        for height := start to end
          invariant fresh(state) && state.Value() == Scan(r, blocks, start, height, duplicateStart, activeStart)
        {
          state.ScanBlock(r, blocks[height], height, duplicateStart, activeStart);
        }
      }
    }
  }

  lemma ScanSharesAppend(w: Window, shares: seq<Share>, s: Share, height: nat, duplicateStart: nat, activeStart: nat)
    ensures ScanShares(w, shares + [s], height, duplicateStart, activeStart)
         == ScanShare(ScanShares(w, shares, height, duplicateStart, activeStart), s, height, duplicateStart, activeStart)
  {
    assert (shares + [s])[..|shares|] == shares;
  }

  // ---- The whole history -------------------------------------------------------------------

  /** A confirmed share and the height of its block. */
  datatype Logged = Logged(height: nat, share: Share)
  type Log = seq<Logged>

  function Tagged(shares: seq<Share>, height: nat): (log: Log)
    ensures |log| == |shares| && forall i :: 0 <= i < |log| ==> log[i] == Logged(height, shares[i])
  {
    seq(|shares|, i requires 0 <= i < |shares| => Logged(height, shares[i]))
  }

  function History(r: ShareRules, blocks: seq<Block>): Log
  {
    if |blocks| <= 1 then []
    else History(r, blocks[..|blocks| - 1]) + Tagged(BlockShares(r, AfterCoinbase(blocks[|blocks| - 1])), |blocks| - 1)
  }

  ghost predicate HasKey(log: Log, from: nat, key: ShareKey)
  {
    exists i :: 0 <= i < |log| && log[i].height >= from && KeyOf(log[i].share) == key
  }

  /** The miners with a share for this pool at or after a height. */
  ghost function Miners(log: Log, from: nat, pool: Hash): set<string>
  {
    set i | 0 <= i < |log| && log[i].height >= from && log[i].share.pool == pool :: log[i].share.miner
  }

  ghost predicate MinedFor(log: Log, from: nat, miner: string, pool: Hash)
  {
    exists i :: 0 <= i < |log| && log[i].height >= from && log[i].share.miner == miner && log[i].share.pool == pool
  }

  /** What the window knows about the history. */
  ghost predicate Summarises(w: Window, log: Log, duplicateStart: nat, activeStart: nat)
  {
    && (forall key :: key in w.seen <==> HasKey(log, duplicateStart, key))
    && (forall pool :: MinersOf(w, pool) == Miners(log, activeStart, pool))
    && (forall miner :: miner in w.poolOf ==> MinedFor(log, activeStart, miner, w.poolOf[miner]))
    && (forall i :: 0 <= i < |log| && log[i].height >= activeStart ==> log[i].share.miner in w.poolOf)
  }

  lemma HasKeyAppend(log: Log, l: Logged, from: nat)
    ensures forall key :: HasKey(log + [l], from, key) <==> HasKey(log, from, key) || (l.height >= from && KeyOf(l.share) == key)
  {
    forall key
      ensures HasKey(log + [l], from, key) <==> HasKey(log, from, key) || (l.height >= from && KeyOf(l.share) == key)
    {
      if HasKey(log, from, key) {
        var i :| 0 <= i < |log| && log[i].height >= from && KeyOf(log[i].share) == key;
        assert (log + [l])[i] == log[i];
      }
      assert (log + [l])[|log|] == l;
    }
  }

  lemma MinersAppend(log: Log, l: Logged, from: nat, pool: Hash)
    ensures Miners(log + [l], from, pool) == Miners(log, from, pool) + if l.height >= from && l.share.pool == pool then {l.share.miner} else {}
  {
    var more := log + [l];
    forall m | m in Miners(log, from, pool)
      ensures m in Miners(more, from, pool)
    {
      var i :| 0 <= i < |log| && log[i].height >= from && log[i].share.pool == pool && log[i].share.miner == m;
      assert more[i] == log[i];
    }
    if l.height >= from && l.share.pool == pool {
      assert more[|log|] == l;
    }
  }

  lemma MinedForAppend(log: Log, l: Logged, from: nat, miner: string, pool: Hash)
    ensures MinedFor(log, from, miner, pool) ==> MinedFor(log + [l], from, miner, pool)
    ensures l.height >= from ==> MinedFor(log + [l], from, l.share.miner, l.share.pool)
  {
    if MinedFor(log, from, miner, pool) {
      var i :| 0 <= i < |log| && log[i].height >= from && log[i].share.miner == miner && log[i].share.pool == pool;
      assert (log + [l])[i] == log[i];
    }
    assert (log + [l])[|log|] == l;
  }

  lemma ScanShareSummarises(w: Window, log: Log, s: Share, height: nat, duplicateStart: nat, activeStart: nat)
    requires Summarises(w, log, duplicateStart, activeStart)
    ensures Summarises(ScanShare(w, s, height, duplicateStart, activeStart), log + [Logged(height, s)], duplicateStart, activeStart)
  {
    hide HasKey, Miners, MinedFor, KeyOf;
    var l := Logged(height, s);
    var w' := ScanShare(w, s, height, duplicateStart, activeStart);
    HasKeyAppend(log, l, duplicateStart);
    forall pool
      ensures MinersOf(w', pool) == Miners(log + [l], activeStart, pool)
    {
      MinersAppend(log, l, activeStart, pool);
    }
    forall miner | miner in w'.poolOf
      ensures MinedFor(log + [l], activeStart, miner, w'.poolOf[miner])
    {
      MinedForAppend(log, l, activeStart, miner, w'.poolOf[miner]);
    }
  }

  lemma AddShareSummarises(w: Window, log: Log, s: Share, height: nat, duplicateStart: nat, activeStart: nat)
    requires Summarises(w, log, duplicateStart, activeStart) && duplicateStart <= height && activeStart <= height
    requires s.miner in w.poolOf ==> w.poolOf[s.miner] == s.pool
    ensures Summarises(AddShare(w, s), log + [Logged(height, s)], duplicateStart, activeStart)
  {
    hide HasKey, Miners, MinedFor, KeyOf;
    ScanShareSummarises(w, log, s, height, duplicateStart, activeStart);
    var scanned, added := ScanShare(w, s, height, duplicateStart, activeStart), AddShare(w, s);
    assert scanned.poolOf == added.poolOf;
    assert scanned == added;
  }

  lemma {:induction false} ScanSharesSummarises(w: Window, log: Log, shares: seq<Share>, height: nat, duplicateStart: nat, activeStart: nat)
    requires Summarises(w, log, duplicateStart, activeStart)
    ensures Summarises(ScanShares(w, shares, height, duplicateStart, activeStart), log + Tagged(shares, height), duplicateStart, activeStart)
  {
    hide Summarises, ScanShare;
    if shares == [] {
      assert log + Tagged(shares, height) == log;
    } else {
      var n := |shares| - 1;
      ScanSharesSummarises(w, log, shares[..n], height, duplicateStart, activeStart);
      ScanShareSummarises(ScanShares(w, shares[..n], height, duplicateStart, activeStart), log + Tagged(shares[..n], height), shares[n], height, duplicateStart, activeStart);
      assert log + Tagged(shares, height) == log + Tagged(shares[..n], height) + [Logged(height, shares[n])];
    }
  }

  lemma OldSharesDoNotMatter(log: Log, shares: seq<Share>, height: nat, duplicateStart: nat, activeStart: nat)
    requires height < duplicateStart && height < activeStart && Summarises(EMPTY_WINDOW, log, duplicateStart, activeStart)
    ensures Summarises(EMPTY_WINDOW, log + Tagged(shares, height), duplicateStart, activeStart)
  {
    hide Summarises;
    ScanSharesSummarises(EMPTY_WINDOW, log, shares, height, duplicateStart, activeStart);
    ScanOldShares(EMPTY_WINDOW, shares, height, duplicateStart, activeStart);
  }

  lemma {:induction false} ScanOldShares(w: Window, shares: seq<Share>, height: nat, duplicateStart: nat, activeStart: nat)
    requires height < duplicateStart && height < activeStart
    ensures ScanShares(w, shares, height, duplicateStart, activeStart) == w
  {
    if shares != [] {
      ScanOldShares(w, shares[..|shares| - 1], height, duplicateStart, activeStart);
    }
  }

  lemma NothingSummarised(duplicateStart: nat, activeStart: nat)
    ensures Summarises(EMPTY_WINDOW, [], duplicateStart, activeStart)
  {
  }

  lemma {:induction false} ScanSummarises(r: ShareRules, blocks: seq<Block>, from: nat, to: nat, duplicateStart: nat, activeStart: nat)
    requires to <= |blocks| && from == Max(Min(activeStart, duplicateStart), 1)
    ensures Summarises(Scan(r, blocks, from, to, duplicateStart, activeStart), History(r, blocks[..to]), duplicateStart, activeStart)
  {
    hide Summarises, ScanShares, BlockShares;
    if to <= 1 {
      NothingSummarised(duplicateStart, activeStart);
    } else {
      var n := to - 1;
      assert blocks[..to][..n] == blocks[..n];
      ScanSummarises(r, blocks, from, n, duplicateStart, activeStart);
      var shares := BlockShares(r, AfterCoinbase(blocks[n]));
      if to <= from {
        OldSharesDoNotMatter(History(r, blocks[..n]), shares, n, duplicateStart, activeStart);
      } else {
        ScanSharesSummarises(Scan(r, blocks, from, n, duplicateStart, activeStart), History(r, blocks[..n]), shares, n, duplicateStart, activeStart);
      }
    }
  }

  /** The bounded scan knows everything about the full history that lies within its two horizons. */
  lemma WindowSummarisesHistory(r: ShareRules, blocks: seq<Block>)
    ensures Summarises(WindowFromBlocks(r, blocks, |blocks|), History(r, blocks), Before(|blocks|, r.pools.stale), Before(|blocks|, r.pools.window))
  {
    hide Summarises, Scan, History;
    var activeStart, duplicateStart := Before(|blocks|, r.pools.window), Before(|blocks|, r.pools.stale);
    ScanSummarises(r, blocks, Max(Min(activeStart, duplicateStart), 1), |blocks|, duplicateStart, activeStart);
    assert blocks[..|blocks|] == blocks;
  }

  // ---- Rules about the whole history -------------------------------------------------------

  ghost predicate Ordered(log: Log, height: nat)
  {
    && (forall i, j :: 0 <= i < j < |log| ==> log[i].height <= log[j].height)
    && (forall i :: 0 <= i < |log| ==> log[i].height <= height)
  }

  /** Every share was confirmed within its age limit. */
  ghost predicate Timely(r: ShareRules, log: Log)
  {
    forall i :: 0 <= i < |log| ==> log[i].share.parentHeight < log[i].height <= log[i].share.parentHeight + r.pools.stale
  }

  /** No share is confirmed twice, however far apart. */
  ghost predicate NoShareTwice(log: Log)
  {
    forall i, j :: 0 <= i < j < |log| ==> KeyOf(log[i].share) != KeyOf(log[j].share)
  }

  predicate Nearby(r: ShareRules, a: Logged, b: Logged)
  {
    a.share.miner == b.share.miner && a.height <= b.height <= a.height + r.pools.window
  }

  /** Two shares of a miner at most a window apart name one pool. */
  ghost predicate OnePoolPerMiner(r: ShareRules, log: Log)
  {
    forall i, j :: 0 <= i < |log| && 0 <= j < |log| && Nearby(r, log[i], log[j]) ==> log[i].share.pool == log[j].share.pool
  }

  /** In the window ending here no pool has more miners than it has room for. */
  ghost predicate WithinCapacity(r: ShareRules, log: Log, height: nat, reg: Registry)
  {
    forall pool :: pool in reg ==> |Miners(log, Before(height, r.pools.window), pool)| <= reg[pool].capacity
  }

  ghost predicate PoolsKnown(log: Log, reg: Registry)
  {
    forall i :: 0 <= i < |log| ==> log[i].share.pool in reg
  }

  ghost predicate HistoryOk(r: ShareRules, log: Log, height: nat, reg: Registry)
  {
    && Ordered(log, height) && Timely(r, log) && NoShareTwice(log) && OnePoolPerMiner(r, log)
    && WithinCapacity(r, log, height, reg) && PoolsKnown(log, reg)
  }

  lemma RecentIsSeen(log: Log, w: Window, duplicateStart: nat, activeStart: nat, i: nat)
    requires Summarises(w, log, duplicateStart, activeStart) && i < |log|
    ensures log[i].height >= duplicateStart ==> KeyOf(log[i].share) in w.seen
    ensures log[i].height >= activeStart ==> log[i].share.miner in w.poolOf && MinedFor(log, activeStart, log[i].share.miner, w.poolOf[log[i].share.miner])
  {
    hide MinedFor, Miners;
  }

  // A duplicate of an acceptable share would have to lie within the duplicate horizon.
  lemma NewKey(r: ShareRules, log: Log, w: Window, s: Share, height: nat)
    requires Timely(r, log) && NoShareTwice(log)
    requires Summarises(w, log, Before(height, r.pools.stale), Before(height, r.pools.window))
    requires KeyOf(s) !in w.seen && s.parentHeight < height <= s.parentHeight + r.pools.stale
    ensures NoShareTwice(log + [Logged(height, s)]) && Timely(r, log + [Logged(height, s)])
  {
    hide Summarises;
    forall i | 0 <= i < |log|
      ensures KeyOf(log[i].share) != KeyOf(s)
    {
      RecentIsSeen(log, w, Before(height, r.pools.stale), Before(height, r.pools.window), i);
    }
  }

  // The window's one pool of a miner is the pool of all his recent shares.
  lemma SamePool(r: ShareRules, log: Log, w: Window, s: Share, height: nat)
    requires Ordered(log, height) && OnePoolPerMiner(r, log)
    requires Summarises(w, log, Before(height, r.pools.stale), Before(height, r.pools.window))
    requires s.miner in w.poolOf ==> w.poolOf[s.miner] == s.pool
    ensures OnePoolPerMiner(r, log + [Logged(height, s)]) && Ordered(log + [Logged(height, s)], height)
  {
    hide Summarises, OnePoolPerMiner;
    forall i | 0 <= i < |log| && Nearby(r, log[i], Logged(height, s))
      ensures log[i].share.pool == s.pool
    {
      RecentSamePool(r, log, w, s, height, i);
    }
    OnePoolAppend(r, log, Logged(height, s));
  }

  lemma OnePoolAppend(r: ShareRules, log: Log, l: Logged)
    requires OnePoolPerMiner(r, log) && Ordered(log, l.height)
    requires forall i :: 0 <= i < |log| && Nearby(r, log[i], l) ==> log[i].share.pool == l.share.pool
    ensures OnePoolPerMiner(r, log + [l])
  {
    forall i, j | 0 <= i < |log| + 1 && 0 <= j < |log| + 1 && Nearby(r, (log + [l])[i], (log + [l])[j])
      ensures (log + [l])[i].share.pool == (log + [l])[j].share.pool
    {
      if i < |log| && j < |log| {
        assert Nearby(r, log[i], log[j]);
      } else if j < |log| {
        assert Nearby(r, log[j], l);
      }
    }
  }

  lemma RecentSamePool(r: ShareRules, log: Log, w: Window, s: Share, height: nat, i: nat)
    requires Ordered(log, height) && OnePoolPerMiner(r, log) && i < |log| && Nearby(r, log[i], Logged(height, s))
    requires Summarises(w, log, Before(height, r.pools.stale), Before(height, r.pools.window))
    requires s.miner in w.poolOf ==> w.poolOf[s.miner] == s.pool
    ensures log[i].share.pool == s.pool
  {
    hide Summarises;
    var active := Before(height, r.pools.window);
    RecentIsSeen(log, w, Before(height, r.pools.stale), active, i);
    var k :| 0 <= k < |log| && log[k].height >= active && log[k].share.miner == s.miner && log[k].share.pool == s.pool;
    assert Nearby(r, log[i], log[k]) || Nearby(r, log[k], log[i]);
  }

  lemma Room(r: ShareRules, log: Log, w: Window, s: Share, height: nat, reg: Registry)
    requires WithinCapacity(r, log, height, reg) && PoolsKnown(log, reg) && s.pool in reg
    requires Summarises(w, log, Before(height, r.pools.stale), Before(height, r.pools.window))
    requires s.miner in MinersOf(w, s.pool) || |MinersOf(w, s.pool)| < reg[s.pool].capacity
    ensures WithinCapacity(r, log + [Logged(height, s)], height, reg) && PoolsKnown(log + [Logged(height, s)], reg)
  {
    hide Miners;
    var active := Before(height, r.pools.window);
    forall pool | pool in reg
      ensures |Miners(log + [Logged(height, s)], active, pool)| <= reg[pool].capacity
    {
      MinersAppend(log, Logged(height, s), active, pool);
      var before := Miners(log, active, pool);
      if pool == s.pool {
        if s.miner in before {
          assert before + {s.miner} == before;
        }
      } else {
        assert before + {} == before;
      }
    }
  }

  /** An accepted share keeps every rule about the whole history, and the window keeps summarising it. */
  lemma ShareKeepsHistory(r: ShareRules, log: Log, w: Window, tx: Transaction, prior: seq<Block>, height: nat, reg: Registry)
    requires HistoryOk(r, log, height, reg)
    requires Summarises(w, log, Before(height, r.pools.stale), Before(height, r.pools.window))
    requires ValidateShare(r, tx, prior, height, reg, w).Ok?
    ensures ParseShare(r, tx).Some?
    ensures HistoryOk(r, log + [Logged(height, ParseShare(r, tx).value)], height, reg)
    ensures Summarises(ValidateShare(r, tx, prior, height, reg, w).value, log + [Logged(height, ParseShare(r, tx).value)],
                       Before(height, r.pools.stale), Before(height, r.pools.window))
  {
    hide Summarises, Ordered, Timely, NoShareTwice, OnePoolPerMiner, WithinCapacity, PoolsKnown, ParseShare, BlockHash, IsAddress;
    var s := ParseShare(r, tx).value;
    NewKey(r, log, w, s, height);
    SamePool(r, log, w, s, height);
    Room(r, log, w, s, height, reg);
    AddShareSummarises(w, log, s, height, Before(height, r.pools.stale), Before(height, r.pools.window));
  }

  lemma SubsetSize<T>(a: set<T>, b: set<T>)
    requires a <= b
    ensures |a| <= |b|
  {
    assert b == a + (b - a);
  }

  /** A later height sees no more miners, and an evolving registry no less room. */
  lemma HistoryKept(r: ShareRules, log: Log, height: nat, later: nat, before: Registry, after: Registry)
    requires HistoryOk(r, log, height, before) && height <= later && Evolves(before, after)
    ensures HistoryOk(r, log, later, after)
  {
    forall pool | pool in after
      ensures |Miners(log, Before(later, r.pools.window), pool)| <= after[pool].capacity
    {
      var recent := Miners(log, Before(later, r.pools.window), pool);
      if pool in before {
        SubsetSize(recent, Miners(log, Before(height, r.pools.window), pool));
      } else {
        assert recent == {};
      }
    }
  }

  // ---- The window decides what the history would -------------------------------------------

  /** The pools a miner has shares for at or after a height. */
  ghost predicate OnlyFor(log: Log, from: nat, miner: string, pool: Hash)
  {
    forall i :: 0 <= i < |log| && log[i].height >= from && log[i].share.miner == miner ==> log[i].share.pool == pool
  }

  ghost predicate NeverConfirmed(log: Log, s: Share)
  {
    forall i :: 0 <= i < |log| ==> KeyOf(log[i].share) != KeyOf(s)
  }

  lemma WindowKnowsKeys(r: ShareRules, log: Log, w: Window, s: Share, height: nat)
    requires Timely(r, log) && Summarises(w, log, Before(height, r.pools.stale), Before(height, r.pools.window))
    requires s.parentHeight < height <= s.parentHeight + r.pools.stale
    ensures KeyOf(s) !in w.seen <==> NeverConfirmed(log, s)
  {
    hide Miners, MinedFor;
    if KeyOf(s) !in w.seen {
      forall i | 0 <= i < |log|
        ensures KeyOf(log[i].share) != KeyOf(s)
      {
        RecentIsSeen(log, w, Before(height, r.pools.stale), Before(height, r.pools.window), i);
      }
    }
  }

  lemma WindowKnowsPool(r: ShareRules, log: Log, w: Window, s: Share, height: nat)
    requires Ordered(log, height) && OnePoolPerMiner(r, log)
    requires Summarises(w, log, Before(height, r.pools.stale), Before(height, r.pools.window))
    ensures (s.miner in w.poolOf ==> w.poolOf[s.miner] == s.pool) <==> OnlyFor(log, Before(height, r.pools.window), s.miner, s.pool)
  {
    hide Summarises, OnePoolPerMiner;
    var active := Before(height, r.pools.window);
    if s.miner in w.poolOf {
      MinerIsMined(w, log, Before(height, r.pools.stale), active, s.miner);
      var k :| 0 <= k < |log| && log[k].height >= active && log[k].share.miner == s.miner && log[k].share.pool == w.poolOf[s.miner];
      if w.poolOf[s.miner] == s.pool {
        forall i | 0 <= i < |log| && log[i].height >= active && log[i].share.miner == s.miner
          ensures log[i].share.pool == s.pool
        {
          RecentShares(r, log, height, i, k);
        }
      }
    } else {
      forall i | 0 <= i < |log| && log[i].height >= active
        ensures log[i].share.miner != s.miner
      {
        RecentIsSeen(log, w, Before(height, r.pools.stale), active, i);
      }
    }
  }

  lemma MinerIsMined(w: Window, log: Log, duplicateStart: nat, activeStart: nat, miner: string)
    requires Summarises(w, log, duplicateStart, activeStart) && miner in w.poolOf
    ensures MinedFor(log, activeStart, miner, w.poolOf[miner])
  {
    hide MinedFor, Miners, HasKey;
  }

  // Two shares of one miner in the window ending at a height name one pool.
  lemma RecentShares(r: ShareRules, log: Log, height: nat, i: nat, k: nat)
    requires Ordered(log, height) && OnePoolPerMiner(r, log) && i < |log| && k < |log|
    requires log[i].height >= Before(height, r.pools.window) && log[k].height >= Before(height, r.pools.window)
    requires log[i].share.miner == log[k].share.miner
    ensures log[i].share.pool == log[k].share.pool
  {
    assert Nearby(r, log[i], log[k]) || Nearby(r, log[k], log[i]);
  }

  /**
    The bounded window accepts exactly the shares that the whole history would: for a known pool, with a
    fresh parent, genuine, never confirmed before, by a miner who in the window mined for this pool only and
    is one of its miners already or finds room.
   */
  lemma WindowDecidesHistory(r: ShareRules, log: Log, w: Window, tx: Transaction, prior: seq<Block>, height: nat, reg: Registry)
    requires HistoryOk(r, log, height, reg)
    requires Summarises(w, log, Before(height, r.pools.stale), Before(height, r.pools.window))
    ensures ValidateShare(r, tx, prior, height, reg, w).Ok? <==>
              && r.pools.enabled && height >= r.pools.activation && IsPoolShare(tx)
              && match r.share(tx.inputs[0].script)
                 case None => false
                 case Some(s) =>
                   && IsAddress(r.pools.addresses, s.miner) && s.pool in reg && r.genuine(s)
                   && reg[s.pool].createdAt <= s.parentHeight < |prior| && s.parentHash == BlockHash(r.h, prior[s.parentHeight])
                   && s.parentHeight < height <= s.parentHeight + r.pools.stale
                   && NeverConfirmed(log, s) && OnlyFor(log, Before(height, r.pools.window), s.miner, s.pool)
                   && var miners := Miners(log, Before(height, r.pools.window), s.pool);
                      s.miner in miners || |miners| < reg[s.pool].capacity
  {
    hide Summarises, Ordered, Timely, NoShareTwice, OnePoolPerMiner, WithinCapacity, PoolsKnown, BlockHash, IsAddress, NeverConfirmed,
         OnlyFor, Miners, KeyOf;
    if ParseShare(r, tx).Some? {
      var s := ParseShare(r, tx).value;
      WindowKnowsPool(r, log, w, s, height);
      WindowKnowsMiners(w, log, Before(height, r.pools.stale), Before(height, r.pools.window), s.pool);
      if s.parentHeight < height <= s.parentHeight + r.pools.stale {
        WindowKnowsKeys(r, log, w, s, height);
      }
    }
  }

  lemma WindowKnowsMiners(w: Window, log: Log, duplicateStart: nat, activeStart: nat, pool: Hash)
    requires Summarises(w, log, duplicateStart, activeStart)
    ensures MinersOf(w, pool) == Miners(log, activeStart, pool)
  {
    hide MinedFor, Miners, HasKey, MinersOf;
  }
}
