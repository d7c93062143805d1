/** The mutable chain state of src/lib.rs: connecting blocks, full replay, fork adoption and the pending list. */
module ChainStates {
  import opened Bytes
  import opened Consensus
  import opened Difficulty
  import opened HeaderChain
  import opened Mempool
  import opened Merkle
  import opened Outcome
  import opened PoolsOnChain
  import opened UtxoSet
  import opened Wire
  import Reorg

  // ---- Replays at different times ----------------------------------------------------------

  /** Time only ever stops rejecting a block: it must not lie too far in the future. */
  lemma AcceptLater(rules: Rules, blocks: seq<Block>, u: Utxos, b: Block, now: U32, later: U32)
    requires rules.Valid() && blocks != [] && now <= later && Accept(rules, blocks, u, b, now).Ok?
    ensures Accept(rules, blocks, u, b, later) == Accept(rules, blocks, u, b, now)
  {
    hide Tallied, ConnectAll, ProofOfWork, ShapeOk, Subsidy, RequiredWorkBits, Stateless;
  }

  lemma {:induction false} ReplayLater(rules: Rules, blocks: seq<Block>, now: U32, later: U32)
    requires rules.Valid() && now <= later && Replay(rules, blocks, now).Ok?
    ensures Replay(rules, blocks, later) == Replay(rules, blocks, now)
  {
    hide Accept;
    if |blocks| > 1 {
      var n := |blocks| - 1;
      ReplayLater(rules, blocks[..n], now, later);
      AcceptLater(rules, blocks[..n], Replay(rules, blocks[..n], now).value, blocks[n], now, later);
    }
  }

  lemma ReplayExtends(rules: Rules, blocks: seq<Block>, b: Block, now: U32)
    requires rules.Valid() && Replay(rules, blocks, now).Ok?
    ensures Replay(rules, blocks + [b], now) == Accept(rules, blocks, Replay(rules, blocks, now).value, b, now)
  {
    hide Accept;
    assert (blocks + [b])[..|blocks|] == blocks;
  }

  lemma {:induction false} ReplayErr(rules: Rules, blocks: seq<Block>, n: nat, now: U32)
    requires rules.Valid() && 0 < n <= |blocks| && Replay(rules, blocks[..n], now).Err?
    ensures Replay(rules, blocks, now).Err?
    decreases |blocks| - n
  {
    hide Accept;
    if n < |blocks| {
      assert blocks[..n + 1][..n] == blocks[..n];
      ReplayErr(rules, blocks, n + 1, now);
    } else {
      assert blocks[..n] == blocks;
    }
  }

  /** A replayed chain carries the work required of it. */
  lemma {:induction false} ReplayedWork(rules: Rules, blocks: seq<Block>, now: U32)
    requires rules.Valid() && Replay(rules, blocks, now).Ok?
    ensures WorkChecked(rules.work, blocks)
  {
    hide Accept, RequiredWorkBits;
    if |blocks| > 1 {
      var n := |blocks| - 1;
      ReplayedWork(rules, blocks[..n], now);
      AcceptedBits(rules, blocks[..n], Replay(rules, blocks[..n], now).value, blocks[n], now);
      forall i | 1 <= i < |blocks|
        ensures RequiredWorkBits(rules.work, blocks[..i], i) == Ok(blocks[i].header.bits)
      {
        assert blocks[..n][..if i < n then i else n] == blocks[..i];
      }
    }
  }

  lemma AcceptedBits(rules: Rules, blocks: seq<Block>, u: Utxos, b: Block, now: U32)
    requires rules.Valid() && blocks != [] && Accept(rules, blocks, u, b, now).Ok?
    ensures RequiredWorkBits(rules.work, blocks, |blocks|) == Ok(b.header.bits)
    ensures b.header.prev == BlockHash(rules.h, blocks[|blocks| - 1])
    ensures b.transactions != [] && NoDuplicates(Ids(rules, b.transactions))
    ensures b.header.merkleRoot == Root(rules.h, Ids(rules, b.transactions))
    ensures b.header.version == rules.version(|blocks|) && CheckpointOk(rules, |blocks|, BlockHash(rules.h, b))
  {
    hide Tallied, ConnectAll, ProofOfWork, Subsidy, RequiredWorkBits, Stateless;
  }

  /** Work of a chain that replays: always defined. */
  lemma ReplayedHasWork(rules: Rules, blocks: seq<Block>, now: U32)
    requires rules.Valid() && Replay(rules, blocks, now).Ok?
    ensures ChainWork(blocks).Ok?
  {
    hide ChainWork;
    ReplayedWork(rules, blocks, now);
    CheckedChainHasWork(rules.work, blocks, |blocks|);
    assert blocks[..|blocks|] == blocks;
  }

  /** Every block of a chain that replays was valid where it stands. */
  lemma {:induction false} ReplayedIsValid(rules: Rules, blocks: seq<Block>, now: U32, i: nat)
    requires rules.Valid() && Replay(rules, blocks, now).Ok? && 1 <= i < |blocks|
    ensures Replay(rules, blocks[..i], now).Ok? && RequiredWorkBits(rules.work, blocks[..i], i).Ok?
    ensures BlockOk(rules, blocks[i], Replay(rules, blocks[..i], now).value, BlockHash(rules.h, blocks[i - 1]), i,
                    RequiredWorkBits(rules.work, blocks[..i], i).value, now)
    ensures rules.features(blocks[..i], Replay(rules, blocks[..i], now).value, i, blocks[i])
    ensures forall hash :: rules.checkpoint == Some((i, hash)) ==> BlockHash(rules.h, blocks[i]) == hash
  {
    hide BlockOk, RequiredWorkBits, BlockHash, ConnectAll;
    var n := |blocks| - 1;
    if i < n {
      ReplayedIsValid(rules, blocks[..n], now, i);
      assert blocks[..n][..i] == blocks[..i];
    }
  }

  /** Every block but the first was mined: its hash meets the target its bits stand for. */
  lemma ReplayedIsMined(rules: Rules, blocks: seq<Block>, now: U32, i: nat)
    requires rules.Valid() && Replay(rules, blocks, now).Ok? && 1 <= i < |blocks|
    ensures Decodable(blocks[i].header.bits) && LittleEndian(BlockHash(rules.h, blocks[i])) <= CompactValue(blocks[i].header.bits)
  {
    hide BlockOk, RequiredWorkBits, BlockHash, Decodable, CompactValue, LittleEndian, Replay, Tallied, Subsidy, OutValue, Root;
    ReplayedIsValid(rules, blocks, now, i);
    BlockOkMeans(rules, blocks[i], Replay(rules, blocks[..i], now).value, BlockHash(rules.h, blocks[i - 1]), i,
                 RequiredWorkBits(rules.work, blocks[..i], i).value, now);
  }

  /** The ids of the rules are the double hashes of the serialized transactions. */
  ghost predicate IdsAgree(rules: Rules, b: Block)
  {
    EncodableBlock(b) && Ids(rules, b.transactions) == Txids(rules.h, b.transactions)
  }

  /** Accepted chains are linked chains of committed blocks, so their tip determines them. */
  lemma {:induction false} ReplayedIsLinked(rules: Rules, blocks: seq<Block>, now: U32)
    requires rules.Valid() && Replay(rules, blocks, now).Ok?
    requires forall i :: 0 <= i < |blocks| ==> IdsAgree(rules, blocks[i])
    requires Committed(rules.h, rules.genesis)
    ensures Linked(rules.h, blocks)
  {
    hide Accept, Committed, IdsAgree, BlockHash;
    if |blocks| > 1 {
      var n := |blocks| - 1;
      ReplayedIsLinked(rules, blocks[..n], now);
      AcceptedBits(rules, blocks[..n], Replay(rules, blocks[..n], now).value, blocks[n], now);
      AgreeingIsCommitted(rules, blocks[n]);
      forall i | 1 <= i < |blocks|
        ensures blocks[i].header.prev == BlockHash(rules.h, blocks[i - 1])
      {
        if i < n {
          assert blocks[..n][i] == blocks[i];
        }
      }
    }
  }

  lemma AgreeingIsCommitted(rules: Rules, b: Block)
    requires IdsAgree(rules, b) && b.transactions != [] && NoDuplicates(Ids(rules, b.transactions))
    requires b.header.merkleRoot == Root(rules.h, Ids(rules, b.transactions))
    ensures Committed(rules.h, b)
  {
  }

  // ---- The object --------------------------------------------------------------------------

  /** The pending transactions a block did not confirm, in their order. */
  function StillPending(rules: Rules, pool: seq<Transaction>, confirmed: seq<Transaction>): seq<Transaction>
  {
    if pool == [] then []
    else
      var before, last := StillPending(rules, pool[..|pool| - 1], confirmed), pool[|pool| - 1];
      if HasId(rules, confirmed, rules.id(last)) then before else before + [last]
  }

  lemma {:induction false} StillPendingMembers(rules: Rules, pool: seq<Transaction>, confirmed: seq<Transaction>)
    ensures forall tx :: tx in StillPending(rules, pool, confirmed) <==> tx in pool && !HasId(rules, confirmed, rules.id(tx))
  {
    hide HasId;
    if pool != [] {
      StillPendingMembers(rules, pool[..|pool| - 1], confirmed);
    }
  }

  lemma RebuiltWithin(rules: Rules, policy: Policy, blocks: seq<Block>, u: Utxos, txs: seq<Transaction>, pool: seq<Transaction>, ctx: Checking)
    requires Rebuilt(rules, policy, blocks, u, txs, pool, ctx)
    ensures forall tx :: tx in pool ==> tx in txs
  {
    hide Settled, Picked, Admitted;
  }

  // What fails later failed earlier, and no extension repairs it.
  lemma RefusedEarly(rules: Rules, blocks: seq<Block>, n: nat, now: U32, later: U32)
    requires rules.Valid() && 0 < n <= |blocks| && now <= later && Replay(rules, blocks[..n], later).Err?
    ensures Replay(rules, blocks, now).Err?
  {
    hide Accept, Replay;
    if Replay(rules, blocks[..n], now).Ok? {
      ReplayLater(rules, blocks[..n], now, later);
    }
    ReplayErr(rules, blocks, n, now);
  }

  lemma ReplayOfGenesis(rules: Rules, now: U32)
    requires rules.Valid()
    ensures Replay(rules, [rules.genesis], now) == Ok(map[])
  {
  }

  /** Everything connect_block checks before it changes anything, and the unspent set it leads to. */
  method CheckBlock(rules: Rules, prior: seq<Block>, u: Utxos, b: Block, now: U32) returns (r: Result<Utxos>)
    requires rules.Valid() && prior != []
    ensures r == Accept(rules, prior, u, b, now)
  {
    hide RequiredWorkBits, BlockOk, ConnectAll, BlockHash;
    var bits :- RequiredWorkBits(rules.work, prior, |prior|);
    var ok := ValidateBlock(rules, b, u, BlockHash(rules.h, prior[|prior| - 1]), |prior|, bits, now);
    if !ok || !rules.features(prior, u, |prior|, b) || !CheckpointOk(rules, |prior|, BlockHash(rules.h, b)) {
      return Err;
    }
    r := ConnectBlockUtxos(rules, b, u, |prior|);
  }

  function Tip(rules: Rules, blocks: seq<Block>): Hash
    requires blocks != []
  {
    BlockHash(rules.h, blocks[|blocks| - 1])
  }

  /** Adoption looks at accumulated work, then height. */
  predicate Heavier(work: nat, height: nat, thanWork: nat, thanHeight: nat)
  {
    work > thanWork || (work == thanWork && height > thanHeight)
  }

  class ChainState {
    var blocks: seq<Block>
    var utxos: Utxos
    var mempool: seq<Transaction>

    /** The unspent set is what replaying the blocks gives, and the replay passes every check. */
    ghost predicate Valid(rules: Rules, now: U32)
      reads this
    {
      rules.Valid() && Replay(rules, blocks, now) == Ok(utxos)
    }

    function Height(): nat
      reads this
      requires blocks != []
    {
      |blocks| - 1
    }

    constructor NewWithGenesis(rules: Rules)
      ensures blocks == [rules.genesis] && utxos == map[] && mempool == []
    {
      blocks, utxos, mempool := [rules.genesis], map[], [];
    }

    /** connect_block: an accepted block moves the state to the replay of the longer chain; a rejected one changes nothing. */
    method ConnectBlock(rules: Rules, policy: Policy, b: Block, now: U32, ghost past: U32) returns (r: Result<Hash>)
      requires Valid(rules, past) && past <= now
      modifies this
      ensures Valid(rules, now)
      ensures r.Ok? <==> Replay(rules, old(blocks) + [b], now).Ok?
      ensures r.Ok? ==> r.value == BlockHash(rules.h, b) && blocks == old(blocks) + [b]
      ensures r.Ok? ==> exists ctx :: Rebuilt(rules, policy, blocks, utxos, StillPending(rules, old(mempool), b.transactions), mempool, ctx)
      ensures old(mempool) == [] ==> mempool == []
      ensures r.Ok? ==> forall tx :: tx in mempool ==> tx in old(mempool) && !HasId(rules, b.transactions, rules.id(tx))
      ensures r.Err? ==> blocks == old(blocks) && utxos == old(utxos) && mempool == old(mempool)
    {
      hide RequiredWorkBits, BlockOk, ConnectAll, BlockHash, Rebuilt;
      ReplayLater(rules, blocks, past, now);
      ReplayExtends(rules, blocks, b, now);
      var checked := CheckBlock(rules, blocks, utxos, b, now);
      if checked.Err? {
        return Err;
      }
      var confirmed := Ids(rules, b.transactions);
      var pending := KeepPending(rules, b.transactions);
      blocks, utxos := blocks + [b], checked.value;
      ghost var ctx;
      mempool, ctx := Rebuild(rules, policy, blocks, utxos, pending);
      RebuiltWithin(rules, policy, blocks, utxos, pending, mempool, ctx);
      StillPendingMembers(rules, old(mempool), b.transactions);
      assert mempool != [] ==> mempool[0] in pending;
      return Ok(BlockHash(rules.h, b));
    }

    method KeepPending(rules: Rules, confirmed: seq<Transaction>) returns (pending: seq<Transaction>)
      ensures pending == StillPending(rules, mempool, confirmed)
    {
      hide HasId;
      pending := [];
      for i := 0 to |mempool|
        invariant pending == StillPending(rules, mempool[..i], confirmed)
      {
        assert mempool[..i + 1][..i] == mempool[..i];
        if !HasId(rules, confirmed, rules.id(mempool[i])) {
          pending := pending + [mempool[i]];
        }
      }
      assert mempool[..|mempool|] == mempool;
    }

    /** validate_all: replay from genesis and compare. */
    method ValidateAll(rules: Rules, now: U32) returns (ok: bool)
      requires rules.Valid()
      ensures ok <==> Valid(rules, now)
    {
      hide Accept, Replay;
      if blocks == [] || blocks[0] != rules.genesis {
        FirstDecides(rules, blocks, now);
        return false;
      }
      var scratch: Utxos := map[];
      assert blocks[..1] == [blocks[0]];
      ReplayOfGenesis(rules, now);
      for i := 1 to |blocks|
        invariant Replay(rules, blocks[..i], now) == Ok(scratch)
      {
        ReplayExtends(rules, blocks[..i], blocks[i], now);
        assert blocks[..i] + [blocks[i]] == blocks[..i + 1];
        if Replay(rules, blocks[..i + 1], now).Err? {
          ReplayErr(rules, blocks, i + 1, now);
        }
        var next := CheckBlock(rules, blocks[..i], scratch, blocks[i], now);
        if next.Err? {
          return false;
        }
        scratch := next.value;
      }
      assert blocks[..|blocks|] == blocks;
      return scratch == utxos;
    }

    /** from_blocks: genesis, then one connect_block after the other while the clock moves on. */
    static method FromBlocks(rules: Rules, policy: Policy, all: seq<Block>, clock: nat -> U32) returns (r: Result<ChainState>)
      requires rules.Valid() && forall i, j :: 0 <= i <= j ==> clock(i) <= clock(j)
      ensures r.Ok? ==> fresh(r.value) && r.value.blocks == all && r.value.mempool == [] && r.value.Valid(rules, clock(|all|))
      ensures Replay(rules, all, clock(0)).Ok? ==> r.Ok?
    {
      hide Accept, Replay, Rebuilt, StillPending, HasId;
      if all == [] || all[0] != rules.genesis {
        FirstDecides(rules, all, clock(0));
        return Err;
      }
      var chain := new ChainState.NewWithGenesis(rules);
      assert all[..1] == [all[0]];
      ReplayOfGenesis(rules, clock(0));
      for i := 1 to |all|
        invariant fresh(chain) && chain.Valid(rules, clock(i - 1)) && chain.blocks == all[..i] && chain.mempool == []
      {
        assert all[..i] + [all[i]] == all[..i + 1];
        var connected := chain.ConnectBlock(rules, policy, all[i], clock(i), clock(i - 1));
        if connected.Err? {
          RefusedEarly(rules, all, i + 1, clock(0), clock(i));
          return Err;
        }
      }
      assert all[..|all|] == all;
      ReplayLater(rules, all, clock(|all| - 1), clock(|all|));
      return Ok(chain);
    }

    /**
      try_adopt_peer_chain: the candidate is validated on its own; it replaces this chain only when it is
      heavier, or a verified equal that the caller prefers. The pending list is rebuilt from everything known.
     */
    method TryAdoptPeerChain(rules: Rules, policy: Policy, peer: seq<Block>, preferPeerOnEqualWork: bool, clock: nat -> U32, ghost past: U32)
      returns (r: Result<bool>)
      requires Valid(rules, past) && past <= clock(0) && forall i, j :: 0 <= i <= j ==> clock(i) <= clock(j)
      modifies this
      ensures Valid(rules, clock(|peer|))
      ensures r == Ok(true) ==> blocks == peer && ChainWork(peer).Ok? && ChainWork(old(blocks)).Ok?
      ensures r == Ok(true) && !preferPeerOnEqualWork ==>
                Heavier(ChainWork(blocks).value, |blocks|, ChainWork(old(blocks)).value, |old(blocks)|)
      ensures r == Ok(true) ==> !Heavier(ChainWork(old(blocks)).value, |old(blocks)|, ChainWork(blocks).value, |blocks|)
      ensures r == Ok(false) ==> ChainWork(peer).Ok? && ChainWork(old(blocks)).Ok?
      ensures r == Ok(false) ==> !Heavier(ChainWork(peer).value, |peer|, ChainWork(old(blocks)).value, |old(blocks)|)
      ensures r == Ok(true) ==>
                exists ctx :: Rebuilt(rules, policy, blocks, utxos, Reorg.Candidates(rules, old(blocks), old(mempool), peer, []), mempool, ctx)
      ensures r != Ok(true) ==> blocks == old(blocks) && utxos == old(utxos) && mempool == old(mempool)
      ensures Replay(rules, peer, clock(0)).Ok? ==> r.Ok?
      ensures r.Ok? ==> Replay(rules, peer, clock(|peer|)).Ok? && ChainWork(peer).Ok? && ChainWork(old(blocks)).Ok?
      ensures r.Ok? ==>
                var (peerWork, ownWork) := (ChainWork(peer).value, ChainWork(old(blocks)).value);
                r.value <==>
                  || peerWork > ownWork
                  || (peerWork == ownWork && |peer| > |old(blocks)|)
                  || (peerWork == ownWork && |peer| == |old(blocks)| && preferPeerOnEqualWork
                      && BlockHash(rules.h, peer[|peer| - 1]) != BlockHash(rules.h, old(blocks)[|old(blocks)| - 1]))
    {
      hide Accept, ChainWork, Rebuilt, BlockHash, RequiredWorkBits, Reorg.Candidates;
      ReplayLater(rules, blocks, past, clock(|peer|));
      var built := FromBlocks(rules, policy, peer, clock);
      if built.Err? {
        return Err;
      }
      var candidate := built.value;
      ReplayedHasWork(rules, peer, clock(|peer|));
      ReplayedHasWork(rules, blocks, past);
      var candidateWork, currentWork := ChainWork(candidate.blocks).value, ChainWork(blocks).value;
      var differs := Tip(rules, candidate.blocks) != Tip(rules, blocks);
      if Heavier(candidateWork, candidate.Height(), currentWork, Height())
         || (candidateWork == currentWork && candidate.Height() == Height() && differs && preferPeerOnEqualWork) {
        var keep := Reorg.MempoolCandidates(rules, blocks, mempool, candidate.blocks, candidate.mempool);
        ghost var ctx;
        var pool;
        pool, ctx := Rebuild(rules, policy, candidate.blocks, candidate.utxos, keep);
        blocks, utxos, mempool := candidate.blocks, candidate.utxos, pool;
        return Ok(true);
      }
      return Ok(false);
    }
  }

  /**
    Adopting another accepted chain: every transaction of the old one is confirmed there or offered to the
    rebuilt pending list, and so is everything that was pending on either side, each id once.
   */
  lemma AdoptionLosesNothing(rules: Rules, own: seq<Block>, ownPool: seq<Transaction>, peer: seq<Block>, peerPool: seq<Transaction>,
                             ownTime: U32, peerTime: U32, universe: set<seq<Byte>>)
    requires rules.Valid() && Replay(rules, own, ownTime).Ok? && Replay(rules, peer, peerTime).Ok?
    requires forall b :: b in own + peer ==> IdsAgree(rules, b)
    requires Committed(rules.h, rules.genesis) && InjectiveOn(rules.h, universe)
    requires Linked(rules.h, own) ==> MessagesWithin(rules.h, own, universe)
    requires Linked(rules.h, peer) ==> MessagesWithin(rules.h, peer, universe)
    ensures own != [] && peer != []
    ensures var kept := Reorg.Candidates(rules, own, ownPool, peer, peerPool);
            && DistinctIds(rules, kept)
            && (forall k, tx :: 0 < k < |own| && tx in AfterCoinbase(own[k]) ==> Reorg.Confirmed(rules, peer, rules.id(tx)) || HasId(rules, kept, rules.id(tx)))
            && (forall tx :: tx in ownPool || tx in peerPool ==> HasId(rules, kept, rules.id(tx)))
  {
    hide Accept, Linked, MessagesWithin, InjectiveOn, Committed, IdsAgree, DistinctIds, HasId, Reorg.Candidates, Reorg.Confirmed;
    assert forall i :: 0 <= i < |own| ==> own[i] in own + peer;
    assert forall i :: 0 <= i < |peer| ==> peer[i] in own + peer;
    ReplayedIsLinked(rules, own, ownTime);
    ReplayedIsLinked(rules, peer, peerTime);
    Reorg.NothingIsLost(rules, own, ownPool, peer, peerPool, universe);
  }

  lemma FirstDecides(rules: Rules, blocks: seq<Block>, now: U32)
    requires rules.Valid() && (blocks == [] || blocks[0] != rules.genesis)
    ensures Replay(rules, blocks, now).Err?
  {
    hide Accept;
    if |blocks| > 1 {
      assert blocks[..1] == [blocks[0]];
      ReplayErr(rules, blocks, 1, now);
    }
  }
}
