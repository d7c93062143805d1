/** What a reorganisation keeps: the transactions of the abandoned suffix and of both pending lists (src/lib.rs). */
module Reorg {
  import opened Arithmetic
  import opened Bytes
  import opened Consensus
  import opened HeaderChain
  import opened Mempool
  import opened Merkle
  import opened Outcome
  import opened Wire

  /** The last height up to which all block hashes agree; 0 when not even the first ones do. */
  function CommonFrom(rules: Rules, a: seq<Block>, b: seq<Block>, height: nat): nat
    decreases Min(|a|, |b|) - height
  {
    if height + 1 < Min(|a|, |b|) && BlockHash(rules.h, a[height + 1]) == BlockHash(rules.h, b[height + 1])
    then CommonFrom(rules, a, b, height + 1)
    else height
  }

  function CommonHeight(rules: Rules, a: seq<Block>, b: seq<Block>): nat
    requires a != [] && b != []
  {
    if BlockHash(rules.h, a[0]) == BlockHash(rules.h, b[0]) then CommonFrom(rules, a, b, 0) else 0
  }

  lemma {:induction false} CommonFromAgrees(rules: Rules, a: seq<Block>, b: seq<Block>, height: nat)
    requires height < Min(|a|, |b|)
    ensures height <= CommonFrom(rules, a, b, height) < Min(|a|, |b|)
    ensures forall i :: height < i <= CommonFrom(rules, a, b, height) ==> BlockHash(rules.h, a[i]) == BlockHash(rules.h, b[i])
    decreases Min(|a|, |b|) - height
  {
    hide BlockHash;
    if height + 1 < Min(|a|, |b|) && BlockHash(rules.h, a[height + 1]) == BlockHash(rules.h, b[height + 1]) {
      CommonFromAgrees(rules, a, b, height + 1);
    }
  }

  /** common_prefix_height_with. */
  method CommonPrefixHeight(rules: Rules, a: seq<Block>, b: seq<Block>) returns (common: nat)
    requires a != [] && b != []
    ensures common == CommonHeight(rules, a, b)
  {
    hide BlockHash;
    common := 0;
    if BlockHash(rules.h, a[0]) != BlockHash(rules.h, b[0]) {
      return;
    }
    var height := 1;
    while height < Min(|a|, |b|)
      invariant 1 <= height <= Min(|a|, |b|) && common == height - 1
      invariant CommonFrom(rules, a, b, 0) == CommonFrom(rules, a, b, common)
    {
      if BlockHash(rules.h, a[height]) != BlockHash(rules.h, b[height]) {
        return;
      }
      common := height;
      height := height + 1;
    }
  }

  function Flat(blocks: seq<Block>): seq<Transaction>
  {
    if blocks == [] then [] else Flat(blocks[..|blocks| - 1]) + AfterCoinbase(blocks[|blocks| - 1])
  }

  predicate Confirmed(rules: Rules, blocks: seq<Block>, id: Hash)
  {
    exists i :: 0 <= i < |blocks| && HasId(rules, blocks[i].transactions, id)
  }

  function Unconfirmed(rules: Rules, txs: seq<Transaction>, blocks: seq<Block>): seq<Transaction>
  {
    if txs == [] then []
    else
      var before, last := Unconfirmed(rules, txs[..|txs| - 1], blocks), txs[|txs| - 1];
      if Confirmed(rules, blocks, rules.id(last)) then before else before + [last]
  }

  /** disconnected_non_coinbase_transactions_for. */
  function Disconnected(rules: Rules, own: seq<Block>, candidate: seq<Block>): seq<Transaction>
    requires own != [] && candidate != []
  {
    var common := CommonHeight(rules, own, candidate);
    Unique(rules, Unconfirmed(rules, Flat(own[Min(common + 1, |own|)..]), candidate))
  }

  /** reorg_mempool_candidates_for. */
  function Candidates(rules: Rules, own: seq<Block>, ownPool: seq<Transaction>, candidate: seq<Block>, candidatePool: seq<Transaction>): seq<Transaction>
    requires own != [] && candidate != []
  {
    Unique(rules, ownPool + candidatePool + Disconnected(rules, own, candidate))
  }

  // ---- The loops ---------------------------------------------------------------------------

  lemma {:induction false} FlatUnconfirmed(rules: Rules, a: seq<Transaction>, b: seq<Transaction>, blocks: seq<Block>)
    ensures Unconfirmed(rules, a + b, blocks) == Unconfirmed(rules, a, blocks) + Unconfirmed(rules, b, blocks)
  {
    hide Confirmed;
    if b == [] {
      assert a + b == a;
    } else {
      assert (a + b)[..|a + b| - 1] == a + b[..|b| - 1];
      FlatUnconfirmed(rules, a, b[..|b| - 1], blocks);
    }
  }

  /** The ids confirmed on a chain, as the hash set the code collects. */
  method ConfirmedIds(rules: Rules, blocks: seq<Block>) returns (ids: set<Hash>)
    ensures forall id :: id in ids <==> Confirmed(rules, blocks, id)
  {
    ids := {};
    for i := 0 to |blocks|
      invariant forall id :: id in ids <==> exists k :: 0 <= k < i && HasId(rules, blocks[k].transactions, id)
    {
      var txs := blocks[i].transactions;
      var more := set k | 0 <= k < |txs| :: rules.id(txs[k]);
      assert forall id :: id in more <==> HasId(rules, txs, id);
      ids := ids + more;
    }
  }

  lemma UnconfirmedStep(rules: Rules, suffix: seq<Block>, i: nat, candidate: seq<Block>)
    requires i < |suffix|
    ensures Unconfirmed(rules, Flat(suffix[..i + 1]), candidate)
         == Unconfirmed(rules, Flat(suffix[..i]), candidate) + Unconfirmed(rules, AfterCoinbase(suffix[i]), candidate)
  {
    hide Unconfirmed, AfterCoinbase;
    assert suffix[..i + 1][..i] == suffix[..i];
    FlatUnconfirmed(rules, Flat(suffix[..i]), AfterCoinbase(suffix[i]), candidate);
  }

  method DisconnectedTransactions(rules: Rules, own: seq<Block>, candidate: seq<Block>) returns (out: seq<Transaction>)
    requires own != [] && candidate != []
    ensures out == Disconnected(rules, own, candidate)
  {
    hide Confirmed, CommonHeight, Unique, AfterCoinbase;
    var common := CommonPrefixHeight(rules, own, candidate);
    var confirmed := ConfirmedIds(rules, candidate);
    var suffix := own[Min(common + 1, |own|)..];
    var kept := [];
    for i := 0 to |suffix|
      invariant kept == Unconfirmed(rules, Flat(suffix[..i]), candidate)
    {
      hide Flat, Unconfirmed;
      var txs := AfterCoinbase(suffix[i]);
      UnconfirmedStep(rules, suffix, i, candidate);
      var more := SkipConfirmed(rules, txs, candidate, confirmed);
      kept := kept + more;
    }
    assert suffix[..|suffix|] == suffix;
    out := KeepUnique(rules, kept);
  }

  method SkipConfirmed(rules: Rules, txs: seq<Transaction>, ghost blocks: seq<Block>, confirmed: set<Hash>) returns (r: seq<Transaction>)
    requires forall id :: id in confirmed <==> Confirmed(rules, blocks, id)
    ensures r == Unconfirmed(rules, txs, blocks)
  {
    hide Confirmed;
    r := [];
    for i := 0 to |txs|
      invariant r == Unconfirmed(rules, txs[..i], blocks)
    {
      assert txs[..i + 1][..i] == txs[..i];
      if rules.id(txs[i]) !in confirmed {
        r := r + [txs[i]];
      }
    }
    assert txs[..|txs|] == txs;
  }

  method MempoolCandidates(rules: Rules, own: seq<Block>, ownPool: seq<Transaction>, candidate: seq<Block>, candidatePool: seq<Transaction>)
    returns (out: seq<Transaction>)
    requires own != [] && candidate != []
    ensures out == Candidates(rules, own, ownPool, candidate, candidatePool)
  {
    var disconnected := DisconnectedTransactions(rules, own, candidate);
    out := KeepUnique(rules, ownPool + candidatePool + disconnected);
  }

  // ---- Nothing is lost ---------------------------------------------------------------------

  lemma {:induction false} UnconfirmedMembers(rules: Rules, txs: seq<Transaction>, blocks: seq<Block>, i: nat)
    requires i < |txs|
    ensures Confirmed(rules, blocks, rules.id(txs[i])) || txs[i] in Unconfirmed(rules, txs, blocks)
  {
    hide Confirmed;
    if i < |txs| - 1 {
      UnconfirmedMembers(rules, txs[..|txs| - 1], blocks, i);
    }
  }

  lemma {:induction false} FlatMembers(blocks: seq<Block>, k: nat, tx: Transaction)
    requires k < |blocks| && tx in AfterCoinbase(blocks[k])
    ensures tx in Flat(blocks)
  {
    if k < |blocks| - 1 {
      FlatMembers(blocks[..|blocks| - 1], k, tx);
    }
  }

  lemma InUnique(rules: Rules, txs: seq<Transaction>, tx: Transaction)
    requires tx in txs
    ensures HasId(rules, Unique(rules, txs), rules.id(tx))
  {
    var i :| 0 <= i < |txs| && txs[i] == tx;
    UniqueKeepsAll(rules, txs);
  }

  lemma KeptOrConfirmed(rules: Rules, txs: seq<Transaction>, candidate: seq<Block>, tx: Transaction)
    requires tx in txs
    ensures Confirmed(rules, candidate, rules.id(tx)) || HasId(rules, Unique(rules, Unconfirmed(rules, txs, candidate)), rules.id(tx))
  {
    hide Confirmed, Unique, HasId, Unconfirmed;
    var i :| 0 <= i < |txs| && txs[i] == tx;
    UnconfirmedMembers(rules, txs, candidate, i);
    if !Confirmed(rules, candidate, rules.id(tx)) {
      InUnique(rules, Unconfirmed(rules, txs, candidate), tx);
    }
  }

  // A transaction of the abandoned suffix is confirmed on the other branch or resurrected.
  lemma SuffixIsKept(rules: Rules, own: seq<Block>, candidate: seq<Block>, k: nat, tx: Transaction)
    requires own != [] && candidate != [] && CommonHeight(rules, own, candidate) < k < |own| && tx in AfterCoinbase(own[k])
    ensures Confirmed(rules, candidate, rules.id(tx)) || HasId(rules, Disconnected(rules, own, candidate), rules.id(tx))
  {
    hide Confirmed, CommonHeight, Unique, HasId, Unconfirmed, Flat, AfterCoinbase;
    var from := CommonHeight(rules, own, candidate) + 1;
    FlatMembers(own[from..], k - from, tx);
    KeptOrConfirmed(rules, Flat(own[from..]), candidate, tx);
  }

  // Below the fork both chains are the same blocks.
  lemma PrefixIsShared(rules: Rules, own: seq<Block>, candidate: seq<Block>, k: nat, universe: set<seq<Byte>>)
    requires own != [] && candidate != [] && 0 < k <= CommonHeight(rules, own, candidate) && k < |own|
    requires Linked(rules.h, own) && Linked(rules.h, candidate)
    requires InjectiveOn(rules.h, universe) && MessagesWithin(rules.h, own, universe) && MessagesWithin(rules.h, candidate, universe)
    ensures k < |candidate| && own[k] == candidate[k]
  {
    hide BlockHash, Committed, BlockMessages, InjectiveOn;
    CommonFromAgrees(rules, own, candidate, 0);
    BlockHashInjective(rules.h, own[k], candidate[k], universe);
  }

  /**
    Every non-coinbase transaction of the old chain is confirmed on the new one or among the
    candidates; every pending transaction of either side is among them; and no id occurs twice.
   */
  lemma NothingIsLost(rules: Rules, own: seq<Block>, ownPool: seq<Transaction>,
                      candidate: seq<Block>, candidatePool: seq<Transaction>, universe: set<seq<Byte>>)
    requires own != [] && candidate != []
    requires Linked(rules.h, own) && Linked(rules.h, candidate)
    requires InjectiveOn(rules.h, universe) && MessagesWithin(rules.h, own, universe) && MessagesWithin(rules.h, candidate, universe)
    ensures var kept := Candidates(rules, own, ownPool, candidate, candidatePool);
            && DistinctIds(rules, kept)
            && (forall k, tx :: 0 < k < |own| && tx in AfterCoinbase(own[k]) ==> Confirmed(rules, candidate, rules.id(tx)) || HasId(rules, kept, rules.id(tx)))
            && (forall tx :: tx in ownPool || tx in candidatePool ==> HasId(rules, kept, rules.id(tx)))
  {
    hide Confirmed, CommonHeight, Unique, HasId, Linked, Disconnected, DistinctIds, InjectiveOn, MessagesWithin;
    var all := ownPool + candidatePool + Disconnected(rules, own, candidate);
    var kept := Candidates(rules, own, ownPool, candidate, candidatePool);
    UniqueKeepsAll(rules, all);
    forall tx | tx in ownPool || tx in candidatePool
      ensures HasId(rules, kept, rules.id(tx))
    {
      InUnique(rules, all, tx);
    }
    forall k, tx | 0 < k < |own| && tx in AfterCoinbase(own[k])
      ensures Confirmed(rules, candidate, rules.id(tx)) || HasId(rules, kept, rules.id(tx))
    {
      if k <= CommonHeight(rules, own, candidate) {
        PrefixIsShared(rules, own, candidate, k, universe);
        ConfirmedThere(rules, candidate, k, tx);
      } else {
        SuffixIsKept(rules, own, candidate, k, tx);
        KeptById(rules, ownPool + candidatePool, Disconnected(rules, own, candidate), rules.id(tx));
      }
    }
  }

  lemma ConfirmedThere(rules: Rules, blocks: seq<Block>, k: nat, tx: Transaction)
    requires k < |blocks| && tx in AfterCoinbase(blocks[k])
    ensures Confirmed(rules, blocks, rules.id(tx))
  {
    var txs := blocks[k].transactions;
    var i :| 0 <= i < |txs| && txs[i] == tx;
    assert HasId(rules, txs, rules.id(tx));
  }

  lemma KeptById(rules: Rules, a: seq<Transaction>, b: seq<Transaction>, id: Hash)
    ensures HasId(rules, b, id) ==> HasId(rules, Unique(rules, a + b), id)
  {
    if HasId(rules, b, id) {
      var i :| 0 <= i < |b| && rules.id(b[i]) == id;
      assert (a + b)[|a| + i] == b[i];
      UniqueKeepsAll(rules, a + b);
    }
  }
}
