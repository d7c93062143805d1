/**
  What a block hash commits to: through the previous-hash links, the merkle root and the
  duplicate-txid check of validate_block, the tip hash of a chain determines every block in it.
 */
module HeaderChain {
  import opened Bytes
  import opened Merkle
  import opened Wire

  /** Sizes fit their words, and no transaction is as long as two hashes (a merkle pair message). */
  predicate Encodable(tx: Transaction)
  {
    Sized(tx) && |Serialize(tx)| != 64
  }

  function Txid(h: Hasher, tx: Transaction): Hash
    requires Encodable(tx)
  {
    h(Serialize(tx))
  }

  predicate EncodableBlock(b: Block)
  {
    forall i :: 0 <= i < |b.transactions| ==> Encodable(b.transactions[i])
  }

  function Txids(h: Hasher, txs: seq<Transaction>): (r: seq<Hash>)
    requires forall i :: 0 <= i < |txs| ==> Encodable(txs[i])
    ensures |r| == |txs| && forall i :: 0 <= i < |txs| ==> r[i] == Txid(h, txs[i])
  {
    seq<Hash>(|txs|, i requires 0 <= i < |txs| => Txid(h, txs[i]))
  }

  function BlockHash(h: Hasher, b: Block): Hash
  {
    h(SerializeHeader(b.header))
  }

  /** The merkle and duplicate checks of validate_block. */
  ghost predicate Committed(h: Hasher, b: Block)
  {
    && EncodableBlock(b) && b.transactions != []
    && b.header.merkleRoot == Root(h, Txids(h, b.transactions))
    && NoDuplicates(Txids(h, b.transactions))
  }

  /** A chain of committed blocks linked by their previous hashes. */
  ghost predicate Linked(h: Hasher, blocks: seq<Block>)
  {
    && (forall i :: 0 <= i < |blocks| ==> Committed(h, blocks[i]))
    && (forall i :: 1 <= i < |blocks| ==> blocks[i].header.prev == BlockHash(h, blocks[i - 1]))
  }

  lemma LinkedPrefix(h: Hasher, blocks: seq<Block>, n: nat)
    requires Linked(h, blocks) && n <= |blocks|
    ensures Linked(h, blocks[..n])
  {
  }

  /** Everything hashed in forming one block's hash. */
  ghost function BlockMessages(h: Hasher, b: Block): set<seq<Byte>>
    requires EncodableBlock(b)
  {
    {SerializeHeader(b.header)} + Messages(h, Txids(h, b.transactions))
    + set i | 0 <= i < |b.transactions| :: Serialize(b.transactions[i])
  }

  ghost predicate MessagesWithin(h: Hasher, blocks: seq<Block>, universe: set<seq<Byte>>)
    requires Linked(h, blocks)
  {
    forall i :: 0 <= i < |blocks| ==> BlockMessages(h, blocks[i]) <= universe
  }

  lemma {:induction false} MessagesAreSixtyFour(h: Hasher, layer: seq<Hash>, m: seq<Byte>)
    requires m in Messages(h, layer)
    ensures |m| == 64
    decreases |layer|
  {
    if m !in PairMessages(layer) {
      MessagesAreSixtyFour(h, NextLayer(h, layer), m);
    }
  }

  // A txid can only be a pair hash if the transaction were a pair message.
  lemma TxidsAreNotPairHashes(h: Hasher, txs: seq<Transaction>, layer: seq<Hash>, universe: set<seq<Byte>>)
    requires forall i :: 0 <= i < |txs| ==> Encodable(txs[i]) && Serialize(txs[i]) in universe
    requires InjectiveOn(h, universe) && Messages(h, layer) <= universe
    ensures NoLeafIsHashOf(h, Txids(h, txs), Messages(h, layer))
  {
    forall i, m | 0 <= i < |txs| && m in Messages(h, layer)
      ensures Txids(h, txs)[i] != h(m)
    {
      MessagesAreSixtyFour(h, layer, m);
    }
  }

  /** One block hash, one block. */
  lemma BlockHashInjective(h: Hasher, a: Block, b: Block, universe: set<seq<Byte>>)
    requires Committed(h, a) && Committed(h, b) && BlockHash(h, a) == BlockHash(h, b)
    requires InjectiveOn(h, universe) && BlockMessages(h, a) <= universe && BlockMessages(h, b) <= universe
    ensures a == b
  {
    assert SerializeHeader(a.header) in BlockMessages(h, a) && SerializeHeader(b.header) in BlockMessages(h, b);
    HeaderInjective(a.header, b.header);
    var ta, tb := Txids(h, a.transactions), Txids(h, b.transactions);
    SerializedWithin(h, a, universe);
    SerializedWithin(h, b, universe);
    TxidsAreNotPairHashes(h, a.transactions, tb, universe);
    TxidsAreNotPairHashes(h, b.transactions, ta, universe);
    RootIsInjective(h, ta, tb);
    forall i | 0 <= i < |a.transactions|
      ensures a.transactions[i] == b.transactions[i]
    {
      assert ta[i] == tb[i];
      SerializeInjective(a.transactions[i], b.transactions[i]);
    }
  }

  lemma SerializedWithin(h: Hasher, b: Block, universe: set<seq<Byte>>)
    requires EncodableBlock(b) && BlockMessages(h, b) <= universe
    ensures forall i :: 0 <= i < |b.transactions| ==> Serialize(b.transactions[i]) in universe
    ensures Messages(h, Txids(h, b.transactions)) <= universe
  {
    forall i | 0 <= i < |b.transactions|
      ensures Serialize(b.transactions[i]) in universe
    {
      assert Serialize(b.transactions[i]) in BlockMessages(h, b);
    }
  }

  /** Equal tips of linked chains of one length: the chains are equal. */
  lemma {:induction false} TipDeterminesChain(h: Hasher, a: seq<Block>, b: seq<Block>, universe: set<seq<Byte>>)
    requires Linked(h, a) && Linked(h, b) && |a| == |b| > 0
    requires InjectiveOn(h, universe) && MessagesWithin(h, a, universe) && MessagesWithin(h, b, universe)
    requires BlockHash(h, a[|a| - 1]) == BlockHash(h, b[|b| - 1])
    ensures a == b
  {
    hide Committed, BlockMessages, InjectiveOn, BlockHash, EncodableBlock;
    var n := |a| - 1;
    BlockHashInjective(h, a[n], b[n], universe);
    if n > 0 {
      LinkedPrefix(h, a, n);
      LinkedPrefix(h, b, n);
      TipDeterminesChain(h, a[..n], b[..n], universe);
    }
    assert a == a[..n] + [a[n]] && b == b[..n] + [b[n]];
  }

  /** The same for headers alone: previous-hash links and the tip hash determine every header of a chain of known length. */
  lemma {:induction false} TipDeterminesHeaders(h: Hasher, a: seq<Block>, b: seq<Block>, universe: set<seq<Byte>>)
    requires |a| == |b| > 0 && InjectiveOn(h, universe) && BlockHash(h, a[|a| - 1]) == BlockHash(h, b[|b| - 1])
    requires forall i :: 1 <= i < |a| ==> a[i].header.prev == BlockHash(h, a[i - 1]) && b[i].header.prev == BlockHash(h, b[i - 1])
    requires forall i :: 0 <= i < |a| ==> SerializeHeader(a[i].header) in universe && SerializeHeader(b[i].header) in universe
    ensures forall i :: 0 <= i < |a| ==> a[i].header == b[i].header
  {
    hide SerializeHeader;
    var n := |a| - 1;
    HeaderInjective(a[n].header, b[n].header);
    if n > 0 {
      TipDeterminesHeaders(h, a[..n], b[..n], universe);
      assert forall i :: 0 <= i < n ==> a[i] == a[..n][i] && b[i] == b[..n][i];
    }
  }

  /** The duplicate check is needed: any block with an odd number of transactions has a twin with the same hash. */
  lemma WithoutDuplicateCheck(h: Hasher, b: Block)
    requires Committed(h, b) && |b.transactions| > 1 && |b.transactions| % 2 == 1
    ensures var twin := b.(transactions := b.transactions + [b.transactions[|b.transactions| - 1]]);
      && twin != b && BlockHash(h, twin) == BlockHash(h, b)
      && EncodableBlock(twin) && twin.header.merkleRoot == Root(h, Txids(h, twin.transactions))
      && !Committed(h, twin)
  {
    hide Root, SerializeHeader, Encodable, Txid, Serialize;
    var txs := b.transactions;
    var twin := b.(transactions := txs + [txs[|txs| - 1]]);
    DuplicatedLastLeafKeepsRoot(h, Txids(h, txs));
    assert Txids(h, twin.transactions) == Txids(h, txs) + [Txids(h, txs)[|txs| - 1]];
    assert |twin.transactions| == |txs| + 1;
  }
}
