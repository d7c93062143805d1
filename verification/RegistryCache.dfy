/**
  The incremental cache in front of the registry replay (cached_pools_registry_from_blocks in
  src/pools.rs): whichever ancestor it resumes from, it answers as a full replay would.
 */
module RegistryCache {
  import opened Bytes
  import opened HeaderChain
  import opened Merkle
  import opened Outcome
  import opened PoolRegistry
  import opened Wire

  const CACHE_ENTRIES: nat := 8

  datatype Key = Key(network: string, settings: Hash, tipHeight: nat, tipHash: Hash)
  datatype Entry = Entry(key: Key, registry: Registry)

  /** What a query is asked with: the settings, their digest, and the network's name. */
  datatype Query = Query(network: string, pools: Pools, digest: Hash)

  function TipHeight(blocks: seq<Block>): nat
  {
    if blocks == [] then 0 else |blocks| - 1
  }

  function TipHash(h: Hasher, blocks: seq<Block>): Hash
  {
    if blocks == [] then ZERO_HASH else BlockHash(h, blocks[|blocks| - 1])
  }

  function KeyOf(h: Hasher, q: Query, blocks: seq<Block>): Key
  {
    Key(q.network, q.digest, TipHeight(blocks), TipHash(h, blocks))
  }

  // ---- Resuming a replay -------------------------------------------------------------------

  lemma {:induction false} FromBlocksErr(s: Pools, id: Transaction -> Hash, blocks: seq<Block>, n: nat)
    requires s.Valid() && n <= |blocks| && FromBlocks(s, id, blocks[..n]).Err?
    ensures FromBlocks(s, id, blocks).Err?
    decreases |blocks| - n
  {
    hide ReplayBlock;
    if n < |blocks| {
      assert blocks[..n + 1][..n] == blocks[..n];
      FromBlocksErr(s, id, blocks, n + 1);
    } else {
      assert blocks[..n] == blocks;
    }
  }

  /** Replaying the blocks from `from` on, on top of what the earlier ones gave. */
  method Resume(s: Pools, id: Transaction -> Hash, blocks: seq<Block>, from: nat, start: Registry) returns (r: Result<Registry>)
    requires s.Valid() && s.enabled && 1 <= from && FromBlocks(s, id, blocks[..if from < |blocks| then from else |blocks|]) == Ok(start)
    ensures r == FromBlocks(s, id, blocks)
  {
    hide ReplayBlock;
    var registry := start;
    if from >= |blocks| {
      assert blocks[..|blocks|] == blocks;
      return Ok(registry);
    }
    for height := from to |blocks|
      invariant FromBlocks(s, id, blocks[..height]) == Ok(registry)
    {
      assert blocks[..height + 1][..height] == blocks[..height];
      if ReplayBlock(s, id, registry, blocks[height], height).Err? {
        FromBlocksErr(s, id, blocks, height + 1);
      }
      registry :- ApplyBlock(s, id, registry, blocks[height], height);
    }
    assert blocks[..|blocks|] == blocks;
    return Ok(registry);
  }

  /** pools_registry_from_blocks. */
  method ReplayAll(s: Pools, id: Transaction -> Hash, blocks: seq<Block>) returns (r: Result<Registry>)
    requires s.Valid()
    ensures r == FromBlocks(s, id, blocks)
  {
    if !s.enabled {
      return Ok(map[]);
    }
    r := Resume(s, id, blocks, 1, map[]);
  }

  // ---- The cache ---------------------------------------------------------------------------

  /** Everything hashed so far is collision-free, for blocks and for settings alike. */
  ghost predicate Known(h: Hasher, blocks: seq<Block>, universe: set<seq<Byte>>)
  {
    Linked(h, blocks) && MessagesWithin(h, blocks, universe)
  }

  /** Queries on one network with one settings digest have the same settings. */
  ghost predicate SameSettings(a: Query, b: Query)
  {
    a.network == b.network && a.digest == b.digest ==> a.pools == b.pools
  }

  /** Where an entry came from. */
  datatype Origin = Origin(query: Query, blocks: seq<Block>)

  ghost predicate EntryOk(h: Hasher, id: Transaction -> Hash, e: Entry, o: Origin, universe: set<seq<Byte>>)
  {
    && o.query.pools.Valid() && o.query.pools.enabled
    && e.key == KeyOf(h, o.query, o.blocks) && Known(h, o.blocks, universe)
    && FromBlocks(o.query.pools, id, o.blocks) == Ok(e.registry)
  }

  lemma Genesis(s: Pools, id: Transaction -> Hash, blocks: seq<Block>)
    requires s.Valid() && |blocks| <= 1
    ensures FromBlocks(s, id, blocks) == Ok(map[])
  {
  }

  /** An entry whose tip is on the queried branch holds the replay of the branch up to that tip. */
  lemma EntryIsPrefix(h: Hasher, id: Transaction -> Hash, e: Entry, o: Origin, q: Query, blocks: seq<Block>, universe: set<seq<Byte>>)
    requires EntryOk(h, id, e, o, universe) && SameSettings(o.query, q) && Known(h, blocks, universe) && InjectiveOn(h, universe)
    requires e.key.network == q.network && e.key.settings == q.digest
    requires e.key.tipHeight < |blocks| && BlockHash(h, blocks[e.key.tipHeight]) == e.key.tipHash
    ensures q.pools.Valid() && FromBlocks(q.pools, id, blocks[..e.key.tipHeight + 1]) == Ok(e.registry)
  {
    hide BlockHash, Committed, InjectiveOn, BlockMessages, FromBlocks;
    var n := e.key.tipHeight + 1;
    if n == 1 {
      Genesis(q.pools, id, o.blocks);
      Genesis(q.pools, id, blocks[..1]);
    } else {
      LinkedPrefix(h, blocks, n);
      TipDeterminesChain(h, o.blocks, blocks[..n], universe);
    }
  }

  class Cache {
    const h: Hasher
    const id: Transaction -> Hash
    ghost const universe: set<seq<Byte>>
    var entries: seq<Entry>
    ghost var origins: seq<Origin>

    ghost predicate Valid()
      reads this
    {
      && InjectiveOn(h, universe) && |entries| == |origins|
      && forall i :: 0 <= i < |entries| ==> EntryOk(h, id, entries[i], origins[i], universe)
    }

    constructor (h: Hasher, id: Transaction -> Hash, ghost universe: set<seq<Byte>>)
      requires InjectiveOn(h, universe)
      ensures Valid() && entries == [] && this.h == h && this.id == id && this.universe == universe
    {
      this.h, this.id, this.universe := h, id, universe;
      entries, origins := [], [];
    }

    /** A usable ancestor: same settings, below the tip, and still on this branch. */
    predicate Ancestor(e: Entry, key: Key, blocks: seq<Block>)
    {
      && e.key.network == key.network && e.key.settings == key.settings && e.key.tipHeight < key.tipHeight
      && e.key.tipHeight < |blocks| && BlockHash(h, blocks[e.key.tipHeight]) == e.key.tipHash
    }

    method FindEntry(key: Key) returns (i: nat)
      ensures i <= |entries| && (i < |entries| ==> entries[i].key == key)
      ensures i == |entries| ==> forall k :: 0 <= k < |entries| ==> entries[k].key != key
    {
      i := 0;
      while i < |entries|
        invariant i <= |entries| && forall k :: 0 <= k < i ==> entries[k].key != key
      {
        if entries[i].key == key {
          return;
        }
        i := i + 1;
      }
    }

    /** The highest ancestor, or the number of entries when there is none. */
    method BestAncestor(key: Key, blocks: seq<Block>) returns (best: nat)
      ensures best <= |entries| && (best < |entries| ==> Ancestor(entries[best], key, blocks))
      ensures forall k :: 0 <= k < |entries| && Ancestor(entries[k], key, blocks) ==>
                best < |entries| && entries[k].key.tipHeight <= entries[best].key.tipHeight
    {
      best := |entries|;
      for i := 0 to |entries|
        invariant best == |entries| || (best < i && Ancestor(entries[best], key, blocks))
        invariant forall k :: 0 <= k < i && Ancestor(entries[k], key, blocks) ==>
                    best < |entries| && entries[k].key.tipHeight <= entries[best].key.tipHeight
      {
        if Ancestor(entries[i], key, blocks) && (best == |entries| || entries[best].key.tipHeight <= entries[i].key.tipHeight) {
          best := i;
        }
      }
    }

    /** Drop the key's old entry, put the new one in front, keep at most eight. */
    method Remember(e: Entry, ghost o: Origin)
      requires Valid() && EntryOk(h, id, e, o, universe)
      modifies this`entries, this`origins
      ensures Valid() && 0 < |entries| <= CACHE_ENTRIES && entries[0] == e
      ensures forall x :: x in entries ==> x == e || x in old(entries)
      ensures origins[0] == o && forall x :: x in origins ==> x == o || x in old(origins)
    {
      var kept: seq<Entry> := [e];
      ghost var from: seq<Origin> := [o];
      for i := 0 to |entries|
        invariant |kept| == |from| >= 1 && kept[0] == e && from[0] == o
        invariant forall k :: 0 <= k < |kept| ==> EntryOk(h, id, kept[k], from[k], universe)
        invariant forall x :: x in kept ==> x == e || x in entries
        invariant forall x :: x in from ==> x == o || x in origins
        invariant entries == old(entries) && origins == old(origins)
      {
        if entries[i].key != e.key {
          kept := kept + [entries[i]];
          from := from + [origins[i]];
        }
      }
      if |kept| > CACHE_ENTRIES {
        kept, from := kept[..CACHE_ENTRIES], from[..CACHE_ENTRIES];
      }
      entries, origins := kept, from;
    }

    /** cached_pools_registry_from_blocks: the same registry, or the same error, as a full replay. */
    method Lookup(q: Query, blocks: seq<Block>) returns (r: Result<Registry>)
      requires Valid() && q.pools.Valid() && Known(h, blocks, universe)
      requires forall o :: o in origins ==> SameSettings(o.query, q)
      modifies this`entries, this`origins
      ensures Valid() && r == FromBlocks(q.pools, id, blocks)
      ensures forall o :: o in origins ==> o in old(origins) || o.query == q
    {
      hide BlockHash, Committed, InjectiveOn, Known, ReplayBlock, SameSettings;
      if !q.pools.enabled {
        return Ok(map[]);
      }
      var key := KeyOf(h, q, blocks);
      var hit := FindEntry(key);
      if hit < |entries| {
        assert origins[hit] in origins;
        HitIsReplay(h, id, entries[hit], origins[hit], q, blocks, universe);
        return Ok(entries[hit].registry);
      }
      var best := BestAncestor(key, blocks);
      if best < |entries| {
        assert origins[best] in origins;
        var from := entries[best].key.tipHeight + 1;
        EntryIsPrefix(h, id, entries[best], origins[best], q, blocks, universe);
        r := Resume(q.pools, id, blocks, from, entries[best].registry);
      } else {
        r := ReplayAll(q.pools, id, blocks);
      }
      if r.Ok? {
        Remember(Entry(key, r.value), Origin(q, blocks));
      }
    }
  }

  // An entry under the exact key.
  lemma HitIsReplay(h: Hasher, id: Transaction -> Hash, e: Entry, o: Origin, q: Query, blocks: seq<Block>, universe: set<seq<Byte>>)
    requires EntryOk(h, id, e, o, universe) && SameSettings(o.query, q) && Known(h, blocks, universe) && InjectiveOn(h, universe)
    requires e.key == KeyOf(h, q, blocks) && q.pools.Valid()
    ensures FromBlocks(q.pools, id, blocks) == Ok(e.registry)
  {
    hide BlockHash, Committed, InjectiveOn, BlockMessages, FromBlocks;
    if |blocks| <= 1 {
      Genesis(q.pools, id, blocks);
      Genesis(q.pools, id, o.blocks);
    } else {
      EntryIsPrefix(h, id, e, o, q, blocks, universe);
      assert blocks[..|blocks|] == blocks;
    }
  }
}
