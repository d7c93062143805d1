/** What validation (src/lib.rs) hands to the Fast Chain Engine (src/fast_storage.rs) meets the engine's expectations. */
module Durability {
  import opened Bytes
  import opened ChainStates
  import opened Consensus
  import opened HeaderChain
  import opened Merkle
  import opened Outcome
  import opened Wire
  import FastStore

  /** The engine and the validator agree on the network. */
  ghost predicate SameNetwork(rules: Rules, env: FastStore.Env)
  {
    && env.h == rules.h && env.genesis == rules.genesis && env.checkpoint == rules.checkpoint
    && (forall height :: env.version(height) == rules.version(height))
    && rules.genesis.header.version == rules.version(0) && (rules.checkpoint.Some? ==> rules.checkpoint.value.0 > 0)
  }

  lemma {:induction false} ReplayedIsStructured(rules: Rules, env: FastStore.Env, blocks: seq<Block>, now: U32)
    requires rules.Valid() && SameNetwork(rules, env) && Replay(rules, blocks, now).Ok?
    ensures FastStore.Structured(env, blocks)
  {
    hide Accept, BlockHash;
    if |blocks| > 1 {
      var n := |blocks| - 1;
      ReplayedIsStructured(rules, env, blocks[..n], now);
      AcceptedBits(rules, blocks[..n], Replay(rules, blocks[..n], now).value, blocks[n], now);
      StructuredExtends(env, blocks);
    }
  }

  lemma StructuredExtends(env: FastStore.Env, blocks: seq<Block>)
    requires |blocks| > 1 && FastStore.Structured(env, blocks[..|blocks| - 1])
    requires var (n, b) := (|blocks| - 1, blocks[|blocks| - 1]);
             && b.header.version == env.version(n) && b.header.prev == BlockHash(env.h, blocks[n - 1])
             && (env.checkpoint.Some? && env.checkpoint.value.0 == n ==> BlockHash(env.h, b) == env.checkpoint.value.1)
    ensures FastStore.Structured(env, blocks)
  {
    hide BlockHash;
    var n := |blocks| - 1;
    forall i | 0 <= i < |blocks|
      ensures blocks[i].header.version == env.version(i)
    {
      if i < n {
        assert blocks[..n][i] == blocks[i];
      }
    }
    forall i | 1 <= i < |blocks|
      ensures blocks[i].header.prev == BlockHash(env.h, blocks[i - 1])
    {
      if i < n {
        assert blocks[..n][i] == blocks[i] && blocks[..n][i - 1] == blocks[i - 1];
      }
    }
    if env.checkpoint.Some? && env.checkpoint.value.0 < n {
      assert blocks[..n][env.checkpoint.value.0] == blocks[env.checkpoint.value.0];
    }
  }

  /** Every accepted chain is one the crash-safety results speak about. */
  lemma AcceptedIsSound(rules: Rules, env: FastStore.Env, c: FastStore.Chain, now: U32, universe: set<seq<Byte>>)
    requires rules.Valid() && SameNetwork(rules, env) && Replay(rules, c.blocks, now) == Ok(c.utxos)
    requires Committed(rules.h, rules.genesis) && forall i :: 0 <= i < |c.blocks| ==> IdsAgree(rules, c.blocks[i])
    requires Linked(rules.h, c.blocks) ==> MessagesWithin(rules.h, c.blocks, universe)
    ensures FastStore.Sound(env, c, universe)
  {
    hide Accept, BlockHash, Committed, IdsAgree, FastStore.Structured, Linked, MessagesWithin;
    ReplayedIsStructured(rules, env, c.blocks, now);
    ReplayedIsLinked(rules, c.blocks, now);
    ReplayedHasWork(rules, c.blocks, now);
  }
}
