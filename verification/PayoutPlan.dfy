/**
  Who a pool's reward goes to (src/pools.rs): shares counted over the window, the pool's manager and
  commission from the registry, and the split of the total among them.
 */
module PayoutPlan {
  import opened Addresses
  import opened Arithmetic
  import opened Infusion
  import opened Merkle
  import opened Outcome
  import opened PoolPayout
  import opened PoolRegistry
  import opened PoolRewards
  import opened PoolWindow
  import opened Sorting
  import opened UtxoSet
  import opened Wire

  /** Share rules, and the pool a block names in its coinbase. */
  datatype PoolRules = PoolRules(shares: ShareRules, marker: Block -> Option<Hash>)
  {
    function Pools(): Pools { shares.pools }

    /** The script an address text stands for, if it is an address. */
    function ScriptOf(a: string): Result<Script>
    {
      if IsAddress(shares.pools.addresses, a) then Ok(shares.pools.scriptOf(a)) else Err
    }
  }

  /** Rules as configuration loading lets them through. */
  type LoadedRules = p: PoolRules | p.Pools().Valid() witness NO_POOLS

  const NO_POOLS: PoolRules := PoolRules(
    ShareRules(
      Pools(false, 1, 1, 1, 1, 1, 1, 1, 1, 0, 1, 1, 1,
            NameRules(c => c == ' ', c => false, s => |s|, 1, 1), AddressRules(c => c == ' ', "a", s => false),
            s => None, s => None, s => None, s => None, tx => false, [], a => []),
      bytes => ZERO_BYTES, s => None, s => false),
    b => None)

  // ---- Scores ------------------------------------------------------------------------------

  function PositionOf(scores: seq<Score>, miner: string): (k: nat)
    ensures k <= |scores| && (forall i :: 0 <= i < k ==> scores[i].address != miner)
    ensures k < |scores| ==> scores[k].address == miner
  {
    if scores == [] || scores[0].address == miner then 0 else 1 + PositionOf(scores[1..], miner)
  }

  /** One more share of a miner. */
  function AddPoint(scores: seq<Score>, miner: string): seq<Score>
  {
    var k := PositionOf(scores, miner);
    if k < |scores| then scores[k := Score(miner, scores[k].units + 1)] else scores + [Score(miner, 1)]
  }

  function CountShare(scores: seq<Score>, s: Share, pool: Hash): seq<Score>
  {
    if s.pool == pool then AddPoint(scores, s.miner) else scores
  }

  function CountBlock(scores: seq<Score>, shares: seq<Share>, pool: Hash): seq<Score>
  {
    if shares == [] then scores else CountShare(CountBlock(scores, shares[..|shares| - 1], pool), shares[|shares| - 1], pool)
  }

  function CountBlocks(r: ShareRules, blocks: seq<Block>, from: nat, to: nat, pool: Hash): seq<Score>
    requires to <= |blocks|
  {
    if to <= from then []
    else CountBlock(CountBlocks(r, blocks, from, to - 1, pool), BlockShares(r, AfterCoinbase(blocks[to - 1])), pool)
  }

  /** The scores before a height: one point per confirmed share in the window, by first appearance. */
  function Scores(r: ShareRules, blocks: seq<Block>, spendHeight: nat, pool: Hash): seq<Score>
  {
    CountBlocks(r, blocks, Max(Before(spendHeight, r.pools.window), 1), Min(spendHeight, |blocks|), pool)
  }

  /** pool_payout_plan. */
  function PlanOf(p: PoolRules, id: Transaction -> Hash, prior: seq<Block>, pool: Hash, total: nat): Result<Plan>
    requires p.Pools().Valid()
  {
    var registry :- FromBlocks(p.Pools(), id, prior);
    if pool !in registry then Err
    else
      var scores := Scores(p.shares, prior, |prior|, pool);
      if !Payable(total, registry[pool].commission, scores) then Err
      else Ok(Plan(registry[pool].manager, SplitOf(total, registry[pool].commission, scores)))
  }

  // ---- What the scores say -----------------------------------------------------------------

  /** How many shares for the pool a miner has in a list. */
  function SharesOf(shares: seq<Share>, pool: Hash, miner: string): nat
  {
    if shares == [] then 0
    else
      var last := shares[|shares| - 1];
      SharesOf(shares[..|shares| - 1], pool, miner) + if last.pool == pool && last.miner == miner then 1 else 0
  }

  /** The same over the blocks of a window. */
  function SharesIn(r: ShareRules, blocks: seq<Block>, from: nat, to: nat, pool: Hash, miner: string): nat
    requires to <= |blocks|
  {
    if to <= from then 0
    else SharesIn(r, blocks, from, to - 1, pool, miner) + SharesOf(BlockShares(r, AfterCoinbase(blocks[to - 1])), pool, miner)
  }

  function UnitsOf(scores: seq<Score>, miner: string): nat
  {
    var k := PositionOf(scores, miner);
    if k < |scores| then scores[k].units else 0
  }

  ghost predicate Positive(scores: seq<Score>)
  {
    forall i :: 0 <= i < |scores| ==> scores[i].units > 0
  }

  lemma PositionIsUnique(scores: seq<Score>, i: nat)
    requires DistinctAddresses(scores) && i < |scores|
    ensures PositionOf(scores, scores[i].address) == i
  {
  }

  lemma AddPointCounts(scores: seq<Score>, miner: string)
    requires DistinctAddresses(scores) && Positive(scores)
    ensures DistinctAddresses(AddPoint(scores, miner)) && Positive(AddPoint(scores, miner))
    ensures forall a :: UnitsOf(AddPoint(scores, miner), a) == UnitsOf(scores, a) + if a == miner then 1 else 0
  {
    var more := AddPoint(scores, miner);
    var k := PositionOf(scores, miner);
    assert DistinctAddresses(more);
    forall a
      ensures UnitsOf(more, a) == UnitsOf(scores, a) + if a == miner then 1 else 0
    {
      var q := PositionOf(scores, a);
      if q < |scores| {
        assert more[q].address == a;
        PositionIsUnique(more, q);
      } else if a == miner {
        assert more[k].address == a;
        PositionIsUnique(more, k);
      }
    }
  }

  lemma {:induction false} CountBlockCounts(scores: seq<Score>, shares: seq<Share>, pool: Hash, miner: string)
    requires DistinctAddresses(scores) && Positive(scores)
    ensures DistinctAddresses(CountBlock(scores, shares, pool)) && Positive(CountBlock(scores, shares, pool))
    ensures UnitsOf(CountBlock(scores, shares, pool), miner) == UnitsOf(scores, miner) + SharesOf(shares, pool, miner)
  {
    hide UnitsOf, AddPoint, DistinctAddresses, Positive;
    if shares != [] {
      var n := |shares| - 1;
      CountBlockCounts(scores, shares[..n], pool, miner);
      AddPointCounts(CountBlock(scores, shares[..n], pool), shares[n].miner);
    }
  }

  lemma {:induction false} CountBlocksCounts(r: ShareRules, blocks: seq<Block>, from: nat, to: nat, pool: Hash, miner: string)
    requires to <= |blocks|
    ensures var scores := CountBlocks(r, blocks, from, to, pool);
            DistinctAddresses(scores) && Positive(scores) && UnitsOf(scores, miner) == SharesIn(r, blocks, from, to, pool, miner)
  {
    hide CountBlock, BlockShares;
    if to > from {
      CountBlocksCounts(r, blocks, from, to - 1, pool, miner);
      CountBlockCounts(CountBlocks(r, blocks, from, to - 1, pool), BlockShares(r, AfterCoinbase(blocks[to - 1])), pool, miner);
    }
  }

  /** A miner's score is the number of his shares for the pool in the window; nobody is listed twice. */
  lemma ScoresCountShares(r: ShareRules, blocks: seq<Block>, spendHeight: nat, pool: Hash, miner: string)
    ensures var scores := Scores(r, blocks, spendHeight, pool);
            && DistinctAddresses(scores) && Positive(scores)
            && UnitsOf(scores, miner)
               == SharesIn(r, blocks, Max(Before(spendHeight, r.pools.window), 1), Min(spendHeight, |blocks|), pool, miner)
  {
    CountBlocksCounts(r, blocks, Max(Before(spendHeight, r.pools.window), 1), Min(spendHeight, |blocks|), pool, miner);
  }

  /** Every plan divides its total, on any block list. */
  lemma PlansDivide(p: PoolRules, id: Transaction -> Hash, prior: seq<Block>, pool: Hash, total: nat)
    requires p.Pools().Valid() && PlanOf(p, id, prior, pool, total).Ok?
    ensures Divides(PlanOf(p, id, prior, pool, total).value, total)
  {
    hide FromBlocks, Scores, Payable, SplitOf, IsSplit, Divides, DistinctAddresses;
    var commission, scores := FromBlocks(p.Pools(), id, prior).value[pool].commission, Scores(p.shares, prior, |prior|, pool);
    ScoresCountShares(p.shares, prior, |prior|, pool, "");
    SplitOfIsSplit(total, commission, scores);
    SplitsDivide(total, commission, scores, PlanOf(p, id, prior, pool, total).value);
  }

  // ---- When there is a plan ----------------------------------------------------------------

  lemma {:induction false} ScoreCounts(s: seq<Score>, i: nat)
    requires i < |s|
    ensures TotalScore(s) >= s[i].units
  {
    if i < |s| - 1 {
      ScoreCounts(s[..|s| - 1], i);
    }
  }

  lemma SomebodyScored(scores: seq<Score>)
    requires Positive(scores)
    ensures TotalScore(PoolPayout.Ordered(scores)) > 0 <==> scores != []
  {
    var order := PoolPayout.Ordered(scores);
    SortMembers(Kept(scores), ByAddress);
    if scores != [] {
      assert scores[0] in Kept(scores) && scores[0] in order;
      var i :| 0 <= i < |order| && order[i] == scores[0];
      ScoreCounts(order, i);
    } else {
      assert Kept(scores) == [] && order == [];
    }
  }

  lemma SharesFit(total: nat, bps: nat)
    requires total < TWO_64 && bps <= 10000
    ensures Multiplies(total, bps) && Commission(total, bps) <= total
  {
    ScaledRatio(total, bps, 10000, 1);
    ScaleMonotone(total, TWO_64 - 1, bps);
    assert total * bps == bps * total;
  }

  lemma ScoreFits(total: nat, x: Score)
    requires total < TWO_64 && x.units < TWO_64
    ensures Scales(total, x)
  {
    ScaleMonotone(total, TWO_64 - 1, x.units);
  }

  lemma PayableMeans(total: nat, bps: nat, scores: seq<Score>)
    requires total < TWO_64 && bps <= 10000 && Positive(scores) && forall x :: x in scores ==> x.units < TWO_64
    ensures Payable(total, bps, scores) <==> scores != []
  {
    hide Scales, Multiplies, Commission, Positive, PoolPayout.Ordered, TotalScore;
    SomebodyScored(scores);
    SharesFit(total, bps);
    forall x | x in scores
      ensures Scales(total - Commission(total, bps), x)
    {
      ScoreFits(total - Commission(total, bps), x);
    }
  }

  /** With amounts, commissions and share counts as they occur, a plan exists exactly for a registered pool with a share in the window. */
  lemma PlanExists(p: PoolRules, id: Transaction -> Hash, prior: seq<Block>, pool: Hash, total: nat)
    requires p.Pools().Valid() && FromBlocks(p.Pools(), id, prior).Ok? && total < TWO_64
    requires var registry := FromBlocks(p.Pools(), id, prior).value; pool in registry ==> registry[pool].commission <= 10000
    requires forall x :: x in Scores(p.shares, prior, |prior|, pool) ==> x.units < TWO_64
    ensures PlanOf(p, id, prior, pool, total).Ok? <==> pool in FromBlocks(p.Pools(), id, prior).value && Scores(p.shares, prior, |prior|, pool) != []
    ensures PlanOf(p, id, prior, pool, total).Ok? ==>
              var (plan, record) := (PlanOf(p, id, prior, pool, total).value, FromBlocks(p.Pools(), id, prior).value[pool]);
              && plan.manager == record.manager
              && IsSplit(total, record.commission, Scores(p.shares, prior, |prior|, pool), plan.split)
  {
    hide FromBlocks, Scores, SplitOf, IsSplit, Payable, DistinctAddresses, Positive;
    var registry, scores := FromBlocks(p.Pools(), id, prior).value, Scores(p.shares, prior, |prior|, pool);
    ScoresCountShares(p.shares, prior, |prior|, pool, "");
    if pool in registry {
      PayableMeans(total, registry[pool].commission, scores);
      if scores != [] {
        SplitOfIsSplit(total, registry[pool].commission, scores);
      }
    }
  }

  /** Atoms that entries award to owners of that script. */
  function Due(p: PoolRules, entries: seq<Entry>, script: Script): nat
  {
    if entries == [] then 0
    else
      var last := entries[|entries| - 1];
      Due(p, entries[..|entries| - 1], script) + if p.Pools().scriptOf(last.address) == script then last.amount else 0
  }

  predicate Payee(p: PoolRules, address: string, amount: nat)
  {
    amount > 0 ==> IsAddress(p.Pools().addresses, address) && amount <= MAX_MONEY_ATOMS
  }

  lemma {:induction false} DueIsAwarded(p: PoolRules, entries: seq<Entry>, script: Script)
    requires forall i :: 0 <= i < |entries| ==> Payee(p, entries[i].address, entries[i].amount)
    ensures AwardedTo(p.ScriptOf, entries, script) == Due(p, entries, script)
  {
    hide IsAddress;
    if entries != [] {
      assert Payee(p, entries[|entries| - 1].address, entries[|entries| - 1].amount);
      DueIsAwarded(p, entries[..|entries| - 1], script);
    }
  }

  /** A plan can be paid out exactly when everybody due something has an address and somebody is due something, and pays every script its due. */
  lemma PlanPays(p: PoolRules, plan: Plan, total: nat, script: Script)
    ensures CoinbaseOutputs(p.ScriptOf, plan, total).Ok? <==>
              && total < TWO_64 && Payee(p, plan.manager, plan.split.commission)
              && (forall i :: 0 <= i < |plan.split.entries| ==> Payee(p, plan.split.entries[i].address, plan.split.entries[i].amount))
              && (plan.split.commission > 0 || exists i :: 0 <= i < |plan.split.entries| && plan.split.entries[i].amount > 0)
    ensures CoinbaseOutputs(p.ScriptOf, plan, total).Ok? ==>
              PaidTo(script, CoinbaseOutputs(p.ScriptOf, plan, total).value)
              == (if p.Pools().scriptOf(plan.manager) == script then plan.split.commission else 0) + Due(p, plan.split.entries, script)
  {
    hide IsAddress, PaidTo, AwardedTo, Due, CoinbaseOutputs;
    CoinbaseMeans(p.ScriptOf, plan, total, script);
    if CoinbaseOutputs(p.ScriptOf, plan, total).Ok? {
      DueIsAwarded(p, plan.split.entries, script);
    }
  }

  // ---- Addresses ---------------------------------------------------------------------------

  predicate AllMinersAre(r: AddressRules, shares: seq<Share>)
  {
    forall i :: 0 <= i < |shares| ==> IsAddress(r, shares[i].miner)
  }

  /** Every share in these blocks was sent for an address. */
  predicate MinersAreAddresses(r: ShareRules, blocks: seq<Block>)
  {
    forall h :: 1 <= h < |blocks| ==> AllMinersAre(r.pools.addresses, BlockShares(r, AfterCoinbase(blocks[h])))
  }

  predicate ScoresAreAddresses(r: AddressRules, scores: seq<Score>)
  {
    forall i :: 0 <= i < |scores| ==> IsAddress(r, scores[i].address)
  }

  predicate PlanAddresses(r: AddressRules, plan: Plan)
  {
    IsAddress(r, plan.manager) && forall i :: 0 <= i < |plan.split.entries| ==> IsAddress(r, plan.split.entries[i].address)
  }

  lemma {:induction false} CountBlockAddresses(r: AddressRules, scores: seq<Score>, shares: seq<Share>, pool: Hash)
    requires ScoresAreAddresses(r, scores) && AllMinersAre(r, shares)
    ensures ScoresAreAddresses(r, CountBlock(scores, shares, pool))
  {
    hide IsAddress;
    if shares != [] {
      CountBlockAddresses(r, scores, shares[..|shares| - 1], pool);
    }
  }

  lemma {:induction false} CountBlocksAddresses(r: ShareRules, blocks: seq<Block>, from: nat, to: nat, pool: Hash)
    requires 1 <= from && to <= |blocks| && MinersAreAddresses(r, blocks)
    ensures ScoresAreAddresses(r.pools.addresses, CountBlocks(r, blocks, from, to, pool))
  {
    hide CountBlock, BlockShares, IsAddress, AllMinersAre;
    if to > from {
      CountBlocksAddresses(r, blocks, from, to - 1, pool);
      CountBlockAddresses(r.pools.addresses, CountBlocks(r, blocks, from, to - 1, pool), BlockShares(r, AfterCoinbase(blocks[to - 1])), pool);
    }
  }

  lemma OrderedAddresses(r: AddressRules, scores: seq<Score>)
    requires ScoresAreAddresses(r, scores)
    ensures ScoresAreAddresses(r, PoolPayout.Ordered(scores))
  {
    hide IsAddress;
    SortMembers(Kept(scores), ByAddress);
    forall i | 0 <= i < |PoolPayout.Ordered(scores)|
      ensures IsAddress(r, PoolPayout.Ordered(scores)[i].address)
    {
      assert PoolPayout.Ordered(scores)[i] in Kept(scores);
    }
  }

  lemma SplitAddresses(r: AddressRules, total: nat, bps: nat, scores: seq<Score>)
    requires Payable(total, bps, scores) && ScoresAreAddresses(r, scores)
    ensures forall i :: 0 <= i < |SplitOf(total, bps, scores).entries| ==> IsAddress(r, SplitOf(total, bps, scores).entries[i].address)
  {
    hide IsAddress, PoolPayout.Ordered, Floor, Awarded, Commission, Scales, Multiplies;
    OrderedAddresses(r, scores);
  }

  /** After blocks whose shares were sent for addresses, a plan pays addresses only. */
  lemma PlansPayAddresses(p: PoolRules, id: Transaction -> Hash, prior: seq<Block>, pool: Hash, total: nat)
    requires p.Pools().Valid() && MinersAreAddresses(p.shares, prior) && PlanOf(p, id, prior, pool, total).Ok?
    ensures PlanAddresses(p.Pools().addresses, PlanOf(p, id, prior, pool, total).value)
  {
    hide FromBlocks, CountBlocks, Payable, SplitOf, IsAddress, MinersAreAddresses;
    var registry, scores := FromBlocks(p.Pools(), id, prior).value, Scores(p.shares, prior, |prior|, pool);
    RegistryHasAddresses(p.Pools(), id, prior);
    CountBlocksAddresses(p.shares, prior, Max(Before(|prior|, p.Pools().window), 1), Min(|prior|, |prior|), pool);
    SplitAddresses(p.Pools().addresses, total, registry[pool].commission, scores);
  }

  // ---- The maps the code uses --------------------------------------------------------------

  type ScoreMap = map<string, nat>

  /** The map and the list say the same. */
  ghost predicate Lists(m: ScoreMap, scores: seq<Score>)
  {
    && DistinctAddresses(scores)
    && (forall i :: 0 <= i < |scores| ==> scores[i].address in m && m[scores[i].address] == scores[i].units)
    && (forall a :: a in m ==> PositionOf(scores, a) < |scores|)
  }

  lemma AddPointLists(m: ScoreMap, scores: seq<Score>, miner: string)
    requires Lists(m, scores)
    ensures Lists(m[miner := (if miner in m then m[miner] else 0) + 1], AddPoint(scores, miner))
  {
    hide PositionOf;
    var more, k := AddPoint(scores, miner), PositionOf(scores, miner);
    var m' := m[miner := (if miner in m then m[miner] else 0) + 1];
    assert miner in m <==> k < |scores|;
    forall a | a in m'
      ensures PositionOf(more, a) < |more|
    {
      var q := if a == miner then k else PositionOf(scores, a);
      assert more[q].address == a;
      PositionIsUnique(more, q);
    }
  }

  // However a map is listed, the elements are the same.
  lemma ListsPermute(m: ScoreMap, a: seq<Score>, b: seq<Score>)
    requires Lists(m, a) && Lists(m, b)
    ensures multiset(a) == multiset(b)
  {
    forall x: Score
      ensures multiset(a)[x] == multiset(b)[x]
    {
      OccursOnce(m, a, x);
      OccursOnce(m, b, x);
    }
  }

  lemma OccursOnce(m: ScoreMap, scores: seq<Score>, x: Score)
    requires Lists(m, scores)
    ensures multiset(scores)[x] == if x.address in m && m[x.address] == x.units then 1 else 0
  {
    var k := PositionOf(scores, x.address);
    if x.address in m && m[x.address] == x.units {
      assert scores[k] == x;
      OnceInMultiset(scores, k);
    } else {
      assert x !in scores;
    }
  }

  /** pool_share_scores_from_blocks. */
  method PoolShareScores(r: ShareRules, blocks: seq<Block>, spendHeight: nat, pool: Hash) returns (scores: ScoreMap)
    ensures Lists(scores, Scores(r, blocks, spendHeight, pool))
  {
    hide CountBlock, BlockShares, Lists;
    scores := map[];
    var start, end := Max(Before(spendHeight, r.pools.window), 1), Min(spendHeight, |blocks|);
    NothingListed();
    if start < end {
      for height := start to end
        invariant Lists(scores, CountBlocks(r, blocks, start, height, pool))
      {
        scores := ScoreBlock(r, scores, CountBlocks(r, blocks, start, height, pool), AfterCoinbase(blocks[height]), pool);
      }
    }
  }

  lemma NothingListed()
    ensures Lists(map[], [])
  {
  }

  method ScoreBlock(r: ShareRules, m: ScoreMap, ghost listed: seq<Score>, txs: seq<Transaction>, pool: Hash) returns (scores: ScoreMap)
    requires Lists(m, listed)
    ensures Lists(scores, CountBlock(listed, BlockShares(r, txs), pool))
  {
    hide ParseShare, Lists, AddPoint;
    scores := m;
    for i := 0 to |txs|
      invariant Lists(scores, CountBlock(listed, BlockShares(r, txs[..i]), pool))
    {
      assert txs[..i + 1][..i] == txs[..i];
      var share := ParseShare(r, txs[i]);
      if share.Some? {
        ghost var before := BlockShares(r, txs[..i]);
        assert (before + [share.value])[..|before|] == before;
        if share.value.pool == pool {
          var miner := share.value.miner;
          AddPointLists(scores, CountBlock(listed, before, pool), miner);
          scores := scores[miner := (if miner in scores then scores[miner] else 0) + 1];
        }
      }
    }
    assert txs[..|txs|] == txs;
  }

  /** The entries of a map, in whatever order it hands them out. */
  method Collect(m: ScoreMap) returns (scores: seq<Score>)
    ensures Lists(m, scores)
  {
    scores := [];
    var left := m.Keys;
    while left != {}
      invariant left <= m.Keys && DistinctAddresses(scores)
      invariant forall i :: 0 <= i < |scores| ==> scores[i].address in m && scores[i].address !in left && m[scores[i].address] == scores[i].units
      invariant forall a :: a in m && a !in left ==> PositionOf(scores, a) < |scores|
      decreases |left|
    {
      var a :| a in left;
      ghost var before := scores;
      scores := scores + [Score(a, m[a])];
      left := left - {a};
      forall b | b in m && b !in left
        ensures PositionOf(scores, b) < |scores|
      {
        var q := if b == a then |before| else PositionOf(before, b);
        assert scores[q].address == b;
        PositionIsUnique(scores, q);
      }
    }
  }

  /** pool_payout_plan: whatever order the hash map gives its entries in, the plan is the same. */
  method PoolPayoutPlan(p: PoolRules, id: Transaction -> Hash, prior: seq<Block>, pool: Hash, total: nat) returns (r: Result<Plan>)
    requires p.Pools().Valid()
    ensures r == PlanOf(p, id, prior, pool, total)
  {
    hide FromBlocks, Scores, Payable, SplitOf, Lists, IsSplit;
    var registry :- FromBlocks(p.Pools(), id, prior);
    if pool !in registry {
      return Err;
    }
    var scores := PoolShareScores(p.shares, prior, |prior|, pool);
    var listed := Collect(scores);
    SameSplit(scores, listed, Scores(p.shares, prior, |prior|, pool), total, registry[pool].commission);
    var split :- SplitAmount(total, registry[pool].commission, listed);
    return Ok(Plan(registry[pool].manager, split));
  }

  lemma SameSplit(m: ScoreMap, a: seq<Score>, b: seq<Score>, total: nat, bps: nat)
    requires Lists(m, a) && Lists(m, b)
    ensures DistinctAddresses(a) && (Payable(total, bps, a) <==> Payable(total, bps, b))
    ensures Payable(total, bps, a) ==> SplitOf(total, bps, a) == SplitOf(total, bps, b)
  {
    hide Payable, SplitOf;
    ListsPermute(m, a, b);
    PayableIsOrderIndependent(total, bps, a, b);
    if Payable(total, bps, a) {
      SplitOfPermutes(total, bps, a, b);
    }
  }
}
