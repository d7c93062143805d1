/**
  Full-reserve solvency across src/lib.rs: the UTXO set, the burn rule, the subsidy schedule and the
  JIN vault together keep every circulating QUB atom backed.
 */
module FullReserve {
  import opened Addresses
  import opened Arithmetic
  import opened Consensus
  import opened Infusion
  import opened JinLedger
  import opened Outcome
  import opened PayoutPlan
  import PoolPayout
  import opened PoolRewards
  import opened PoolsOnChain
  import opened Sorting
  import opened UtxoSet
  import opened Wire
  import Solvency

  // ---- Addresses ---------------------------------------------------------------------------

  /** The vault's key in the ledger is no address of any network. */
  lemma VaultIsNoAddress(r: AddressRules)
    ensures forall a :: IsAddress(r, a) ==> a != VAULT
  {
    hide IsAddress;
    if IsAddress(r, VAULT) {
      AddressHasSeparator(r, VAULT);
      assert false;
    }
  }

  predicate ActionAddresses(r: AddressRules, a: Action)
  {
    match a
    case Buy(p, _) => IsAddress(r, p.buyer)
    case Send(t, _) => IsAddress(r, t.from) && IsAddress(r, t.to)
    case Convert(c, _) => IsAddress(r, c.from)
    case Vaulted(m, _) => IsAddress(r, m.from)
  }

  predicate AllAddresses(r: AddressRules, actions: seq<Action>)
  {
    forall i :: 0 <= i < |actions| ==> ActionAddresses(r, actions[i])
  }

  function AddressesOf(j: JinRules): AddressRules
  {
    j.pools.Pools().addresses
  }

  /** The decoders of JIN markers, coinbase scripts and locks return only what the address parser accepted. */
  ghost predicate AddressesOnly(j: JinRules)
  {
    && IsAddress(AddressesOf(j), j.protocol)
    && (forall tx :: AllAddresses(AddressesOf(j), TxActions(j, tx)))
    && (forall b :: j.minerOf(b).Some? ==> IsAddress(AddressesOf(j), j.minerOf(b).value))
    && (forall blocks, a :: j.locks(blocks).Ok? && a in j.locks(blocks).value ==> IsAddress(AddressesOf(j), a))
  }

  lemma {:induction false} BlockAddresses(j: JinRules, txs: seq<Transaction>)
    requires AddressesOnly(j)
    ensures AllAddresses(AddressesOf(j), BlockActions(j, txs))
  {
    hide TxActions, ActionAddresses;
    if txs != [] {
      BlockAddresses(j, txs[..|txs| - 1]);
      assert AllAddresses(AddressesOf(j), TxActions(j, txs[|txs| - 1]));
    }
  }

  // ---- The vault's entry in the ledger -----------------------------------------------------

  /** The vault holds the reserve, and what pool payouts have put there besides. */
  predicate VaultMatches(book: Book, stray: nat)
  {
    Balance(book.balances, VAULT) == book.reserve.reserve + stray
  }

  lemma CreditElsewhere(m: Balances, a: string, units: nat)
    requires Credit(m, a, units).Ok? && a != VAULT
    ensures Balance(Credit(m, a, units).value, VAULT) == Balance(m, VAULT)
  {
  }

  lemma DebitElsewhere(m: Balances, a: string, units: nat)
    requires Debit(m, a, units).Ok? && a != VAULT
    ensures Balance(Debit(m, a, units).value, VAULT) == Balance(m, VAULT)
  {
  }

  lemma TransferElsewhere(m: Balances, t: Transfer, miner: Option<string>)
    requires ApplyTransfer(m, t, miner).Ok? && t.from != VAULT && t.to != VAULT && miner != Some(VAULT)
    ensures Balance(ApplyTransfer(m, t, miner).value, VAULT) == Balance(m, VAULT)
  {
    hide Debit, Credit, Balance;
    var fee := Fee(t.feeInJin, t.fee);
    DebitElsewhere(m, t.from, t.units + fee);
    var paid := Debit(m, t.from, t.units + fee).value;
    CreditElsewhere(paid, t.to, t.units);
    if fee > 0 && miner.Some? {
      CreditElsewhere(Credit(paid, t.to, t.units).value, miner.value, fee);
    }
  }

  // What a marker does to the reserve is what it does to the vault's balance.
  lemma ReserveMoves(s: Reserve, m: Marker)
    requires ApplyToState(s, m).Changed?
    ensures var t := ApplyToState(s, m);
            if m.InfuseJin? then t.state.reserve == s.reserve + m.units else t.state.reserve + t.units == s.reserve
  {
    hide Share, Payout;
  }

  lemma MarkerMatches(j: JinRules, book: Book, marker: Marker, stray: nat)
    requires ApplyMarker(j, book, marker).Ok? && VaultMatches(book, stray) && marker.from != VAULT
    ensures VaultMatches(ApplyMarker(j, book, marker).value, stray)
  {
    hide ApplyToState;
    ReserveMoves(book.reserve, marker);
    var units := ApplyToState(book.reserve, marker).units;
    var m := book.balances;
    if marker.InfuseJin? {
      DebitElsewhere(m, marker.from, marker.units);
    } else {
      CreditElsewhere(Debit(m, VAULT, units).value, marker.from, units);
    }
  }

  /** What a list of receivers gets credited to one key. */
  function UnitsTo(rows: seq<Row>, a: string): nat
  {
    if rows == [] then 0 else UnitsTo(rows[..|rows| - 1], a) + if rows[|rows| - 1].address == a then rows[|rows| - 1].units else 0
  }

  lemma {:induction false} CreditAllTo(m: Balances, rows: seq<Row>, a: string)
    requires CreditAll(m, rows).Ok?
    ensures Balance(CreditAll(m, rows).value, a) == Balance(m, a) + UnitsTo(rows, a)
  {
    if rows != [] {
      CreditAllTo(m, rows[..|rows| - 1], a);
    }
  }

  lemma {:induction false} NothingTo(rows: seq<Row>, a: string)
    requires forall i :: 0 <= i < |rows| ==> rows[i].address != a
    ensures UnitsTo(rows, a) == 0
  {
    if rows != [] {
      NothingTo(rows[..|rows| - 1], a);
    }
  }

  lemma {:induction false} EntryRowAddresses(entries: seq<PoolPayout.Entry>)
    requires forall i :: 0 <= i < |entries| ==> entries[i].address != VAULT
    ensures forall i :: 0 <= i < |EntryRows(entries)| ==> EntryRows(entries)[i].address != VAULT
  {
    if entries != [] {
      EntryRowAddresses(entries[..|entries| - 1]);
    }
  }

  lemma {:induction false} MergeAddresses(rows: seq<Row>)
    requires forall i :: 0 <= i < |rows| ==> rows[i].address != VAULT
    ensures forall i :: 0 <= i < |Merge(rows)| ==> Merge(rows)[i].address != VAULT
  {
    if rows != [] {
      MergeAddresses(rows[..|rows| - 1]);
    }
  }

  lemma ReceiverAddresses(r: AddressRules, plan: Plan)
    requires PlanAddresses(r, plan)
    ensures forall i :: 0 <= i < |FeeReceivers(plan)| ==> FeeReceivers(plan)[i].address != VAULT
  {
    hide IsAddress, Merge, EntryRows, ByName;
    VaultIsNoAddress(r);
    EntryRowAddresses(plan.split.entries);
    var rows := CommissionRows(plan) + EntryRows(plan.split.entries);
    MergeAddresses(rows);
    SortMembers(Merge(rows), ByName);
    forall i | 0 <= i < |FeeReceivers(plan)|
      ensures FeeReceivers(plan)[i].address != VAULT
    {
      assert FeeReceivers(plan)[i] in Merge(rows);
    }
  }

  // ---- Melted atoms ------------------------------------------------------------------------

  function MeltAtoms(a: Action): nat
  {
    if a.Vaulted? && a.marker.MeltQub? then a.marker.atoms else 0
  }

  function MeltSum(actions: seq<Action>): nat
  {
    if actions == [] then 0 else MeltSum(actions[..|actions| - 1]) + MeltAtoms(actions[|actions| - 1])
  }

  lemma {:induction false} MeltSumAppend(a: seq<Action>, b: seq<Action>)
    ensures MeltSum(a + b) == MeltSum(a) + MeltSum(b)
  {
    if b == [] {
      assert a + b == a;
    } else {
      assert (a + b)[..|a + b| - 1] == a + b[..|b| - 1];
      MeltSumAppend(a, b[..|b| - 1]);
    }
  }

  lemma {:induction false} NothingMelted(actions: seq<Action>)
    requires forall i :: 0 <= i < |actions| ==> !actions[i].Vaulted?
    ensures MeltSum(actions) == 0
  {
    if actions != [] {
      NothingMelted(actions[..|actions| - 1]);
    }
  }

  /** The burn validate_block takes off a transaction's fee is what the ledger melts for it. */
  lemma TransactionBurnsWhatItMelts(j: JinRules, tx: Transaction, height: nat)
    requires Burn(j.rules, tx, height).Ok?
    ensures MeltSum(TxActions(j, tx)) == Burn(j.rules, tx, height).value
  {
    var (p, t, c, v) := (j.purchases(tx), j.transfers(tx), j.conversions(tx), j.rules.markers(tx));
    var buys := seq(|p|, i requires 0 <= i < |p| => Buy(p[i].marker, p[i].atoms));
    var sends := seq(|t|, i requires 0 <= i < |t| => Send(t[i].marker, t[i].atoms));
    var converts := seq(|c|, i requires 0 <= i < |c| => Convert(c[i].marker, c[i].atoms));
    var vaulted := seq(|v|, i requires 0 <= i < |v| => Vaulted(v[i].marker, v[i].atoms));
    NothingMelted(buys + sends + converts);
    MeltSumAppend(buys + sends + converts, vaulted);
    if |v| == 1 {
      assert vaulted[..0] == [];
    }
  }

  lemma {:induction false} BlockBurnsWhatItMelts(j: JinRules, txs: seq<Transaction>, height: nat)
    requires forall i :: 0 <= i < |txs| ==> Burn(j.rules, txs[i], height).Ok?
    ensures MeltSum(BlockActions(j, txs)) == Solvency.Burned(j.rules, txs, height)
  {
    hide Burn, TxActions, MeltSum;
    if txs == [] {
      NothingMelted([]);
    } else {
      var n := |txs| - 1;
      BlockBurnsWhatItMelts(j, txs[..n], height);
      TransactionBurnsWhatItMelts(j, txs[n], height);
      MeltSumAppend(BlockActions(j, txs[..n]), TxActions(j, txs[n]));
    }
  }

  lemma {:induction false} TalliedBurns(rules: Rules, txs: seq<Transaction>, u: Utxos, height: nat)
    requires Tallied(rules, txs, u, height).Ok?
    ensures forall i :: 0 <= i < |txs| ==> Burn(rules, txs[i], height).Ok?
  {
    hide RawFee, Burn, ExtraFee, ConnectTx;
    if txs != [] {
      TalliedBurns(rules, txs[..|txs| - 1], u, height);
    }
  }

  // ---- The reserve over blocks -------------------------------------------------------------

  lemma StepReserve(j: JinRules, ctx: Context, r: Running, a: Action, stray: nat)
    requires Step(j, ctx, r, a).Ok? && ActionAddresses(AddressesOf(j), a) && j.protocol != VAULT && ctx.miner != Some(VAULT)
    requires VaultMatches(r.book, stray) && Balanced(r.book.reserve)
    ensures var s := Step(j, ctx, r, a).value.book;
            VaultMatches(s, stray) && Balanced(s.reserve) && s.reserve.melted == r.book.reserve.melted + MeltAtoms(a)
            && (!j.rules.InfusionActive(ctx.height) ==> s.reserve == r.book.reserve)
  {
    hide Debit, Credit, Balance, IsAddress, ApplyTransfer, ApplyToState, Balanced;
    VaultIsNoAddress(AddressesOf(j));
    var m := r.book.balances;
    match a
    case Buy(p, _) =>
      DebitElsewhere(m, j.protocol, p.units);
      CreditElsewhere(Debit(m, j.protocol, p.units).value, p.buyer, p.units);
    case Send(t, _) => TransferElsewhere(m, t, ctx.miner);
    case Convert(c, _) => TransferElsewhere(m, Transfer(c.from, j.protocol, c.units, c.feeInJin, c.fee), ctx.miner);
    case Vaulted(marker, _) =>
      MarkerMatches(j, r.book, marker, stray);
      ApplyBalanced(r.book.reserve, marker);
  }

  lemma {:induction false} StepsReserve(j: JinRules, ctx: Context, r: Running, actions: seq<Action>, stray: nat)
    requires Steps(j, ctx, r, actions).Ok? && AllAddresses(AddressesOf(j), actions) && j.protocol != VAULT && ctx.miner != Some(VAULT)
    requires VaultMatches(r.book, stray) && Balanced(r.book.reserve)
    ensures var s := Steps(j, ctx, r, actions).value.book;
            VaultMatches(s, stray) && Balanced(s.reserve) && s.reserve.melted == r.book.reserve.melted + MeltSum(actions)
            && (!j.rules.InfusionActive(ctx.height) ==> s.reserve == r.book.reserve)
  {
    hide Step, VaultMatches, Balanced, ActionAddresses, MeltAtoms;
    if actions != [] {
      var n := |actions| - 1;
      StepsReserve(j, ctx, r, actions[..n], stray);
      StepReserve(j, ctx, Steps(j, ctx, r, actions[..n]).value, actions[n], stray);
    }
  }

  lemma BootstrapReserve(j: JinRules, book: Book, stray: nat)
    requires Bootstrap(j, book).Ok? && j.protocol != VAULT && VaultMatches(book, stray) && book.reserve == INACTIVE
    ensures var s := Bootstrap(j, book).value;
            VaultMatches(s, stray) && Balanced(s.reserve) && s.reserve.melted == 0 && s.reserve.active
  {
    hide BootstrapPerAtom, Payout;
    InactiveIsBalanced();
    if j.bootstrap == 0 {
      assert Payout(MAX_MONEY_ATOMS, 0) == 0 by {
        PayoutOfNothing();
      }
    } else {
      DebitElsewhere(book.balances, j.protocol, j.bootstrap);
      BootstrapBalanced(book.reserve, j.bootstrap);
    }
  }

  lemma PayoutOfNothing()
    ensures Payout(MAX_MONEY_ATOMS, 0) == 0
  {
  }

  function MeltedAt(j: JinRules, b: Block, height: nat): nat
  {
    if height < j.activation then 0 else MeltSum(BlockActions(j, AfterCoinbase(b)))
  }

  function MeltedOn(j: JinRules, blocks: seq<Block>): nat
  {
    if |blocks| <= 1 then 0 else MeltedOn(j, blocks[..|blocks| - 1]) + MeltedAt(j, blocks[|blocks| - 1], |blocks| - 1)
  }

  predicate BeforeInfusion(j: JinRules, height: nat)
  {
    j.rules.infusionFrom.None? || height < j.rules.infusionFrom.value
  }

  /** What a block's payout plan credits to the vault's key, which is no address but may be a share's miner text. */
  function StrayIn(j: JinRules, prior: seq<Block>, b: Block, book: Book): nat
  {
    var height := |prior|;
    var start := if j.rules.infusionFrom == Some(height) then Bootstrap(j, book) else Ok(book);
    if height < j.activation || j.pools.marker(b).None? || start.Err? then 0
    else
      var done := Steps(j, ContextOf(j, b, height), Running(start.value, 0), BlockActions(j, AfterCoinbase(b)));
      if done.Err? || done.value.fees == 0 then 0
      else match PlanOf(j.pools, j.rules.id, prior, j.pools.marker(b).value, done.value.fees)
        case Ok(plan) => UnitsTo(FeeReceivers(plan), VAULT)
        case Err => 0
  }

  function StrayOn(j: JinRules, blocks: seq<Block>): nat
  {
    if |blocks| <= 1 then 0
    else
      var n := |blocks| - 1;
      var before := Books(j, blocks[..n]);
      StrayOn(j, blocks[..n]) + if before.Ok? then StrayIn(j, blocks[..n], blocks[n], before.value) else 0
  }

  /** What the ledger's loop keeps at every height. */
  ghost predicate BookInv(j: JinRules, height: nat, book: Book, stray: nat)
  {
    VaultMatches(book, stray) && Balanced(book.reserve) && (BeforeInfusion(j, height) ==> book.reserve == INACTIVE)
  }

  lemma BlockReserve(j: JinRules, prior: seq<Block>, b: Block, book: Book, stray: nat)
    requires AddressesOnly(j) && prior != [] && ApplyBlock(j, prior, b, book).Ok? && BookInv(j, |prior| - 1, book, stray)
    ensures var s := ApplyBlock(j, prior, b, book).value;
            BookInv(j, |prior|, s, stray + StrayIn(j, prior, b, book)) && s.reserve.melted == book.reserve.melted + MeltedAt(j, b, |prior|)
  {
    hide Steps, Bootstrap, CreditAll, FeeReceivers, BlockActions, MeltSum, IsAddress, VaultMatches, Balanced, AllAddresses, TxActions, PlanOf, UnitsTo;
    var height := |prior|;
    VaultIsNoAddress(AddressesOf(j));
    if j.rules.infusionFrom == Some(height) {
      BootstrapReserve(j, book, stray);
    }
    var start := if j.rules.infusionFrom == Some(height) then Bootstrap(j, book).value else book;
    if height >= j.activation {
      var ctx, actions := ContextOf(j, b, height), BlockActions(j, AfterCoinbase(b));
      BlockAddresses(j, AfterCoinbase(b));
      StepsReserve(j, ctx, Running(start, 0), actions, stray);
      var done := Steps(j, ctx, Running(start, 0), actions).value;
      if j.pools.marker(b).Some? && done.fees != 0 {
        var plan := PlanOf(j.pools, j.rules.id, prior, j.pools.marker(b).value, done.fees).value;
        CreditAllTo(done.book.balances, FeeReceivers(plan), VAULT);
        MatchesByBalance(done.book, CreditAll(done.book.balances, FeeReceivers(plan)).value, stray, UnitsTo(FeeReceivers(plan), VAULT));
      }
    }
  }

  lemma MatchesByBalance(book: Book, m: Balances, stray: nat, more: nat)
    requires VaultMatches(book, stray) && Balance(m, VAULT) == Balance(book.balances, VAULT) + more
    ensures VaultMatches(book.(balances := m), stray + more)
  {
  }

  /**
    The infusion invariant at every height of every ledger that can be replayed: the vault's entry is the
    reserve plus exactly what payout plans credited to its key.
   */
  lemma {:induction false} BooksReserve(j: JinRules, blocks: seq<Block>)
    requires AddressesOnly(j) && blocks != [] && Books(j, blocks).Ok?
    ensures BookInv(j, |blocks| - 1, Books(j, blocks).value, StrayOn(j, blocks))
    ensures Books(j, blocks).value.reserve.melted == MeltedOn(j, blocks)
  {
    hide ApplyBlock, AddressesOnly, MeltedAt, BookInv, StrayIn;
    if |blocks| == 1 {
      OpeningInv(j);
    } else {
      var n := |blocks| - 1;
      BooksReserve(j, blocks[..n]);
      BlockReserve(j, blocks[..n], blocks[n], Books(j, blocks[..n]).value, StrayOn(j, blocks[..n]));
    }
  }

  lemma OpeningInv(j: JinRules)
    requires AddressesOnly(j)
    ensures BookInv(j, 0, Opening(j), 0)
  {
    hide IsAddress;
    InactiveIsBalanced();
    VaultIsNoAddress(AddressesOf(j));
  }

  lemma AddressesPayNoStray(j: JinRules, prior: seq<Block>, b: Block, book: Book)
    requires MinersAreAddresses(j.pools.shares, prior)
    ensures StrayIn(j, prior, b, book) == 0
  {
    hide Steps, Bootstrap, FeeReceivers, BlockActions, UnitsTo, PlanOf, MinersAreAddresses, PlanAddresses;
    forall pool, total | PlanOf(j.pools, j.rules.id, prior, pool, total).Ok?
      ensures UnitsTo(FeeReceivers(PlanOf(j.pools, j.rules.id, prior, pool, total).value), VAULT) == 0
    {
      PlansPayAddresses(j.pools, j.rules.id, prior, pool, total);
      ReceiverAddresses(AddressesOf(j), PlanOf(j.pools, j.rules.id, prior, pool, total).value);
      NothingTo(FeeReceivers(PlanOf(j.pools, j.rules.id, prior, pool, total).value), VAULT);
    }
  }

  /** Blocks whose shares were all sent for addresses credit the vault's key nothing. */
  lemma {:induction false} NothingStray(j: JinRules, blocks: seq<Block>)
    requires MinersAreAddresses(j.pools.shares, blocks)
    ensures StrayOn(j, blocks) == 0
  {
    hide Books, StrayIn, AllMinersAre;
    if |blocks| > 1 {
      var n := |blocks| - 1;
      NothingStray(j, blocks[..n]);
      if Books(j, blocks[..n]).Ok? {
        AddressesPayNoStray(j, blocks[..n], blocks[n], Books(j, blocks[..n]).value);
      }
    }
  }

  /** On an accepted chain the vault's entry is the reserve. */
  lemma AcceptedBooksReserve(j: JinRules, blocks: seq<Block>, now: U32)
    requires j.rules.Valid() && ChecksPools(j.rules, j.pools) && AddressesOnly(j)
    requires Replay(j.rules, blocks, now).Ok? && Books(j, blocks).Ok?
    ensures BookInv(j, |blocks| - 1, Books(j, blocks).value, 0)
    ensures Books(j, blocks).value.reserve.melted == MeltedOn(j, blocks)
  {
    hide Books, BookInv, AddressesOnly, ChecksPools, MinersAreAddresses, StrayOn;
    AcceptedMiners(j.rules, j.pools, blocks, now);
    BooksReserve(j, blocks);
    NothingStray(j, blocks);
  }

  // ---- Burned is melted --------------------------------------------------------------------

  lemma {:induction false} BurnedBeforeInfusion(rules: Rules, txs: seq<Transaction>, height: nat)
    requires !rules.InfusionActive(height)
    ensures Solvency.Burned(rules, txs, height) == 0
  {
    if txs != [] {
      BurnedBeforeInfusion(rules, txs[..|txs| - 1], height);
    }
  }

  lemma AcceptedTallies(rules: Rules, prior: seq<Block>, u: Utxos, b: Block, now: U32)
    requires rules.Valid() && prior != [] && Accept(rules, prior, u, b, now).Ok?
    ensures b.transactions != [] && Tallied(rules, b.transactions[1..], u, |prior|).Ok?
  {
    hide Tallied, HeaderOk, Stateless, Subsidy, OutValue, ConnectAll;
  }

  lemma BlockMelts(j: JinRules, prior: seq<Block>, u: Utxos, b: Block, now: U32)
    requires j.rules.Valid() && prior != [] && Accept(j.rules, prior, u, b, now).Ok?
    requires j.rules.infusionFrom.Some? ==> j.activation <= j.rules.infusionFrom.value
    ensures b.transactions != [] && Solvency.Burned(j.rules, b.transactions[1..], |prior|) == MeltedAt(j, b, |prior|)
  {
    hide Tallied, Burn, BlockActions, MeltSum, Accept, Solvency.Burned;
    AcceptedTallies(j.rules, prior, u, b, now);
    if |prior| < j.activation {
      BurnedBeforeInfusion(j.rules, b.transactions[1..], |prior|);
    } else {
      TalliedBurns(j.rules, b.transactions[1..], u, |prior|);
      BlockBurnsWhatItMelts(j, b.transactions[1..], |prior|);
    }
  }

  /** On an accepted chain the ledger melted exactly the atoms the blocks burned. */
  lemma {:induction false} MeltedIsBurned(j: JinRules, blocks: seq<Block>, now: U32)
    requires j.rules.Valid() && Replay(j.rules, blocks, now).Ok?
    requires j.rules.infusionFrom.Some? ==> j.activation <= j.rules.infusionFrom.value
    ensures MeltedOn(j, blocks) == Solvency.BurnedOn(j.rules, blocks)
  {
    hide Accept, MeltedAt;
    if |blocks| > 1 {
      var n := |blocks| - 1;
      MeltedIsBurned(j, blocks[..n], now);
      BlockMelts(j, blocks[..n], Replay(j.rules, blocks[..n], now).value, blocks[n], now);
    }
  }

  // ---- Full reserve ------------------------------------------------------------------------

  predicate MainnetEconomy(j: JinRules)
  {
    && j.rules.initialSubsidy == 500_000_000 && j.rules.halving == 2_100_000
    && (j.rules.infusionFrom.Some? ==> j.activation <= j.rules.infusionFrom.value)
  }

  /**
    On every accepted chain whose ledger replays: circulating atoms are at most the true maximum, and
    the vault's balance pays the current price for every one of them.
   */
  lemma EveryAtomIsBacked(j: JinRules, blocks: seq<Block>, now: U32)
    requires j.rules.Valid() && MainnetEconomy(j) && ChecksPools(j.rules, j.pools) && AddressesOnly(j)
    requires Replay(j.rules, blocks, now).Ok? && LedgerActive(j, blocks) && Ledger(j, blocks).Ok?
    ensures Books(j, blocks).Ok?
    ensures var (supply, reserve, vault) := (Total(Replay(j.rules, blocks, now).value), Books(j, blocks).value.reserve, Balance(Ledger(j, blocks).value, VAULT));
            && supply <= reserve.trueMax
            && reserve.trueMax + reserve.melted == MAX_MONEY_ATOMS
            && vault == reserve.reserve == Payout(reserve.trueMax, reserve.perAtom)
            && vault >= Payout(supply, reserve.perAtom)
  {
    hide Total, Books, Payout, Accept, AddressesOnly, ChecksPools;
    Solvency.CirculationBelowCap(j.rules, blocks, now);
    MeltedIsBurned(j, blocks, now);
    AcceptedBooksReserve(j, blocks, now);
    var supply, book := Total(Replay(j.rules, blocks, now).value), Books(j, blocks).value;
    LocksLeaveVault(j, blocks);
    PayoutSplits(book.reserve.trueMax, supply, book.reserve.perAtom);
  }

  // Nobody locks the vault's balance.
  lemma LocksLeaveVault(j: JinRules, blocks: seq<Block>)
    requires AddressesOnly(j) && LedgerActive(j, blocks) && Ledger(j, blocks).Ok?
    ensures Books(j, blocks).Ok? && Balance(Ledger(j, blocks).value, VAULT) == Balance(Books(j, blocks).value.balances, VAULT)
  {
    hide Books, IsAddress;
    var locks := j.locks(blocks).value;
    assert forall a :: a in locks ==> IsAddress(AddressesOf(j), a);
    VaultIsNoAddress(AddressesOf(j));
  }

  // ---- The state without the ledger --------------------------------------------------------

  /** Vault markers in block order. */
  function MarkersOf(actions: seq<Action>): seq<Marker>
  {
    if actions == [] then []
    else
      var before, last := MarkersOf(actions[..|actions| - 1]), actions[|actions| - 1];
      if last.Vaulted? then before + [last.marker] else before
  }

  function TxMarkers(j: JinRules, tx: Transaction): seq<Marker>
  {
    var v := j.rules.markers(tx);
    seq(|v|, i requires 0 <= i < |v| => v[i].marker)
  }

  function BlockMarkers(j: JinRules, txs: seq<Transaction>): seq<Marker>
  {
    if txs == [] then [] else BlockMarkers(j, txs[..|txs| - 1]) + TxMarkers(j, txs[|txs| - 1])
  }

  predicate MarkersPriced(j: JinRules, txs: seq<Transaction>)
  {
    forall k, i :: 0 <= k < |txs| && 0 <= i < |j.rules.markers(txs[k])| ==> j.rules.markers(txs[k])[i].atoms == j.markerAtoms
  }

  /** qub_jin_infusion_state_from_blocks: the vault alone, without looking at balances. */
  function StateFromBlocks(j: JinRules, blocks: seq<Block>): Result<Reserve>
  {
    if |blocks| <= 1 then Ok(INACTIVE)
    else
      var n := |blocks| - 1;
      var before :- StateFromBlocks(j, blocks[..n]);
      var start :- if j.rules.infusionFrom == Some(n) then Bootstrapped(before, j.bootstrap) else Ok(before);
      if !j.rules.InfusionActive(n) then Ok(start)
      else if !MarkersPriced(j, AfterCoinbase(blocks[n])) then Err
      else Run(start, BlockMarkers(j, AfterCoinbase(blocks[n])))
  }

  lemma {:induction false} MarkersOfAppend(a: seq<Action>, b: seq<Action>)
    ensures MarkersOf(a + b) == MarkersOf(a) + MarkersOf(b)
  {
    if b == [] {
      assert a + b == a;
    } else {
      assert (a + b)[..|a + b| - 1] == a + b[..|b| - 1];
      MarkersOfAppend(a, b[..|b| - 1]);
    }
  }

  lemma {:induction false} NoMarkers(actions: seq<Action>)
    requires forall i :: 0 <= i < |actions| ==> !actions[i].Vaulted?
    ensures MarkersOf(actions) == []
  {
    if actions != [] {
      NoMarkers(actions[..|actions| - 1]);
    }
  }

  lemma {:induction false} OnlyMarkers(v: seq<Placed<Marker>>)
    ensures MarkersOf(seq(|v|, i requires 0 <= i < |v| => Vaulted(v[i].marker, v[i].atoms))) == seq(|v|, i requires 0 <= i < |v| => v[i].marker)
  {
    if v != [] {
      var n := |v| - 1;
      OnlyMarkers(v[..n]);
      assert seq(|v|, i requires 0 <= i < |v| => Vaulted(v[i].marker, v[i].atoms))[..n]
          == seq(n, i requires 0 <= i < n => Vaulted(v[..n][i].marker, v[..n][i].atoms));
    }
  }

  /** The order in which validate_jin_block goes through a transaction; the ledger takes purchases first. */
  function CheckedActions(j: JinRules, tx: Transaction): seq<Action>
  {
    var (p, t, c, v) := (j.purchases(tx), j.transfers(tx), j.conversions(tx), j.rules.markers(tx));
    seq(|t|, i requires 0 <= i < |t| => Send(t[i].marker, t[i].atoms))
    + seq(|c|, i requires 0 <= i < |c| => Convert(c[i].marker, c[i].atoms))
    + seq(|p|, i requires 0 <= i < |p| => Buy(p[i].marker, p[i].atoms))
    + seq(|v|, i requires 0 <= i < |v| => Vaulted(v[i].marker, v[i].atoms))
  }

  lemma TxMarkersEitherWay(j: JinRules, tx: Transaction)
    ensures MarkersOf(TxActions(j, tx)) == TxMarkers(j, tx) && MarkersOf(CheckedActions(j, tx)) == TxMarkers(j, tx)
  {
    var (p, t, c, v) := (j.purchases(tx), j.transfers(tx), j.conversions(tx), j.rules.markers(tx));
    var buys := seq(|p|, i requires 0 <= i < |p| => Buy(p[i].marker, p[i].atoms));
    var sends := seq(|t|, i requires 0 <= i < |t| => Send(t[i].marker, t[i].atoms));
    var converts := seq(|c|, i requires 0 <= i < |c| => Convert(c[i].marker, c[i].atoms));
    var vaulted := seq(|v|, i requires 0 <= i < |v| => Vaulted(v[i].marker, v[i].atoms));
    OnlyMarkers(v);
    NoMarkers(buys + sends + converts);
    NoMarkers(sends + converts + buys);
    MarkersOfAppend(buys + sends + converts, vaulted);
    MarkersOfAppend(sends + converts + buys, vaulted);
  }

  function CheckedBlock(j: JinRules, txs: seq<Transaction>): seq<Action>
  {
    if txs == [] then [] else CheckedBlock(j, txs[..|txs| - 1]) + CheckedActions(j, txs[|txs| - 1])
  }

  lemma {:induction false} BlockMarkersEitherWay(j: JinRules, txs: seq<Transaction>)
    ensures MarkersOf(BlockActions(j, txs)) == BlockMarkers(j, txs) && MarkersOf(CheckedBlock(j, txs)) == BlockMarkers(j, txs)
  {
    hide MarkersOf, TxActions, CheckedActions, TxMarkers;
    if txs == [] {
      NoMarkers([]);
    } else {
      var n := |txs| - 1;
      BlockMarkersEitherWay(j, txs[..n]);
      TxMarkersEitherWay(j, txs[n]);
      MarkersOfAppend(BlockActions(j, txs[..n]), TxActions(j, txs[n]));
      MarkersOfAppend(CheckedBlock(j, txs[..n]), CheckedActions(j, txs[n]));
    }
  }

  lemma StepRuns(j: JinRules, ctx: Context, r: Running, a: Action)
    requires Step(j, ctx, r, a).Ok?
    ensures var s := Step(j, ctx, r, a).value.book.reserve;
            if a.Vaulted? then ApplyToState(r.book.reserve, a.marker).Changed? && s == ApplyToState(r.book.reserve, a.marker).state
            else s == r.book.reserve
  {
    hide Debit, Credit, ApplyTransfer, ApplyToState;
  }

  /** Whatever happens to balances, the vault only sees its own markers. */
  lemma {:induction false} StepsRun(j: JinRules, ctx: Context, r: Running, actions: seq<Action>)
    requires Steps(j, ctx, r, actions).Ok?
    ensures Run(r.book.reserve, MarkersOf(actions)) == Ok(Steps(j, ctx, r, actions).value.book.reserve)
  {
    hide Step, ApplyToState;
    if actions != [] {
      var n := |actions| - 1;
      StepsRun(j, ctx, r, actions[..n]);
      StepRuns(j, ctx, Steps(j, ctx, r, actions[..n]).value, actions[n]);
      if actions[n].Vaulted? {
        var ms := MarkersOf(actions[..n]);
        assert (ms + [actions[n].marker])[..|ms|] == ms;
      }
    }
  }

  lemma {:induction false} StepsPriced(j: JinRules, ctx: Context, r: Running, actions: seq<Action>)
    requires Steps(j, ctx, r, actions).Ok?
    ensures forall i :: 0 <= i < |actions| && actions[i].Vaulted? ==> actions[i].atoms == j.markerAtoms && j.rules.InfusionActive(ctx.height)
  {
    hide ApplyPurchase, ApplyTransfer, ApplyConversion, ApplyMarker;
    if actions != [] {
      StepsPriced(j, ctx, r, actions[..|actions| - 1]);
    }
  }

  lemma {:induction false} ActionOfBlock(j: JinRules, txs: seq<Transaction>, k: nat, i: nat)
    requires k < |txs| && i < |j.rules.markers(txs[k])|
    ensures Vaulted(j.rules.markers(txs[k])[i].marker, j.rules.markers(txs[k])[i].atoms) in BlockActions(j, txs)
  {
    var n := |txs| - 1;
    if k < n {
      ActionOfBlock(j, txs[..n], k, i);
    } else {
      var a, v := TxActions(j, txs[k]), j.rules.markers(txs[k]);
      assert a[|a| - |v| + i] == Vaulted(v[i].marker, v[i].atoms);
    }
  }

  lemma BlockIsPriced(j: JinRules, ctx: Context, r: Running, txs: seq<Transaction>)
    requires Steps(j, ctx, r, BlockActions(j, txs)).Ok?
    ensures MarkersPriced(j, txs)
    ensures !j.rules.InfusionActive(ctx.height) ==> BlockMarkers(j, txs) == []
  {
    hide Step, TxActions;
    StepsPriced(j, ctx, r, BlockActions(j, txs));
    forall k, i | 0 <= k < |txs| && 0 <= i < |j.rules.markers(txs[k])|
      ensures j.rules.markers(txs[k])[i].atoms == j.markerAtoms
    {
      ActionOfBlock(j, txs, k, i);
    }
    if !j.rules.InfusionActive(ctx.height) {
      NoMarkers(BlockActions(j, txs));
      BlockMarkersEitherWay(j, txs);
    }
  }

  lemma BootstrapIsBootstrapped(j: JinRules, book: Book)
    requires Bootstrap(j, book).Ok? && book.reserve == INACTIVE
    ensures Bootstrapped(INACTIVE, j.bootstrap) == Ok(Bootstrap(j, book).value.reserve)
  {
    hide Debit, Credit;
    if j.bootstrap == 0 {
      DivideUnique(0, MAX_MONEY_ATOMS, 0, 0);
    }
  }

  // The vault after one replayed block, from its markers alone.
  lemma BlockStateIsReplayed(j: JinRules, prior: seq<Block>, b: Block, book: Book)
    requires prior != [] && ApplyBlock(j, prior, b, book).Ok?
    requires j.rules.infusionFrom.Some? ==> j.activation <= j.rules.infusionFrom.value
    requires BeforeInfusion(j, |prior| - 1) ==> book.reserve == INACTIVE
    ensures var start := if j.rules.infusionFrom == Some(|prior|) then Bootstrapped(book.reserve, j.bootstrap) else Ok(book.reserve);
            && start.Ok?
            && (j.rules.InfusionActive(|prior|) ==> MarkersPriced(j, AfterCoinbase(b)))
            && Ok(ApplyBlock(j, prior, b, book).value.reserve) ==
               if j.rules.InfusionActive(|prior|) then Run(start.value, BlockMarkers(j, AfterCoinbase(b))) else start
  {
    hide Steps, Bootstrap, CreditAll, FeeReceivers, BlockActions, Run, MarkersOf, MarkersPriced;
    var height := |prior|;
    if j.rules.infusionFrom == Some(height) {
      BootstrapIsBootstrapped(j, book);
    }
    if height >= j.activation {
      var start := if j.rules.infusionFrom == Some(height) then Bootstrap(j, book).value else book;
      var ctx, actions := ContextOf(j, b, height), BlockActions(j, AfterCoinbase(b));
      StepsRun(j, ctx, Running(start, 0), actions);
      BlockMarkersEitherWay(j, AfterCoinbase(b));
      BlockIsPriced(j, ctx, Running(start, 0), AfterCoinbase(b));
      if !j.rules.InfusionActive(height) {
        RunNothing(start.reserve);
      }
    }
  }

  lemma RunNothing(s: Reserve)
    ensures Run(s, []) == Ok(s)
  {
  }

  /** The state replayed without a ledger is the ledger's own. */
  lemma {:induction false} StateIsLedgers(j: JinRules, blocks: seq<Block>)
    requires blocks != [] && Books(j, blocks).Ok?
    requires j.rules.infusionFrom.Some? ==> j.activation <= j.rules.infusionFrom.value
    ensures StateFromBlocks(j, blocks) == Ok(Books(j, blocks).value.reserve)
    ensures BeforeInfusion(j, |blocks| - 1) ==> Books(j, blocks).value.reserve == INACTIVE
  {
    hide ApplyBlock, MarkersPriced, Run, Bootstrapped;
    if |blocks| > 1 {
      var n := |blocks| - 1;
      StateIsLedgers(j, blocks[..n]);
      BlockStateIsReplayed(j, blocks[..n], blocks[n], Books(j, blocks[..n]).value);
    }
  }

  /** qub_jin_apply_bootstrap_for_context: what a validator of the next block starts from. */
  function ForContext(j: JinRules, book: Book, visible: nat, spend: nat): Result<Book>
  {
    if j.rules.InfusionActive(spend) && BeforeInfusion(j, visible) then Bootstrap(j, book) else Ok(book)
  }

  /**
    A validator may see other balances (locked units taken off) and goes through a transaction in another
    order, but when both succeed it ends with the vault the replay ends with.
   */
  lemma ValidatedVaultIsReplayed(j: JinRules, prior: seq<Block>, b: Block, m: Balances)
    requires j.rules.jinOn && prior != []
    requires j.rules.infusionFrom.Some? ==> j.activation <= j.rules.infusionFrom.value
    requires Books(j, prior + [b]).Ok? && |prior| >= j.activation
    requires Books(j, prior).Ok? && ForContext(j, Book(m, Books(j, prior).value.reserve), |prior| - 1, |prior|).Ok?
    requires var start := ForContext(j, Book(m, Books(j, prior).value.reserve), |prior| - 1, |prior|).value;
             Steps(j, ContextOf(j, b, |prior|), Running(start, 0), CheckedBlock(j, AfterCoinbase(b))).Ok?
    ensures var start := ForContext(j, Book(m, Books(j, prior).value.reserve), |prior| - 1, |prior|).value;
            var checked := Steps(j, ContextOf(j, b, |prior|), Running(start, 0), CheckedBlock(j, AfterCoinbase(b)));
            checked.value.book.reserve == Books(j, prior + [b]).value.reserve
  {
    hide Steps, Bootstrap, ApplyBlock, MarkersPriced, Run, Bootstrapped, CheckedBlock, BlockMarkers, MarkersOf;
    assert (prior + [b])[..|prior|] == prior;
    var book := Books(j, prior).value;
    StateIsLedgers(j, prior);
    BlockStateIsReplayed(j, prior, b, book);
    var seen := Book(m, book.reserve);
    if j.rules.infusionFrom == Some(|prior|) {
      BootstrapIsBootstrapped(j, seen);
    }
    var start := ForContext(j, seen, |prior| - 1, |prior|).value;
    StepsRun(j, ContextOf(j, b, |prior|), Running(start, 0), CheckedBlock(j, AfterCoinbase(b)));
    BlockMarkersEitherWay(j, AfterCoinbase(b));
    if !j.rules.InfusionActive(|prior|) {
      UncheckedIsEmpty(j, ContextOf(j, b, |prior|), Running(start, 0), AfterCoinbase(b));
      RunNothing(start.reserve);
    }
  }

  lemma UncheckedIsEmpty(j: JinRules, ctx: Context, r: Running, txs: seq<Transaction>)
    requires Steps(j, ctx, r, CheckedBlock(j, txs)).Ok? && !j.rules.InfusionActive(ctx.height)
    ensures BlockMarkers(j, txs) == []
  {
    hide Step, CheckedBlock, BlockMarkers, MarkersOf;
    StepsPriced(j, ctx, r, CheckedBlock(j, txs));
    NoMarkers(CheckedBlock(j, txs));
    BlockMarkersEitherWay(j, txs);
  }
}
