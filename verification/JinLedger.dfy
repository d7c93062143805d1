/**
  The JIN ledger replayed from the chain (src/lib.rs): purchases, transfers, conversions, vault
  markers, the payout plans of pool blocks and governance locks. Marker parsing and governance are parameters.
 */
module JinLedger {
  import opened Consensus
  import opened Infusion
  import opened MapSums
  import opened Merkle
  import opened Outcome
  import opened PayoutPlan
  import opened PoolRewards
  import opened Wire

  type Balances = map<string, nat>

  const VAULT: string := "__qub_jin_infusion_vault__"

  datatype Purchase = Purchase(buyer: string, units: nat)
  datatype Transfer = Transfer(from: string, to: string, units: nat, feeInJin: bool, fee: nat)
  datatype Conversion = Conversion(from: string, units: nat, feeInJin: bool, fee: nat)

  datatype Action =
    | Buy(purchase: Purchase, atoms: nat)
    | Send(transfer: Transfer, atoms: nat)
    | Convert(conversion: Conversion, atoms: nat)
    | Vaulted(marker: Marker, atoms: nat)

  datatype JinRules = JinRules(
    rules: Rules, protocol: string, activation: nat, swapFrom: nat, conversionFrom: nat,
    markerAtoms: nat, swapMarkerAtoms: nat, bootstrap: nat, mainnet: bool,
    purchases: Transaction -> seq<Placed<Purchase>>, transfers: Transaction -> seq<Placed<Transfer>>,
    conversions: Transaction -> seq<Placed<Conversion>>,
    pools: LoadedRules, minerOf: Block -> Option<string>,
    locks: seq<Block> -> Result<Balances>)

  datatype Book = Book(balances: Balances, reserve: Reserve)

  /** What a block's actions run in: its height, whether a pool mined it, and who else did. */
  datatype Context = Context(height: nat, pool: bool, miner: Option<string>)

  // ---- Balances ----------------------------------------------------------------------------

  function Balance(m: Balances, a: string): nat
  {
    if a in m then m[a] else 0
  }

  function Credit(m: Balances, a: string, units: nat): Result<Balances>
  {
    if Balance(m, a) + units >= TWO_128 then Err else Ok(m[a := Balance(m, a) + units])
  }

  function Debit(m: Balances, a: string, units: nat): Result<Balances>
  {
    if Balance(m, a) < units then Err else Ok(m[a := Balance(m, a) - units])
  }

  function Fee(inJin: bool, fee: nat): nat
  {
    if inJin then fee else 0
  }

  function PayMiner(m: Balances, miner: Option<string>, fee: nat): Result<Balances>
  {
    if fee > 0 && miner.Some? then Credit(m, miner.value, fee) else Ok(m)
  }

  /** apply_jin_transfer. */
  function ApplyTransfer(m: Balances, t: Transfer, miner: Option<string>): Result<Balances>
  {
    if t.units + Fee(t.feeInJin, t.fee) >= TWO_128 then Err
    else
      var paid :- Debit(m, t.from, t.units + Fee(t.feeInJin, t.fee));
      var received :- Credit(paid, t.to, t.units);
      PayMiner(received, miner, Fee(t.feeInJin, t.fee))
  }

  /** apply_jin_conversion: the units go back to the protocol's reserve. */
  function ApplyConversion(m: Balances, protocol: string, c: Conversion, miner: Option<string>): Result<Balances>
  {
    ApplyTransfer(m, Transfer(c.from, protocol, c.units, c.feeInJin, c.fee), miner)
  }

  /** apply_jin_sale_purchase. */
  function ApplyPurchase(m: Balances, protocol: string, p: Purchase): Result<Balances>
  {
    var sold :- Debit(m, protocol, p.units);
    Credit(sold, p.buyer, p.units)
  }

  /** qub_jin_apply_marker_unchecked. */
  function ApplyMarker(j: JinRules, book: Book, marker: Marker): Result<Book>
  {
    match ApplyToState(book.reserve, marker)
    case Refused(_) => Err
    case Changed(reserve, units) =>
      var (from, to, moved) := if marker.InfuseJin? then (marker.from, VAULT, marker.units) else (VAULT, marker.from, units);
      var taken :- Debit(book.balances, from, moved);
      var given :- Credit(taken, to, moved);
      if j.mainnet && reserve.reserve > reserve.lifetime then Err else Ok(Book(given, reserve))
  }

  /** qub_jin_apply_bootstrap. */
  function Bootstrap(j: JinRules, book: Book): Result<Book>
  {
    if book.reserve.active then Ok(book)
    else if j.bootstrap == 0 then Ok(book.(reserve := book.reserve.(active := true)))
    else
      var _ :- BootstrapPerAtom(j.bootstrap);
      var taken :- Debit(book.balances, j.protocol, j.bootstrap);
      var given :- Credit(taken, VAULT, j.bootstrap);
      var reserve :- Bootstrapped(book.reserve, j.bootstrap);
      Ok(Book(given, reserve))
  }

  // ---- Blocks ------------------------------------------------------------------------------

  function TxActions(j: JinRules, tx: Transaction): seq<Action>
  {
    var (p, t, c, v) := (j.purchases(tx), j.transfers(tx), j.conversions(tx), j.rules.markers(tx));
    seq(|p|, i requires 0 <= i < |p| => Buy(p[i].marker, p[i].atoms))
    + seq(|t|, i requires 0 <= i < |t| => Send(t[i].marker, t[i].atoms))
    + seq(|c|, i requires 0 <= i < |c| => Convert(c[i].marker, c[i].atoms))
    + seq(|v|, i requires 0 <= i < |v| => Vaulted(v[i].marker, v[i].atoms))
  }

  function BlockActions(j: JinRules, txs: seq<Transaction>): seq<Action>
  {
    if txs == [] then [] else BlockActions(j, txs[..|txs| - 1]) + TxActions(j, txs[|txs| - 1])
  }

  /** The book and the JIN fees a pool block still owes its pool. */
  datatype Running = Running(book: Book, fees: nat)

  function JinFee(a: Action): nat
  {
    match a
    case Send(t, _) => Fee(t.feeInJin, t.fee)
    case Convert(c, _) => Fee(c.feeInJin, c.fee)
    case Buy(_, _) => 0
    case Vaulted(_, _) => 0
  }

  /** One marker of the ledger's loop, its activation and output checks first. */
  function Step(j: JinRules, ctx: Context, r: Running, a: Action): Result<Running>
  {
    match a
    case Buy(p, atoms) =>
      if ctx.height < j.swapFrom || atoms != j.swapMarkerAtoms then Err
      else
        var m :- ApplyPurchase(r.book.balances, j.protocol, p);
        Ok(r.(book := r.book.(balances := m)))
    case Send(t, atoms) =>
      if atoms != j.markerAtoms || (ctx.pool && r.fees + JinFee(a) >= TWO_128) then Err
      else
        var m :- ApplyTransfer(r.book.balances, t, ctx.miner);
        Ok(Running(r.book.(balances := m), r.fees + if ctx.pool then JinFee(a) else 0))
    case Convert(c, atoms) =>
      if ctx.height < j.conversionFrom || atoms != j.markerAtoms || (ctx.pool && r.fees + JinFee(a) >= TWO_128) then Err
      else
        var m :- ApplyConversion(r.book.balances, j.protocol, c, ctx.miner);
        Ok(Running(r.book.(balances := m), r.fees + if ctx.pool then JinFee(a) else 0))
    case Vaulted(marker, atoms) =>
      if !j.rules.InfusionActive(ctx.height) || atoms != j.markerAtoms then Err
      else
        var book :- ApplyMarker(j, r.book, marker);
        Ok(r.(book := book))
  }

  function Steps(j: JinRules, ctx: Context, r: Running, actions: seq<Action>): Result<Running>
  {
    if actions == [] then Ok(r)
    else
      var before :- Steps(j, ctx, r, actions[..|actions| - 1]);
      Step(j, ctx, before, actions[|actions| - 1])
  }

  function CreditAll(m: Balances, rows: seq<Row>): Result<Balances>
  {
    if rows == [] then Ok(m)
    else
      var before :- CreditAll(m, rows[..|rows| - 1]);
      Credit(before, rows[|rows| - 1].address, rows[|rows| - 1].units)
  }

  function ContextOf(j: JinRules, b: Block, height: nat): Context
  {
    Context(height, j.pools.marker(b).Some?, if j.pools.marker(b).Some? then None else j.minerOf(b))
  }

  /** One block of jin_ledger_from_blocks. */
  function ApplyBlock(j: JinRules, prior: seq<Block>, b: Block, book: Book): Result<Book>
  {
    var height := |prior|;
    var start :- if j.rules.infusionFrom == Some(height) then Bootstrap(j, book) else Ok(book);
    if height < j.activation then Ok(start)
    else
      var done :- Steps(j, ContextOf(j, b, height), Running(start, 0), BlockActions(j, AfterCoinbase(b)));
      if j.pools.marker(b).None? || done.fees == 0 then Ok(done.book)
      else
        var plan :- PlanOf(j.pools, j.rules.id, prior, j.pools.marker(b).value, done.fees);
        var m :- CreditAll(done.book.balances, FeeReceivers(plan));
        Ok(done.book.(balances := m))
  }

  function Opening(j: JinRules): Book
  {
    Book(map[j.protocol := JIN_TOTAL_SUPPLY_UNITS], INACTIVE)
  }

  function Books(j: JinRules, blocks: seq<Block>): Result<Book>
  {
    if |blocks| <= 1 then Ok(Opening(j))
    else
      var before :- Books(j, blocks[..|blocks| - 1]);
      ApplyBlock(j, blocks[..|blocks| - 1], blocks[|blocks| - 1], before)
  }

  /** Every lock is covered by its owner's balance. */
  predicate Covered(m: Balances, locks: Balances)
  {
    forall a :: a in locks ==> locks[a] <= Balance(m, a)
  }

  function Unlocked(m: Balances, locks: Balances): Balances
    requires Covered(m, locks)
  {
    map a | a in m.Keys + locks.Keys :: Balance(m, a) - Balance(locks, a)
  }

  predicate LedgerActive(j: JinRules, blocks: seq<Block>)
  {
    j.rules.jinOn && (if blocks == [] then 0 else |blocks| - 1) >= j.activation
  }

  /** jin_ledger_from_blocks. */
  function Ledger(j: JinRules, blocks: seq<Block>): Result<Balances>
  {
    if !LedgerActive(j, blocks) then Ok(map[])
    else
      var book :- Books(j, blocks);
      var locks :- j.locks(blocks);
      if !Covered(book.balances, locks) then Err else Ok(Unlocked(book.balances, locks))
  }

  // ---- Conservation ------------------------------------------------------------------------

  function Amount(n: nat): nat { n }

  ghost function Held(m: Balances): nat
  {
    SumOf(m, Amount)
  }

  lemma CreditHeld(m: Balances, a: string, units: nat)
    requires Credit(m, a, units).Ok?
    ensures Held(Credit(m, a, units).value) == Held(m) + units
  {
    SumInsert<string, nat>(m, Amount, a, Balance(m, a) + units);
  }

  lemma DebitHeld(m: Balances, a: string, units: nat)
    requires Debit(m, a, units).Ok?
    ensures Held(Debit(m, a, units).value) + units == Held(m)
  {
    SumInsert<string, nat>(m, Amount, a, Balance(m, a) - units);
  }

  /** A transfer keeps every unit except a JIN fee nobody is there to take. */
  lemma TransferHeld(m: Balances, t: Transfer, miner: Option<string>)
    requires ApplyTransfer(m, t, miner).Ok?
    ensures Held(ApplyTransfer(m, t, miner).value) + (if miner.None? then Fee(t.feeInJin, t.fee) else 0) == Held(m)
  {
    hide Held, Debit, Credit;
    var fee := Fee(t.feeInJin, t.fee);
    DebitHeld(m, t.from, t.units + fee);
    var paid := Debit(m, t.from, t.units + fee).value;
    CreditHeld(paid, t.to, t.units);
    if fee > 0 && miner.Some? {
      CreditHeld(Credit(paid, t.to, t.units).value, miner.value, fee);
    }
  }

  lemma BalanceIsHeld(m: Balances, a: string)
    ensures Balance(m, a) <= Held(m)
  {
    if a in m {
      SumRemove<string, nat>(m, Amount, a);
    }
  }

  /** Who pays and who receives in a transfer, for every address, also when they coincide. */
  lemma TransferMoves(m: Balances, t: Transfer, miner: Option<string>, a: string)
    requires ApplyTransfer(m, t, miner).Ok?
    ensures var (after, fee) := (ApplyTransfer(m, t, miner).value, Fee(t.feeInJin, t.fee));
            var (out, received) := (if a == t.from then t.units + fee else 0, (if a == t.to then t.units else 0) + (if miner == Some(a) then fee else 0));
            Balance(after, a) + out == Balance(m, a) + received
  {
  }

  /** As long as no more than the supply is around, a transfer fails only for lack of balance. */
  lemma TransferSucceeds(m: Balances, t: Transfer, miner: Option<string>)
    requires Held(m) <= JIN_TOTAL_SUPPLY_UNITS
    ensures ApplyTransfer(m, t, miner).Ok? <==> t.units + Fee(t.feeInJin, t.fee) <= Balance(m, t.from)
  {
    hide Held;
    var fee := Fee(t.feeInJin, t.fee);
    BalanceIsHeld(m, t.from);
    if t.units + fee <= Balance(m, t.from) {
      DebitHeld(m, t.from, t.units + fee);
      var paid := Debit(m, t.from, t.units + fee).value;
      BalanceIsHeld(paid, t.to);
      CreditHeld(paid, t.to, t.units);
      if miner.Some? {
        BalanceIsHeld(Credit(paid, t.to, t.units).value, miner.value);
      }
    }
  }

  /** An infusion moves the declared units from its owner to the vault, a melt the payout from the vault to its owner. */
  lemma MarkerMoves(j: JinRules, book: Book, marker: Marker, a: string)
    requires ApplyMarker(j, book, marker).Ok? && marker.from != VAULT
    ensures ApplyToState(book.reserve, marker).Changed? && ApplyMarker(j, book, marker).value.reserve == ApplyToState(book.reserve, marker).state
    ensures var (before, after, paid) := (book.balances, ApplyMarker(j, book, marker).value.balances, ApplyToState(book.reserve, marker).units);
            if marker.InfuseJin? then
              Balance(after, a) + (if a == marker.from then marker.units else 0) == Balance(before, a) + (if a == VAULT then marker.units else 0)
            else
              Balance(after, a) + (if a == VAULT then paid else 0) == Balance(before, a) + (if a == marker.from then paid else 0)
  {
    hide ApplyToState;
  }

  lemma MarkerHeld(j: JinRules, book: Book, marker: Marker)
    requires ApplyMarker(j, book, marker).Ok?
    ensures Held(ApplyMarker(j, book, marker).value.balances) == Held(book.balances)
  {
    hide Held, Debit, Credit, ApplyToState;
    var units := ApplyToState(book.reserve, marker).units;
    var (from, to, moved) := if marker.InfuseJin? then (marker.from, VAULT, marker.units) else (VAULT, marker.from, units);
    DebitHeld(book.balances, from, moved);
    CreditHeld(Debit(book.balances, from, moved).value, to, moved);
  }

  lemma BootstrapHeld(j: JinRules, book: Book)
    requires Bootstrap(j, book).Ok?
    ensures Held(Bootstrap(j, book).value.balances) == Held(book.balances)
  {
    hide Held, Debit, Credit, Bootstrapped;
    if !book.reserve.active && j.bootstrap != 0 {
      DebitHeld(book.balances, j.protocol, j.bootstrap);
      CreditHeld(Debit(book.balances, j.protocol, j.bootstrap).value, VAULT, j.bootstrap);
    }
  }

  /** JIN fees nobody receives directly: the pool's, to be shared out, or a lost one. */
  function Unpaid(ctx: Context, a: Action): nat
  {
    if ctx.miner.None? then JinFee(a) else 0
  }

  function UnpaidIn(ctx: Context, actions: seq<Action>): nat
  {
    if actions == [] then 0 else UnpaidIn(ctx, actions[..|actions| - 1]) + Unpaid(ctx, actions[|actions| - 1])
  }

  lemma StepHeld(j: JinRules, ctx: Context, r: Running, a: Action)
    requires Step(j, ctx, r, a).Ok? && (ctx.pool ==> ctx.miner.None?)
    ensures var s := Step(j, ctx, r, a).value;
            Held(s.book.balances) + Unpaid(ctx, a) == Held(r.book.balances)
            && s.fees == r.fees + if ctx.pool then Unpaid(ctx, a) else 0
  {
    hide Held, Debit, Credit, ApplyTransfer, ApplyMarker;
    match a
    case Buy(p, _) =>
      DebitHeld(r.book.balances, j.protocol, p.units);
      CreditHeld(Debit(r.book.balances, j.protocol, p.units).value, p.buyer, p.units);
    case Send(t, _) => TransferHeld(r.book.balances, t, ctx.miner);
    case Convert(c, _) => TransferHeld(r.book.balances, Transfer(c.from, j.protocol, c.units, c.feeInJin, c.fee), ctx.miner);
    case Vaulted(marker, _) => MarkerHeld(j, r.book, marker);
  }

  lemma {:induction false} StepsHeld(j: JinRules, ctx: Context, r: Running, actions: seq<Action>)
    requires Steps(j, ctx, r, actions).Ok? && (ctx.pool ==> ctx.miner.None?)
    ensures var s := Steps(j, ctx, r, actions).value;
            Held(s.book.balances) + UnpaidIn(ctx, actions) == Held(r.book.balances)
            && s.fees == r.fees + if ctx.pool then UnpaidIn(ctx, actions) else 0
  {
    hide Held, Step, Unpaid;
    if actions != [] {
      var n := |actions| - 1;
      StepsHeld(j, ctx, r, actions[..n]);
      StepHeld(j, ctx, Steps(j, ctx, r, actions[..n]).value, actions[n]);
    }
  }

  lemma {:induction false} CreditAllHeld(m: Balances, rows: seq<Row>)
    requires CreditAll(m, rows).Ok?
    ensures Held(CreditAll(m, rows).value) == Held(m) + TotalUnits(rows)
  {
    hide Held, Credit;
    if rows != [] {
      var n := |rows| - 1;
      CreditAllHeld(m, rows[..n]);
      CreditHeld(CreditAll(m, rows[..n]).value, rows[n].address, rows[n].units);
    }
  }

  /** Fees of blocks that no pool mined and whose coinbase names no decodable address. */
  function LostIn(j: JinRules, b: Block, height: nat): nat
  {
    if height < j.activation || j.pools.marker(b).Some? then 0
    else UnpaidIn(ContextOf(j, b, height), BlockActions(j, AfterCoinbase(b)))
  }

  function LostOn(j: JinRules, blocks: seq<Block>): nat
  {
    if |blocks| <= 1 then 0 else LostOn(j, blocks[..|blocks| - 1]) + LostIn(j, blocks[|blocks| - 1], |blocks| - 1)
  }

  lemma BlockHeld(j: JinRules, prior: seq<Block>, b: Block, book: Book)
    requires ApplyBlock(j, prior, b, book).Ok?
    ensures Held(ApplyBlock(j, prior, b, book).value.balances) + LostIn(j, b, |prior|) == Held(book.balances)
  {
    hide Held, Steps, Bootstrap, CreditAll, FeeReceivers, BlockActions, UnpaidIn, PlanOf;
    var height, ctx := |prior|, ContextOf(j, b, |prior|);
    if j.rules.infusionFrom == Some(height) {
      BootstrapHeld(j, book);
    }
    if height >= j.activation {
      var start := if j.rules.infusionFrom == Some(height) then Bootstrap(j, book).value else book;
      var actions := BlockActions(j, AfterCoinbase(b));
      StepsHeld(j, ctx, Running(start, 0), actions);
      var done := Steps(j, ctx, Running(start, 0), actions).value;
      if j.pools.marker(b).Some? && done.fees != 0 {
        PlansDivide(j.pools, j.rules.id, prior, j.pools.marker(b).value, done.fees);
        var plan := PlanOf(j.pools, j.rules.id, prior, j.pools.marker(b).value, done.fees).value;
        ReceiversGetEverything(plan, done.fees);
        CreditAllHeld(done.book.balances, FeeReceivers(plan));
      }
    }
  }

  lemma {:induction false} BooksHeld(j: JinRules, blocks: seq<Block>)
    requires Books(j, blocks).Ok?
    ensures Held(Books(j, blocks).value.balances) + LostOn(j, blocks) == JIN_TOTAL_SUPPLY_UNITS
  {
    hide Held, ApplyBlock, LostIn;
    if |blocks| <= 1 {
      OpeningHeld(j);
    } else {
      var n := |blocks| - 1;
      BooksHeld(j, blocks[..n]);
      BlockHeld(j, blocks[..n], blocks[n], Books(j, blocks[..n]).value);
    }
  }

  lemma OpeningHeld(j: JinRules)
    ensures Held(Opening(j).balances) == JIN_TOTAL_SUPPLY_UNITS
  {
    var empty: Balances := map[];
    assert Opening(j).balances == empty[j.protocol := JIN_TOTAL_SUPPLY_UNITS];
    SumInsert<string, nat>(empty, Amount, j.protocol, JIN_TOTAL_SUPPLY_UNITS);
  }

  lemma {:induction false} UnlockedHeld(m: Balances, locks: Balances)
    requires Covered(m, locks)
    ensures Held(Unlocked(m, locks)) + Held(locks) == Held(m)
    decreases |locks|
  {
    if locks == map[] {
      UnlockedNothing(m);
    } else {
      var a :| a in locks;
      UnlockedHeld(m, locks - {a});
      SumRemove<string, nat>(locks, Amount, a);
      UnlockedOne(m, locks, a);
    }
  }

  lemma UnlockedNothing(m: Balances)
    ensures Covered(m, map[]) && Unlocked(m, map[]) == m && Held(map[]) == 0
  {
  }

  lemma UnlockedOne(m: Balances, locks: Balances, a: string)
    requires Covered(m, locks) && a in locks
    ensures Covered(m, locks - {a}) && Held(Unlocked(m, locks)) + locks[a] == Held(Unlocked(m, locks - {a}))
  {
    var before, after := Unlocked(m, locks - {a}), Unlocked(m, locks);
    var value: nat := Balance(m, a) - locks[a];
    assert Balance(before, a) == Balance(m, a);
    assert after == before[a := value];
    SumInsert<string, nat>(before, Amount, a, value);
  }

  /** Every JIN unit is somewhere: on a balance, locked, or a fee without anyone to receive it. */
  lemma JinIsConserved(j: JinRules, blocks: seq<Block>)
    requires LedgerActive(j, blocks) && Ledger(j, blocks).Ok?
    ensures j.locks(blocks).Ok?
    ensures Held(Ledger(j, blocks).value) + Held(j.locks(blocks).value) + LostOn(j, blocks) == JIN_TOTAL_SUPPLY_UNITS
  {
    hide Held, Books, LostOn;
    BooksHeld(j, blocks);
    UnlockedHeld(Books(j, blocks).value.balances, j.locks(blocks).value);
  }

  /** The ledger is empty before activation; afterwards it exists exactly if every block replays and every lock is covered. */
  lemma LedgerMeans(j: JinRules, blocks: seq<Block>)
    ensures !j.rules.jinOn || (|blocks| <= j.activation && j.activation > 0) ==> Ledger(j, blocks) == Ok(map[])
    ensures j.rules.jinOn && (|blocks| > j.activation || j.activation == 0) ==>
              (Ledger(j, blocks).Ok? <==>
                 Books(j, blocks).Ok? && j.locks(blocks).Ok? && forall a :: a in j.locks(blocks).value ==> j.locks(blocks).value[a] <= Balance(Books(j, blocks).value.balances, a))
  {
    hide Books;
  }

  // ---- The maps and records the code updates in place ---------------------------------------

  class LedgerBook {
    var balances: Balances
    const vault: InfusionState

    function Value(): Book
      reads this, vault
    {
      Book(balances, vault.Value())
    }

    constructor (j: JinRules)
      ensures Value() == Opening(j) && fresh(vault)
    {
      balances := map[j.protocol := JIN_TOTAL_SUPPLY_UNITS];
      vault := new InfusionState.Inactive();
    }

    /** jin_credit. */
    method JinCredit(a: string, units: nat) returns (ok: bool)
      modifies this`balances
      ensures if ok then Credit(old(balances), a, units) == Ok(balances) else Credit(old(balances), a, units).Err? && balances == old(balances)
    {
      var cur := if a in balances then balances[a] else 0;
      if cur + units >= TWO_128 {
        return false;
      }
      balances := balances[a := cur + units];
      return true;
    }

    /** jin_debit. */
    method JinDebit(a: string, units: nat) returns (ok: bool)
      modifies this`balances
      ensures if ok then Debit(old(balances), a, units) == Ok(balances) else Debit(old(balances), a, units).Err? && balances == old(balances)
    {
      var cur := if a in balances then balances[a] else 0;
      if cur < units {
        return false;
      }
      balances := balances[a := cur - units];
      return true;
    }

    method JinTransfer(t: Transfer, miner: Option<string>) returns (ok: bool)
      modifies this`balances
      ensures ok <==> ApplyTransfer(old(balances), t, miner).Ok?
      ensures ok ==> ApplyTransfer(old(balances), t, miner) == Ok(balances)
    {
      hide Credit, Debit;
      var fee := Fee(t.feeInJin, t.fee);
      if t.units + fee >= TWO_128 {
        return false;
      }
      ok := JinDebit(t.from, t.units + fee);
      if !ok {
        return;
      }
      ok := JinCredit(t.to, t.units);
      if ok && fee > 0 && miner.Some? {
        ok := JinCredit(miner.value, fee);
      }
    }

    /** qub_jin_apply_marker_unchecked: the state first, then both sides of the ledger. */
    method VaultMarker(j: JinRules, marker: Marker) returns (ok: bool)
      modifies this`balances, vault
      ensures ok <==> ApplyMarker(j, old(Value()), marker).Ok?
      ensures ok ==> ApplyMarker(j, old(Value()), marker) == Ok(Value())
    {
      hide Credit, Debit, Infuse, Melt;
      var applied: Result<nat>;
      match marker {
        case InfuseJin(_, units) => applied := vault.ApplyInfuseUnits(units);
        case MeltQub(_, atoms, minUnits) => applied := vault.ApplyMeltAtoms(atoms, minUnits);
      }
      if applied.Err? {
        return false;
      }
      var (from, to, moved) := if marker.InfuseJin? then (marker.from, VAULT, marker.units) else (VAULT, marker.from, applied.value);
      ok := JinDebit(from, moved);
      if ok {
        ok := JinCredit(to, moved);
      }
      if ok {
        ok := !(j.mainnet && vault.activeUnits > vault.lifetimeUnits);
      }
    }

    /** qub_jin_apply_bootstrap. */
    method ApplyBootstrap(j: JinRules) returns (ok: bool)
      modifies this`balances, vault
      ensures ok <==> Bootstrap(j, old(Value())).Ok?
      ensures ok ==> Bootstrap(j, old(Value())) == Ok(Value())
    {
      hide Credit, Debit, BootstrapPerAtom;
      if vault.active {
        return true;
      }
      vault.active := true;
      if j.bootstrap == 0 {
        return true;
      }
      var per := BootstrapPerAtom(j.bootstrap);
      if per.Err? {
        return false;
      }
      ok := JinDebit(j.protocol, j.bootstrap);
      if !ok {
        return;
      }
      ok := JinCredit(VAULT, j.bootstrap);
      if !ok {
        return;
      }
      if vault.lifetimeUnits + j.bootstrap >= TWO_128 || vault.activeUnits + j.bootstrap >= TWO_128 || vault.unitsPerAtom + per.value >= TWO_128 {
        return false;
      }
      vault.lifetimeUnits := vault.lifetimeUnits + j.bootstrap;
      vault.activeUnits := vault.activeUnits + j.bootstrap;
      vault.unitsPerAtom := vault.unitsPerAtom + per.value;
    }

    method Act(j: JinRules, ctx: Context, fees: nat, a: Action) returns (r: Result<nat>)
      modifies this`balances, vault
      ensures match Step(j, ctx, Running(old(Value()), fees), a)
              case Ok(after) => r == Ok(after.fees) && Value() == after.book
              case Err => r.Err?
    {
      hide Credit, Debit, ApplyTransfer, ApplyMarker;
      if a.Vaulted? {
        if !j.rules.InfusionActive(ctx.height) || a.atoms != j.markerAtoms {
          return Err;
        }
        var ok := VaultMarker(j, a.marker);
        return if ok then Ok(fees) else Err;
      }
      r := Move(j, ctx, fees, a);
    }

    // The markers that leave the vault alone.
    method Move(j: JinRules, ctx: Context, fees: nat, a: Action) returns (r: Result<nat>)
      requires !a.Vaulted?
      modifies this`balances
      ensures match Step(j, ctx, Running(old(Value()), fees), a)
              case Ok(after) => r == Ok(after.fees) && Value() == after.book
              case Err => r.Err?
    {
      hide Credit, Debit, ApplyTransfer;
      if a.Buy? {
        if ctx.height < j.swapFrom || a.atoms != j.swapMarkerAtoms {
          return Err;
        }
        var ok := JinDebit(j.protocol, a.purchase.units);
        if ok {
          ok := JinCredit(a.purchase.buyer, a.purchase.units);
        }
        return if ok then Ok(fees) else Err;
      }
      var transfer := if a.Send? then a.transfer
                      else Transfer(a.conversion.from, j.protocol, a.conversion.units, a.conversion.feeInJin, a.conversion.fee);
      if (a.Convert? && ctx.height < j.conversionFrom) || a.atoms != j.markerAtoms || (ctx.pool && fees + JinFee(a) >= TWO_128) {
        return Err;
      }
      var ok := JinTransfer(transfer, ctx.miner);
      return if ok then Ok(fees + if ctx.pool then JinFee(a) else 0) else Err;
    }

    method CreditRows(rows: seq<Row>) returns (ok: bool)
      modifies this`balances
      ensures ok <==> CreditAll(old(balances), rows).Ok?
      ensures ok ==> CreditAll(old(balances), rows) == Ok(balances)
    {
      hide Credit;
      ghost var start := balances;
      for i := 0 to |rows|
        invariant CreditAll(start, rows[..i]) == Ok(balances)
      {
        assert rows[..i + 1][..i] == rows[..i];
        ok := JinCredit(rows[i].address, rows[i].units);
        if !ok {
          CreditAllErr(start, rows, i + 1);
          return;
        }
      }
      assert rows[..|rows|] == rows;
      return true;
    }

    /** The marker loops of one block. */
    method RunActions(j: JinRules, ctx: Context, actions: seq<Action>) returns (r: Result<nat>)
      modifies this`balances, vault
      ensures match Steps(j, ctx, Running(old(Value()), 0), actions)
              case Ok(after) => r == Ok(after.fees) && Value() == after.book
              case Err => r.Err?
    {
      hide Step;
      ghost var start := Running(Value(), 0);
      var fees := 0;
      for i := 0 to |actions|
        invariant Steps(j, ctx, start, actions[..i]) == Ok(Running(Value(), fees))
      {
        assert actions[..i + 1][..i] == actions[..i];
        if Step(j, ctx, Running(Value(), fees), actions[i]).Err? {
          StepsErr(j, ctx, start, actions, i + 1);
        }
        fees :- Act(j, ctx, fees, actions[i]);
      }
      assert actions[..|actions|] == actions;
      return Ok(fees);
    }

    method Connect(j: JinRules, prior: seq<Block>, b: Block) returns (ok: bool)
      modifies this`balances, vault
      ensures ok <==> ApplyBlock(j, prior, b, old(Value())).Ok?
      ensures ok ==> ApplyBlock(j, prior, b, old(Value())) == Ok(Value())
    {
      hide Steps, Bootstrap, CreditAll, BlockActions, FeeReceivers, PlanOf;
      if j.rules.infusionFrom == Some(|prior|) {
        ok := ApplyBootstrap(j);
        if !ok {
          return;
        }
      }
      if |prior| < j.activation {
        return true;
      }
      var fees := RunActions(j, ContextOf(j, b, |prior|), BlockActions(j, AfterCoinbase(b)));
      if fees.Err? {
        return false;
      }
      if j.pools.marker(b).None? || fees.value == 0 {
        return true;
      }
      var plan := PoolPayoutPlan(j.pools, j.rules.id, prior, j.pools.marker(b).value, fees.value);
      if plan.Err? {
        return false;
      }
      ok := CreditRows(FeeReceivers(plan.value));
    }
  }

  lemma {:induction false} CreditAllErr(m: Balances, rows: seq<Row>, n: nat)
    requires n <= |rows| && CreditAll(m, rows[..n]).Err?
    ensures CreditAll(m, rows).Err?
    decreases |rows| - n
  {
    hide Credit;
    if n < |rows| {
      assert rows[..n + 1][..n] == rows[..n];
      CreditAllErr(m, rows, n + 1);
    } else {
      assert rows[..n] == rows;
    }
  }

  lemma {:induction false} StepsErr(j: JinRules, ctx: Context, r: Running, actions: seq<Action>, n: nat)
    requires n <= |actions| && Steps(j, ctx, r, actions[..n]).Err?
    ensures Steps(j, ctx, r, actions).Err?
    decreases |actions| - n
  {
    hide Step;
    if n < |actions| {
      assert actions[..n + 1][..n] == actions[..n];
      StepsErr(j, ctx, r, actions, n + 1);
    } else {
      assert actions[..n] == actions;
    }
  }

  lemma {:induction false} BooksErr(j: JinRules, blocks: seq<Block>, n: nat)
    requires n <= |blocks| && Books(j, blocks[..n]).Err?
    ensures Books(j, blocks).Err?
    decreases |blocks| - n
  {
    hide ApplyBlock;
    if n < |blocks| {
      assert blocks[..n + 1][..n] == blocks[..n];
      BooksErr(j, blocks, n + 1);
    } else {
      assert blocks[..n] == blocks;
    }
  }

  /** jin_ledger_from_blocks. */
  method LedgerFromBlocks(j: JinRules, blocks: seq<Block>) returns (r: Result<Balances>)
    ensures r == Ledger(j, blocks)
  {
    hide ApplyBlock, Opening;
    if !LedgerActive(j, blocks) {
      return Ok(map[]);
    }
    var book := new LedgerBook(j);
    var height := 1;
    while height < |blocks|
      invariant 1 <= height && (blocks != [] ==> height <= |blocks|)
      invariant fresh(book) && fresh(book.vault) && Books(j, if blocks == [] then [] else blocks[..height]) == Ok(book.Value())
    {
      assert blocks[..height + 1][..height] == blocks[..height];
      if ApplyBlock(j, blocks[..height], blocks[height], book.Value()).Err? {
        BooksErr(j, blocks, height + 1);
      }
      var ok := book.Connect(j, blocks[..height], blocks[height]);
      if !ok {
        return Err;
      }
      height := height + 1;
    }
    assert blocks[..|blocks|] == blocks;
    var locks :- j.locks(blocks);
    if !Covered(book.balances, locks) {
      return Err;
    }
    return Ok(Unlocked(book.balances, locks));
  }
}
