/**
  The JIN ledger address by address (src/lib.rs): what the markers of a block's transactions, the bootstrap
  and the pool's payout plan give to an address and take from it, summed over the markers themselves.
 */
module JinFlows {
  import opened Consensus
  import opened FullReserve
  import opened Infusion
  import opened JinLedger
  import opened Outcome
  import opened PayoutPlan
  import PoolPayout
  import opened PoolRewards
  import opened Sorting
  import opened Wire

  // ---- What one marker moves ---------------------------------------------------------------

  function When(here: bool, units: nat): nat
  {
    if here then units else 0
  }

  function BuyGives(x: string): Purchase -> nat
  {
    (p: Purchase) => When(p.buyer == x, p.units)
  }

  function BuyTakes(protocol: string, x: string): Purchase -> nat
  {
    (p: Purchase) => When(protocol == x, p.units)
  }

  function SendGives(miner: Option<string>, x: string): Transfer -> nat
  {
    (t: Transfer) => When(t.to == x, t.units) + When(t.feeInJin && miner == Some(x), t.fee)
  }

  function SendTakes(x: string): Transfer -> nat
  {
    (t: Transfer) => When(t.from == x, t.units + When(t.feeInJin, t.fee))
  }

  function ConvertGives(protocol: string, miner: Option<string>, x: string): Conversion -> nat
  {
    (c: Conversion) => When(protocol == x, c.units) + When(c.feeInJin && miner == Some(x), c.fee)
  }

  function ConvertTakes(x: string): Conversion -> nat
  {
    (c: Conversion) => When(c.from == x, c.units + When(c.feeInJin, c.fee))
  }

  /** A vault marker, with the price at its turn: infusions go to the vault, melts are paid from it. */
  function MarkerGives(r: Reserve, m: Marker, x: string): nat
  {
    match m
    case InfuseJin(_, units) => When(x == VAULT, units)
    case MeltQub(from, atoms, _) => When(x == from, Payout(atoms, r.perAtom))
  }

  function MarkerTakes(r: Reserve, m: Marker, x: string): nat
  {
    match m
    case InfuseJin(from, units) => When(x == from, units)
    case MeltQub(_, atoms, _) => When(x == VAULT, Payout(atoms, r.perAtom))
  }

  // ---- Sums over the markers of transactions -----------------------------------------------

  function Gathered<M>(ms: seq<Placed<M>>, f: M -> nat): nat
  {
    if ms == [] then 0 else Gathered(ms[..|ms| - 1], f) + f(ms[|ms| - 1].marker)
  }

  function TxGives(j: JinRules, miner: Option<string>, tx: Transaction, x: string): nat
  {
    Gathered(j.purchases(tx), BuyGives(x)) + Gathered(j.transfers(tx), SendGives(miner, x)) + Gathered(j.conversions(tx), ConvertGives(j.protocol, miner, x))
  }

  function TxTakes(j: JinRules, tx: Transaction, x: string): nat
  {
    Gathered(j.purchases(tx), BuyTakes(j.protocol, x)) + Gathered(j.transfers(tx), SendTakes(x)) + Gathered(j.conversions(tx), ConvertTakes(x))
  }

  function TxsGive(j: JinRules, miner: Option<string>, txs: seq<Transaction>, x: string): nat
  {
    if txs == [] then 0 else TxsGive(j, miner, txs[..|txs| - 1], x) + TxGives(j, miner, txs[|txs| - 1], x)
  }

  function TxsTake(j: JinRules, txs: seq<Transaction>, x: string): nat
  {
    if txs == [] then 0 else TxsTake(j, txs[..|txs| - 1], x) + TxTakes(j, txs[|txs| - 1], x)
  }

  /** JIN fees offered by the transactions. */
  function TxFees(j: JinRules, tx: Transaction): nat
  {
    Gathered(j.transfers(tx), (t: Transfer) => When(t.feeInJin, t.fee)) + Gathered(j.conversions(tx), (c: Conversion) => When(c.feeInJin, c.fee))
  }

  function TxsFees(j: JinRules, txs: seq<Transaction>): nat
  {
    if txs == [] then 0 else TxsFees(j, txs[..|txs| - 1]) + TxFees(j, txs[|txs| - 1])
  }

  /** The same for vault markers, each at the price the ones before it left. */
  function VaultGives(r: Reserve, ms: seq<Marker>, x: string): nat
  {
    if ms == [] then 0
    else
      var n := |ms| - 1;
      VaultGives(r, ms[..n], x) + match Run(r, ms[..n]) case Ok(s) => MarkerGives(s, ms[n], x) case Err => 0
  }

  function VaultTakes(r: Reserve, ms: seq<Marker>, x: string): nat
  {
    if ms == [] then 0
    else
      var n := |ms| - 1;
      VaultTakes(r, ms[..n], x) + match Run(r, ms[..n]) case Ok(s) => MarkerTakes(s, ms[n], x) case Err => 0
  }

  // ---- The ledger's list of actions --------------------------------------------------------

  function ActionGives(j: JinRules, miner: Option<string>, a: Action, x: string): nat
  {
    match a
    case Buy(p, _) => BuyGives(x)(p)
    case Send(t, _) => SendGives(miner, x)(t)
    case Convert(c, _) => ConvertGives(j.protocol, miner, x)(c)
    case Vaulted(_, _) => 0
  }

  function ActionTakes(j: JinRules, a: Action, x: string): nat
  {
    match a
    case Buy(p, _) => BuyTakes(j.protocol, x)(p)
    case Send(t, _) => SendTakes(x)(t)
    case Convert(c, _) => ConvertTakes(x)(c)
    case Vaulted(_, _) => 0
  }

  function SumOver(actions: seq<Action>, f: Action -> nat): nat
  {
    if actions == [] then 0 else SumOver(actions[..|actions| - 1], f) + f(actions[|actions| - 1])
  }

  lemma {:induction false} SumOverAppend(a: seq<Action>, b: seq<Action>, f: Action -> nat)
    ensures SumOver(a + b, f) == SumOver(a, f) + SumOver(b, f)
  {
    if b == [] {
      assert a + b == a;
    } else {
      assert (a + b)[..|a + b| - 1] == a + b[..|b| - 1];
      SumOverAppend(a, b[..|b| - 1], f);
    }
  }

  /** Summing over markers or over the actions made of them is the same. */
  lemma {:induction false} SumOverWrapped<M>(ms: seq<Placed<M>>, wrap: Placed<M> -> Action, f: Action -> nat, g: M -> nat)
    requires forall i :: 0 <= i < |ms| ==> f(wrap(ms[i])) == g(ms[i].marker)
    ensures SumOver(seq(|ms|, i requires 0 <= i < |ms| => wrap(ms[i])), f) == Gathered(ms, g)
  {
    if ms != [] {
      var n := |ms| - 1;
      SumOverWrapped(ms[..n], wrap, f, g);
      assert seq(|ms|, i requires 0 <= i < |ms| => wrap(ms[i]))[..n] == seq(n, i requires 0 <= i < n => wrap(ms[..n][i]));
    }
  }

  lemma {:induction false} NothingGathered<M>(ms: seq<Placed<M>>, g: M -> nat)
    requires forall m :: g(m) == 0
    ensures Gathered(ms, g) == 0
  {
    if ms != [] {
      NothingGathered(ms[..|ms| - 1], g);
    }
  }

  /** A transaction's actions are its markers. */
  lemma TxActionsSum(j: JinRules, tx: Transaction, f: Action -> nat, p: Purchase -> nat, t: Transfer -> nat, c: Conversion -> nat)
    requires forall m, atoms :: f(Buy(m, atoms)) == p(m)
    requires forall m, atoms :: f(Send(m, atoms)) == t(m)
    requires forall m, atoms :: f(Convert(m, atoms)) == c(m)
    requires forall m, atoms :: f(Vaulted(m, atoms)) == 0
    ensures SumOver(TxActions(j, tx), f) == Gathered(j.purchases(tx), p) + Gathered(j.transfers(tx), t) + Gathered(j.conversions(tx), c)
  {
    var (ps, ts, cs, vs) := (j.purchases(tx), j.transfers(tx), j.conversions(tx), j.rules.markers(tx));
    var buys := seq(|ps|, i requires 0 <= i < |ps| => Buy(ps[i].marker, ps[i].atoms));
    var sends := seq(|ts|, i requires 0 <= i < |ts| => Send(ts[i].marker, ts[i].atoms));
    var converts := seq(|cs|, i requires 0 <= i < |cs| => Convert(cs[i].marker, cs[i].atoms));
    var vaulted := seq(|vs|, i requires 0 <= i < |vs| => Vaulted(vs[i].marker, vs[i].atoms));
    SumOverWrapped(ps, (m: Placed<Purchase>) => Buy(m.marker, m.atoms), f, p);
    SumOverWrapped(ts, (m: Placed<Transfer>) => Send(m.marker, m.atoms), f, t);
    SumOverWrapped(cs, (m: Placed<Conversion>) => Convert(m.marker, m.atoms), f, c);
    SumOverWrapped(vs, (m: Placed<Marker>) => Vaulted(m.marker, m.atoms), f, (m: Marker) => 0);
    NothingGathered(vs, (m: Marker) => 0);
    assert buys == seq(|ps|, i requires 0 <= i < |ps| => ((m: Placed<Purchase>) => Buy(m.marker, m.atoms))(ps[i]));
    assert sends == seq(|ts|, i requires 0 <= i < |ts| => ((m: Placed<Transfer>) => Send(m.marker, m.atoms))(ts[i]));
    assert converts == seq(|cs|, i requires 0 <= i < |cs| => ((m: Placed<Conversion>) => Convert(m.marker, m.atoms))(cs[i]));
    assert vaulted == seq(|vs|, i requires 0 <= i < |vs| => ((m: Placed<Marker>) => Vaulted(m.marker, m.atoms))(vs[i]));
    SumOverAppend(buys, sends, f);
    SumOverAppend(buys + sends, converts, f);
    SumOverAppend(buys + sends + converts, vaulted, f);
  }

  function Gives(j: JinRules, miner: Option<string>, x: string): Action -> nat
  {
    (a: Action) => ActionGives(j, miner, a, x)
  }

  function Takes(j: JinRules, x: string): Action -> nat
  {
    (a: Action) => ActionTakes(j, a, x)
  }

  lemma {:induction false} BlockActionsSum(j: JinRules, miner: Option<string>, txs: seq<Transaction>, x: string)
    ensures SumOver(BlockActions(j, txs), Gives(j, miner, x)) == TxsGive(j, miner, txs, x)
    ensures SumOver(BlockActions(j, txs), Takes(j, x)) == TxsTake(j, txs, x)
    ensures SumOver(BlockActions(j, txs), JinFee) == TxsFees(j, txs)
  {
    hide TxActions, SumOver, Gathered;
    if txs == [] {
      NothingSummed(Gives(j, miner, x));
      NothingSummed(Takes(j, x));
      NothingSummed(JinFee);
    } else {
      var n := |txs| - 1;
      BlockActionsSum(j, miner, txs[..n], x);
      TxActionsSum(j, txs[n], Gives(j, miner, x), BuyGives(x), SendGives(miner, x), ConvertGives(j.protocol, miner, x));
      TxActionsSum(j, txs[n], Takes(j, x), BuyTakes(j.protocol, x), SendTakes(x), ConvertTakes(x));
      TxActionsFees(j, txs[n]);
      SumOverAppend(BlockActions(j, txs[..n]), TxActions(j, txs[n]), Gives(j, miner, x));
      SumOverAppend(BlockActions(j, txs[..n]), TxActions(j, txs[n]), Takes(j, x));
      SumOverAppend(BlockActions(j, txs[..n]), TxActions(j, txs[n]), JinFee);
    }
  }

  lemma NothingSummed(f: Action -> nat)
    ensures SumOver([], f) == 0
  {
  }

  lemma TxActionsFees(j: JinRules, tx: Transaction)
    ensures SumOver(TxActions(j, tx), JinFee) == TxFees(j, tx)
  {
    hide TxActions, SumOver, Gathered;
    var none := (p: Purchase) => 0;
    TxActionsSum(j, tx, JinFee, none, (t: Transfer) => When(t.feeInJin, t.fee), (c: Conversion) => When(c.feeInJin, c.fee));
    NothingGathered(j.purchases(tx), none);
  }

  // ---- One action, and all of a block ------------------------------------------------------

  lemma MarkerFlows(j: JinRules, book: Book, m: Marker, x: string)
    requires ApplyMarker(j, book, m).Ok?
    ensures Balance(ApplyMarker(j, book, m).value.balances, x) + MarkerTakes(book.reserve, m, x) == Balance(book.balances, x) + MarkerGives(book.reserve, m, x)
  {
    hide Payout, Share;
  }

  lemma ConversionMoves(m: Balances, protocol: string, c: Conversion, miner: Option<string>, x: string)
    requires ApplyConversion(m, protocol, c, miner).Ok?
    ensures Balance(ApplyConversion(m, protocol, c, miner).value, x) + ConvertTakes(x)(c) == Balance(m, x) + ConvertGives(protocol, miner, x)(c)
  {
    hide ApplyTransfer, Balance;
    TransferMoves(m, Transfer(c.from, protocol, c.units, c.feeInJin, c.fee), miner, x);
  }

  lemma PurchaseMoves(m: Balances, protocol: string, p: Purchase, x: string)
    requires ApplyPurchase(m, protocol, p).Ok?
    ensures Balance(ApplyPurchase(m, protocol, p).value, x) + BuyTakes(protocol, x)(p) == Balance(m, x) + BuyGives(x)(p)
  {
  }

  function VaultMarkerGives(r: Reserve, a: Action, x: string): nat
  {
    if a.Vaulted? then MarkerGives(r, a.marker, x) else 0
  }

  function VaultMarkerTakes(r: Reserve, a: Action, x: string): nat
  {
    if a.Vaulted? then MarkerTakes(r, a.marker, x) else 0
  }

  lemma StepFlows(j: JinRules, ctx: Context, r: Running, a: Action, x: string)
    requires Step(j, ctx, r, a).Ok?
    ensures var s := Step(j, ctx, r, a).value;
            && Balance(s.book.balances, x) + ActionTakes(j, a, x) + VaultMarkerTakes(r.book.reserve, a, x)
               == Balance(r.book.balances, x) + ActionGives(j, ctx.miner, a, x) + VaultMarkerGives(r.book.reserve, a, x)
            && s.fees == r.fees + When(ctx.pool, JinFee(a))
  {
    hide Balance, ApplyTransfer, ApplyMarker, ApplyPurchase, ApplyConversion, MarkerGives, MarkerTakes;
    var m := r.book.balances;
    match a
    case Buy(p, _) => PurchaseMoves(m, j.protocol, p, x);
    case Send(t, _) => TransferMoves(m, t, ctx.miner, x);
    case Convert(c, _) => ConversionMoves(m, j.protocol, c, ctx.miner, x);
    case Vaulted(marker, _) => MarkerFlows(j, r.book, marker, x);
  }

  lemma {:induction false} StepsFlows(j: JinRules, ctx: Context, r: Running, actions: seq<Action>, x: string)
    requires Steps(j, ctx, r, actions).Ok?
    ensures var s := Steps(j, ctx, r, actions).value;
            && Balance(s.book.balances, x) + SumOver(actions, Takes(j, x)) + VaultTakes(r.book.reserve, MarkersOf(actions), x)
               == Balance(r.book.balances, x) + SumOver(actions, Gives(j, ctx.miner, x)) + VaultGives(r.book.reserve, MarkersOf(actions), x)
            && s.fees == r.fees + When(ctx.pool, SumOver(actions, JinFee))
  {
    hide Balance, Step, ActionGives, ActionTakes, MarkerGives, MarkerTakes, Run, JinFee;
    if actions != [] {
      var n := |actions| - 1;
      var before := Steps(j, ctx, r, actions[..n]).value;
      StepsFlows(j, ctx, r, actions[..n], x);
      StepFlows(j, ctx, before, actions[n], x);
      StepsRun(j, ctx, r, actions[..n]);
      var ms := MarkersOf(actions[..n]);
      if actions[n].Vaulted? {
        assert (ms + [actions[n].marker])[..|ms|] == ms;
      }
    }
  }

  // ---- When a marker succeeds --------------------------------------------------------------

  /** The vault marker's own conditions, and enough JIN at the infusing address. */
  predicate MarkerFits(book: Book, m: Marker)
  {
    var r := book.reserve;
    match m
    case InfuseJin(from, units) =>
      0 < units <= Balance(book.balances, from) && r.trueMax > 0 && units % r.trueMax == 0 && r.lifetime + units < TWO_128
    case MeltQub(_, atoms, minUnits) =>
      0 < atoms <= r.trueMax && r.perAtom > 0 && Payout(atoms, r.perAtom) >= minUnits
  }

  /** What a ledger has reached before an action: no more than the supply is around, and the vault is in order. */
  ghost predicate InOrder(r: Running, stray: nat)
  {
    Held(r.book.balances) + r.fees <= JIN_TOTAL_SUPPLY_UNITS && Balanced(r.book.reserve) && VaultMatches(r.book, stray)
  }

  lemma InfusionFits(s: Reserve, units: nat)
    requires Balanced(s) && s.reserve + units < TWO_128
    ensures Infuse(s, units).Changed? <==> 0 < units && s.trueMax > 0 && units % s.trueMax == 0 && s.lifetime + units < TWO_128
  {
    hide Share, Payout;
    if 0 < units && s.trueMax > 0 && units % s.trueMax == 0 {
      ShareBelow(units, s.trueMax);
      ShareExact(units, s.trueMax);
      PayoutAdds(s.trueMax, s.perAtom, Share(units, s.trueMax));
      PayoutPositive(s.trueMax, s.perAtom + Share(units, s.trueMax));
    }
  }

  lemma PaidAcross(m: Balances, from: string, to: string, units: nat)
    requires Held(m) <= JIN_TOTAL_SUPPLY_UNITS
    ensures Debit(m, from, units).Ok? <==> units <= Balance(m, from)
    ensures Debit(m, from, units).Ok? ==> Credit(Debit(m, from, units).value, to, units).Ok?
  {
    hide Held;
    if units <= Balance(m, from) {
      DebitHeld(m, from, units);
      BalanceIsHeld(Debit(m, from, units).value, to);
    }
  }

  /** A vault marker succeeds exactly when it fits: the vault itself can always pay. */
  lemma MarkerSucceeds(j: JinRules, book: Book, m: Marker, stray: nat)
    requires Held(book.balances) <= JIN_TOTAL_SUPPLY_UNITS && Balanced(book.reserve) && VaultMatches(book, stray)
    ensures ApplyMarker(j, book, m).Ok? <==> MarkerFits(book, m)
  {
    hide Held, Debit, Credit, Infuse, Melt, Payout, Balanced;
    var r := book.reserve;
    BalanceIsHeld(book.balances, VAULT);
    match m
    case InfuseJin(from, units) =>
      BalanceIsHeld(book.balances, from);
      PaidAcross(book.balances, from, VAULT, units);
      if units <= Balance(book.balances, from) {
        InfusionFits(r, units);
        if Infuse(r, units).Changed? {
          InfusionKeeps(r, units);
        }
      }
    case MeltQub(from, atoms, minUnits) =>
      MeltNeverExceedsReserve(r, atoms, minUnits);
      if Melt(r, atoms, minUnits).Changed? {
        MeltKeeps(r, atoms, minUnits);
        PaidAcross(book.balances, VAULT, from, Melt(r, atoms, minUnits).units);
      }
  }

  lemma InfusionKeeps(s: Reserve, units: nat)
    requires Balanced(s) && Infuse(s, units).Changed?
    ensures Infuse(s, units).state.reserve <= Infuse(s, units).state.lifetime
  {
    hide Share, Payout;
  }

  lemma MeltKeeps(s: Reserve, atoms: nat, minUnits: nat)
    requires Balanced(s) && Melt(s, atoms, minUnits).Changed?
    ensures Melt(s, atoms, minUnits).units <= s.reserve && Melt(s, atoms, minUnits).state.reserve <= Melt(s, atoms, minUnits).state.lifetime
  {
    hide Payout;
  }

  /** The conditions under which one marker of a block goes through. */
  predicate StepFits(j: JinRules, height: nat, book: Book, a: Action)
  {
    match a
    case Buy(p, atoms) => height >= j.swapFrom && atoms == j.swapMarkerAtoms && p.units <= Balance(book.balances, j.protocol)
    case Send(t, atoms) => atoms == j.markerAtoms && t.units + When(t.feeInJin, t.fee) <= Balance(book.balances, t.from)
    case Convert(c, atoms) =>
      height >= j.conversionFrom && atoms == j.markerAtoms && c.units + When(c.feeInJin, c.fee) <= Balance(book.balances, c.from)
    case Vaulted(m, atoms) => j.rules.InfusionActive(height) && atoms == j.markerAtoms && MarkerFits(book, m)
  }

  /** A marker goes through exactly when it is active, priced right and covered; nothing overflows. */
  lemma StepSucceeds(j: JinRules, ctx: Context, r: Running, a: Action, stray: nat)
    requires InOrder(r, stray)
    ensures Step(j, ctx, r, a).Ok? <==> StepFits(j, ctx.height, r.book, a)
  {
    hide Held, Debit, Credit, ApplyTransfer, ApplyMarker, Balanced, VaultMatches, MarkerFits;
    var m := r.book.balances;
    match a
    case Buy(p, _) => PaidAcross(m, j.protocol, p.buyer, p.units);
    case Send(t, _) =>
      TransferSucceeds(m, t, ctx.miner);
      BalanceIsHeld(m, t.from);
    case Convert(c, _) =>
      TransferSucceeds(m, Transfer(c.from, j.protocol, c.units, c.feeInJin, c.fee), ctx.miner);
      BalanceIsHeld(m, c.from);
    case Vaulted(marker, _) => MarkerSucceeds(j, r.book, marker, stray);
  }

  lemma StepKeepsOrder(j: JinRules, ctx: Context, r: Running, a: Action, stray: nat)
    requires InOrder(r, stray) && Step(j, ctx, r, a).Ok? && (ctx.pool ==> ctx.miner.None?)
    requires ActionAddresses(AddressesOf(j), a) && j.protocol != VAULT && ctx.miner != Some(VAULT)
    ensures InOrder(Step(j, ctx, r, a).value, stray)
  {
    hide Held, Step, Balanced, VaultMatches, ActionAddresses, JinFee;
    StepHeld(j, ctx, r, a);
    StepReserve(j, ctx, r, a, stray);
  }

  /** The marker fits what the markers before it left. */
  predicate FitsAfter(j: JinRules, ctx: Context, r: Running, before: seq<Action>, a: Action)
  {
    Steps(j, ctx, r, before).Ok? && StepFits(j, ctx.height, Steps(j, ctx, r, before).value.book, a)
  }

  /** A block's markers go through exactly when each of them fits what the ones before it left. */
  lemma {:induction false} StepsSucceed(j: JinRules, ctx: Context, r: Running, actions: seq<Action>, stray: nat)
    requires InOrder(r, stray) && (ctx.pool ==> ctx.miner.None?)
    requires AllAddresses(AddressesOf(j), actions) && j.protocol != VAULT && ctx.miner != Some(VAULT)
    ensures Steps(j, ctx, r, actions).Ok? <==> forall n :: 0 <= n < |actions| ==> FitsAfter(j, ctx, r, actions[..n], actions[n])
    ensures Steps(j, ctx, r, actions).Ok? ==> InOrder(Steps(j, ctx, r, actions).value, stray)
  {
    hide Step, StepFits, InOrder, ActionAddresses;
    if actions != [] {
      var n := |actions| - 1;
      assert forall k :: 0 <= k < n ==> actions[..n][..k] == actions[..k] && actions[..n][k] == actions[k];
      StepsSucceed(j, ctx, r, actions[..n], stray);
      if Steps(j, ctx, r, actions[..n]).Ok? {
        var before := Steps(j, ctx, r, actions[..n]).value;
        StepSucceeds(j, ctx, before, actions[n], stray);
        if Step(j, ctx, before, actions[n]).Ok? {
          StepKeepsOrder(j, ctx, before, actions[n], stray);
        }
      }
    }
  }

  // ---- The pool's share --------------------------------------------------------------------

  function EntriesGive(entries: seq<PoolPayout.Entry>, x: string): nat
  {
    if entries == [] then 0
    else EntriesGive(entries[..|entries| - 1], x) + When(entries[|entries| - 1].address == x, entries[|entries| - 1].amount)
  }

  /** What a payout plan is meant to give an address. */
  function PlanGives(plan: Plan, x: string): nat
  {
    When(plan.manager == x, plan.split.commission) + EntriesGive(plan.split.entries, x)
  }

  lemma UnitsToAppend(rows: seq<Row>, row: Row, x: string)
    ensures UnitsTo(rows + [row], x) == UnitsTo(rows, x) + When(row.address == x, row.units)
  {
    assert (rows + [row])[..|rows|] == rows;
  }

  lemma {:induction false} UnitsToConcat(a: seq<Row>, b: seq<Row>, x: string)
    ensures UnitsTo(a + b, x) == UnitsTo(a, x) + UnitsTo(b, x)
  {
    if b == [] {
      assert a + b == a;
    } else {
      assert (a + b)[..|a + b| - 1] == a + b[..|b| - 1];
      UnitsToConcat(a, b[..|b| - 1], x);
    }
  }

  lemma {:induction false} EntryRowsTo(entries: seq<PoolPayout.Entry>, x: string)
    ensures UnitsTo(EntryRows(entries), x) == EntriesGive(entries, x)
  {
    if entries != [] {
      var n := |entries| - 1;
      EntryRowsTo(entries[..n], x);
      UnitsToAppend(EntryRows(entries[..n]), Row(entries[n].address, entries[n].amount), x);
    }
  }

  lemma {:induction false} RaisedTo(rows: seq<Row>, k: nat, units: nat, x: string)
    requires k < |rows|
    ensures UnitsTo(rows[k := Row(rows[k].address, rows[k].units + units)], x) == UnitsTo(rows, x) + When(rows[k].address == x, units)
  {
    var raised := rows[k := Row(rows[k].address, rows[k].units + units)];
    var n := |rows| - 1;
    if k < n {
      RaisedTo(rows[..n], k, units, x);
      assert raised[..n] == rows[..n][k := Row(rows[k].address, rows[k].units + units)];
    } else {
      assert raised[..n] == rows[..n];
    }
  }

  lemma {:induction false} PositionFinds(rows: seq<Row>, address: string)
    ensures Position(rows, address) < |rows| ==> rows[Position(rows, address)].address == address
  {
    if rows != [] && rows[0].address != address {
      PositionFinds(rows[1..], address);
    }
  }

  lemma AddRowTo(rows: seq<Row>, row: Row, x: string)
    ensures UnitsTo(AddRow(rows, row), x) == UnitsTo(rows, x) + When(row.address == x, row.units)
  {
    hide UnitsTo, Position;
    PositionFinds(rows, row.address);
    var k := Position(rows, row.address);
    if k < |rows| {
      RaisedTo(rows, k, row.units, x);
    } else {
      UnitsToAppend(rows, row, x);
    }
  }

  lemma {:induction false} MergeTo(rows: seq<Row>, x: string)
    ensures UnitsTo(Merge(rows), x) == UnitsTo(rows, x)
  {
    hide AddRow;
    if rows != [] {
      MergeTo(rows[..|rows| - 1], x);
      AddRowTo(Merge(rows[..|rows| - 1]), rows[|rows| - 1], x);
    }
  }

  lemma UnitsToWithout(a: seq<Row>, p: nat, x: string)
    requires p < |a|
    ensures UnitsTo(a, x) == UnitsTo(Without(a, p), x) + When(a[p].address == x, a[p].units)
  {
    hide UnitsTo;
    assert a == a[..p] + [a[p]] + a[p + 1..];
    UnitsToConcat(a[..p] + [a[p]], a[p + 1..], x);
    UnitsToAppend(a[..p], a[p], x);
    UnitsToConcat(a[..p], a[p + 1..], x);
  }

  lemma {:induction false} UnitsToPermutes(a: seq<Row>, b: seq<Row>, x: string)
    requires multiset(a) == multiset(b)
    ensures UnitsTo(a, x) == UnitsTo(b, x)
    decreases |b|
  {
    hide UnitsTo, Without;
    if b == [] {
      assert |a| == |multiset(a)|;
    } else {
      var p := PermutationIndex(a, b, |b| - 1);
      UnitsToWithout(a, p, x);
      UnitsToWithout(b, |b| - 1, x);
      TotalUnitsWithout(a, p);
      TotalUnitsWithout(b, |b| - 1);
      Cancel(multiset(Without(a, p)), multiset(Without(b, |b| - 1)), a[p]);
      UnitsToPermutes(Without(a, p), Without(b, |b| - 1), x);
    }
  }

  /** Merged and sorted, the receivers still get what the plan gives each of them. */
  lemma ReceiversGetTheirShare(plan: Plan, x: string)
    ensures UnitsTo(FeeReceivers(plan), x) == PlanGives(plan, x)
  {
    hide Merge, EntryRows, ByName, EntriesGive;
    var rows := CommissionRows(plan) + EntryRows(plan.split.entries);
    MergeTo(rows, x);
    UnitsToConcat(CommissionRows(plan), EntryRows(plan.split.entries), x);
    EntryRowsTo(plan.split.entries, x);
    UnitsToPermutes(Sort(Merge(rows), ByName), Merge(rows), x);
    assert CommissionRows(plan) != [] ==> CommissionRows(plan)[..0] == [];
  }

  // ---- Blocks and chains -------------------------------------------------------------------

  function MinerOf(j: JinRules, b: Block): Option<string>
  {
    if j.pools.marker(b).Some? then None else j.minerOf(b)
  }

  predicate Bootstraps(j: JinRules, height: nat, r: Reserve)
  {
    j.rules.infusionFrom == Some(height) && !r.active
  }

  /** The vault as the block's markers find it. */
  function ReserveAt(j: JinRules, height: nat, r: Reserve): Reserve
  {
    if !Bootstraps(j, height, r) then r
    else if j.bootstrap == 0 then r.(active := true)
    else match Bootstrapped(r, j.bootstrap) case Ok(s) => s case Err => r
  }

  /** What the pool that mined the block passes on of the fees. */
  function PoolGives(j: JinRules, prior: seq<Block>, b: Block, x: string): nat
  {
    var fees := TxsFees(j, AfterCoinbase(b));
    if j.pools.marker(b).None? || fees == 0 then 0
    else match PlanOf(j.pools, j.rules.id, prior, j.pools.marker(b).value, fees) case Ok(plan) => PlanGives(plan, x) case Err => 0
  }

  function BlockGives(j: JinRules, prior: seq<Block>, b: Block, r: Reserve, x: string): nat
  {
    var height, txs := |prior|, AfterCoinbase(b);
    When(Bootstraps(j, height, r) && x == VAULT, j.bootstrap)
    + if height < j.activation then 0
      else TxsGive(j, MinerOf(j, b), txs, x) + VaultGives(ReserveAt(j, height, r), BlockMarkers(j, txs), x) + PoolGives(j, prior, b, x)
  }

  function BlockTakes(j: JinRules, prior: seq<Block>, b: Block, r: Reserve, x: string): nat
  {
    var height, txs := |prior|, AfterCoinbase(b);
    When(Bootstraps(j, height, r) && x == j.protocol, j.bootstrap)
    + if height < j.activation then 0 else TxsTake(j, txs, x) + VaultTakes(ReserveAt(j, height, r), BlockMarkers(j, txs), x)
  }

  lemma BootstrapFlows(j: JinRules, book: Book, x: string)
    requires Bootstrap(j, book).Ok?
    ensures var s := Bootstrap(j, book).value;
            && Balance(s.balances, x) + When(!book.reserve.active && x == j.protocol, j.bootstrap)
               == Balance(book.balances, x) + When(!book.reserve.active && x == VAULT, j.bootstrap)
            && (!book.reserve.active && j.bootstrap != 0 ==> Bootstrapped(book.reserve, j.bootstrap).Ok?)
            && s.reserve == if book.reserve.active then book.reserve
                            else if j.bootstrap == 0 then book.reserve.(active := true) else Bootstrapped(book.reserve, j.bootstrap).value
  {
    hide BootstrapPerAtom;
  }

  /** One block, one address: what was there plus what the block gives is what is left plus what it takes. */
  lemma BlockFlows(j: JinRules, prior: seq<Block>, b: Block, book: Book, x: string)
    requires ApplyBlock(j, prior, b, book).Ok?
    ensures Balance(ApplyBlock(j, prior, b, book).value.balances, x) + BlockTakes(j, prior, b, book.reserve, x)
         == Balance(book.balances, x) + BlockGives(j, prior, b, book.reserve, x)
  {
    hide Steps, Bootstrap, Bootstrapped, CreditAll, FeeReceivers, BlockActions, Balance, SumOver, TxsGive, TxsTake, TxsFees, VaultGives, VaultTakes,
         MarkersOf, BlockMarkers, PlanOf, UnitsTo, PlanGives;
    var height, txs := |prior|, AfterCoinbase(b);
    if j.rules.infusionFrom == Some(height) {
      BootstrapFlows(j, book, x);
    }
    if height >= j.activation {
      var start := if j.rules.infusionFrom == Some(height) then Bootstrap(j, book).value else book;
      var ctx := ContextOf(j, b, height);
      StepsFlows(j, ctx, Running(start, 0), BlockActions(j, txs), x);
      BlockActionsSum(j, ctx.miner, txs, x);
      BlockMarkersEitherWay(j, txs);
      var done := Steps(j, ctx, Running(start, 0), BlockActions(j, txs)).value;
      if j.pools.marker(b).Some? && done.fees != 0 {
        var plan := PlanOf(j.pools, j.rules.id, prior, j.pools.marker(b).value, done.fees).value;
        CreditAllTo(done.book.balances, FeeReceivers(plan), x);
        ReceiversGetTheirShare(plan, x);
      }
    }
  }

  /** Given and taken over all blocks; the vault's price at each block is the one the ledger had reached. */
  function LedgerGives(j: JinRules, blocks: seq<Block>, x: string): nat
  {
    if |blocks| <= 1 then 0
    else
      var n := |blocks| - 1;
      LedgerGives(j, blocks[..n], x) + match Books(j, blocks[..n]) case Ok(book) => BlockGives(j, blocks[..n], blocks[n], book.reserve, x) case Err => 0
  }

  function LedgerTakes(j: JinRules, blocks: seq<Block>, x: string): nat
  {
    if |blocks| <= 1 then 0
    else
      var n := |blocks| - 1;
      LedgerTakes(j, blocks[..n], x) + match Books(j, blocks[..n]) case Ok(book) => BlockTakes(j, blocks[..n], blocks[n], book.reserve, x) case Err => 0
  }

  lemma {:induction false} BooksFlow(j: JinRules, blocks: seq<Block>, x: string)
    requires Books(j, blocks).Ok?
    ensures Balance(Books(j, blocks).value.balances, x) + LedgerTakes(j, blocks, x)
         == When(x == j.protocol, JIN_TOTAL_SUPPLY_UNITS) + LedgerGives(j, blocks, x)
  {
    hide ApplyBlock, BlockGives, BlockTakes;
    if |blocks| > 1 {
      var n := |blocks| - 1;
      BooksFlow(j, blocks[..n], x);
      BlockFlows(j, blocks[..n], blocks[n], Books(j, blocks[..n]).value, x);
    }
  }

  /**
    The ledger address by address: its balance and its locks are what it was given less what was taken from
    it by the markers on the chain, starting from the whole supply at the protocol's address.
   */
  lemma LedgerFlows(j: JinRules, blocks: seq<Block>, x: string)
    requires LedgerActive(j, blocks) && Ledger(j, blocks).Ok?
    ensures j.locks(blocks).Ok?
    ensures Balance(Ledger(j, blocks).value, x) + Balance(j.locks(blocks).value, x) + LedgerTakes(j, blocks, x)
         == When(x == j.protocol, JIN_TOTAL_SUPPLY_UNITS) + LedgerGives(j, blocks, x)
  {
    hide Books, LedgerGives, LedgerTakes;
    BooksFlow(j, blocks, x);
  }
}
