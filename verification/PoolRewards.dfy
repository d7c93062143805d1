/** From a payout plan to coinbase outputs and JIN fee receivers (src/pools.rs): nothing is lost on the way. */
module PoolRewards {
  import opened Infusion
  import opened Outcome
  import opened PoolPayout
  import opened Sorting
  import opened UtxoSet
  import opened Wire

  datatype Plan = Plan(manager: string, split: Split)
  datatype Row = Row(address: string, units: nat)

  /** The plan divides all of this total (SplitAmount returns no other). */
  ghost predicate Divides(plan: Plan, total: nat)
  {
    plan.split.commission + TotalAmount(plan.split.entries) == total
  }

  lemma SplitsDivide(total: nat, bps: nat, scores: seq<Score>, plan: Plan)
    requires IsSplit(total, bps, scores, plan.split)
    ensures Divides(plan, total)
  {
  }

  // ---- Coinbase outputs --------------------------------------------------------------------

  /** One output, if the amount is in range and the address has a script. */
  function PayTo(scriptOf: string -> Result<Script>, address: string, amount: nat): Result<TxOut>
  {
    var script :- scriptOf(address);
    if amount > MAX_MONEY_ATOMS then Err else Ok(TxOut(amount, script))
  }

  function EntryOutputs(scriptOf: string -> Result<Script>, entries: seq<Entry>): Result<seq<TxOut>>
  {
    if entries == [] then Ok([])
    else
      var before :- EntryOutputs(scriptOf, entries[..|entries| - 1]);
      var last := entries[|entries| - 1];
      if last.amount == 0 then Ok(before)
      else
        var out :- PayTo(scriptOf, last.address, last.amount);
        Ok(before + [out])
  }

  /** expected_pool_coinbase_outputs. */
  function CoinbaseOutputs(scriptOf: string -> Result<Script>, plan: Plan, total: nat): Result<seq<TxOut>>
  {
    if total >= TWO_64 then Err
    else
      var commission :- if plan.split.commission == 0 then Ok([])
                        else
                          var out :- PayTo(scriptOf, plan.manager, plan.split.commission);
                          Ok([out]);
      var payouts :- EntryOutputs(scriptOf, plan.split.entries);
      if commission + payouts == [] then Err else Ok(commission + payouts)
  }

  lemma {:induction false} OutValueAppend(a: seq<TxOut>, b: seq<TxOut>)
    ensures OutValue(a + b) == OutValue(a) + OutValue(b)
  {
    if b == [] {
      assert a + b == a;
    } else {
      assert (a + b)[..|a + b| - 1] == a + b[..|b| - 1];
      OutValueAppend(a, b[..|b| - 1]);
    }
  }

  lemma OneOutput(out: TxOut)
    ensures OutValue([out]) == out.value
  {
    assert [out][..0] == [];
  }

  lemma {:induction false} EntryOutputsTotal(scriptOf: string -> Result<Script>, entries: seq<Entry>)
    requires EntryOutputs(scriptOf, entries).Ok?
    ensures OutValue(EntryOutputs(scriptOf, entries).value) == TotalAmount(entries)
    ensures forall out :: out in EntryOutputs(scriptOf, entries).value ==> 0 < out.value <= MAX_MONEY_ATOMS
  {
    if entries != [] {
      var n := |entries| - 1;
      EntryOutputsTotal(scriptOf, entries[..n]);
      if entries[n].amount > 0 {
        var out := PayTo(scriptOf, entries[n].address, entries[n].amount).value;
        OutValueAppend(EntryOutputs(scriptOf, entries[..n]).value, [out]);
        OneOutput(out);
      }
    }
  }

  /** The coinbase pays out the whole reward, in positive amounts. */
  lemma CoinbasePaysEverything(scriptOf: string -> Result<Script>, plan: Plan, total: nat)
    requires Divides(plan, total) && CoinbaseOutputs(scriptOf, plan, total).Ok?
    ensures var outs := CoinbaseOutputs(scriptOf, plan, total).value;
            outs != [] && OutValue(outs) == total && forall out :: out in outs ==> 0 < out.value <= MAX_MONEY_ATOMS
  {
    EntryOutputsTotal(scriptOf, plan.split.entries);
    var payouts := EntryOutputs(scriptOf, plan.split.entries).value;
    if plan.split.commission > 0 {
      var out := PayTo(scriptOf, plan.manager, plan.split.commission).value;
      OutValueAppend([out], payouts);
      OneOutput(out);
    } else {
      assert [] + payouts == payouts;
    }
  }

  /** Atoms that entries award to addresses with that script. */
  function AwardedTo(scriptOf: string -> Result<Script>, entries: seq<Entry>, script: Script): nat
  {
    if entries == [] then 0
    else
      var last := entries[|entries| - 1];
      AwardedTo(scriptOf, entries[..|entries| - 1], script) + if scriptOf(last.address) == Ok(script) then last.amount else 0
  }

  lemma {:induction false} PaidToConcat(a: seq<TxOut>, b: seq<TxOut>, script: Script)
    ensures PaidTo(script, a + b) == PaidTo(script, a) + PaidTo(script, b)
  {
    if b == [] {
      assert a + b == a;
    } else {
      assert (a + b)[..|a + b| - 1] == a + b[..|b| - 1];
      PaidToConcat(a, b[..|b| - 1], script);
    }
  }

  predicate CanBePaid(scriptOf: string -> Result<Script>, address: string, amount: nat)
  {
    amount > 0 ==> scriptOf(address).Ok? && amount <= MAX_MONEY_ATOMS
  }

  lemma {:induction false} EntryOutputsMean(scriptOf: string -> Result<Script>, entries: seq<Entry>, script: Script)
    ensures EntryOutputs(scriptOf, entries).Ok? <==> forall i :: 0 <= i < |entries| ==> CanBePaid(scriptOf, entries[i].address, entries[i].amount)
    ensures EntryOutputs(scriptOf, entries).Ok? ==>
              && PaidTo(script, EntryOutputs(scriptOf, entries).value) == AwardedTo(scriptOf, entries, script)
              && (EntryOutputs(scriptOf, entries).value == [] <==> forall i :: 0 <= i < |entries| ==> entries[i].amount == 0)
  {
    if entries != [] {
      var n := |entries| - 1;
      EntryOutputsMean(scriptOf, entries[..n], script);
      if EntryOutputs(scriptOf, entries[..n]).Ok? && entries[n].amount > 0 && CanBePaid(scriptOf, entries[n].address, entries[n].amount) {
        var before, out := EntryOutputs(scriptOf, entries[..n]).value, TxOut(entries[n].amount, scriptOf(entries[n].address).value);
        assert (before + [out])[..|before|] == before;
      }
    }
  }

  /** The coinbase can be built exactly when everybody due something can be paid and somebody is, and it pays everybody his due. */
  lemma CoinbaseMeans(scriptOf: string -> Result<Script>, plan: Plan, total: nat, script: Script)
    ensures CoinbaseOutputs(scriptOf, plan, total).Ok? <==>
              && total < TWO_64 && CanBePaid(scriptOf, plan.manager, plan.split.commission)
              && (forall i :: 0 <= i < |plan.split.entries| ==> CanBePaid(scriptOf, plan.split.entries[i].address, plan.split.entries[i].amount))
              && (plan.split.commission > 0 || exists i :: 0 <= i < |plan.split.entries| && plan.split.entries[i].amount > 0)
    ensures CoinbaseOutputs(scriptOf, plan, total).Ok? ==>
              PaidTo(script, CoinbaseOutputs(scriptOf, plan, total).value)
              == (if scriptOf(plan.manager) == Ok(script) then plan.split.commission else 0) + AwardedTo(scriptOf, plan.split.entries, script)
    ensures CoinbaseOutputs(scriptOf, plan, total).Ok? && plan.split.commission > 0 ==>
              scriptOf(plan.manager) == Ok(CoinbaseOutputs(scriptOf, plan, total).value[0].script)
              && CoinbaseOutputs(scriptOf, plan, total).value[0].value == plan.split.commission
  {
    hide EntryOutputs, AwardedTo, PaidTo;
    EntryOutputsMean(scriptOf, plan.split.entries, script);
    if CoinbaseOutputs(scriptOf, plan, total).Ok? {
      var payouts := EntryOutputs(scriptOf, plan.split.entries).value;
      if plan.split.commission > 0 {
        var out := PayTo(scriptOf, plan.manager, plan.split.commission).value;
        PaidToConcat([out], payouts, script);
        PaidToOne(out, script);
      } else {
        assert [] + payouts == payouts;
      }
    }
  }

  lemma PaidToOne(out: TxOut, script: Script)
    ensures PaidTo(script, [out]) == if out.script == script then out.value else 0
  {
    assert [out][..0] == [];
  }

  // ---- JIN fee receivers -------------------------------------------------------------------

  function TotalUnits(rows: seq<Row>): nat
  {
    if rows == [] then 0 else TotalUnits(rows[..|rows| - 1]) + rows[|rows| - 1].units
  }

  function EntryRows(entries: seq<Entry>): seq<Row>
  {
    if entries == [] then []
    else
      var before, last := EntryRows(entries[..|entries| - 1]), entries[|entries| - 1];
      if last.amount == 0 then before else before + [Row(last.address, last.amount)]
  }

  /** Where an address is in a list of rows, or its length. */
  function Position(rows: seq<Row>, address: string): (k: nat)
    ensures k <= |rows|
  {
    if rows == [] then 0 else if rows[0].address == address then 0 else 1 + Position(rows[1..], address)
  }

  // Position is the first place with that address.
  lemma {:induction false} PositionMeans(rows: seq<Row>, address: string)
    ensures var k := Position(rows, address);
            && (forall i :: 0 <= i < k ==> rows[i].address != address)
            && (k < |rows| ==> rows[k].address == address)
  {
    if rows != [] && rows[0].address != address {
      PositionMeans(rows[1..], address);
      assert forall i :: 1 <= i < |rows| ==> rows[i] == rows[1..][i - 1];
    }
  }

  function AddRow(rows: seq<Row>, row: Row): seq<Row>
  {
    var k := Position(rows, row.address);
    if k < |rows| then rows[k := Row(rows[k].address, rows[k].units + row.units)] else rows + [row]
  }

  function Merge(rows: seq<Row>): seq<Row>
  {
    if rows == [] then [] else AddRow(Merge(rows[..|rows| - 1]), rows[|rows| - 1])
  }

  predicate ByName(a: Row, b: Row)
  {
    StringLe(a.address, b.address)
  }

  /** jin_fee_receivers_for_block on a pool block: commission and payouts, merged per address, in address order. */
  function FeeReceivers(plan: Plan): seq<Row>
  {
    Sort(Merge(CommissionRows(plan) + EntryRows(plan.split.entries)), ByName)
  }

  lemma TotalUnitsAppend(rows: seq<Row>, row: Row)
    ensures TotalUnits(rows + [row]) == TotalUnits(rows) + row.units
  {
    assert (rows + [row])[..|rows|] == rows;
  }

  lemma {:induction false} TotalUnitsRaise(rows: seq<Row>, k: nat, units: nat)
    requires k < |rows|
    ensures TotalUnits(rows[k := Row(rows[k].address, rows[k].units + units)]) == TotalUnits(rows) + units
  {
    var raised := rows[k := Row(rows[k].address, rows[k].units + units)];
    var n := |rows| - 1;
    if k < n {
      TotalUnitsRaise(rows[..n], k, units);
      assert raised[..n] == rows[..n][k := Row(rows[k].address, rows[k].units + units)];
    } else {
      assert raised[..n] == rows[..n];
    }
  }

  lemma AddRowTotal(rows: seq<Row>, row: Row)
    ensures TotalUnits(AddRow(rows, row)) == TotalUnits(rows) + row.units
  {
    hide TotalUnits;
    var k := Position(rows, row.address);
    if k < |rows| {
      TotalUnitsRaise(rows, k, row.units);
    } else {
      TotalUnitsAppend(rows, row);
    }
  }

  lemma {:induction false} MergeTotal(rows: seq<Row>)
    ensures TotalUnits(Merge(rows)) == TotalUnits(rows)
  {
    hide AddRow;
    if rows != [] {
      MergeTotal(rows[..|rows| - 1]);
      AddRowTotal(Merge(rows[..|rows| - 1]), rows[|rows| - 1]);
    }
  }

  lemma {:induction false} TotalUnitsConcat(a: seq<Row>, b: seq<Row>)
    ensures TotalUnits(a + b) == TotalUnits(a) + TotalUnits(b)
  {
    if b == [] {
      assert a + b == a;
    } else {
      assert (a + b)[..|a + b| - 1] == a + b[..|b| - 1];
      TotalUnitsConcat(a, b[..|b| - 1]);
    }
  }

  function Without(a: seq<Row>, p: nat): (r: seq<Row>)
    requires p < |a|
    ensures |r| == |a| - 1
  {
    a[..p] + a[p + 1..]
  }

  lemma TotalUnitsWithout(a: seq<Row>, p: nat)
    requires p < |a|
    ensures TotalUnits(a) == TotalUnits(Without(a, p)) + a[p].units
    ensures multiset(a) == multiset(Without(a, p)) + multiset{a[p]}
  {
    hide TotalUnits;
    assert a == a[..p] + [a[p]] + a[p + 1..];
    TotalUnitsConcat(a[..p] + [a[p]], a[p + 1..]);
    TotalUnitsAppend(a[..p], a[p]);
    TotalUnitsConcat(a[..p], a[p + 1..]);
  }

  lemma Cancel<T>(a: multiset<T>, b: multiset<T>, x: T)
    requires a + multiset{x} == b + multiset{x}
    ensures a == b
  {
    assert a == a + multiset{x} - multiset{x};
    assert b == b + multiset{x} - multiset{x};
  }

  // Sorting moves rows around; the total is that of the multiset.
  lemma {:induction false} TotalUnitsPermutes(a: seq<Row>, b: seq<Row>)
    requires multiset(a) == multiset(b)
    ensures TotalUnits(a) == TotalUnits(b)
    decreases |b|
  {
    hide TotalUnits, Without;
    if b == [] {
      assert |a| == |multiset(a)|;
    } else {
      var p := PermutationIndex(a, b, |b| - 1);
      TotalUnitsWithout(a, p);
      TotalUnitsWithout(b, |b| - 1);
      Cancel(multiset(Without(a, p)), multiset(Without(b, |b| - 1)), a[p]);
      TotalUnitsPermutes(Without(a, p), Without(b, |b| - 1));
    }
  }

  lemma {:induction false} EntryRowsTotal(entries: seq<Entry>)
    ensures TotalUnits(EntryRows(entries)) == TotalAmount(entries)
  {
    if entries != [] {
      var n := |entries| - 1;
      EntryRowsTotal(entries[..n]);
      TotalUnitsAppend(EntryRows(entries[..n]), Row(entries[n].address, entries[n].amount));
    }
  }

  function CommissionRows(plan: Plan): seq<Row>
  {
    if plan.split.commission > 0 then [Row(plan.manager, plan.split.commission)] else []
  }

  lemma CommissionRowsTotal(plan: Plan)
    ensures TotalUnits(CommissionRows(plan)) == plan.split.commission
  {
    assert CommissionRows(plan) != [] ==> CommissionRows(plan)[..0] == [];
  }

  /** A pool block's JIN fees all reach somebody. */
  lemma ReceiversGetEverything(plan: Plan, total: nat)
    requires Divides(plan, total)
    ensures TotalUnits(FeeReceivers(plan)) == total
  {
    hide Merge, EntryRows, ByName, TotalUnits, CommissionRows;
    var rows := CommissionRows(plan) + EntryRows(plan.split.entries);
    CommissionRowsTotal(plan);
    EntryRowsTotal(plan.split.entries);
    TotalUnitsConcat(CommissionRows(plan), EntryRows(plan.split.entries));
    MergeTotal(rows);
    TotalUnitsPermutes(Sort(Merge(rows), ByName), Merge(rows));
  }

  /** Every address at most once, and with something. */
  predicate EachOnce(rows: seq<Row>)
  {
    && AllDistinct(rows)
    && (forall x, y :: x in rows && y in rows && x.address == y.address ==> x == y)
    && (forall x :: x in rows ==> x.units > 0)
  }

  lemma {:induction false} EntryRowsPositive(entries: seq<Entry>)
    ensures forall x :: x in EntryRows(entries) ==> x.units > 0
  {
    if entries != [] {
      EntryRowsPositive(entries[..|entries| - 1]);
    }
  }

  lemma AddOnce(rows: seq<Row>, row: Row)
    requires EachOnce(rows) && row.units > 0
    ensures EachOnce(AddRow(rows, row))
  {
    hide Position;
    PositionMeans(rows, row.address);
    var k, after := Position(rows, row.address), AddRow(rows, row);
    forall i, j | 0 <= i < j < |after|
      ensures after[i].address != after[j].address
    {
      assert i < |rows| && rows[i] in rows;
      if j < |rows| {
        assert rows[j] in rows && rows[i] != rows[j];
      }
    }
  }

  lemma {:induction false} MergeOnce(rows: seq<Row>)
    requires forall x :: x in rows ==> x.units > 0
    ensures EachOnce(Merge(rows))
  {
    hide AddRow, EachOnce;
    if rows == [] {
      NothingOnce();
    } else {
      MergeOnce(rows[..|rows| - 1]);
      AddOnce(Merge(rows[..|rows| - 1]), rows[|rows| - 1]);
    }
  }

  lemma NothingOnce()
    ensures EachOnce([])
  {
  }

  /** Each receiver occurs once, with a positive amount, in the order of names. */
  lemma ReceiversOccurOnce(plan: Plan)
    ensures EachOnce(FeeReceivers(plan))
    ensures SortedBy(FeeReceivers(plan), ByName)
  {
    hide Merge, EntryRows, Sort;
    var merged := Merge(CommissionRows(plan) + EntryRows(plan.split.entries));
    EntryRowsPositive(plan.split.entries);
    MergeOnce(CommissionRows(plan) + EntryRows(plan.split.entries));
    SortMembers(merged, ByName);
    DistinctPermutation(merged, FeeReceivers(plan));
    NamesAreOrdered();
    SortSorted(merged, ByName);
  }

  lemma NamesAreOrdered()
    ensures TotalOrder(ByName)
  {
    forall x: Row, y: Row
      ensures ByName(x, y) || ByName(y, x)
    {
      StringLeTotal(x.address, y.address);
    }
    forall x: Row, y: Row, z: Row | ByName(x, y) && ByName(y, z)
      ensures ByName(x, z)
    {
      StringLeTransitive(x.address, y.address, z.address);
    }
  }
}
