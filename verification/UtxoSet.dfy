/** The unspent-output map and how a transaction changes it (connect_tx_utxos in src/lib.rs). */
module UtxoSet {
  import opened MapSums
  import opened Merkle
  import opened Outcome
  import opened Wire

  const NULL_OUTPOINT: OutPoint := OutPoint(ZERO_HASH, 0xffff_ffff)
  const TX_VERSION_POOL_SHARE: U32 := 0x5155_4253

  predicate IsCoinbase(tx: Transaction)
  {
    tx.version != TX_VERSION_POOL_SHARE && |tx.inputs| == 1 && tx.inputs[0].previous == NULL_OUTPOINT
  }

  predicate IsPoolShare(tx: Transaction)
  {
    tx.version == TX_VERSION_POOL_SHARE && |tx.inputs| == 1 && tx.inputs[0].previous == NULL_OUTPOINT && tx.outputs == []
  }

  // ---- Values ------------------------------------------------------------------------------

  function CoinValue(c: Coin): nat
  {
    c.out.value
  }

  /** All atoms that can be spent. */
  ghost function Total(u: Utxos): nat
  {
    SumOf(u, CoinValue)
  }

  function OutValue(outs: seq<TxOut>): nat
  {
    if outs == [] then 0 else OutValue(outs[..|outs| - 1]) + outs[|outs| - 1].value
  }

  function InValue(u: Utxos, ins: seq<TxIn>): nat
  {
    if ins == [] then 0
    else
      var o := ins[|ins| - 1].previous;
      InValue(u, ins[..|ins| - 1]) + if o in u then u[o].out.value else 0
  }

  /** Atoms that outputs pay to a script. */
  function PaidTo(script: Script, outs: seq<TxOut>): nat
  {
    if outs == [] then 0
    else
      var last := outs[|outs| - 1];
      PaidTo(script, outs[..|outs| - 1]) + if last.script == script then last.value else 0
  }

  // ---- Specification -----------------------------------------------------------------------

  function SpendInputs(u: Utxos, ins: seq<TxIn>): Result<Utxos>
  {
    if ins == [] then Ok(u)
    else
      var before :- SpendInputs(u, ins[..|ins| - 1]);
      var o := ins[|ins| - 1].previous;
      if o in before then Ok(before - {o}) else Err
  }

  /** Output numbers are truncated to 32 bits. */
  function Created(id: Hash, i: nat): OutPoint
  {
    OutPoint(id, i % 0x1_0000_0000)
  }

  function AddOutputs(u: Utxos, id: Hash, outs: seq<TxOut>, height: nat, isCoinbase: bool): Result<Utxos>
  {
    if outs == [] then Ok(u)
    else
      var before :- AddOutputs(u, id, outs[..|outs| - 1], height, isCoinbase);
      var o := Created(id, |outs| - 1);
      if o in before then Err else Ok(before[o := Coin(outs[|outs| - 1], height, isCoinbase)])
  }

  function ConnectTx(u: Utxos, id: Hash, tx: Transaction, height: nat, isCoinbase: bool): Result<Utxos>
  {
    if IsPoolShare(tx) then Ok(u)
    else
      var spent :- if isCoinbase then Ok(u) else SpendInputs(u, tx.inputs);
      AddOutputs(spent, id, tx.outputs, height, isCoinbase)
  }

  // ---- The loops ---------------------------------------------------------------------------

  /** connect_tx_utxos. On an error the caller discards the half-changed map. */
  method ConnectTxUtxos(u: Utxos, id: Hash, tx: Transaction, height: nat, isCoinbase: bool) returns (r: Result<Utxos>)
    ensures r == ConnectTx(u, id, tx, height, isCoinbase)
  {
    hide Created;
    if IsPoolShare(tx) {
      return Ok(u);
    }
    var utxos := u;
    if !isCoinbase {
      for i := 0 to |tx.inputs|
        invariant SpendInputs(u, tx.inputs[..i]) == Ok(utxos)
      {
        SpendStep(u, tx.inputs, i);
        if tx.inputs[i].previous !in utxos {
          return Err;
        }
        utxos := utxos - {tx.inputs[i].previous};
      }
      assert tx.inputs[..|tx.inputs|] == tx.inputs;
    }
    ghost var spent := utxos;
    for vout := 0 to |tx.outputs|
      invariant AddOutputs(spent, id, tx.outputs[..vout], height, isCoinbase) == Ok(utxos)
    {
      AddStep(spent, id, tx.outputs, height, isCoinbase, vout);
      var o := Created(id, vout);
      if o in utxos {
        return Err;
      }
      utxos := utxos[o := Coin(tx.outputs[vout], height, isCoinbase)];
    }
    assert tx.outputs[..|tx.outputs|] == tx.outputs;
    return Ok(utxos);
  }

  lemma {:induction false} SpendErr(u: Utxos, ins: seq<TxIn>, n: nat)
    requires n <= |ins| && SpendInputs(u, ins[..n]).Err?
    ensures SpendInputs(u, ins).Err?
    decreases |ins| - n
  {
    if n < |ins| {
      assert ins[..n + 1][..n] == ins[..n];
      SpendErr(u, ins, n + 1);
    } else {
      assert ins[..n] == ins;
    }
  }

  lemma SpendStep(u: Utxos, ins: seq<TxIn>, i: nat)
    requires i < |ins| && SpendInputs(u, ins[..i]).Ok?
    ensures var before := SpendInputs(u, ins[..i]).value;
            if ins[i].previous in before then SpendInputs(u, ins[..i + 1]) == Ok(before - {ins[i].previous})
            else SpendInputs(u, ins).Err?
  {
    assert ins[..i + 1][..i] == ins[..i];
    if ins[i].previous !in SpendInputs(u, ins[..i]).value {
      SpendErr(u, ins, i + 1);
    }
  }

  lemma {:induction false} AddErr(u: Utxos, id: Hash, outs: seq<TxOut>, height: nat, isCoinbase: bool, n: nat)
    requires n <= |outs| && AddOutputs(u, id, outs[..n], height, isCoinbase).Err?
    ensures AddOutputs(u, id, outs, height, isCoinbase).Err?
    decreases |outs| - n
  {
    if n < |outs| {
      assert outs[..n + 1][..n] == outs[..n];
      AddErr(u, id, outs, height, isCoinbase, n + 1);
    } else {
      assert outs[..n] == outs;
    }
  }

  lemma AddStep(u: Utxos, id: Hash, outs: seq<TxOut>, height: nat, isCoinbase: bool, i: nat)
    requires i < |outs| && AddOutputs(u, id, outs[..i], height, isCoinbase).Ok?
    ensures var before := AddOutputs(u, id, outs[..i], height, isCoinbase).value;
            if Created(id, i) in before then AddOutputs(u, id, outs, height, isCoinbase).Err?
            else AddOutputs(u, id, outs[..i + 1], height, isCoinbase) == Ok(before[Created(id, i) := Coin(outs[i], height, isCoinbase)])
  {
    hide Created;
    assert outs[..i + 1][..i] == outs[..i];
    if Created(id, i) in AddOutputs(u, id, outs[..i], height, isCoinbase).value {
      AddErr(u, id, outs, height, isCoinbase, i + 1);
    }
  }

  // ---- What a connected transaction changes ------------------------------------------------

  predicate SpendsTwice(ins: seq<TxIn>)
  {
    exists i, j :: 0 <= i < j < |ins| && ins[i].previous == ins[j].previous
  }

  /** The outpoints a list of inputs names. */
  function Named(ins: seq<TxIn>): set<OutPoint>
  {
    set i | 0 <= i < |ins| :: ins[i].previous
  }

  /** Spending works exactly on distinct outpoints that are all there, and takes just those away. */
  lemma {:induction false} SpendMeans(u: Utxos, ins: seq<TxIn>)
    ensures SpendInputs(u, ins).Ok? <==> !SpendsTwice(ins) && Named(ins) <= u.Keys
    ensures SpendInputs(u, ins).Ok? ==> SpendInputs(u, ins).value == u - Named(ins)
  {
    if ins != [] {
      var n := |ins| - 1;
      var head, o := ins[..n], ins[n].previous;
      SpendMeans(u, head);
      assert Named(ins) == Named(head) + {o};
      assert SpendsTwice(ins) <==> SpendsTwice(head) || o in Named(head) by {
        NamedTwice(ins);
      }
    }
  }

  lemma NamedTwice(ins: seq<TxIn>)
    requires ins != []
    ensures SpendsTwice(ins) <==> SpendsTwice(ins[..|ins| - 1]) || ins[|ins| - 1].previous in Named(ins[..|ins| - 1])
  {
    var n := |ins| - 1;
    var head := ins[..n];
    if SpendsTwice(ins) {
      var i, j :| 0 <= i < j < |ins| && ins[i].previous == ins[j].previous;
      if j < n {
        assert head[i].previous == head[j].previous;
      } else {
        assert head[i].previous == ins[n].previous;
      }
    }
    if SpendsTwice(head) {
      var i, j :| 0 <= i < j < |head| && head[i].previous == head[j].previous;
      assert ins[i].previous == ins[j].previous;
    }
    if ins[n].previous in Named(head) {
      var i :| 0 <= i < n && head[i].previous == ins[n].previous;
      assert ins[i].previous == ins[n].previous;
    }
  }

  /** Creating works exactly where none of the outpoints is taken, and leaves each output under its number with its height and kind. */
  lemma {:induction false} AddMeans(u: Utxos, id: Hash, outs: seq<TxOut>, height: nat, isCoinbase: bool)
    requires |outs| <= 0x1_0000_0000
    ensures AddOutputs(u, id, outs, height, isCoinbase).Ok? <==> forall k :: 0 <= k < |outs| ==> OutPoint(id, k) !in u
    ensures AddOutputs(u, id, outs, height, isCoinbase).Ok? ==>
              var v := AddOutputs(u, id, outs, height, isCoinbase).value;
              && (forall o :: o in v <==> o in u || (o.txid == id && o.vout < |outs|))
              && (forall o :: o in u ==> v[o] == u[o])
              && (forall k :: 0 <= k < |outs| ==> v[OutPoint(id, k)] == Coin(outs[k], height, isCoinbase))
  {
    if outs != [] {
      AddMeans(u, id, outs[..|outs| - 1], height, isCoinbase);
    }
  }

  /** A transaction connects exactly when it spends distinct coins that are there and creates outpoints that are not; nothing else changes. */
  lemma ConnectMeans(u: Utxos, id: Hash, tx: Transaction, height: nat, isCoinbase: bool)
    requires !IsPoolShare(tx) && |tx.outputs| <= 0x1_0000_0000
    ensures var spent := if isCoinbase then {} else Named(tx.inputs);
            && (ConnectTx(u, id, tx, height, isCoinbase).Ok? <==>
                  && (isCoinbase || (!SpendsTwice(tx.inputs) && spent <= u.Keys))
                  && forall k :: 0 <= k < |tx.outputs| ==> OutPoint(id, k) !in u.Keys - spent)
            && (ConnectTx(u, id, tx, height, isCoinbase).Ok? ==>
                  var v := ConnectTx(u, id, tx, height, isCoinbase).value;
                  && (forall o :: o in v <==> (o in u && o !in spent) || (o.txid == id && o.vout < |tx.outputs|))
                  && (forall o :: o in u && o !in spent ==> v[o] == u[o])
                  && (forall k :: 0 <= k < |tx.outputs| ==> v[OutPoint(id, k)] == Coin(tx.outputs[k], height, isCoinbase)))
  {
    hide SpendsTwice, Named, SpendInputs, AddOutputs;
    SpendMeans(u, tx.inputs);
    var left := if isCoinbase then u else u - Named(tx.inputs);
    AddMeans(left, id, tx.outputs, height, isCoinbase);
    if isCoinbase {
      assert u - {} == u;
    }
  }

  // ---- Accounting --------------------------------------------------------------------------

  /** Every coin of s is in c. */
  ghost predicate Within(s: Utxos, c: Utxos)
  {
    forall o :: o in s ==> o in c && c[o] == s[o]
  }

  /** Spending removes exactly the input value. */
  lemma {:induction false} SpendTotal(u: Utxos, ins: seq<TxIn>)
    requires SpendInputs(u, ins).Ok?
    ensures Total(SpendInputs(u, ins).value) + InValue(u, ins) == Total(u)
    ensures Within(SpendInputs(u, ins).value, u)
  {
    if ins != [] {
      SpendTotal(u, ins[..|ins| - 1]);
      SumRemove(SpendInputs(u, ins[..|ins| - 1]).value, CoinValue, ins[|ins| - 1].previous);
    }
  }

  /** Creating outputs adds exactly their value and loses no coin. */
  lemma {:induction false} AddTotal(u: Utxos, id: Hash, outs: seq<TxOut>, height: nat, isCoinbase: bool)
    requires AddOutputs(u, id, outs, height, isCoinbase).Ok?
    ensures Total(AddOutputs(u, id, outs, height, isCoinbase).value) == Total(u) + OutValue(outs)
    ensures Within(u, AddOutputs(u, id, outs, height, isCoinbase).value)
  {
    hide Created;
    if outs != [] {
      var n := |outs| - 1;
      AddTotal(u, id, outs[..n], height, isCoinbase);
      SumInsert(AddOutputs(u, id, outs[..n], height, isCoinbase).value, CoinValue, Created(id, n), Coin(outs[n], height, isCoinbase));
    }
  }

  /** Within a larger set the same inputs spend the same coins. */
  lemma {:induction false} SpendWithin(s: Utxos, c: Utxos, ins: seq<TxIn>)
    requires Within(s, c) && SpendInputs(s, ins).Ok?
    ensures SpendInputs(c, ins).Ok? && Within(SpendInputs(s, ins).value, SpendInputs(c, ins).value)
    ensures InValue(s, ins) == InValue(c, ins)
  {
    if ins != [] {
      SpendWithin(s, c, ins[..|ins| - 1]);
      SpendTotal(s, ins[..|ins| - 1]);
    }
  }

  lemma {:induction false} AddWithin(s: Utxos, c: Utxos, id: Hash, outs: seq<TxOut>, height: nat, isCoinbase: bool)
    requires Within(s, c) && AddOutputs(s, id, outs, height, isCoinbase).Ok? && AddOutputs(c, id, outs, height, isCoinbase).Ok?
    ensures Within(AddOutputs(s, id, outs, height, isCoinbase).value, AddOutputs(c, id, outs, height, isCoinbase).value)
  {
    hide Created;
    if outs != [] {
      AddWithin(s, c, id, outs[..|outs| - 1], height, isCoinbase);
    }
  }

  /** A connected transaction moves value: what it spends plus what it creates balances. */
  lemma ConnectTotal(u: Utxos, id: Hash, tx: Transaction, height: nat, isCoinbase: bool)
    requires ConnectTx(u, id, tx, height, isCoinbase).Ok? && !IsPoolShare(tx)
    ensures Total(ConnectTx(u, id, tx, height, isCoinbase).value) + (if isCoinbase then 0 else InValue(u, tx.inputs))
         == Total(u) + OutValue(tx.outputs)
    ensures isCoinbase ==> Within(u, ConnectTx(u, id, tx, height, isCoinbase).value)
  {
    if isCoinbase {
      AddTotal(u, id, tx.outputs, height, isCoinbase);
    } else {
      SpendTotal(u, tx.inputs);
      AddTotal(SpendInputs(u, tx.inputs).value, id, tx.outputs, height, isCoinbase);
    }
  }

  lemma ConnectWithin(s: Utxos, c: Utxos, id: Hash, tx: Transaction, height: nat)
    requires Within(s, c) && ConnectTx(s, id, tx, height, false).Ok? && ConnectTx(c, id, tx, height, false).Ok?
    ensures Within(ConnectTx(s, id, tx, height, false).value, ConnectTx(c, id, tx, height, false).value)
    ensures !IsPoolShare(tx) ==> InValue(s, tx.inputs) == InValue(c, tx.inputs) <= Total(s)
  {
    if !IsPoolShare(tx) {
      SpendTotal(s, tx.inputs);
      SpendWithin(s, c, tx.inputs);
      AddWithin(SpendInputs(s, tx.inputs).value, SpendInputs(c, tx.inputs).value, id, tx.outputs, height, false);
    }
  }
}
