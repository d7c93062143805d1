/**
  The on-chain pool registry (src/pools.rs): what a block does to it when it is replayed, and what a
  transaction must satisfy to be accepted. Splitting a marker into its fields is a parameter; the checks of
  names and addresses that decoding makes are modelled.
 */
module PoolRegistry {
  import opened Addresses
  import opened Arithmetic
  import opened Infusion
  import opened Merkle
  import opened Outcome
  import opened UtxoSet
  import opened Wire

  datatype PoolRecord = PoolRecord(id: Hash, name: string, manager: string, commission: nat, capacity: nat, createdAt: nat, paid: nat)
  type Registry = map<Hash, PoolRecord>

  datatype Create = Create(name: string, manager: string, commission: nat, slots: nat)
  datatype TopUp = TopUp(pool: Hash, manager: string, extra: nat)
  datatype SetCommission = SetCommission(pool: Hash, manager: string, commission: nat)
  datatype Rename = Rename(pool: Hash, manager: string, name: string)

  /** Character classes and the length in bytes, which decide what a displayed name may be. */
  datatype NameRules = NameRules(space: char -> bool, forbidden: char -> bool, bytes: string -> nat, maxChars: nat, maxBytes: nat)

  datatype Pools = Pools(
    enabled: bool, activation: nat, markerAtoms: nat,
    baseAtoms: nat, baseSlots: nat, stepAtoms: nat, stepSlots: nat, maxSlots: nat, maxPools: nat, maxCommission: nat,
    window: nat, stale: nat, maxShares: nat,
    names: NameRules, addresses: AddressRules,
    create: Script -> Option<Create>, topUp: Script -> Option<TopUp>,
    setCommission: Script -> Option<SetCommission>, rename: Script -> Option<Rename>,
    otherMarkers: Transaction -> bool, protocolScript: Script, scriptOf: string -> Script)
  {
    predicate Active(height: nat) { enabled && height >= activation }

    /** What configuration loading insists on; sizes are 32- and 64-bit words. */
    predicate Valid()
    {
      && 0 < baseSlots <= maxSlots < TWO_32 && 0 < stepSlots < TWO_32
      && 0 < baseAtoms < TWO_64 && 0 < stepAtoms < TWO_64
      && 0 < window && 0 < stale && 0 < activation
    }
  }

  // ---- Names -------------------------------------------------------------------------------

  /** normalize_pool_name. */
  function Normalize(n: NameRules, s: string): Result<string>
  {
    var t := Trim(n.space, s);
    if t == [] || n.bytes(t) > n.maxBytes || |t| > n.maxChars || exists i :: 0 <= i < |t| && n.forbidden(t[i]) then Err
    else Ok(t)
  }

  /** A name that was normalized once is normal: checking it again changes nothing and cannot fail. */
  lemma NormalizeIsIdempotent(n: NameRules, s: string)
    requires Normalize(n, s).Ok?
    ensures Normalize(n, Normalize(n, s).value) == Normalize(n, s)
  {
    TrimIsIdempotent(n.space, s);
  }

  /** A name is normal exactly when it is not empty, short enough in both measures and has no forbidden character; the blanks around it go. */
  lemma NormalizeMeans(n: NameRules, s: string, t: string)
    ensures Normalize(n, s) == Ok(t) <==>
              && t != [] && !n.space(t[0]) && !n.space(t[|t| - 1])
              && n.bytes(t) <= n.maxBytes && |t| <= n.maxChars && (forall i :: 0 <= i < |t| ==> !n.forbidden(t[i]))
              && exists a, b :: s == a + t + b && Blank(n.space, a) && Blank(n.space, b)
  {
    var a, b := TrimSplits(n.space, s);
    forall a', b' | s == a' + t + b' && Blank(n.space, a') && Blank(n.space, b') && Trimmed(n.space, t)
      ensures Trim(n.space, s) == t
    {
      TrimMeans(n.space, a', t, b');
    }
  }

  // ---- Markers of a transaction ------------------------------------------------------------

  function Markers<M>(outs: seq<TxOut>, parse: Script -> Option<M>): seq<Placed<M>>
  {
    if outs == [] then []
    else
      var before, last := Markers(outs[..|outs| - 1], parse), outs[|outs| - 1];
      match parse(last.script) case Some(m) => before + [Placed(m, last.value)] case None => before
  }

  /** Every output that parses yields its marker with its value, in output order, and no other output yields any. */
  lemma {:induction false} MarkersConcat<M>(a: seq<TxOut>, b: seq<TxOut>, parse: Script -> Option<M>)
    ensures Markers(a + b, parse) == Markers(a, parse) + Markers(b, parse)
    ensures |a| == 1 ==> Markers(a, parse) == if parse(a[0].script).Some? then [Placed(parse(a[0].script).value, a[0].value)] else []
    ensures a == [] ==> Markers(a, parse) == []
  {
    if |a| == 1 {
      assert a[..0] == [];
    }
    if b == [] {
      assert a + b == a;
    } else {
      assert (a + b)[..|a + b| - 1] == a + b[..|b| - 1];
      MarkersConcat(a, b[..|b| - 1], parse);
    }
  }

  /** A marker counts only with a manager's address and a normal name, which replaces the one it carried. */
  function ParseCreate(s: Pools, script: Script): Option<Create>
  {
    match s.create(script)
    case None => None
    case Some(c) =>
      if !IsAddress(s.addresses, c.manager) then None
      else match Normalize(s.names, c.name) case Ok(name) => Some(c.(name := name)) case Err => None
  }

  function ParseTopUp(s: Pools, script: Script): Option<TopUp>
  {
    match s.topUp(script)
    case None => None
    case Some(t) => if IsAddress(s.addresses, t.manager) then Some(t) else None
  }

  function ParseCommission(s: Pools, script: Script): Option<SetCommission>
  {
    match s.setCommission(script)
    case None => None
    case Some(c) => if IsAddress(s.addresses, c.manager) then Some(c) else None
  }

  function ParseRename(s: Pools, script: Script): Option<Rename>
  {
    match s.rename(script)
    case None => None
    case Some(r) =>
      if !IsAddress(s.addresses, r.manager) then None
      else match Normalize(s.names, r.name) case Ok(name) => Some(r.(name := name)) case Err => None
  }

  function Creates(s: Pools, tx: Transaction): seq<Placed<Create>> { Markers(tx.outputs, script => ParseCreate(s, script)) }
  function TopUps(s: Pools, tx: Transaction): seq<Placed<TopUp>> { Markers(tx.outputs, script => ParseTopUp(s, script)) }
  function Commissions(s: Pools, tx: Transaction): seq<Placed<SetCommission>> { Markers(tx.outputs, script => ParseCommission(s, script)) }
  function Renames(s: Pools, tx: Transaction): seq<Placed<Rename>> { Markers(tx.outputs, script => ParseRename(s, script)) }

  /** pool_action_count. */
  function ActionCount(s: Pools, tx: Transaction): nat
  {
    |Creates(s, tx)| + |TopUps(s, tx)| + |Commissions(s, tx)| + |Renames(s, tx)|
  }

  // ---- Prices ------------------------------------------------------------------------------

  predicate CapacityOk(s: Pools, slots: nat)
    requires s.Valid()
  {
    s.baseSlots <= slots <= s.maxSlots && (slots - s.baseSlots) % s.stepSlots == 0
  }

  predicate ExtraOk(s: Pools, extra: nat)
    requires s.Valid()
  {
    extra > 0 && extra % s.stepSlots == 0
  }

  /** pool_create_price_atoms. */
  function CreatePrice(s: Pools, slots: nat): Result<nat>
    requires s.Valid()
  {
    if !CapacityOk(s, slots) then Err
    else
      var extra := Times(Quotient(slots - s.baseSlots, s.stepSlots), s.stepAtoms);
      if extra >= TWO_64 || s.baseAtoms + extra >= TWO_64 then Err else Ok(s.baseAtoms + extra)
  }

  /** pool_topup_price_atoms. */
  function TopUpPrice(s: Pools, extra: nat): Result<nat>
    requires s.Valid()
  {
    if !ExtraOk(s, extra) then Err
    else
      var price := Times(Quotient(extra, s.stepSlots), s.stepAtoms);
      if price >= TWO_64 then Err else Ok(price)
  }

  lemma GridAdds(c: nat, e: nat, d: nat)
    requires d > 0 && c % d == 0 && e % d == 0
    ensures (c + e) % d == 0 && Quotient(c + e, d) == Quotient(c, d) + Quotient(e, d)
  {
    DivMod(c, d);
    DivMod(e, d);
    assert c + e == (c / d + e / d) * d;
    DivideUnique(c + e, d, c / d + e / d, 0);
  }

  /** Topping up costs exactly the difference of the creation prices. */
  lemma PricesAdd(s: Pools, capacity: nat, extra: nat)
    requires s.Valid() && CapacityOk(s, capacity) && ExtraOk(s, extra) && capacity + extra <= s.maxSlots
    requires CreatePrice(s, capacity).Ok? && TopUpPrice(s, extra).Ok?
    requires CreatePrice(s, capacity).value + TopUpPrice(s, extra).value < TWO_64
    ensures CapacityOk(s, capacity + extra)
    ensures CreatePrice(s, capacity + extra) == Ok(CreatePrice(s, capacity).value + TopUpPrice(s, extra).value)
  {
    hide Quotient, Times;
    GridAdds(capacity - s.baseSlots, extra, s.stepSlots);
    var (p, q) := (Quotient(capacity - s.baseSlots, s.stepSlots), Quotient(extra, s.stepSlots));
    assert capacity + extra - s.baseSlots == capacity - s.baseSlots + extra;
    TimesAdds(p, q, s.stepAtoms);
  }

  lemma TimesAdds(p: nat, q: nat, m: nat)
    ensures Times(p + q, m) == Times(p, m) + Times(q, m)
  {
  }

  // ---- Replay ------------------------------------------------------------------------------

  datatype Action =
    | Opened(create: Create, atoms: nat)
    | ToppedUp(topUp: TopUp, atoms: nat)
    | CommissionSet(commission: SetCommission, atoms: nat)
    | Renamed(rename: Rename, atoms: nat)

  function Actions(s: Pools, tx: Transaction): (r: seq<Action>)
    ensures |r| == ActionCount(s, tx)
  {
    var (c, t, m, n) := (Creates(s, tx), TopUps(s, tx), Commissions(s, tx), Renames(s, tx));
    seq(|c|, i requires 0 <= i < |c| => Opened(c[i].marker, c[i].atoms))
    + seq(|t|, i requires 0 <= i < |t| => ToppedUp(t[i].marker, t[i].atoms))
    + seq(|m|, i requires 0 <= i < |m| => CommissionSet(m[i].marker, m[i].atoms))
    + seq(|n|, i requires 0 <= i < |n| => Renamed(n[i].marker, n[i].atoms))
  }

  /** The action an output announces: its fields as read, a manager that is an address, a normal name. */
  predicate Announces(s: Pools, out: TxOut, a: Action)
  {
    match a
    case Opened(c, atoms) =>
      && atoms == out.value && s.create(out.script).Some? && IsAddress(s.addresses, c.manager)
      && var raw := s.create(out.script).value;
         c == Create(c.name, raw.manager, raw.commission, raw.slots) && Normalize(s.names, raw.name) == Ok(c.name)
    case ToppedUp(t, atoms) => atoms == out.value && s.topUp(out.script) == Some(t) && IsAddress(s.addresses, t.manager)
    case CommissionSet(m, atoms) => atoms == out.value && s.setCommission(out.script) == Some(m) && IsAddress(s.addresses, m.manager)
    case Renamed(n, atoms) =>
      && atoms == out.value && s.rename(out.script).Some? && IsAddress(s.addresses, n.manager)
      && var raw := s.rename(out.script).value;
         n == Rename(raw.pool, raw.manager, n.name) && Normalize(s.names, raw.name) == Ok(n.name)
  }

  lemma {:induction false} MarkersMean<M>(outs: seq<TxOut>, parse: Script -> Option<M>, p: Placed<M>)
    ensures p in Markers(outs, parse) <==> exists k :: 0 <= k < |outs| && parse(outs[k].script) == Some(p.marker) && outs[k].value == p.atoms
  {
    if outs != [] {
      var n := |outs| - 1;
      MarkersMean(outs[..n], parse, p);
      if k :| 0 <= k < |outs| && parse(outs[k].script) == Some(p.marker) && outs[k].value == p.atoms && k < n {
        assert outs[..n][k] == outs[k];
      }
    }
  }

  /** The actions of a transaction are exactly those its outputs announce. */
  lemma ActionsAreAnnounced(s: Pools, tx: Transaction, a: Action)
    ensures a in Actions(s, tx) <==> exists k :: 0 <= k < |tx.outputs| && Announces(s, tx.outputs[k], a)
  {
    hide Normalize, IsAddress, Markers;
    var (c, t, m, n) := (Creates(s, tx), TopUps(s, tx), Commissions(s, tx), Renames(s, tx));
    match a
    case Opened(create, atoms) =>
      MarkersMean(tx.outputs, script => ParseCreate(s, script), Placed(create, atoms));
      ActionsOf(s, tx, a);
    case ToppedUp(topUp, atoms) =>
      MarkersMean(tx.outputs, script => ParseTopUp(s, script), Placed(topUp, atoms));
      ActionsOf(s, tx, a);
    case CommissionSet(lower, atoms) =>
      MarkersMean(tx.outputs, script => ParseCommission(s, script), Placed(lower, atoms));
      ActionsOf(s, tx, a);
    case Renamed(rename, atoms) =>
      MarkersMean(tx.outputs, script => ParseRename(s, script), Placed(rename, atoms));
      ActionsOf(s, tx, a);
  }

  lemma ActionsOf(s: Pools, tx: Transaction, a: Action)
    ensures a in Actions(s, tx) <==>
              match a
              case Opened(c, atoms) => Placed(c, atoms) in Creates(s, tx)
              case ToppedUp(t, atoms) => Placed(t, atoms) in TopUps(s, tx)
              case CommissionSet(m, atoms) => Placed(m, atoms) in Commissions(s, tx)
              case Renamed(n, atoms) => Placed(n, atoms) in Renames(s, tx)
  {
    hide Creates, TopUps, Commissions, Renames;
    var (c, t, m, n) := (Creates(s, tx), TopUps(s, tx), Commissions(s, tx), Renames(s, tx));
    var (p, q, r) := (|c|, |c| + |t|, |c| + |t| + |m|);
    var all := Actions(s, tx);
    if a in all {
      var k :| 0 <= k < |all| && all[k] == a;
      assert if k < p then a == Opened(c[k].marker, c[k].atoms)
             else if k < q then a == ToppedUp(t[k - p].marker, t[k - p].atoms)
             else if k < r then a == CommissionSet(m[k - q].marker, m[k - q].atoms)
             else a == Renamed(n[k - r].marker, n[k - r].atoms);
    }
    match a
    case Opened(x, atoms) => if i :| 0 <= i < |c| && c[i] == Placed(x, atoms) { assert all[i] == a; }
    case ToppedUp(x, atoms) => if i :| 0 <= i < |t| && t[i] == Placed(x, atoms) { assert all[p + i] == a; }
    case CommissionSet(x, atoms) => if i :| 0 <= i < |m| && m[i] == Placed(x, atoms) { assert all[q + i] == a; }
    case Renamed(x, atoms) => if i :| 0 <= i < |n| && n[i] == Placed(x, atoms) { assert all[r + i] == a; }
  }

  /** A new record; its id is the creating transaction's. */
  function Fresh(id: Hash, c: Create, height: nat, price: nat): PoolRecord
  {
    PoolRecord(id, c.name, c.manager, c.commission, c.slots, height, price)
  }

  /** One marker of apply_pool_registry_block: unknown pools and refused changes are skipped. */
  function ReplayAction(s: Pools, reg: Registry, id: Hash, height: nat, a: Action): Result<Registry>
    requires s.Valid()
  {
    match a
    case Opened(c, _) =>
      var price :- CreatePrice(s, c.slots);
      Ok(reg[id := Fresh(id, c, height, price)])
    case ToppedUp(t, _) =>
      if t.pool !in reg then Ok(reg)
      else
        var price :- TopUpPrice(s, t.extra);
        var pool := reg[t.pool];
        Ok(reg[t.pool := pool.(capacity := Min(Min(pool.capacity + t.extra, TWO_32 - 1), s.maxSlots),
                               paid := Min(pool.paid + price, TWO_64 - 1))])
    case CommissionSet(m, _) =>
      if m.pool in reg && m.commission <= reg[m.pool].commission
      then Ok(reg[m.pool := reg[m.pool].(commission := m.commission)]) else Ok(reg)
    case Renamed(n, _) =>
      if n.pool in reg && n.manager == reg[n.pool].manager
      then Ok(reg[n.pool := reg[n.pool].(name := n.name)]) else Ok(reg)
  }

  /** What the replay of any marker, validated or not, does to each field of a pool: only a rename asks for the manager. */
  lemma ReplayMeans(s: Pools, reg: Registry, id: Hash, height: nat, a: Action, pool: Hash)
    requires s.Valid()
    ensures ReplayAction(s, reg, id, height, a).Ok? <==>
              (a.Opened? ==> CreatePrice(s, a.create.slots).Ok?) && (a.ToppedUp? && a.topUp.pool in reg ==> TopUpPrice(s, a.topUp.extra).Ok?)
    ensures ReplayAction(s, reg, id, height, a).Ok? ==>
              var after := ReplayAction(s, reg, id, height, a).value;
              && after.Keys == reg.Keys + (if a.Opened? then {id} else {})
              && (a.Opened? ==> after[id] == PoolRecord(id, a.create.name, a.create.manager, a.create.commission, a.create.slots, height, CreatePrice(s, a.create.slots).value))
              && (pool in reg && (a.Opened? ==> pool != id) ==>
                    var (was, now) := (reg[pool], after[pool]);
                    && now.id == was.id && now.manager == was.manager && now.createdAt == was.createdAt
                    && now.name == (if a.Renamed? && a.rename.pool == pool && a.rename.manager == was.manager then a.rename.name else was.name)
                    && now.commission == (if a.CommissionSet? && a.commission.pool == pool then Min(was.commission, a.commission.commission) else was.commission)
                    && (if a.ToppedUp? && a.topUp.pool == pool
                        then now.capacity == Min(was.capacity + a.topUp.extra, s.maxSlots) && now.paid == Min(was.paid + TopUpPrice(s, a.topUp.extra).value, TWO_64 - 1)
                        else now.capacity == was.capacity && now.paid == was.paid))
  {
    hide CreatePrice, TopUpPrice;
  }

  function ReplayActions(s: Pools, reg: Registry, id: Hash, height: nat, actions: seq<Action>): Result<Registry>
    requires s.Valid()
  {
    if actions == [] then Ok(reg)
    else
      var before :- ReplayActions(s, reg, id, height, actions[..|actions| - 1]);
      ReplayAction(s, before, id, height, actions[|actions| - 1])
  }

  function ReplayTxs(s: Pools, id: Transaction -> Hash, reg: Registry, txs: seq<Transaction>, height: nat): Result<Registry>
    requires s.Valid()
  {
    if txs == [] then Ok(reg)
    else
      var before :- ReplayTxs(s, id, reg, txs[..|txs| - 1], height);
      var tx := txs[|txs| - 1];
      ReplayActions(s, before, id(tx), height, Actions(s, tx))
  }

  /** apply_pool_registry_block. */
  function ReplayBlock(s: Pools, id: Transaction -> Hash, reg: Registry, b: Block, height: nat): Result<Registry>
    requires s.Valid()
  {
    if !s.Active(height) then Ok(reg) else ReplayTxs(s, id, reg, AfterCoinbase(b), height)
  }

  /** pools_registry_from_blocks. */
  function FromBlocks(s: Pools, id: Transaction -> Hash, blocks: seq<Block>): Result<Registry>
    requires s.Valid()
  {
    if |blocks| <= 1 || !s.enabled then Ok(map[])
    else
      var before :- FromBlocks(s, id, blocks[..|blocks| - 1]);
      ReplayBlock(s, id, before, blocks[|blocks| - 1], |blocks| - 1)
  }

  // ---- Validation --------------------------------------------------------------------------

  predicate Authorised(s: Pools, tx: Transaction, u: Utxos, manager: string)
  {
    exists i :: 0 <= i < |tx.inputs| && tx.inputs[i].previous in u && u[tx.inputs[i].previous].out.script == s.scriptOf(manager)
  }

  /** Half of the price, rounded down, goes to the protocol; the miner's fee covers the other half. */
  predicate PaidFor(s: Pools, tx: Transaction, fee: nat, price: nat)
  {
    PaidTo(s.protocolScript, tx.outputs) >= price / 2 && fee >= price - price / 2
  }

  /** The checks common to changes of an existing pool. */
  predicate Manages(s: Pools, reg: Registry, tx: Transaction, u: Utxos, pool: Hash, manager: string)
  {
    pool in reg && manager == reg[pool].manager && Authorised(s, tx, u, manager)
  }

  function ValidateCreate(s: Pools, tx: Transaction, id: Hash, fee: nat, height: nat, reg: Registry, c: Create): Result<Registry>
    requires s.Valid()
  {
    if |reg| >= s.maxPools || c.commission > s.maxCommission || !CapacityOk(s, c.slots) then Err
    else
      var price :- CreatePrice(s, c.slots);
      if !PaidFor(s, tx, fee, price) then Err else Ok(reg[id := Fresh(id, c, height, price)])
  }

  function ValidateTopUp(s: Pools, tx: Transaction, fee: nat, reg: Registry, u: Utxos, t: TopUp): Result<Registry>
    requires s.Valid()
  {
    if !Manages(s, reg, tx, u, t.pool, t.manager) || !ExtraOk(s, t.extra) then Err
    else
      var pool := reg[t.pool];
      if pool.capacity + t.extra >= TWO_32 || pool.capacity + t.extra > s.maxSlots then Err
      else
        var price :- TopUpPrice(s, t.extra);
        if !PaidFor(s, tx, fee, price) || pool.paid + price >= TWO_64 then Err
        else Ok(reg[t.pool := pool.(capacity := pool.capacity + t.extra, paid := pool.paid + price)])
  }

  function ValidateCommission(s: Pools, tx: Transaction, reg: Registry, u: Utxos, m: SetCommission): Result<Registry>
  {
    if !Manages(s, reg, tx, u, m.pool, m.manager) || m.commission > reg[m.pool].commission || m.commission > s.maxCommission then Err
    else Ok(reg[m.pool := reg[m.pool].(commission := m.commission)])
  }

  function ValidateRename(s: Pools, tx: Transaction, reg: Registry, u: Utxos, n: Rename): Result<Registry>
  {
    if !Manages(s, reg, tx, u, n.pool, n.manager) then Err
    else
      var name :- Normalize(s.names, n.name);
      Ok(reg[n.pool := reg[n.pool].(name := name)])
  }

  /** validate_pool_action_tx. */
  function ValidateAction(s: Pools, tx: Transaction, id: Hash, fee: nat, height: nat, reg: Registry, u: Utxos): Result<Registry>
    requires s.Valid()
  {
    var actions := Actions(s, tx);
    if actions == [] then Ok(reg)
    else if !s.Active(height) || IsCoinbase(tx) || |actions| != 1 || s.otherMarkers(tx) || actions[0].atoms != s.markerAtoms then Err
    else match actions[0]
      case Opened(c, _) => ValidateCreate(s, tx, id, fee, height, reg, c)
      case ToppedUp(t, _) => ValidateTopUp(s, tx, fee, reg, u, t)
      case CommissionSet(m, _) => ValidateCommission(s, tx, reg, u, m)
      case Renamed(n, _) => ValidateRename(s, tx, reg, u, n)
  }

  // ---- Invariants --------------------------------------------------------------------------

  /** Capacity on the grid between base and maximum, and paid for at its creation price. */
  predicate PoolOk(s: Pools, p: PoolRecord)
    requires s.Valid()
  {
    CreatePrice(s, p.capacity) == Ok(p.paid) && p.commission <= s.maxCommission
  }

  ghost predicate RegistryOk(s: Pools, reg: Registry)
    requires s.Valid()
  {
    forall id :: id in reg ==> reg[id].id == id && PoolOk(s, reg[id])
  }

  /** What may happen to a pool: capacity grows, commission falls, the rest but the name stays. */
  predicate PoolEvolves(p: PoolRecord, q: PoolRecord)
  {
    p.capacity <= q.capacity && q.commission <= p.commission && p.manager == q.manager && p.createdAt == q.createdAt && p.paid <= q.paid
  }

  ghost predicate Evolves(before: Registry, after: Registry)
  {
    forall id :: id in before ==> id in after && PoolEvolves(before[id], after[id])
  }

  lemma EvolvesTransitive(a: Registry, b: Registry, c: Registry)
    requires Evolves(a, b) && Evolves(b, c)
    ensures Evolves(a, c)
  {
  }

  /** A name in a parsed marker is normal. */
  lemma {:induction false} MarkersParsed<M>(outs: seq<TxOut>, parse: Script -> Option<M>, i: nat)
    requires i < |Markers(outs, parse)|
    ensures exists k :: 0 <= k < |outs| && parse(outs[k].script) == Some(Markers(outs, parse)[i].marker)
  {
    var n := |outs| - 1;
    if i < |Markers(outs[..n], parse)| {
      MarkersParsed(outs[..n], parse, i);
      var k :| 0 <= k < n && parse(outs[..n][k].script) == Some(Markers(outs[..n], parse)[i].marker);
      assert outs[..n][k] == outs[k];
    } else {
      assert parse(outs[n].script) == Some(Markers(outs, parse)[i].marker);
    }
  }

  lemma RenameIsNormal(s: Pools, tx: Transaction, i: nat)
    requires i < |Renames(s, tx)|
    ensures Normalize(s.names, Renames(s, tx)[i].marker.name) == Ok(Renames(s, tx)[i].marker.name)
  {
    var parse := script => ParseRename(s, script);
    MarkersParsed(tx.outputs, parse, i);
    var k :| 0 <= k < |tx.outputs| && parse(tx.outputs[k].script) == Some(Renames(s, tx)[i].marker);
    NormalizeIsIdempotent(s.names, s.rename(tx.outputs[k].script).value.name);
  }

  lemma OneReplayed(s: Pools, reg: Registry, id: Hash, height: nat, actions: seq<Action>)
    requires s.Valid() && |actions| == 1
    ensures ReplayActions(s, reg, id, height, actions) == ReplayAction(s, reg, id, height, actions[0])
  {
    assert actions[..0] == [];
  }

  lemma SoleRename(s: Pools, tx: Transaction)
    requires |Actions(s, tx)| == 1 && Actions(s, tx)[0].Renamed?
    ensures Normalize(s.names, Actions(s, tx)[0].rename.name) == Ok(Actions(s, tx)[0].rename.name)
  {
    assert |Renames(s, tx)| == 1 && Actions(s, tx)[0].rename == Renames(s, tx)[0].marker;
    RenameIsNormal(s, tx, 0);
  }

  /** An accepted transaction does to the validator's registry exactly what its replay does. */
  lemma ValidatedIsReplayed(s: Pools, tx: Transaction, id: Hash, fee: nat, height: nat, reg: Registry, u: Utxos)
    requires s.Valid() && ValidateAction(s, tx, id, fee, height, reg, u).Ok?
    ensures ReplayActions(s, reg, id, height, Actions(s, tx)) == ValidateAction(s, tx, id, fee, height, reg, u)
  {
    hide Actions, CreatePrice, TopUpPrice, CapacityOk, ExtraOk, Normalize, PaidFor, Authorised;
    var actions := Actions(s, tx);
    if actions != [] {
      OneReplayed(s, reg, id, height, actions);
      if actions[0].Renamed? {
        SoleRename(s, tx);
      }
    }
  }

  /** It keeps every record well-formed. */
  lemma ValidatedKeepsOk(s: Pools, tx: Transaction, id: Hash, fee: nat, height: nat, reg: Registry, u: Utxos)
    requires s.Valid() && RegistryOk(s, reg) && ValidateAction(s, tx, id, fee, height, reg, u).Ok?
    ensures RegistryOk(s, ValidateAction(s, tx, id, fee, height, reg, u).value)
  {
    hide Actions, CreatePrice, TopUpPrice, CapacityOk, ExtraOk, Normalize, PaidFor, Authorised;
    var actions := Actions(s, tx);
    if actions != [] && actions[0].ToppedUp? {
      var t := actions[0].topUp;
      PricedIsOnGrid(s, reg[t.pool].capacity);
      PricesAdd(s, reg[t.pool].capacity, t.extra);
    }
  }

  lemma PricedIsOnGrid(s: Pools, slots: nat)
    requires s.Valid()
    ensures CreatePrice(s, slots).Ok? ==> CapacityOk(s, slots)
  {
  }

  /** And, unless it creates a pool under an id already taken, it only lets pools evolve. */
  lemma ValidatedEvolves(s: Pools, tx: Transaction, id: Hash, fee: nat, height: nat, reg: Registry, u: Utxos)
    requires s.Valid() && ValidateAction(s, tx, id, fee, height, reg, u).Ok?
    requires Creates(s, tx) != [] ==> id !in reg
    ensures Evolves(reg, ValidateAction(s, tx, id, fee, height, reg, u).value)
  {
    hide Actions, CreatePrice, TopUpPrice, CapacityOk, ExtraOk, Normalize, PaidFor, Authorised;
    var actions := Actions(s, tx);
    if actions != [] && actions[0].Opened? {
      CreatedFirst(s, tx);
    }
  }

  /** An existing pool changes only by one action that its manager owns an input for. */
  lemma OnlyManagersChange(s: Pools, tx: Transaction, id: Hash, fee: nat, height: nat, reg: Registry, u: Utxos, pool: Hash)
    requires s.Valid() && ValidateAction(s, tx, id, fee, height, reg, u).Ok? && pool in reg && pool != id
    ensures pool in ValidateAction(s, tx, id, fee, height, reg, u).value
    ensures ValidateAction(s, tx, id, fee, height, reg, u).value[pool] != reg[pool] ==>
              && ActionCount(s, tx) == 1
              && exists i :: 0 <= i < |tx.inputs| && tx.inputs[i].previous in u && u[tx.inputs[i].previous].out.script == s.scriptOf(reg[pool].manager)
  {
    hide Actions, CreatePrice, TopUpPrice, CapacityOk, ExtraOk, Normalize, PaidFor;
  }

  lemma Halves(price: nat, protocol: nat, fee: nat)
    requires protocol >= price / 2 && fee >= price - price / 2
    ensures price <= protocol + fee
  {
  }

  /** Capacity is never free: whatever a transaction adds to a total paid went to the protocol and the miner. */
  lemma CapacityIsPaidFor(s: Pools, tx: Transaction, id: Hash, fee: nat, height: nat, reg: Registry, u: Utxos, pool: Hash)
    requires s.Valid() && ValidateAction(s, tx, id, fee, height, reg, u).Ok? && pool in ValidateAction(s, tx, id, fee, height, reg, u).value
    ensures ValidateAction(s, tx, id, fee, height, reg, u).value[pool].paid
         <= (if pool in reg then reg[pool].paid else 0) + PaidTo(s.protocolScript, tx.outputs) + fee
  {
    hide Actions, CreatePrice, TopUpPrice, CapacityOk, ExtraOk, Normalize, Authorised;
    var actions := Actions(s, tx);
    if actions != [] && actions[0].Opened? {
      Halves(CreatePrice(s, actions[0].create.slots).value, PaidTo(s.protocolScript, tx.outputs), fee);
    } else if actions != [] && actions[0].ToppedUp? {
      Halves(TopUpPrice(s, actions[0].topUp.extra).value, PaidTo(s.protocolScript, tx.outputs), fee);
    }
  }

  lemma CreatedFirst(s: Pools, tx: Transaction)
    requires Actions(s, tx) != [] && Actions(s, tx)[0].Opened?
    ensures Creates(s, tx) != []
  {
  }

  // ---- What is accepted --------------------------------------------------------------------

  /** A capacity has a price exactly on the grid between base and maximum: the base price and one step price for every step above. */
  lemma CreatePriceMeans(s: Pools, steps: nat, off: nat)
    requires s.Valid() && off < s.stepSlots
    ensures var (slots, price) := (s.baseSlots + Times(steps, s.stepSlots) + off, s.baseAtoms + Times(steps, s.stepAtoms));
            && (CreatePrice(s, slots).Ok? <==> off == 0 && slots <= s.maxSlots && price < TWO_64)
            && (CreatePrice(s, slots).Ok? ==> CreatePrice(s, slots).value == price)
  {
    DivideUnique(Times(steps, s.stepSlots) + off, s.stepSlots, steps, off);
  }

  lemma TopUpPriceMeans(s: Pools, steps: nat, off: nat)
    requires s.Valid() && off < s.stepSlots
    ensures var (extra, price) := (Times(steps, s.stepSlots) + off, Times(steps, s.stepAtoms));
            && (TopUpPrice(s, extra).Ok? <==> off == 0 && steps > 0 && price < TWO_64)
            && (TopUpPrice(s, extra).Ok? ==> TopUpPrice(s, extra).value == price)
  {
    DivideUnique(Times(steps, s.stepSlots) + off, s.stepSlots, steps, off);
    if steps > 0 {
      ScaleMonotone(1, steps, s.stepSlots);
    }
  }

  /** Protocol and miner get half the price each, the miner the odd atom. */
  predicate BothPaid(s: Pools, tx: Transaction, fee: nat, price: nat)
  {
    PaidTo(s.protocolScript, tx.outputs) >= price / 2 && fee >= (price + 1) / 2
  }

  predicate OwnsInput(s: Pools, tx: Transaction, u: Utxos, manager: string)
  {
    exists i :: 0 <= i < |tx.inputs| && tx.inputs[i].previous in u && u[tx.inputs[i].previous].out.script == s.scriptOf(manager)
  }

  /** The conditions on the one action of a transaction. */
  predicate ActionFits(s: Pools, tx: Transaction, fee: nat, reg: Registry, u: Utxos, a: Action)
    requires s.Valid()
  {
    match a
    case Opened(c, _) =>
      |reg| < s.maxPools && c.commission <= s.maxCommission && CreatePrice(s, c.slots).Ok? && BothPaid(s, tx, fee, CreatePrice(s, c.slots).value)
    case ToppedUp(t, _) =>
      && t.pool in reg && t.manager == reg[t.pool].manager && OwnsInput(s, tx, u, t.manager)
      && reg[t.pool].capacity + t.extra <= s.maxSlots && TopUpPrice(s, t.extra).Ok?
      && BothPaid(s, tx, fee, TopUpPrice(s, t.extra).value) && reg[t.pool].paid + TopUpPrice(s, t.extra).value < TWO_64
    case CommissionSet(m, _) =>
      && m.pool in reg && m.manager == reg[m.pool].manager && OwnsInput(s, tx, u, m.manager)
      && m.commission <= reg[m.pool].commission && m.commission <= s.maxCommission
    case Renamed(n, _) => n.pool in reg && n.manager == reg[n.pool].manager && OwnsInput(s, tx, u, n.manager)
  }

  /** And the record it leaves. */
  function Resulting(s: Pools, id: Hash, height: nat, reg: Registry, a: Action): Registry
    requires s.Valid()
  {
    match a
    case Opened(c, _) =>
      if CreatePrice(s, c.slots).Err? then reg
      else reg[id := PoolRecord(id, c.name, c.manager, c.commission, c.slots, height, CreatePrice(s, c.slots).value)]
    case ToppedUp(t, _) =>
      if t.pool !in reg || TopUpPrice(s, t.extra).Err? then reg
      else
        var p := reg[t.pool];
        reg[t.pool := PoolRecord(p.id, p.name, p.manager, p.commission, p.capacity + t.extra, p.createdAt, p.paid + TopUpPrice(s, t.extra).value)]
    case CommissionSet(m, _) =>
      if m.pool !in reg then reg
      else
        var p := reg[m.pool];
        reg[m.pool := PoolRecord(p.id, p.name, p.manager, m.commission, p.capacity, p.createdAt, p.paid)]
    case Renamed(n, _) =>
      if n.pool !in reg then reg
      else
        var p := reg[n.pool];
        reg[n.pool := PoolRecord(p.id, n.name, p.manager, p.commission, p.capacity, p.createdAt, p.paid)]
  }

  lemma CreateMeans(s: Pools, tx: Transaction, id: Hash, fee: nat, height: nat, reg: Registry, u: Utxos, a: Action)
    requires s.Valid() && a.Opened?
    ensures ValidateCreate(s, tx, id, fee, height, reg, a.create) == if ActionFits(s, tx, fee, reg, u, a) then Ok(Resulting(s, id, height, reg, a)) else Err
  {
    hide CreatePrice, PaidTo, CapacityOk;
    PricedIsOnGrid(s, a.create.slots);
  }

  lemma TopUpMeans(s: Pools, tx: Transaction, id: Hash, fee: nat, height: nat, reg: Registry, u: Utxos, a: Action)
    requires s.Valid() && a.ToppedUp?
    ensures ValidateTopUp(s, tx, fee, reg, u, a.topUp) == if ActionFits(s, tx, fee, reg, u, a) then Ok(Resulting(s, id, height, reg, a)) else Err
  {
    hide TopUpPrice, PaidTo, ExtraOk;
    PricedIsWhole(s, a.topUp.extra);
  }

  lemma ChangeMeans(s: Pools, tx: Transaction, id: Hash, fee: nat, height: nat, reg: Registry, u: Utxos, a: Action)
    requires s.Valid()
    ensures a.CommissionSet? ==>
              ValidateCommission(s, tx, reg, u, a.commission) == if ActionFits(s, tx, fee, reg, u, a) then Ok(Resulting(s, id, height, reg, a)) else Err
    ensures a.Renamed? && Normalize(s.names, a.rename.name) == Ok(a.rename.name) ==>
              ValidateRename(s, tx, reg, u, a.rename) == if ActionFits(s, tx, fee, reg, u, a) then Ok(Resulting(s, id, height, reg, a)) else Err
  {
    hide Normalize, CreatePrice, TopUpPrice, PaidTo;
  }

  /** A transaction is accepted exactly without pool actions, or with a single one that is active, priced right and fits; it changes one record. */
  lemma ActionMeans(s: Pools, tx: Transaction, id: Hash, fee: nat, height: nat, reg: Registry, u: Utxos)
    requires s.Valid()
    ensures var actions := Actions(s, tx);
            && (ValidateAction(s, tx, id, fee, height, reg, u).Ok? <==>
                  || actions == []
                  || (&& s.enabled && height >= s.activation && !IsCoinbase(tx) && |actions| == 1 && !s.otherMarkers(tx)
                      && actions[0].atoms == s.markerAtoms && ActionFits(s, tx, fee, reg, u, actions[0])))
            && (ValidateAction(s, tx, id, fee, height, reg, u).Ok? ==>
                  ValidateAction(s, tx, id, fee, height, reg, u).value == if actions == [] then reg else Resulting(s, id, height, reg, actions[0]))
  {
    hide Actions, CreatePrice, TopUpPrice, Normalize, PaidTo, ActionFits, Resulting, ValidateCreate, ValidateTopUp, ValidateCommission, ValidateRename;
    var actions := Actions(s, tx);
    if |actions| == 1 {
      match actions[0]
      case Opened(_, _) => CreateMeans(s, tx, id, fee, height, reg, u, actions[0]);
      case ToppedUp(_, _) => TopUpMeans(s, tx, id, fee, height, reg, u, actions[0]);
      case CommissionSet(_, _) => ChangeMeans(s, tx, id, fee, height, reg, u, actions[0]);
      case Renamed(_, _) =>
        SoleRename(s, tx);
        ChangeMeans(s, tx, id, fee, height, reg, u, actions[0]);
    }
  }

  lemma PricedIsWhole(s: Pools, extra: nat)
    requires s.Valid()
    ensures TopUpPrice(s, extra).Ok? ==> ExtraOk(s, extra)
  {
  }

  // ---- Managers are addresses --------------------------------------------------------------

  predicate ManagersAreAddresses(s: Pools, reg: Registry)
  {
    forall id :: id in reg ==> IsAddress(s.addresses, reg[id].manager)
  }

  predicate OpensForAddress(s: Pools, a: Action)
  {
    a.Opened? ==> IsAddress(s.addresses, a.create.manager)
  }

  lemma ActionsOpenForAddresses(s: Pools, tx: Transaction)
    ensures forall i :: 0 <= i < |Actions(s, tx)| ==> OpensForAddress(s, Actions(s, tx)[i])
  {
    hide IsAddress, Normalize, Markers;
    var parse := script => ParseCreate(s, script);
    var c := Creates(s, tx);
    assert c == Markers(tx.outputs, parse);
    forall i | 0 <= i < |c|
      ensures IsAddress(s.addresses, c[i].marker.manager)
    {
      MarkersParsed(tx.outputs, parse, i);
      var k :| 0 <= k < |tx.outputs| && parse(tx.outputs[k].script) == Some(c[i].marker);
    }
  }

  lemma ReplayKeepsManagers(s: Pools, reg: Registry, id: Hash, height: nat, a: Action)
    requires s.Valid() && ManagersAreAddresses(s, reg) && OpensForAddress(s, a) && ReplayAction(s, reg, id, height, a).Ok?
    ensures ManagersAreAddresses(s, ReplayAction(s, reg, id, height, a).value)
  {
    hide IsAddress, CreatePrice, TopUpPrice;
  }

  lemma {:induction false} ActionsKeepManagers(s: Pools, reg: Registry, id: Hash, height: nat, actions: seq<Action>)
    requires s.Valid() && ManagersAreAddresses(s, reg) && ReplayActions(s, reg, id, height, actions).Ok?
    requires forall i :: 0 <= i < |actions| ==> OpensForAddress(s, actions[i])
    ensures ManagersAreAddresses(s, ReplayActions(s, reg, id, height, actions).value)
  {
    hide ReplayAction, ManagersAreAddresses, OpensForAddress;
    if actions != [] {
      var n := |actions| - 1;
      ActionsKeepManagers(s, reg, id, height, actions[..n]);
      ReplayKeepsManagers(s, ReplayActions(s, reg, id, height, actions[..n]).value, id, height, actions[n]);
    }
  }

  lemma {:induction false} TxsKeepManagers(s: Pools, id: Transaction -> Hash, reg: Registry, txs: seq<Transaction>, height: nat)
    requires s.Valid() && ManagersAreAddresses(s, reg) && ReplayTxs(s, id, reg, txs, height).Ok?
    ensures ManagersAreAddresses(s, ReplayTxs(s, id, reg, txs, height).value)
  {
    hide Actions, ReplayActions, ManagersAreAddresses, OpensForAddress;
    if txs != [] {
      var n := |txs| - 1;
      TxsKeepManagers(s, id, reg, txs[..n], height);
      ActionsOpenForAddresses(s, txs[n]);
      ActionsKeepManagers(s, ReplayTxs(s, id, reg, txs[..n], height).value, id(txs[n]), height, Actions(s, txs[n]));
    }
  }

  /** Every pool that any block list opens, validated or not, is managed by an address. */
  lemma {:induction false} RegistryHasAddresses(s: Pools, id: Transaction -> Hash, blocks: seq<Block>)
    requires s.Valid() && FromBlocks(s, id, blocks).Ok?
    ensures ManagersAreAddresses(s, FromBlocks(s, id, blocks).value)
  {
    hide ReplayTxs, IsAddress;
    if |blocks| > 1 && s.enabled {
      var n := |blocks| - 1;
      RegistryHasAddresses(s, id, blocks[..n]);
      if s.Active(n) {
        TxsKeepManagers(s, id, FromBlocks(s, id, blocks[..n]).value, AfterCoinbase(blocks[n]), n);
      }
    }
  }

  // ---- The replay's loops ------------------------------------------------------------------

  lemma {:induction false} ReplayActionsErr(s: Pools, reg: Registry, id: Hash, height: nat, actions: seq<Action>, n: nat)
    requires s.Valid() && n <= |actions| && ReplayActions(s, reg, id, height, actions[..n]).Err?
    ensures ReplayActions(s, reg, id, height, actions).Err?
    decreases |actions| - n
  {
    hide ReplayAction;
    if n < |actions| {
      assert actions[..n + 1][..n] == actions[..n];
      ReplayActionsErr(s, reg, id, height, actions, n + 1);
    } else {
      assert actions[..n] == actions;
    }
  }

  lemma {:induction false} ReplayTxsErr(s: Pools, id: Transaction -> Hash, reg: Registry, txs: seq<Transaction>, height: nat, n: nat)
    requires s.Valid() && n <= |txs| && ReplayTxs(s, id, reg, txs[..n], height).Err?
    ensures ReplayTxs(s, id, reg, txs, height).Err?
    decreases |txs| - n
  {
    hide ReplayActions, Actions;
    if n < |txs| {
      assert txs[..n + 1][..n] == txs[..n];
      ReplayTxsErr(s, id, reg, txs, height, n + 1);
    } else {
      assert txs[..n] == txs;
    }
  }

  method ApplyActions(s: Pools, reg: Registry, id: Hash, height: nat, actions: seq<Action>) returns (r: Result<Registry>)
    requires s.Valid()
    ensures r == ReplayActions(s, reg, id, height, actions)
  {
    hide ReplayAction;
    var registry := reg;
    for i := 0 to |actions|
      invariant ReplayActions(s, reg, id, height, actions[..i]) == Ok(registry)
    {
      assert actions[..i + 1][..i] == actions[..i];
      if ReplayAction(s, registry, id, height, actions[i]).Err? {
        ReplayActionsErr(s, reg, id, height, actions, i + 1);
      }
      registry :- ReplayAction(s, registry, id, height, actions[i]);
    }
    assert actions[..|actions|] == actions;
    return Ok(registry);
  }

  lemma ReplayTxsStep(s: Pools, id: Transaction -> Hash, reg: Registry, txs: seq<Transaction>, height: nat, n: nat, registry: Registry)
    requires s.Valid() && n < |txs| && ReplayTxs(s, id, reg, txs[..n], height) == Ok(registry)
    ensures ReplayTxs(s, id, reg, txs[..n + 1], height) == ReplayActions(s, registry, id(txs[n]), height, Actions(s, txs[n]))
  {
    hide ReplayActions, Actions;
    assert txs[..n + 1][..n] == txs[..n];
  }

  /** apply_pool_registry_block: transaction after transaction, marker after marker. */
  method ApplyBlock(s: Pools, id: Transaction -> Hash, reg: Registry, b: Block, height: nat) returns (r: Result<Registry>)
    requires s.Valid()
    ensures r == ReplayBlock(s, id, reg, b, height)
  {
    hide ReplayActions, Actions, ReplayTxs;
    if !s.Active(height) {
      return Ok(reg);
    }
    r := ApplyTransactions(s, id, reg, AfterCoinbase(b), height);
  }

  method ApplyTransactions(s: Pools, id: Transaction -> Hash, reg: Registry, txs: seq<Transaction>, height: nat) returns (r: Result<Registry>)
    requires s.Valid()
    ensures r == ReplayTxs(s, id, reg, txs, height)
  {
    hide ReplayActions, Actions;
    var registry := reg;
    for i := 0 to |txs|
      invariant ReplayTxs(s, id, reg, txs[..i], height) == Ok(registry)
    {
      hide ReplayTxs;
      ReplayTxsStep(s, id, reg, txs, height, i, registry);
      var next := ApplyActions(s, registry, id(txs[i]), height, Actions(s, txs[i]));
      if next.Err? {
        ReplayTxsErr(s, id, reg, txs, height, i + 1);
        return Err;
      }
      registry := next.value;
    }
    assert txs[..|txs|] == txs;
    return Ok(registry);
  }
}
