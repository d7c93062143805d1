/** The vault that backs QUB atoms with JIN: bootstrap, infuse and melt (src/lib.rs). */
module Infusion {
  import opened Arithmetic
  import opened Outcome

  const MAX_MONEY_ATOMS: nat := 2_100_000_000_000_000
  const JIN_TOTAL_SUPPLY_UNITS: nat := 105_000_000_000_000_000_000_000_000

  datatype Marker =
    | InfuseJin(from: string, units: nat)
    | MeltQub(from: string, atoms: nat, minUnits: nat)

  /** A marker with the value of the output that carries it. */
  datatype Placed<M> = Placed(marker: M, atoms: nat)

  /** `reserve` is the JIN now locked; `perAtom` what each remaining QUB atom can be melted for. */
  datatype Reserve = Reserve(active: bool, melted: nat, trueMax: nat, lifetime: nat, reserve: nat, perAtom: nat)

  const INACTIVE: Reserve := Reserve(false, 0, MAX_MONEY_ATOMS, 0, 0, 0)

  datatype Refusal = ZeroAmount | AboveTrueMax | AllMelted | NothingInfused | Indivisible | Slippage | ExceedsReserve | Overflow

  datatype Change = Changed(state: Reserve, units: nat) | Refused(why: Refusal)

  /** qub_jin_apply_infuse_units; the result's units are what each atom gained. */
  function Infuse(s: Reserve, units: nat): Change
  {
    if units == 0 then Refused(ZeroAmount)
    else if s.trueMax == 0 then Refused(AllMelted)
    else if units % s.trueMax != 0 then Refused(Indivisible)
    else
      var delta := Share(units, s.trueMax);
      if delta == 0 then Refused(Indivisible)
      else if s.perAtom + delta >= TWO_128 || s.lifetime + units >= TWO_128 || s.reserve + units >= TWO_128 then Refused(Overflow)
      else Changed(s.(perAtom := s.perAtom + delta, lifetime := s.lifetime + units, reserve := s.reserve + units), delta)
  }

  function Share(units: nat, atoms: nat): nat
    requires atoms > 0
  {
    DivMod(units, atoms);
    units / atoms
  }

  function Payout(atoms: nat, perAtom: nat): nat
  {
    Product(atoms, perAtom);
    atoms * perAtom
  }

  /** qub_jin_apply_melt_atoms; the result's units are the JIN paid out. */
  function Melt(s: Reserve, atoms: nat, minUnits: nat): Change
  {
    if atoms == 0 then Refused(ZeroAmount)
    else if atoms > s.trueMax then Refused(AboveTrueMax)
    else if s.perAtom == 0 then Refused(NothingInfused)
    else
      var payout := Payout(atoms, s.perAtom);
      if payout >= TWO_128 then Refused(Overflow)
      else if payout == 0 then Refused(ZeroAmount)
      else if payout < minUnits then Refused(Slippage)
      else if s.reserve < payout then Refused(ExceedsReserve)
      else if s.melted + atoms >= TWO_64 then Refused(Overflow)
      else Changed(s.(melted := s.melted + atoms, trueMax := s.trueMax - atoms, reserve := s.reserve - payout), payout)
  }

  /** The state-only half of a marker. */
  function ApplyToState(s: Reserve, m: Marker): Change
  {
    match m
    case InfuseJin(_, units) => Infuse(s, units)
    case MeltQub(_, atoms, minUnits) => Melt(s, atoms, minUnits)
  }

  /** qub_jin_bootstrap_units_per_atom: the bootstrap must divide evenly. */
  function BootstrapPerAtom(units: nat): Result<nat>
  {
    if units % MAX_MONEY_ATOMS != 0 then Err else Ok(Share(units, MAX_MONEY_ATOMS))
  }

  function Bootstrapped(s: Reserve, units: nat): Result<Reserve>
  {
    var per :- BootstrapPerAtom(units);
    if s.lifetime + units >= TWO_128 || s.reserve + units >= TWO_128 || s.perAtom + per >= TWO_128 then Err
    else Ok(s.(active := true, lifetime := s.lifetime + units, reserve := s.reserve + units, perAtom := s.perAtom + per))
  }

  // ---- Invariant ---------------------------------------------------------------------------

  /** Every remaining atom is backed in full, and no atom is unaccounted for. */
  ghost predicate Balanced(s: Reserve)
  {
    && s.reserve == Payout(s.trueMax, s.perAtom)
    && s.trueMax + s.melted == MAX_MONEY_ATOMS
    && s.reserve <= s.lifetime
  }

  lemma InactiveIsBalanced()
    ensures Balanced(INACTIVE)
  {
  }

  lemma ShareExact(units: nat, atoms: nat)
    requires atoms > 0 && units % atoms == 0
    ensures Payout(atoms, Share(units, atoms)) == units
  {
    DivMod(units, atoms);
    assert atoms * (units / atoms) == units / atoms * atoms;
  }

  lemma PayoutAdds(atoms: nat, p: nat, q: nat)
    ensures Payout(atoms, p + q) == Payout(atoms, p) + Payout(atoms, q)
  {
  }

  lemma PayoutSplits(a: nat, b: nat, p: nat)
    requires b <= a
    ensures Payout(a, p) == Payout(b, p) + Payout(a - b, p)
  {
  }

  lemma PayoutPositive(a: nat, p: nat)
    requires a > 0 && p > 0
    ensures Payout(a, p) >= a && Payout(a, p) >= p
  {
    ScaleMonotone(1, p, a);
    ScaleMonotone(1, a, p);
    assert a * p == p * a;
  }

  lemma BootstrapBalanced(s: Reserve, units: nat)
    requires Balanced(s) && s.melted == 0 && Bootstrapped(s, units).Ok?
    ensures Balanced(Bootstrapped(s, units).value)
  {
    hide Share, Payout;
    ShareExact(units, MAX_MONEY_ATOMS);
    PayoutAdds(s.trueMax, s.perAtom, Share(units, MAX_MONEY_ATOMS));
  }

  lemma InfuseBalanced(s: Reserve, units: nat)
    requires Balanced(s) && Infuse(s, units).Changed?
    ensures Balanced(Infuse(s, units).state)
  {
    hide Share, Payout;
    ShareExact(units, s.trueMax);
    PayoutAdds(s.trueMax, s.perAtom, Share(units, s.trueMax));
  }

  /** An infusion succeeds exactly for a positive multiple of the remaining atoms, and every one of them gains the same share. */
  lemma InfuseSucceeds(s: Reserve, units: nat)
    requires s.perAtom + units < TWO_128 && s.lifetime + units < TWO_128 && s.reserve + units < TWO_128
    ensures Infuse(s, units).Changed? <==> units > 0 && s.trueMax > 0 && units % s.trueMax == 0
    ensures Infuse(s, units).Changed? ==>
              var t := Infuse(s, units);
              Payout(s.trueMax, t.units) == units && t.state.perAtom == s.perAtom + t.units && t.state.trueMax == s.trueMax && t.state.melted == s.melted
  {
    hide Share, Payout;
    if s.trueMax > 0 && units % s.trueMax == 0 {
      ShareExact(units, s.trueMax);
      ShareBelow(units, s.trueMax);
    }
  }

  lemma ShareBelow(units: nat, atoms: nat)
    requires atoms > 0
    ensures Share(units, atoms) <= units
    ensures units > 0 && units % atoms == 0 ==> Share(units, atoms) > 0
  {
    QuotientBelow(units, atoms);
    DivMod(units, atoms);
  }

  lemma MeltBalanced(s: Reserve, atoms: nat, minUnits: nat)
    requires Balanced(s) && Melt(s, atoms, minUnits).Changed?
    ensures Balanced(Melt(s, atoms, minUnits).state)
  {
    hide Payout;
    PayoutSplits(s.trueMax, atoms, s.perAtom);
  }

  /** A balanced vault never refuses for lack of reserve; it melts exactly when the request itself is in order. */
  lemma MeltNeverExceedsReserve(s: Reserve, atoms: nat, minUnits: nat)
    requires Balanced(s) && s.reserve < TWO_128
    ensures Melt(s, atoms, minUnits) != Refused(ExceedsReserve) && Melt(s, atoms, minUnits) != Refused(Overflow)
    ensures Melt(s, atoms, minUnits).Changed? <==>
            0 < atoms <= s.trueMax && s.perAtom > 0 && Payout(atoms, s.perAtom) >= minUnits
    ensures Melt(s, atoms, minUnits).Changed? ==> Melt(s, atoms, minUnits).units == Payout(atoms, s.perAtom)
  {
    hide Payout;
    if 0 < atoms <= s.trueMax && s.perAtom > 0 {
      PayoutSplits(s.trueMax, atoms, s.perAtom);
      PayoutPositive(atoms, s.perAtom);
    }
  }

  /** Melting what an infusion backed gives back exactly what was infused, spread over all atoms. */
  lemma InfuseThenMeltAll(s: Reserve, units: nat)
    requires Balanced(s) && s.reserve + units < TWO_128 && Infuse(s, units).Changed?
    ensures var t := Infuse(s, units).state;
            Melt(t, t.trueMax, 0).Changed? && Melt(t, t.trueMax, 0).units == s.reserve + units && Melt(t, t.trueMax, 0).state.reserve == 0
  {
    hide Share, Payout;
    InfuseBalanced(s, units);
    MeltNeverExceedsReserve(Infuse(s, units).state, s.trueMax, 0);
  }

  // ---- All runs ----------------------------------------------------------------------------

  /** The markers of a run applied in order. */
  function Run(s: Reserve, markers: seq<Marker>): Result<Reserve>
  {
    if markers == [] then Ok(s)
    else
      var before :- Run(s, markers[..|markers| - 1]);
      match ApplyToState(before, markers[|markers| - 1])
      case Changed(t, _) => Ok(t)
      case Refused(_) => Err
  }

  function MeltedIn(markers: seq<Marker>): nat
  {
    if markers == [] then 0
    else MeltedIn(markers[..|markers| - 1]) + match markers[|markers| - 1] case MeltQub(_, atoms, _) => atoms case InfuseJin(_, _) => 0
  }

  lemma {:induction false} RunBalanced(s: Reserve, markers: seq<Marker>)
    requires Balanced(s) && Run(s, markers).Ok?
    ensures var t := Run(s, markers).value;
            Balanced(t) && t.active == s.active && t.melted == s.melted + MeltedIn(markers)
  {
    hide Balanced, Infuse, Melt;
    if markers != [] {
      var n := |markers| - 1;
      RunBalanced(s, markers[..n]);
      ApplyBalanced(Run(s, markers[..n]).value, markers[n]);
    }
  }

  lemma ApplyBalanced(s: Reserve, m: Marker)
    requires Balanced(s) && ApplyToState(s, m).Changed?
    ensures var t := ApplyToState(s, m).state;
            Balanced(t) && t.active == s.active && t.melted == s.melted + if m.MeltQub? then m.atoms else 0
  {
    match m
    case InfuseJin(_, units) => InfuseBalanced(s, units);
    case MeltQub(_, atoms, minUnits) => MeltBalanced(s, atoms, minUnits);
  }

  // ---- The record the code updates in place -------------------------------------------------

  class InfusionState {
    var active: bool
    var meltedAtoms: nat
    var trueMaxAtoms: nat
    var lifetimeUnits: nat
    var activeUnits: nat
    var unitsPerAtom: nat

    function Value(): Reserve
      reads this
    {
      Reserve(active, meltedAtoms, trueMaxAtoms, lifetimeUnits, activeUnits, unitsPerAtom)
    }

    constructor Inactive()
      ensures Value() == INACTIVE
    {
      active, meltedAtoms, trueMaxAtoms, lifetimeUnits, activeUnits, unitsPerAtom := false, 0, MAX_MONEY_ATOMS, 0, 0, 0;
    }

    /** qub_jin_apply_infuse_units. Only an overflow can leave a half-changed record behind. */
    method ApplyInfuseUnits(units: nat) returns (r: Result<nat>)
      modifies this
      ensures match Infuse(old(Value()), units)
              case Changed(t, delta) => r == Ok(delta) && Value() == t
              case Refused(why) => r.Err? && (why != Overflow ==> Value() == old(Value()))
    {
      hide Share;
      if units == 0 || trueMaxAtoms == 0 || units % trueMaxAtoms != 0 {
        return Err;
      }
      var delta := Share(units, trueMaxAtoms);
      if delta == 0 || unitsPerAtom + delta >= TWO_128 {
        return Err;
      }
      unitsPerAtom := unitsPerAtom + delta;
      if lifetimeUnits + units >= TWO_128 {
        return Err;
      }
      lifetimeUnits := lifetimeUnits + units;
      if activeUnits + units >= TWO_128 {
        return Err;
      }
      activeUnits := activeUnits + units;
      return Ok(delta);
    }

    /** qub_jin_apply_melt_atoms. A refused melt leaves the record as it was. */
    method ApplyMeltAtoms(atoms: nat, minUnits: nat) returns (r: Result<nat>)
      modifies this
      ensures match Melt(old(Value()), atoms, minUnits)
              case Changed(t, payout) => r == Ok(payout) && Value() == t
              case Refused(why) => r.Err? && Value() == old(Value())
    {
      hide Payout;
      if atoms == 0 || atoms > trueMaxAtoms || unitsPerAtom == 0 {
        return Err;
      }
      var payout := Payout(atoms, unitsPerAtom);
      if payout >= TWO_128 || payout == 0 || payout < minUnits || activeUnits < payout || meltedAtoms + atoms >= TWO_64 {
        return Err;
      }
      meltedAtoms := meltedAtoms + atoms;
      trueMaxAtoms := trueMaxAtoms - atoms;
      activeUnits := activeUnits - payout;
      return Ok(payout);
    }
  }
}
