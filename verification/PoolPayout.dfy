/** Largest-remainder payout of a pool reward: split_amount of src/pools.rs. */
module PoolPayout {
  import opened Arithmetic
  import opened Outcome
  import opened Sorting

  datatype Score = Score(address: string, units: nat)
  datatype Entry = Entry(address: string, score: nat, amount: nat)
  datatype Remainder = Remainder(address: string, units: nat)
  datatype Split = Split(commission: nat, minerTotal: nat, entries: seq<Entry>)

  predicate ByAddress(a: Score, b: Score)
  {
    StringLe(a.address, b.address)
  }

  // Larger remainder first, then the smaller address.
  predicate ByRemainder(a: Remainder, b: Remainder)
  {
    a.units > b.units || (a.units == b.units && StringLe(a.address, b.address))
  }

  lemma ByAddressIsTotalOrder()
    ensures TotalOrder(ByAddress)
  {
    forall x: Score, y: Score ensures ByAddress(x, y) || ByAddress(y, x) {
      StringLeTotal(x.address, y.address);
    }
    forall x: Score, y: Score, z: Score | ByAddress(x, y) && ByAddress(y, z) ensures ByAddress(x, z) {
      StringLeTransitive(x.address, y.address, z.address);
    }
  }

  lemma ByRemainderIsTotalOrder()
    ensures TotalOrder(ByRemainder)
  {
    forall x: Remainder, y: Remainder ensures ByRemainder(x, y) || ByRemainder(y, x) {
      StringLeTotal(x.address, y.address);
    }
    forall x: Remainder, y: Remainder, z: Remainder | ByRemainder(x, y) && ByRemainder(y, z) ensures ByRemainder(x, z) {
      if x.units == y.units == z.units {
        StringLeTransitive(x.address, y.address, z.address);
      }
    }
  }

  // ---- Specification -----------------------------------------------------------------------

  /** The scores come from the keys of a map, so no address occurs twice. */
  ghost predicate DistinctAddresses(s: seq<Score>)
  {
    forall i, j :: 0 <= i < j < |s| ==> s[i].address != s[j].address
  }

  function Kept(s: seq<Score>): (r: seq<Score>)
    ensures forall x :: x in r <==> x in s && x.units > 0
  {
    if s == [] then []
    else if s[|s| - 1].units > 0 then Kept(s[..|s| - 1]) + [s[|s| - 1]]
    else Kept(s[..|s| - 1])
  }

  /** The positive scores in address order. */
  function Ordered(s: seq<Score>): seq<Score>
  {
    Sort(Kept(s), ByAddress)
  }

  function TotalScore(s: seq<Score>): nat
  {
    if s == [] then 0 else TotalScore(s[..|s| - 1]) + s[|s| - 1].units
  }

  function TotalAmount(e: seq<Entry>): nat
  {
    if e == [] then 0 else TotalAmount(e[..|e| - 1]) + e[|e| - 1].amount
  }

  function Commission(total: nat, bps: nat): nat
  {
    total * bps / 10000
  }

  predicate Multiplies(total: nat, bps: nat)
  {
    total * bps < TWO_128
  }

  /** When the split succeeds; everything else is one of the overflow or empty-window errors. */
  predicate Payable(total: nat, bps: nat, scores: seq<Score>)
  {
    && TotalScore(Ordered(scores)) > 0
    && Multiplies(total, bps)
    && Commission(total, bps) <= total
    && forall x :: x in scores ==> Scales(total - Commission(total, bps), x)
  }

  function Floor(minerTotal: nat, s: Score, totalScore: nat): nat
    requires totalScore > 0
  {
    minerTotal * s.units / totalScore
  }

  function Rest(minerTotal: nat, s: Score, totalScore: nat): Remainder
    requires totalScore > 0
  {
    Remainder(s.address, minerTotal * s.units % totalScore)
  }

  /** Commission plus payouts is the total; each payout is its floor or one more; the largest remainders get the extra. */
  ghost predicate IsSplit(total: nat, bps: nat, scores: seq<Score>, r: Split)
  {
    var order, n := Ordered(scores), |Ordered(scores)|;
    var t := TotalScore(order);
    && t > 0
    && r.commission == Commission(total, bps)
    && r.commission + r.minerTotal == total
    && TotalAmount(r.entries) == r.minerTotal
    && |r.entries| == n
    && (forall i :: 0 <= i < n ==> r.entries[i].address == order[i].address && r.entries[i].score == order[i].units)
    && (forall i :: 0 <= i < n ==> Floor(r.minerTotal, order[i], t) <= r.entries[i].amount <= Floor(r.minerTotal, order[i], t) + 1)
    && (forall i, j :: 0 <= i < n && 0 <= j < n
          && r.entries[i].amount > Floor(r.minerTotal, order[i], t) && r.entries[j].amount == Floor(r.minerTotal, order[j], t)
          ==> ByRemainder(Rest(r.minerTotal, order[i], t), Rest(r.minerTotal, order[j], t)))
  }

  // ---- The split itself --------------------------------------------------------------------

  function FloorEntries(minerTotal: nat, t: nat, order: seq<Score>): (r: seq<Entry>)
    requires t > 0
    ensures |r| == |order|
  {
    seq(|order|, i requires 0 <= i < |order| => Entry(order[i].address, order[i].units, Floor(minerTotal, order[i], t)))
  }

  function Rests(minerTotal: nat, t: nat, order: seq<Score>): (r: seq<Remainder>)
    requires t > 0
    ensures |r| == |order|
  {
    seq(|order|, i requires 0 <= i < |order| => Rest(minerTotal, order[i], t))
  }

  predicate Awarded(ranked: seq<Remainder>, n: nat, a: string)
    requires n <= |ranked|
  {
    exists p :: 0 <= p < n && ranked[p].address == a
  }

  /** One more atom for whoever is among the first n. */
  function Awards(base: seq<Entry>, ranked: seq<Remainder>, n: nat): (r: seq<Entry>)
    requires n <= |ranked|
    ensures |r| == |base|
  {
    seq(|base|, i requires 0 <= i < |base| => base[i].(amount := base[i].amount + if Awarded(ranked, n, base[i].address) then 1 else 0))
  }

  /** What split_amount returns: floors, and what they leave over to the largest remainders. */
  function SplitOf(total: nat, bps: nat, scores: seq<Score>): Split
    requires Payable(total, bps, scores)
  {
    var order, minerTotal := Ordered(scores), total - Commission(total, bps);
    var t := TotalScore(order);
    var base, ranked := FloorEntries(minerTotal, t, order), Sort(Rests(minerTotal, t, order), ByRemainder);
    FloorsLeave(minerTotal, order);
    Split(Commission(total, bps), minerTotal, Awards(base, ranked, minerTotal - TotalAmount(base)))
  }

  // ---- Order independence ------------------------------------------------------------------

  lemma {:induction false} KeptMultiset(s: seq<Score>)
    ensures forall x :: multiset(Kept(s))[x] == if x.units > 0 then multiset(s)[x] else 0
  {
    if s != [] {
      KeptMultiset(s[..|s| - 1]);
      assert s == s[..|s| - 1] + [s[|s| - 1]];
    }
  }

  lemma {:induction false} KeptDistinct(s: seq<Score>)
    requires DistinctAddresses(s)
    ensures DistinctAddresses(Kept(s))
  {
    if s != [] {
      KeptDistinct(s[..|s| - 1]);
      var k := Kept(s[..|s| - 1]);
      forall i | 0 <= i < |k| ensures k[i].address != s[|s| - 1].address {
        assert k[i] in s[..|s| - 1];
      }
    }
  }

  /** Distinctness only depends on the elements. */
  lemma DistinctByMultiset(a: seq<Score>, b: seq<Score>)
    requires DistinctAddresses(a) && multiset(a) == multiset(b)
    ensures DistinctAddresses(b)
  {
    DistinctPermutation(a, b);
    forall i, j | 0 <= i < j < |b|
      ensures b[i].address != b[j].address
    {
      var p := PermutationIndex(a, b, i);
      var q := PermutationIndex(a, b, j);
      assert a[p] != a[q];
    }
  }

  lemma PrefixStaysOrdered(a: seq<Score>)
    requires a != [] && SortedBy(a, ByAddress) && DistinctAddresses(a)
    ensures SortedBy(a[..|a| - 1], ByAddress) && DistinctAddresses(a[..|a| - 1])
  {
    hide ByAddress;
  }

  lemma {:induction false} SortedListIsUnique(a: seq<Score>, b: seq<Score>)
    requires SortedBy(a, ByAddress) && SortedBy(b, ByAddress) && multiset(a) == multiset(b)
    requires DistinctAddresses(a) && DistinctAddresses(b)
    ensures a == b
  {
    hide ByAddress, SortedBy, DistinctAddresses;
    assert |multiset(a)| == |a| && |multiset(b)| == |b|;
    if a != [] {
      var n := |a| - 1;
      SameGreatest(a, b);
      PrefixStaysOrdered(a);
      PrefixStaysOrdered(b);
      WithoutLast(a);
      WithoutLast(b);
      SortedListIsUnique(a[..n], b[..n]);
    }
  }

  lemma WithoutLast(a: seq<Score>)
    requires a != []
    ensures a == a[..|a| - 1] + [a[|a| - 1]]
    ensures multiset(a[..|a| - 1]) == multiset(a) - multiset{a[|a| - 1]}
  {
    assert a == a[..|a| - 1] + [a[|a| - 1]];
  }

  lemma SameGreatest(a: seq<Score>, b: seq<Score>)
    requires a != [] && |a| == |b|
    requires SortedBy(a, ByAddress) && SortedBy(b, ByAddress) && multiset(a) == multiset(b)
    requires DistinctAddresses(a) && DistinctAddresses(b)
    ensures a[|a| - 1] == b[|b| - 1]
  {
    var n := |a| - 1;
    assert a[n] in multiset(b) && b[n] in multiset(a);
    var i :| 0 <= i < |b| && b[i] == a[n];
    var j :| 0 <= j < |a| && a[j] == b[n];
    if i != n && j != n {
      assert ByAddress(a[n], b[n]) && ByAddress(b[n], a[n]);
      StringLeTotal(a[n].address, b[n].address);
    }
  }

  lemma OrderedIsCanonical(a: seq<Score>, b: seq<Score>)
    requires DistinctAddresses(a) && multiset(a) == multiset(b)
    ensures Ordered(a) == Ordered(b) && DistinctAddresses(Ordered(a))
    ensures SortedBy(Ordered(a), ByAddress)
  {
    DistinctByMultiset(a, b);
    KeptMultiset(a);
    KeptMultiset(b);
    assert multiset(Kept(a)) == multiset(Kept(b));
    KeptDistinct(a);
    KeptDistinct(b);
    DistinctByMultiset(Kept(a), Ordered(a));
    DistinctByMultiset(Kept(b), Ordered(b));
    ByAddressIsTotalOrder();
    SortSorted(Kept(a), ByAddress);
    SortSorted(Kept(b), ByAddress);
    SortedListIsUnique(Ordered(a), Ordered(b));
  }

  lemma {:induction false} StrictlyMore(a: seq<Entry>, b: seq<Entry>)
    requires |a| == |b| && forall i :: 0 <= i < |a| ==> a[i].amount <= b[i].amount
    ensures TotalAmount(a) <= TotalAmount(b)
    ensures (exists i :: 0 <= i < |a| && a[i].amount < b[i].amount) ==> TotalAmount(a) < TotalAmount(b)
  {
    if a != [] {
      StrictlyMore(a[..|a| - 1], b[..|b| - 1]);
    }
  }

  // Two splits of one ordered list: nobody can gain while somebody else loses.
  lemma NoTrade(total: nat, bps: nat, s: seq<Score>, ra: Split, rb: Split, i: nat, j: nat)
    requires DistinctAddresses(Ordered(s))
    requires IsSplit(total, bps, s, ra) && IsSplit(total, bps, s, rb)
    requires i < |Ordered(s)| && j < |Ordered(s)|
    requires ra.entries[i].amount > rb.entries[i].amount
    ensures ra.entries[j].amount >= rb.entries[j].amount
  {
    hide Floor, Ordered, TotalScore, TotalAmount, Commission;
    var order := Ordered(s);
    var t := TotalScore(order);
    if ra.entries[j].amount < rb.entries[j].amount {
      var (ri, rj) := (Rest(ra.minerTotal, order[i], t), Rest(ra.minerTotal, order[j], t));
      assert ByRemainder(ri, rj) && ByRemainder(rj, ri);
      StringLeTotal(ri.address, rj.address);
    }
  }

  lemma SplitIsUnique(total: nat, bps: nat, s: seq<Score>, ra: Split, rb: Split)
    requires DistinctAddresses(Ordered(s))
    requires IsSplit(total, bps, s, ra) && IsSplit(total, bps, s, rb)
    ensures forall i :: 0 <= i < |Ordered(s)| ==> ra.entries[i].amount <= rb.entries[i].amount
  {
    forall i | 0 <= i < |Ordered(s)|
      ensures ra.entries[i].amount <= rb.entries[i].amount
    {
      if ra.entries[i].amount > rb.entries[i].amount {
        forall j | 0 <= j < |Ordered(s)| ensures ra.entries[j].amount >= rb.entries[j].amount {
          NoTrade(total, bps, s, ra, rb, i, j);
        }
        StrictlyMore(rb.entries, ra.entries);
      }
    }
  }

  /** The conditions of a split leave no freedom, whatever order the scores came in. */
  lemma SplitIsOrderIndependent(total: nat, bps: nat, a: seq<Score>, b: seq<Score>, ra: Split, rb: Split)
    requires DistinctAddresses(a) && multiset(a) == multiset(b)
    requires IsSplit(total, bps, a, ra) && IsSplit(total, bps, b, rb)
    ensures ra == rb
  {
    hide Floor, Ordered, TotalScore, TotalAmount, Commission, ByRemainder;
    OrderedIsCanonical(a, b);
    SplitIsUnique(total, bps, a, ra, rb);
    SplitIsUnique(total, bps, a, rb, ra);
    assert ra.entries == rb.entries;
  }

  lemma PayableIsOrderIndependent(total: nat, bps: nat, a: seq<Score>, b: seq<Score>)
    requires DistinctAddresses(a) && multiset(a) == multiset(b)
    ensures Payable(total, bps, a) <==> Payable(total, bps, b)
  {
    OrderedIsCanonical(a, b);
    assert forall x :: (x in a <==> x in multiset(a)) && (x in b <==> x in multiset(b));
  }

  // ---- The loops ---------------------------------------------------------------------------

  /** The running sums after the scores with total `prefix`: floors, and remainders below count * t. */
  ghost predicate FloorSums(m: nat, t: nat, prefix: nat, count: nat, floors: nat, rests: nat)
  {
    floors * t + rests == m * prefix && rests <= count * t && (count > 0 ==> rests < count * t)
  }

  lemma FloorStep(m: nat, t: nat, prefix: nat, count: nat, floors: nat, rests: nat, s: Score)
    requires t > 0 && FloorSums(m, t, prefix, count, floors, rests)
    ensures FloorSums(m, t, prefix + s.units, count + 1, floors + Floor(m, s, t), rests + Rest(m, s, t).units)
  {
    var p := m * s.units;
    assert p == p / t * t + p % t;
    assert (floors + p / t) * t == floors * t + p / t * t;
    assert m * (prefix + s.units) == m * prefix + p;
    assert (count + 1) * t == count * t + t;
  }

  // All remainders together are a whole number of atoms, fewer than the entries.
  lemma FloorEnd(m: nat, t: nat, count: nat, floors: nat, rests: nat)
    requires t > 0 && count > 0 && FloorSums(m, t, t, count, floors, rests)
    ensures floors <= m && m - floors < count
  {
    assert (m + 1) * t == m * t + t && (floors + count) * t == floors * t + count * t;
    CompareScaled(floors, m + 1, t);
    CompareScaled(m, floors + count, t);
  }

  lemma {:induction false} TotalScorePrefix(s: seq<Score>, i: nat)
    requires i < |s|
    ensures TotalScore(s[..i + 1]) == TotalScore(s[..i]) + s[i].units
  {
    assert s[..i + 1][..i] == s[..i];
  }

  function RestSum(r: seq<Remainder>): nat
  {
    if r == [] then 0 else RestSum(r[..|r| - 1]) + r[|r| - 1].units
  }

  lemma FloorEntriesStep(m: nat, t: nat, order: seq<Score>, i: nat)
    requires t > 0 && i < |order|
    ensures FloorEntries(m, t, order[..i + 1]) == FloorEntries(m, t, order[..i]) + [Entry(order[i].address, order[i].units, Floor(m, order[i], t))]
    ensures Rests(m, t, order[..i + 1]) == Rests(m, t, order[..i]) + [Rest(m, order[i], t)]
    ensures TotalAmount(FloorEntries(m, t, order[..i + 1])) == TotalAmount(FloorEntries(m, t, order[..i])) + Floor(m, order[i], t)
    ensures RestSum(Rests(m, t, order[..i + 1])) == RestSum(Rests(m, t, order[..i])) + Rest(m, order[i], t).units
  {
    hide Floor, Rest;
    assert order[..i + 1][..i] == order[..i];
    var e, r := FloorEntries(m, t, order[..i]), Rests(m, t, order[..i]);
    assert FloorEntries(m, t, order[..i + 1]) == e + [Entry(order[i].address, order[i].units, Floor(m, order[i], t))];
    assert Rests(m, t, order[..i + 1]) == r + [Rest(m, order[i], t)];
    TotalAmountAppend(e, Entry(order[i].address, order[i].units, Floor(m, order[i], t)));
    assert (r + [Rest(m, order[i], t)])[..i] == r;
  }

  lemma {:induction false} FloorsSoFar(m: nat, t: nat, order: seq<Score>, i: nat)
    requires t > 0 && i <= |order|
    ensures FloorSums(m, t, TotalScore(order[..i]), i, TotalAmount(FloorEntries(m, t, order[..i])), RestSum(Rests(m, t, order[..i])))
  {
    hide FloorSums, Floor, Rest, FloorEntries, Rests, TotalScore, TotalAmount, RestSum;
    if i == 0 {
      NoFloors(m, t, order);
    } else {
      FloorsSoFar(m, t, order, i - 1);
      FloorEntriesStep(m, t, order, i - 1);
      TotalScorePrefix(order, i - 1);
      FloorStep(m, t, TotalScore(order[..i - 1]), i - 1, TotalAmount(FloorEntries(m, t, order[..i - 1])), RestSum(Rests(m, t, order[..i - 1])), order[i - 1]);
    }
  }

  lemma NoFloors(m: nat, t: nat, order: seq<Score>)
    requires t > 0
    ensures FloorSums(m, t, TotalScore(order[..0]), 0, TotalAmount(FloorEntries(m, t, order[..0])), RestSum(Rests(m, t, order[..0])))
  {
  }

  /** The floors never exceed the total, and leave over fewer atoms than there are entries. */
  lemma FloorsLeave(m: nat, order: seq<Score>)
    requires TotalScore(order) > 0
    ensures var base := FloorEntries(m, TotalScore(order), order);
            TotalAmount(base) <= m && m - TotalAmount(base) < |order|
  {
    hide FloorSums, Floor, Rest, FloorEntries, Rests, TotalAmount, RestSum;
    var t := TotalScore(order);
    FloorsSoFar(m, t, order, |order|);
    assert order[..|order|] == order;
    FloorEnd(m, t, |order|, TotalAmount(FloorEntries(m, t, order)), RestSum(Rests(m, t, order)));
  }

  lemma TotalAmountAppend(e: seq<Entry>, x: Entry)
    ensures TotalAmount(e + [x]) == TotalAmount(e) + x.amount
  {
    assert (e + [x])[..|e|] == e;
  }

  lemma {:induction false} TotalAmountRaise(e: seq<Entry>, k: nat)
    requires k < |e|
    ensures TotalAmount(e[k := e[k].(amount := e[k].amount + 1)]) == TotalAmount(e) + 1
  {
    var f := e[k := e[k].(amount := e[k].amount + 1)];
    if k < |e| - 1 {
      TotalAmountRaise(e[..|e| - 1], k);
      assert f[..|e| - 1] == e[..|e| - 1][k := e[k].(amount := e[k].amount + 1)];
    } else {
      assert f[..|e| - 1] == e[..|e| - 1];
    }
  }

  predicate Scales(m: nat, s: Score)
  {
    m * s.units < TWO_128
  }

  /** The first loop: floors and remainders of every score. */
  method FloorLoop(minerTotal: nat, order: seq<Score>) returns (r: Result<(seq<Entry>, seq<Remainder>, nat)>)
    requires TotalScore(order) > 0
    ensures r.Ok? <==> forall x :: x in order ==> Scales(minerTotal, x)
    ensures r.Ok? ==> r.value.0 == FloorEntries(minerTotal, TotalScore(order), order) && r.value.1 == Rests(minerTotal, TotalScore(order), order)
    ensures r.Ok? ==> TotalAmount(r.value.0) + r.value.2 == minerTotal
  {
    hide Floor, Rest, TotalScore, Scales, FloorEntries, Rests, TotalAmount;
    var t := TotalScore(order);
    var entries: seq<Entry>, rests: seq<Remainder>, floors := [], [], 0;
    FloorStart(minerTotal, t, order);
    for i := 0 to |order|
      invariant entries == FloorEntries(minerTotal, t, order[..i]) && rests == Rests(minerTotal, t, order[..i])
      invariant floors == TotalAmount(entries)
      invariant forall k :: 0 <= k < i ==> Scales(minerTotal, order[k])
    {
      if !Scales(minerTotal, order[i]) {
        assert order[i] in order;
        return Err;
      }
      FloorEntriesStep(minerTotal, t, order, i);
      var amount, rest := Floor(minerTotal, order[i], t), Rest(minerTotal, order[i], t);
      floors := floors + amount;
      entries := entries + [Entry(order[i].address, order[i].units, amount)];
      rests := rests + [rest];
    }
    assert order[..|order|] == order;
    FloorsLeave(minerTotal, order);
    return Ok((entries, rests, minerTotal - floors));
  }

  lemma FloorStart(m: nat, t: nat, order: seq<Score>)
    requires t > 0
    ensures FloorEntries(m, t, order[..0]) == [] && Rests(m, t, order[..0]) == [] && TotalAmount([]) == 0
  {
  }

  function IndexOf(e: seq<Entry>, a: string): (k: nat)
    ensures k <= |e| && (forall j :: 0 <= j < k ==> e[j].address != a)
    ensures k < |e| ==> e[k].address == a
  {
    if e == [] then 0 else if e[0].address == a then 0 else 1 + IndexOf(e[1..], a)
  }

  ghost predicate DistinctRests(s: seq<Remainder>)
  {
    forall i, j :: 0 <= i < j < |s| ==> s[i].address != s[j].address
  }

  ghost predicate Entered(base: seq<Entry>, a: string)
  {
    exists i :: 0 <= i < |base| && base[i].address == a
  }

  /** Every ranked remainder belongs to an entry. */
  ghost predicate AllEntered(base: seq<Entry>, ranked: seq<Remainder>)
  {
    forall p :: 0 <= p < |ranked| ==> Entered(base, ranked[p].address)
  }

  ghost predicate DistinctEntries(base: seq<Entry>)
  {
    forall i, j :: 0 <= i < j < |base| ==> base[i].address != base[j].address
  }

  lemma AwardsStep(base: seq<Entry>, ranked: seq<Remainder>, p: nat, k: nat)
    requires p < |ranked| && DistinctRests(ranked) && DistinctEntries(base)
    requires k < |base| && base[k].address == ranked[p].address
    ensures var before := Awards(base, ranked, p);
            Awards(base, ranked, p + 1) == before[k := before[k].(amount := before[k].amount + 1)]
  {
    hide Awarded;
    AwardStep(ranked, p);
  }

  /** Awarding n remainders raises the total by n. */
  lemma {:induction false} AwardsTotal(base: seq<Entry>, ranked: seq<Remainder>, n: nat)
    requires n <= |ranked| && DistinctRests(ranked) && AllEntered(base, ranked) && DistinctEntries(base)
    ensures TotalAmount(Awards(base, ranked, n)) == TotalAmount(base) + n
  {
    hide TotalAmount, Awarded;
    if n == 0 {
      NobodyAwarded(ranked);
      assert Awards(base, ranked, 0) == base;
    } else {
      AwardsTotal(base, ranked, n - 1);
      assert Entered(base, ranked[n - 1].address);
      var k :| 0 <= k < |base| && base[k].address == ranked[n - 1].address;
      AwardsStep(base, ranked, n - 1, k);
      TotalAmountRaise(Awards(base, ranked, n - 1), k);
    }
  }

  /** The second loop: one more atom to each of the first `leftover` remainders. */
  method AwardLoop(base: seq<Entry>, ranked: seq<Remainder>, leftover: nat) returns (entries: seq<Entry>)
    requires leftover <= |ranked| && DistinctRests(ranked) && AllEntered(base, ranked) && DistinctEntries(base)
    ensures entries == Awards(base, ranked, leftover)
    ensures TotalAmount(entries) == TotalAmount(base) + leftover
  {
    hide Awarded, TotalAmount;
    NobodyAwarded(ranked);
    entries := base;
    var left := leftover;
    for p := 0 to |ranked|
      invariant p <= leftover && left == leftover - p
      invariant entries == Awards(base, ranked, p)
    {
      if left == 0 {
        break;
      }
      assert Entered(base, ranked[p].address);
      var k := IndexOf(entries, ranked[p].address);
      var i :| 0 <= i < |base| && base[i].address == ranked[p].address;
      assert entries[i].address == ranked[p].address && k == i;
      AwardsStep(base, ranked, p, k);
      entries := entries[k := entries[k].(amount := entries[k].amount + 1)];
      left := left - 1;
    }
    AwardsTotal(base, ranked, leftover);
  }

  lemma NobodyAwarded(ranked: seq<Remainder>)
    ensures forall a :: !Awarded(ranked, 0, a)
  {
  }

  lemma AwardStep(ranked: seq<Remainder>, p: nat)
    requires p < |ranked| && DistinctRests(ranked)
    ensures !Awarded(ranked, p, ranked[p].address)
    ensures forall a :: Awarded(ranked, p + 1, a) <==> Awarded(ranked, p, a) || a == ranked[p].address
  {
  }

  lemma RankingPermutes(order: seq<Score>, rests: seq<Remainder>)
    requires |rests| == |order| && forall i :: 0 <= i < |order| ==> rests[i].address == order[i].address
    requires DistinctAddresses(order)
    ensures var ranked := Sort(rests, ByRemainder);
      && |ranked| == |order| && DistinctRests(ranked) && SortedBy(ranked, ByRemainder)
      && (forall p :: 0 <= p < |ranked| ==> ranked[p] in rests)
      && (forall i :: 0 <= i < |order| ==> rests[i] in ranked)
  {
    hide ByRemainder;
    var ranked := Sort(rests, ByRemainder);
    ByRemainderIsTotalOrder();
    SortSorted(rests, ByRemainder);
    SortMembers(rests, ByRemainder);
    DistinctRestsByMultiset(rests, ranked);
  }

  lemma DistinctRestsByMultiset(a: seq<Remainder>, b: seq<Remainder>)
    requires DistinctRests(a) && multiset(a) == multiset(b)
    ensures DistinctRests(b)
  {
    DistinctPermutation(a, b);
    forall i, j | 0 <= i < j < |b|
      ensures b[i].address != b[j].address
    {
      var p := PermutationIndex(a, b, i);
      var q := PermutationIndex(a, b, j);
      assert a[p] != a[q];
    }
  }

  /** The split's own pieces are ranked without repetition, each for an entry. */
  lemma SplitPieces(m: nat, scores: seq<Score>)
    requires DistinctAddresses(scores) && TotalScore(Ordered(scores)) > 0
    ensures var order := Ordered(scores);
            var base, ranked := FloorEntries(m, TotalScore(order), order), Sort(Rests(m, TotalScore(order), order), ByRemainder);
            && |ranked| == |order| && DistinctRests(ranked) && SortedBy(ranked, ByRemainder) && AllEntered(base, ranked) && DistinctEntries(base)
            && forall i :: 0 <= i < |order| ==> Rest(m, order[i], TotalScore(order)) in ranked
  {
    hide ByRemainder, Ordered, TotalScore, Floor, SortedBy, Sort, AllEntered;
    var order := Ordered(scores);
    var base, rests := FloorEntries(m, TotalScore(order), order), Rests(m, TotalScore(order), order);
    OrderedIsCanonical(scores, scores);
    RankingPermutes(order, rests);
    RankedAreEntries(base, rests, Sort(rests, ByRemainder));
    forall i | 0 <= i < |order|
      ensures Rest(m, order[i], TotalScore(order)) in Sort(rests, ByRemainder)
    {
      assert rests[i] == Rest(m, order[i], TotalScore(order));
    }
  }

  /** Whenever the code pays at all, what it pays is the one split that meets the conditions. */
  lemma SplitOfIsSplit(total: nat, bps: nat, scores: seq<Score>)
    requires Payable(total, bps, scores) && DistinctAddresses(scores)
    ensures IsSplit(total, bps, scores, SplitOf(total, bps, scores))
  {
    hide Scales, Multiplies, ByRemainder, Commission, Ordered, TotalScore, TotalAmount, Floor, Rest, SortedBy, Sort, Awarded, AllEntered, DistinctRests, DistinctEntries, IsSplit;
    var order, m := Ordered(scores), total - Commission(total, bps);
    var t := TotalScore(order);
    var base, ranked := FloorEntries(m, t, order), Sort(Rests(m, t, order), ByRemainder);
    FloorsLeave(m, order);
    SplitPieces(m, scores);
    AwardsTotal(base, ranked, m - TotalAmount(base));
    AwardIsSplit(total, bps, scores, ranked, m - TotalAmount(base));
  }

  /** The order in which a hash map hands out its entries does not matter. */
  lemma SplitOfPermutes(total: nat, bps: nat, a: seq<Score>, b: seq<Score>)
    requires DistinctAddresses(a) && multiset(a) == multiset(b)
    requires Payable(total, bps, a) && Payable(total, bps, b)
    ensures SplitOf(total, bps, a) == SplitOf(total, bps, b)
  {
    hide Scales, Multiplies, ByRemainder, Commission, Ordered, TotalScore, TotalAmount, FloorEntries, Rests, Sort, Awards;
    OrderedIsCanonical(a, b);
  }

  /** split_amount: retain, sort, floor, rank, award. */
  method SplitAmount(total: nat, bps: nat, scores: seq<Score>) returns (r: Result<Split>)
    requires DistinctAddresses(scores)
    ensures r.Ok? <==> Payable(total, bps, scores)
    ensures r.Ok? ==> r.value == SplitOf(total, bps, scores) && IsSplit(total, bps, scores, r.value)
  {
    hide Scales, Multiplies, ByRemainder, Commission, Ordered, TotalScore, TotalAmount, FloorEntries, Rests, IsSplit, Sort, Awards, SortedBy,
         AllEntered, DistinctRests, DistinctEntries, DistinctAddresses;
    var order := Ordered(scores);
    var t := TotalScore(order);
    if t == 0 {
      return Err;
    }
    if !Multiplies(total, bps) {
      return Err;
    }
    var commission := Commission(total, bps);
    if commission > total {
      return Err;
    }
    var minerTotal := total - commission;
    var floored := FloorLoop(minerTotal, order);
    OverflowOnlyOnKept(minerTotal, scores);
    if floored.Err? {
      return Err;
    }
    var (base, rests, leftover) := floored.value;
    SplitPieces(minerTotal, scores);
    FloorsLeave(minerTotal, order);
    var entries := AwardLoop(base, Sort(rests, ByRemainder), leftover);
    SplitOfIsSplit(total, bps, scores);
    return Ok(Split(commission, minerTotal, entries));
  }

  lemma RankedAreEntries(base: seq<Entry>, rests: seq<Remainder>, ranked: seq<Remainder>)
    requires |rests| == |base| && forall i :: 0 <= i < |base| ==> rests[i].address == base[i].address
    requires forall p :: 0 <= p < |ranked| ==> ranked[p] in rests
    ensures AllEntered(base, ranked)
  {
    forall p | 0 <= p < |ranked|
      ensures Entered(base, ranked[p].address)
    {
      assert ranked[p] in rests;
      var i :| 0 <= i < |rests| && rests[i] == ranked[p];
      assert base[i].address == ranked[p].address;
    }
  }

  lemma OverflowOnlyOnKept(m: nat, scores: seq<Score>)
    ensures (forall x :: x in Ordered(scores) ==> Scales(m, x)) <==> (forall x :: x in scores ==> Scales(m, x))
  {
    SortMembers(Kept(scores), ByAddress);
    forall x | x in scores && x.units == 0 ensures Scales(m, x) {
    }
  }

  lemma AwardIsSplit(total: nat, bps: nat, scores: seq<Score>, ranked: seq<Remainder>, leftover: nat)
    requires Payable(total, bps, scores) && leftover <= |ranked|
    requires SortedBy(ranked, ByRemainder) && DistinctRests(ranked)
    requires var m, order := total - Commission(total, bps), Ordered(scores);
             && (forall i :: 0 <= i < |order| ==> Rest(m, order[i], TotalScore(order)) in ranked)
             && TotalAmount(Awards(FloorEntries(m, TotalScore(order), order), ranked, leftover)) == m
    ensures var m, order := total - Commission(total, bps), Ordered(scores);
            IsSplit(total, bps, scores, Split(Commission(total, bps), m, Awards(FloorEntries(m, TotalScore(order), order), ranked, leftover)))
  {
    hide Floor, Rest, ByRemainder, TotalScore, TotalAmount, Ordered, Commission, Awarded, SortedBy, DistinctRests, Scales, Multiplies;
    var m, order := total - Commission(total, bps), Ordered(scores);
    var t := TotalScore(order);
    var entries := Awards(FloorEntries(m, t, order), ranked, leftover);
    forall i, j | 0 <= i < |order| && 0 <= j < |order|
      && entries[i].amount > Floor(m, order[i], t) && entries[j].amount == Floor(m, order[j], t)
      ensures ByRemainder(Rest(m, order[i], t), Rest(m, order[j], t))
    {
      RestAddress(m, order[i], t);
      RestAddress(m, order[j], t);
      TopClosed(ranked, leftover, Rest(m, order[i], t), Rest(m, order[j], t));
    }
  }

  lemma RestAddress(m: nat, s: Score, t: nat)
    requires t > 0
    ensures Rest(m, s, t).address == s.address
  {
  }

  // Whoever is awarded ranks before whoever is not.
  lemma TopClosed(ranked: seq<Remainder>, leftover: nat, x: Remainder, y: Remainder)
    requires leftover <= |ranked| && SortedBy(ranked, ByRemainder) && DistinctRests(ranked)
    requires x in ranked && y in ranked
    requires Awarded(ranked, leftover, x.address) && !Awarded(ranked, leftover, y.address)
    ensures ByRemainder(x, y)
  {
    var p :| 0 <= p < |ranked| && ranked[p] == x;
    var q :| 0 <= q < |ranked| && ranked[q] == y;
    var p' :| 0 <= p' < leftover && ranked[p'].address == x.address;
    assert p == p' && q >= leftover;
  }
}
