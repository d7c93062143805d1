/**
  The merkle commitment of src/lib.rs. The double hash is a parameter; it is only assumed to be
  collision-free on the finite set of messages that the computations at hand really hash.
 */
module Merkle {
  import opened Bytes

  const ZERO_BYTES: seq<Byte> :=
  [0, 0, 0, 0, 0, 0, 0, 0, 0, 0, 0, 0, 0, 0, 0, 0,
    0, 0, 0, 0, 0, 0, 0, 0, 0, 0, 0, 0, 0, 0, 0, 0]

  type Hash = h: seq<Byte> | |h| == 32 witness ZERO_BYTES
  type Hasher = seq<Byte> -> Hash

  const ZERO_HASH: Hash := ZERO_BYTES

  ghost predicate InjectiveOn(h: Hasher, messages: set<seq<Byte>>)
  {
    forall x, y :: x in messages && y in messages && h(x) == h(y) ==> x == y
  }

  function Pair(a: Hash, b: Hash): (r: seq<Byte>)
    ensures |r| == 64 && r[..32] == a && r[32..] == b
  {
    var left: seq<Byte>, right: seq<Byte> := a, b;
    left + right
  }

  /** The messages of one layer; an odd last entry is paired with itself. */
  function PairMessages(layer: seq<Hash>): (r: seq<seq<Byte>>)
    ensures |r| == (|layer| + 1) / 2
    ensures forall i :: 0 <= i < |r| ==> r[i] == Pair(layer[2 * i], if 2 * i + 1 < |layer| then layer[2 * i + 1] else layer[2 * i])
  {
    seq((|layer| + 1) / 2, i requires 0 <= i < (|layer| + 1) / 2 =>
      Pair(layer[2 * i], if 2 * i + 1 < |layer| then layer[2 * i + 1] else layer[2 * i]))
  }

  function NextLayer(h: Hasher, layer: seq<Hash>): (r: seq<Hash>)
    ensures |r| == (|layer| + 1) / 2
    ensures forall i :: 0 <= i < |r| ==> r[i] == h(PairMessages(layer)[i])
  {
    seq<Hash>((|layer| + 1) / 2, i requires 0 <= i < (|layer| + 1) / 2 => h(PairMessages(layer)[i]))
  }

  function Root(h: Hasher, layer: seq<Hash>): Hash
    decreases |layer|
  {
    if layer == [] then ZERO_HASH
    else if |layer| == 1 then layer[0]
    else Root(h, NextLayer(h, layer))
  }

  function Depth(h: Hasher, layer: seq<Hash>): nat
    decreases |layer|
  {
    if |layer| <= 1 then 0 else 1 + Depth(h, NextLayer(h, layer))
  }

  /** Everything hashed while computing a root. */
  ghost function Messages(h: Hasher, layer: seq<Hash>): set<seq<Byte>>
    decreases |layer|
  {
    if |layer| <= 1 then {}
    else (set m | m in PairMessages(layer)) + Messages(h, NextLayer(h, layer))
  }

  predicate NoDuplicates(layer: seq<Hash>)
  {
    forall i, j :: 0 <= i < j < |layer| ==> layer[i] != layer[j]
  }

  function Padded(layer: seq<Hash>): (r: seq<Hash>)
    ensures |r| % 2 == 0 && (|layer| + 1) / 2 == |r| / 2
  {
    if |layer| % 2 == 1 then layer + [layer[|layer| - 1]] else layer
  }

  lemma NextLayerAt(h: Hasher, layer: seq<Hash>, i: nat)
    requires 2 * i + 1 < |Padded(layer)|
    ensures i < |NextLayer(h, layer)| && NextLayer(h, layer)[i] == h(Pair(Padded(layer)[2 * i], Padded(layer)[2 * i + 1]))
  {
  }

  /** merkle_root: rebuild the layer until one entry is left. */
  method MerkleRoot(h: Hasher, leaves: seq<Hash>) returns (root: Hash)
    ensures root == Root(h, leaves)
  {
    if |leaves| == 0 {
      return ZERO_HASH;
    }
    var layer := leaves;
    while |layer| > 1
      invariant |layer| >= 1 && Root(h, layer) == Root(h, leaves)
      decreases |layer|
    {
      layer := PairUp(h, layer);
    }
    root := layer[0];
  }

  /** One pass over the layer, two entries at a time. */
  method PairUp(h: Hasher, before: seq<Hash>) returns (next: seq<Hash>)
    ensures next == NextLayer(h, before)
  {
    hide NextLayer, Pair;
    var layer := Padded(before);
    next := [];
    var i := 0;
    while i < |layer|
      invariant 0 <= i <= |layer| && i % 2 == 0 && |next| == i / 2
      invariant forall k :: 0 <= k < |next| ==> next[k] == NextLayer(h, before)[k]
    {
      NextLayerAt(h, before, i / 2);
      next := next + [h(Pair(layer[i], layer[i + 1]))];
      i := i + 2;
    }
  }

  // ---- Equal depths ------------------------------------------------------------------------

  // Within one duplicate-free layer, different pairs are different messages.
  lemma PairMessagesDistinct(layer: seq<Hash>, i: nat, j: nat)
    requires NoDuplicates(layer) && i < j < |PairMessages(layer)|
    ensures PairMessages(layer)[i] != PairMessages(layer)[j]
  {
    var m := PairMessages(layer);
    if m[i] == m[j] {
      assert m[i][..32] == layer[2 * i] && m[j][..32] == layer[2 * j];
    }
  }

  lemma NextLayerDistinct(h: Hasher, layer: seq<Hash>)
    requires NoDuplicates(layer) && |layer| > 1 && InjectiveOn(h, Messages(h, layer))
    ensures NoDuplicates(NextLayer(h, layer))
  {
    var m, next := PairMessages(layer), NextLayer(h, layer);
    forall i, j | 0 <= i < j < |next|
      ensures next[i] != next[j]
    {
      PairMessagesDistinct(layer, i, j);
      assert m[i] in Messages(h, layer) && m[j] in Messages(h, layer);
    }
  }

  lemma SamePairCount(a: seq<Hash>, b: seq<Hash>)
    requires PairMessages(a) == PairMessages(b)
    ensures (|a| + 1) / 2 == (|b| + 1) / 2 == |PairMessages(a)|
  {
  }

  // The pairing forgets the length only when the last two entries are equal.
  lemma SamePairsSameLayer(a: seq<Hash>, b: seq<Hash>)
    requires PairMessages(a) == PairMessages(b) && NoDuplicates(a) && NoDuplicates(b)
    ensures a == b
  {
    hide PairMessages, NoDuplicates;
    var n := (|a| + 1) / 2;
    SamePairCount(a, b);
    forall i | 0 <= i < n
      ensures 2 * i < |a| && 2 * i < |b| && a[2 * i] == b[2 * i]
      ensures 2 * i + 1 < |a| <==> 2 * i + 1 < |b|
      ensures 2 * i + 1 < |a| ==> a[2 * i + 1] == b[2 * i + 1]
    {
      SamePairSameEntries(a, b, i);
    }
    if n > 0 {
      assert 2 * (n - 1) + 1 < |a| <==> 2 * (n - 1) + 1 < |b|;
    }
    forall k | 0 <= k < |a|
      ensures a[k] == b[k]
    {
      assert k == 2 * (k / 2) || k == 2 * (k / 2) + 1;
    }
  }

  lemma SamePairSameEntries(a: seq<Hash>, b: seq<Hash>, i: nat)
    requires NoDuplicates(a) && NoDuplicates(b) && |PairMessages(a)| == |PairMessages(b)|
    requires i < |PairMessages(a)| && PairMessages(a)[i] == PairMessages(b)[i]
    ensures a[2 * i] == b[2 * i] && (2 * i + 1 < |a| <==> 2 * i + 1 < |b|)
    ensures 2 * i + 1 < |a| ==> a[2 * i + 1] == b[2 * i + 1]
  {
    var x, y := PairMessages(a)[i], PairMessages(b)[i];
    assert x[..32] == y[..32] && x[32..] == y[32..];
  }

  lemma {:induction false} SameDepthSameLeaves(h: Hasher, a: seq<Hash>, b: seq<Hash>)
    requires a != [] && b != [] && NoDuplicates(a) && NoDuplicates(b)
    requires InjectiveOn(h, Messages(h, a) + Messages(h, b))
    requires Depth(h, a) == Depth(h, b) && Root(h, a) == Root(h, b)
    ensures a == b
    decreases |a|
  {
    if |a| > 1 {
      var na, nb := NextLayer(h, a), NextLayer(h, b);
      NextLayerDistinct(h, a);
      NextLayerDistinct(h, b);
      SameDepthSameLeaves(h, na, nb);
      var ma, mb := PairMessages(a), PairMessages(b);
      forall i | 0 <= i < |ma| ensures ma[i] == mb[i] {
        assert na[i] == nb[i];
        assert ma[i] in Messages(h, a) && mb[i] in Messages(h, b);
      }
      SamePairsSameLayer(a, b);
    }
  }

  // ---- Different depths --------------------------------------------------------------------

  // The left half of a message above the leaf layer is itself the hash of a message.
  lemma {:induction false} InnerMessage(h: Hasher, layer: seq<Hash>, m: seq<Byte>) returns (below: seq<Byte>)
    requires |layer| > 1 && m in Messages(h, NextLayer(h, layer))
    ensures |m| == 64 && below in Messages(h, layer) && m[..32] == h(below)
    decreases |layer|
  {
    var next := NextLayer(h, layer);
    if m in PairMessages(next) {
      below := MessageBelow(h, layer, m);
    } else {
      below := InnerMessage(h, next, m);
    }
  }

  lemma MessageBelow(h: Hasher, layer: seq<Hash>, m: seq<Byte>) returns (below: seq<Byte>)
    requires |layer| > 1 && m in PairMessages(NextLayer(h, layer))
    ensures |m| == 64 && below in PairMessages(layer) && m[..32] == h(below)
  {
    var next := NextLayer(h, layer);
    var i :| 0 <= i < |PairMessages(next)| && m == PairMessages(next)[i];
    below := PairMessages(layer)[2 * i];
    assert m[..32] == next[2 * i];
  }

  // If a's tree is shallower, its first leaf must be the hash of a message of b.
  lemma {:induction false} ShallowerLeafIsHash(h: Hasher, a: seq<Hash>, b: seq<Hash>) returns (m: seq<Byte>)
    requires a != [] && b != [] && Depth(h, a) < Depth(h, b) && Root(h, a) == Root(h, b)
    requires InjectiveOn(h, Messages(h, a) + Messages(h, b))
    ensures m in Messages(h, b) && a[0] == h(m)
    decreases |a|
  {
    if |a| == 1 {
      m := RootMessage(h, b);
    } else {
      var na, nb := NextLayer(h, a), NextLayer(h, b);
      var top := ShallowerLeafIsHash(h, na, nb);
      assert PairMessages(a)[0] in Messages(h, a) && top in Messages(h, b);
      assert na[0] == h(PairMessages(a)[0]);
      assert PairMessages(a)[0] == top && top[..32] == a[0];
      m := InnerMessage(h, b, top);
    }
  }

  lemma {:induction false} RootMessage(h: Hasher, b: seq<Hash>) returns (m: seq<Byte>)
    requires |b| > 1
    ensures m in Messages(h, b) && Root(h, b) == h(m)
    decreases |b|
  {
    var nb := NextLayer(h, b);
    if |nb| == 1 {
      m := PairMessages(b)[0];
      assert m in PairMessages(b);
    } else {
      m := RootMessage(h, nb);
    }
  }

  // ---- Main results ------------------------------------------------------------------------

  ghost predicate NoLeafIsHashOf(h: Hasher, leaves: seq<Hash>, messages: set<seq<Byte>>)
  {
    forall i, m :: 0 <= i < |leaves| && m in messages ==> leaves[i] != h(m)
  }

  /** Equal roots of duplicate-free leaf lists of any lengths come from equal lists. */
  lemma RootIsInjective(h: Hasher, a: seq<Hash>, b: seq<Hash>)
    requires a != [] && b != [] && NoDuplicates(a) && NoDuplicates(b)
    requires InjectiveOn(h, Messages(h, a) + Messages(h, b))
    requires NoLeafIsHashOf(h, a, Messages(h, b)) && NoLeafIsHashOf(h, b, Messages(h, a))
    requires Root(h, a) == Root(h, b)
    ensures a == b
  {
    if Depth(h, a) < Depth(h, b) {
      var m := ShallowerLeafIsHash(h, a, b);
    } else if Depth(h, b) < Depth(h, a) {
      assert Messages(h, a) + Messages(h, b) == Messages(h, b) + Messages(h, a);
      var m := ShallowerLeafIsHash(h, b, a);
    } else {
      SameDepthSameLeaves(h, a, b);
    }
  }

  /** Without the duplicate check the root does not determine the list: repeating an odd last leaf keeps it. */
  lemma DuplicatedLastLeafKeepsRoot(h: Hasher, a: seq<Hash>)
    requires |a| > 1 && |a| % 2 == 1
    ensures var b := a + [a[|a| - 1]]; b != a && Root(h, b) == Root(h, a) && !NoDuplicates(b)
  {
    var b := a + [a[|a| - 1]];
    assert PairMessages(b) == PairMessages(a);
    assert NextLayer(h, b) == NextLayer(h, a);
    assert b[|a| - 1] == b[|a|];
  }
}
