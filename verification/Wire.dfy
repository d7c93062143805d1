/** Transactions, headers and blocks with their byte serialization (src/lib.rs). */
module Wire {
  import opened Bytes
  import opened Merkle
  import opened Outcome

  type U32 = x: int | 0 <= x < 0x1_0000_0000
  type U64 = x: int | 0 <= x < 0x1_0000_0000_0000_0000
  type Script = seq<Byte>

  datatype OutPoint = OutPoint(txid: Hash, vout: U32)
  datatype TxIn = TxIn(previous: OutPoint, script: Script, sequence: U32)
  datatype TxOut = TxOut(value: U64, script: Script)
  datatype Transaction = Transaction(version: U32, inputs: seq<TxIn>, outputs: seq<TxOut>, locktime: U32)
  datatype Header = Header(version: U32, prev: Hash, merkleRoot: Hash, time: U32, bits: U32, nonce: U32)
  datatype Block = Block(header: Header, transactions: seq<Transaction>)

  /** All transactions but the coinbase. */
  function AfterCoinbase(b: Block): seq<Transaction>
  {
    if b.transactions == [] then [] else b.transactions[1..]
  }

  /** An unspent output with the height and kind of transaction that created it. */
  datatype Coin = Coin(out: TxOut, height: nat, isCoinbase: bool)
  type Utxos = map<OutPoint, Coin>

  /** Vector lengths fit the 64-bit word they are written as. */
  predicate Sized(tx: Transaction)
  {
    && |tx.inputs| < TWO_64 && |tx.outputs| < TWO_64
    && (forall i :: 0 <= i < |tx.inputs| ==> |tx.inputs[i].script| < TWO_64)
    && (forall i :: 0 <= i < |tx.outputs| ==> |tx.outputs[i].script| < TWO_64)
  }

  // ---- Encoders ----------------------------------------------------------------------------

  function LeBytes(v: nat, width: nat): (r: seq<Byte>)
    ensures |r| == width
  {
    if width == 0 then [] else [v % 256] + LeBytes(v / 256, width - 1)
  }

  function VarInt(v: nat): (r: seq<Byte>)
    requires v < TWO_64
    ensures r != []
  {
    if v <= 0xfc then [v]
    else if v <= 0xffff then [0xfd] + LeBytes(v, 2)
    else if v <= 0xffff_ffff then [0xfe] + LeBytes(v, 4)
    else [0xff] + LeBytes(v, 8)
  }

  function VarBytes(b: seq<Byte>): seq<Byte>
    requires |b| < TWO_64
  {
    VarInt(|b|) + b
  }

  function EncodeIn(input: TxIn): seq<Byte>
    requires |input.script| < TWO_64
  {
    input.previous.txid + LeBytes(input.previous.vout, 4) + VarBytes(input.script) + LeBytes(input.sequence, 4)
  }

  function EncodeOut(output: TxOut): seq<Byte>
    requires |output.script| < TWO_64
  {
    LeBytes(output.value, 8) + VarBytes(output.script)
  }

  function EncodeIns(ins: seq<TxIn>): seq<Byte>
    requires forall i :: 0 <= i < |ins| ==> |ins[i].script| < TWO_64
  {
    if ins == [] then [] else EncodeIn(ins[0]) + EncodeIns(ins[1..])
  }

  function EncodeOuts(outs: seq<TxOut>): seq<Byte>
    requires forall i :: 0 <= i < |outs| ==> |outs[i].script| < TWO_64
  {
    if outs == [] then [] else EncodeOut(outs[0]) + EncodeOuts(outs[1..])
  }

  function Serialize(tx: Transaction): seq<Byte>
    requires Sized(tx)
  {
    LeBytes(tx.version, 4)
    + (VarInt(|tx.inputs|) + (EncodeIns(tx.inputs)
    + (VarInt(|tx.outputs|) + (EncodeOuts(tx.outputs)
    + LeBytes(tx.locktime, 4)))))
  }

  /** The transaction a signature hash is computed on: one script in place, the others empty. */
  function Blanked(tx: Transaction, index: nat, script: Script): (r: Transaction)
    ensures |r.inputs| == |tx.inputs|
    ensures Sized(tx) && |script| < TWO_64 ==> Sized(r)
  {
    tx.(inputs := seq(|tx.inputs|, i requires 0 <= i < |tx.inputs| =>
      tx.inputs[i].(script := if i == index then script else [])))
  }

  function SighashMessage(tx: Transaction, index: nat, script: Script): seq<Byte>
    requires Sized(tx) && |script| < TWO_64
  {
    Serialize(Blanked(tx, index, script)) + LeBytes(1, 4)
  }

  function SerializeHeader(x: Header): (r: seq<Byte>)
    ensures |r| == 80
  {
    var prev: seq<Byte>, root: seq<Byte> := x.prev, x.merkleRoot;
    LeBytes(x.version, 4) + (prev + (root + (LeBytes(x.time, 4) + (LeBytes(x.bits, 4) + LeBytes(x.nonce, 4)))))
  }

  // ---- The serializer's loops --------------------------------------------------------------

  lemma {:induction false} EncodeInsAppend(ins: seq<TxIn>, x: TxIn)
    requires (forall i :: 0 <= i < |ins| ==> |ins[i].script| < TWO_64) && |x.script| < TWO_64
    ensures EncodeIns(ins + [x]) == EncodeIns(ins) + EncodeIn(x)
  {
    hide EncodeIn;
    if ins == [] {
      assert ins + [x] == [x] && [x][1..] == [];
      assert EncodeIns([x]) == EncodeIn(x) + EncodeIns([]);
    } else {
      EncodeInsAppend(ins[1..], x);
      assert (ins + [x])[1..] == ins[1..] + [x];
    }
  }

  lemma {:induction false} EncodeOutsAppend(outs: seq<TxOut>, x: TxOut)
    requires (forall i :: 0 <= i < |outs| ==> |outs[i].script| < TWO_64) && |x.script| < TWO_64
    ensures EncodeOuts(outs + [x]) == EncodeOuts(outs) + EncodeOut(x)
  {
    hide EncodeOut;
    if outs == [] {
      assert outs + [x] == [x] && [x][1..] == [];
      assert EncodeOuts([x]) == EncodeOut(x) + EncodeOuts([]);
    } else {
      EncodeOutsAppend(outs[1..], x);
      assert (outs + [x])[1..] == outs[1..] + [x];
    }
  }

  lemma EncodeInsStep(ins: seq<TxIn>, i: nat)
    requires EncodeInsReady(ins) && i < |ins|
    ensures EncodeIns(ins[..i + 1]) == EncodeIns(ins[..i]) + EncodeIn(ins[i])
  {
    hide EncodeIns, EncodeIn;
    EncodeInsAppend(ins[..i], ins[i]);
    assert ins[..i] + [ins[i]] == ins[..i + 1];
  }

  lemma EncodeOutsStep(outs: seq<TxOut>, i: nat)
    requires EncodeOutsReady(outs) && i < |outs|
    ensures EncodeOuts(outs[..i + 1]) == EncodeOuts(outs[..i]) + EncodeOut(outs[i])
  {
    hide EncodeOuts, EncodeOut;
    EncodeOutsAppend(outs[..i], outs[i]);
    assert outs[..i] + [outs[i]] == outs[..i + 1];
  }

  /** The transaction that the serializer shows for a given override. */
  function Shown(tx: Transaction, override: Option<(nat, Script)>): Transaction
  {
    match override
    case Some((index, script)) => Blanked(tx, index, script)
    case None => tx
  }

  /** serialize: one growing buffer; `override` replaces one script and empties the others. */
  method SerializeTransaction(tx: Transaction, override: Option<(nat, Script)>) returns (out: seq<Byte>)
    requires Sized(tx) && (override.Some? ==> |override.value.1| < TWO_64)
    ensures Sized(Shown(tx, override)) && out == Serialize(Shown(tx, override))
  {
    hide EncodeIn, EncodeOut, EncodeIns, EncodeOuts, LeBytes, VarInt, Serialize;
    ghost var shown := Shown(tx, override);
    out := LeBytes(tx.version, 4) + VarInt(|tx.inputs|);
    ghost var ins := [];
    NothingEncoded();
    for i := 0 to |tx.inputs|
      invariant ins == EncodeIns(shown.inputs[..i])
      invariant out == LeBytes(tx.version, 4) + VarInt(|tx.inputs|) + ins
    {
      var input := tx.inputs[i];
      var script := match override
        case Some((idx, s)) => if idx == i then s else []
        case None => input.script;
      EncodeInsStep(shown.inputs, i);
      var code := EncodeIn(TxIn(input.previous, script, input.sequence));
      out, ins := out + code, ins + code;
    }
    assert shown.inputs[..|tx.inputs|] == shown.inputs;
    out := out + VarInt(|tx.outputs|);
    ghost var outs, head := [], out;
    for i := 0 to |tx.outputs|
      invariant outs == EncodeOuts(tx.outputs[..i])
      invariant out == head + outs
    {
      EncodeOutsStep(tx.outputs, i);
      var code := EncodeOut(tx.outputs[i]);
      out, outs := out + code, outs + code;
    }
    assert tx.outputs[..|tx.outputs|] == tx.outputs;
    out := out + LeBytes(tx.locktime, 4);
    SerializeParts(shown);
  }

  lemma NothingEncoded()
    ensures EncodeIns([]) == [] && EncodeOuts([]) == []
  {
  }

  lemma SerializeParts(tx: Transaction)
    requires Sized(tx)
    ensures Serialize(tx) == LeBytes(tx.version, 4) + VarInt(|tx.inputs|) + EncodeIns(tx.inputs)
      + VarInt(|tx.outputs|) + EncodeOuts(tx.outputs) + LeBytes(tx.locktime, 4)
  {
    hide EncodeIns, EncodeOuts, LeBytes, VarInt;
  }

  // ---- Prefix-free decoding ----------------------------------------------------------------

  // Equal-length heads of equal strings are equal.
  lemma SplitAt(a: seq<Byte>, r: seq<Byte>, b: seq<Byte>, s: seq<Byte>)
    requires a + r == b + s && |a| == |b|
    ensures a == b && r == s
  {
    assert a == (a + r)[..|a|] && r == (a + r)[|a|..];
    assert b == (b + s)[..|b|] && s == (b + s)[|b|..];
  }

  lemma {:induction false} LeBytesInjective(v: nat, w: nat, width: nat)
    requires LeBytes(v, width) == LeBytes(w, width) && v < Power256(width) && w < Power256(width)
    ensures v == w
  {
    if width > 0 {
      var x, y := LeBytes(v, width), LeBytes(w, width);
      assert x[0] == y[0] && x[1..] == y[1..];
      LeBytesInjective(v / 256, w / 256, width - 1);
    }
  }

  lemma Powers()
    ensures Power256(2) == 0x1_0000 && Power256(4) == 0x1_0000_0000 && Power256(8) == 0x1_0000_0000_0000_0000
  {
    assert Power256(1) == 256 * Power256(0);
    assert Power256(2) == 256 * Power256(1) && Power256(3) == 256 * Power256(2);
    assert Power256(4) == 256 * Power256(3) && Power256(5) == 256 * Power256(4);
    assert Power256(6) == 256 * Power256(5) && Power256(7) == 256 * Power256(6);
    assert Power256(8) == 256 * Power256(7);
  }

  lemma WordPrefix(v: nat, w: nat, width: nat, r: seq<Byte>, s: seq<Byte>)
    requires LeBytes(v, width) + r == LeBytes(w, width) + s
    requires v < Power256(width) && w < Power256(width)
    ensures v == w && r == s
  {
    SplitAt(LeBytes(v, width), r, LeBytes(w, width), s);
    LeBytesInjective(v, w, width);
  }

  /** The variable-length integer is canonical and prefix-free. */
  lemma VarIntPrefix(v: nat, w: nat, r: seq<Byte>, s: seq<Byte>)
    requires v < TWO_64 && w < TWO_64 && VarInt(v) + r == VarInt(w) + s
    ensures v == w && r == s
  {
    assert (VarInt(v) + r)[0] == VarInt(v)[0] && (VarInt(w) + s)[0] == VarInt(w)[0];
    SplitAt(VarInt(v), r, VarInt(w), s);
    Powers();
    if v > 0xfc {
      assert VarInt(v)[1..] == VarInt(w)[1..];
      if v <= 0xffff {
        LeBytesInjective(v, w, 2);
      } else if v <= 0xffff_ffff {
        LeBytesInjective(v, w, 4);
      } else {
        LeBytesInjective(v, w, 8);
      }
    }
  }

  lemma VarBytesPrefix(a: seq<Byte>, b: seq<Byte>, r: seq<Byte>, s: seq<Byte>)
    requires |a| < TWO_64 && |b| < TWO_64 && VarBytes(a) + r == VarBytes(b) + s
    ensures a == b && r == s
  {
    assert VarInt(|a|) + (a + r) == VarBytes(a) + r && VarInt(|b|) + (b + s) == VarBytes(b) + s;
    VarIntPrefix(|a|, |b|, a + r, b + s);
    SplitAt(a, r, b, s);
  }

  lemma EncodeInPrefix(x: TxIn, y: TxIn, r: seq<Byte>, s: seq<Byte>)
    requires |x.script| < TWO_64 && |y.script| < TWO_64 && EncodeIn(x) + r == EncodeIn(y) + s
    ensures x == y && r == s
  {
    hide LeBytes, VarBytes;
    Powers();
    var xt: seq<Byte>, yt: seq<Byte> := x.previous.txid, y.previous.txid;
    var x3, y3 := LeBytes(x.sequence, 4) + r, LeBytes(y.sequence, 4) + s;
    var x2, y2 := VarBytes(x.script) + x3, VarBytes(y.script) + y3;
    var x1, y1 := LeBytes(x.previous.vout, 4) + x2, LeBytes(y.previous.vout, 4) + y2;
    assert xt + x1 == EncodeIn(x) + r && yt + y1 == EncodeIn(y) + s;
    SplitAt(xt, x1, yt, y1);
    WordPrefix(x.previous.vout, y.previous.vout, 4, x2, y2);
    VarBytesPrefix(x.script, y.script, x3, y3);
    WordPrefix(x.sequence, y.sequence, 4, r, s);
  }

  lemma EncodeOutPrefix(x: TxOut, y: TxOut, r: seq<Byte>, s: seq<Byte>)
    requires |x.script| < TWO_64 && |y.script| < TWO_64 && EncodeOut(x) + r == EncodeOut(y) + s
    ensures x == y && r == s
  {
    hide LeBytes, VarBytes;
    Powers();
    var x1, y1 := VarBytes(x.script) + r, VarBytes(y.script) + s;
    assert LeBytes(x.value, 8) + x1 == EncodeOut(x) + r && LeBytes(y.value, 8) + y1 == EncodeOut(y) + s;
    WordPrefix(x.value, y.value, 8, x1, y1);
    VarBytesPrefix(x.script, y.script, r, s);
  }

  lemma {:induction false} EncodeInsPrefix(a: seq<TxIn>, b: seq<TxIn>, r: seq<Byte>, s: seq<Byte>)
    requires |a| == |b| && EncodeInsReady(a) && EncodeInsReady(b) && EncodeIns(a) + r == EncodeIns(b) + s
    ensures a == b && r == s
  {
    hide EncodeIn;
    if a != [] {
      var ra, rb := EncodeIns(a[1..]) + r, EncodeIns(b[1..]) + s;
      assert EncodeIn(a[0]) + ra == EncodeIns(a) + r && EncodeIn(b[0]) + rb == EncodeIns(b) + s;
      EncodeInPrefix(a[0], b[0], ra, rb);
      EncodeInsPrefix(a[1..], b[1..], r, s);
      assert a == [a[0]] + a[1..] && b == [b[0]] + b[1..];
    } else {
      assert EncodeIns(a) + r == r && EncodeIns(b) + s == s;
    }
  }

  predicate EncodeInsReady(a: seq<TxIn>)
  {
    forall i :: 0 <= i < |a| ==> |a[i].script| < TWO_64
  }

  predicate EncodeOutsReady(a: seq<TxOut>)
  {
    forall i :: 0 <= i < |a| ==> |a[i].script| < TWO_64
  }

  lemma {:induction false} EncodeOutsPrefix(a: seq<TxOut>, b: seq<TxOut>, r: seq<Byte>, s: seq<Byte>)
    requires |a| == |b| && EncodeOutsReady(a) && EncodeOutsReady(b) && EncodeOuts(a) + r == EncodeOuts(b) + s
    ensures a == b && r == s
  {
    hide EncodeOut;
    if a != [] {
      var ra, rb := EncodeOuts(a[1..]) + r, EncodeOuts(b[1..]) + s;
      assert EncodeOut(a[0]) + ra == EncodeOuts(a) + r && EncodeOut(b[0]) + rb == EncodeOuts(b) + s;
      EncodeOutPrefix(a[0], b[0], ra, rb);
      EncodeOutsPrefix(a[1..], b[1..], r, s);
      assert a == [a[0]] + a[1..] && b == [b[0]] + b[1..];
    } else {
      assert EncodeOuts(a) + r == r && EncodeOuts(b) + s == s;
    }
  }

  // ---- Where every field stands ------------------------------------------------------------

  /** A word is written with its lowest byte first. */
  lemma {:induction false} LeBytesMean(v: nat, width: nat)
    requires v < Power256(width)
    ensures LittleEndian(LeBytes(v, width)) == v
  {
    if width > 0 {
      LeBytesMean(v / 256, width - 1);
    }
  }

  lemma WordsMean(v: nat)
    ensures v < 0x1_0000 ==> LittleEndian(LeBytes(v, 2)) == v
    ensures v < 0x1_0000_0000 ==> LittleEndian(LeBytes(v, 4)) == v
    ensures v < TWO_64 ==> LittleEndian(LeBytes(v, 8)) == v
  {
    hide LeBytes, LittleEndian, Power256;
    Powers();
    if v < 0x1_0000 {
      LeBytesMean(v, 2);
    }
    if v < 0x1_0000_0000 {
      LeBytesMean(v, 4);
    }
    if v < TWO_64 {
      LeBytesMean(v, 8);
    }
  }

  /** A length is one byte up to 252, else a marker and the least of two, four or eight bytes that hold it. */
  lemma VarIntMeans(v: nat)
    requires v < TWO_64
    ensures var r := VarInt(v);
            && |r| == (if v < 253 then 1 else if v < 0x1_0000 then 3 else if v < 0x1_0000_0000 then 5 else 9)
            && (v < 253 ==> r[0] == v) && (v >= 253 ==> LittleEndian(r[1..]) == v)
            && (|r| == 3 ==> r[0] == 253) && (|r| == 5 ==> r[0] == 254) && (|r| == 9 ==> r[0] == 255)
  {
    hide LeBytes, LittleEndian;
    WordsMean(v);
  }

  lemma InputLayout(x: TxIn)
    requires |x.script| < TWO_64
    ensures var b := EncodeIn(x);
            && |b| >= 40 && b[..32] == x.previous.txid && LittleEndian(b[32..36]) == x.previous.vout
            && b[36..|b| - 4] == VarInt(|x.script|) + x.script && LittleEndian(b[|b| - 4..]) == x.sequence
  {
    hide LeBytes, LittleEndian, VarInt;
    WordsMean(x.previous.vout);
    WordsMean(x.sequence);
    var b, n := EncodeIn(x), |EncodeIn(x)|;
    assert b[32..36] == LeBytes(x.previous.vout, 4) && b[n - 4..] == LeBytes(x.sequence, 4);
  }

  lemma OutputLayout(x: TxOut)
    requires |x.script| < TWO_64
    ensures var b := EncodeOut(x); |b| >= 8 && LittleEndian(b[..8]) == x.value && b[8..] == VarInt(|x.script|) + x.script
  {
    hide LeBytes, LittleEndian, VarInt;
    WordsMean(x.value);
    assert EncodeOut(x)[..8] == LeBytes(x.value, 8);
  }

  /** The six header fields stand at fixed places. */
  lemma HeaderLayout(x: Header)
    ensures var b := SerializeHeader(x);
            && LittleEndian(b[..4]) == x.version && b[4..36] == x.prev && b[36..68] == x.merkleRoot
            && LittleEndian(b[68..72]) == x.time && LittleEndian(b[72..76]) == x.bits && LittleEndian(b[76..]) == x.nonce
  {
    hide LeBytes, LittleEndian;
    WordsMean(x.version);
    WordsMean(x.time);
    WordsMean(x.bits);
    WordsMean(x.nonce);
    var b := SerializeHeader(x);
    assert b[..4] == LeBytes(x.version, 4) && b[68..72] == LeBytes(x.time, 4);
    assert b[72..76] == LeBytes(x.bits, 4) && b[76..] == LeBytes(x.nonce, 4);
  }

  /** What is signed is a serialized transaction with the same unsigned part, and the word that asks for all of it. */
  lemma SighashLayout(tx: Transaction, index: nat, script: Script)
    requires Sized(tx) && |script| < TWO_64 && index < |tx.inputs|
    ensures var (m, t) := (SighashMessage(tx, index, script), Blanked(tx, index, script));
            && |m| >= 4 && Sized(t) && m[..|m| - 4] == Serialize(t) && LittleEndian(m[|m| - 4..]) == 1
            && SameUnsigned(tx, t) && forall i :: 0 <= i < |tx.inputs| ==> t.inputs[i].script == if i == index then script else []
  {
    hide LeBytes, LittleEndian, Serialize;
    WordsMean(1);
    var m := SighashMessage(tx, index, script);
    assert m[|m| - 4..] == LeBytes(1, 4);
  }

  // ---- Main results ------------------------------------------------------------------------

  /** Equal serializations, even with bytes following them, come from equal transactions. */
  lemma SerializePrefix(a: Transaction, b: Transaction, r: seq<Byte>, s: seq<Byte>)
    requires Sized(a) && Sized(b) && Serialize(a) + r == Serialize(b) + s
    ensures a == b && r == s
  {
    hide LeBytes, VarInt, EncodeIns, EncodeOuts;
    Powers();
    var a5, b5 := LeBytes(a.locktime, 4) + r, LeBytes(b.locktime, 4) + s;
    var a4, b4 := EncodeOuts(a.outputs) + a5, EncodeOuts(b.outputs) + b5;
    var a3, b3 := VarInt(|a.outputs|) + a4, VarInt(|b.outputs|) + b4;
    var a2, b2 := EncodeIns(a.inputs) + a3, EncodeIns(b.inputs) + b3;
    var a1, b1 := VarInt(|a.inputs|) + a2, VarInt(|b.inputs|) + b2;
    assert LeBytes(a.version, 4) + a1 == Serialize(a) + r;
    assert LeBytes(b.version, 4) + b1 == Serialize(b) + s;
    WordPrefix(a.version, b.version, 4, a1, b1);
    VarIntPrefix(|a.inputs|, |b.inputs|, a2, b2);
    EncodeInsPrefix(a.inputs, b.inputs, a3, b3);
    VarIntPrefix(|a.outputs|, |b.outputs|, a4, b4);
    EncodeOutsPrefix(a.outputs, b.outputs, a5, b5);
    WordPrefix(a.locktime, b.locktime, 4, r, s);
  }

  lemma SerializeInjective(a: Transaction, b: Transaction)
    requires Sized(a) && Sized(b) && Serialize(a) == Serialize(b)
    ensures a == b
  {
    assert Serialize(a) + [] == Serialize(a) && Serialize(b) + [] == Serialize(b);
    SerializePrefix(a, b, [], []);
  }

  lemma HeaderInjective(a: Header, b: Header)
    requires SerializeHeader(a) == SerializeHeader(b)
    ensures a == b
  {
    hide LeBytes;
    Powers();
    var ap: seq<Byte>, am: seq<Byte>, bp: seq<Byte>, bm: seq<Byte> := a.prev, a.merkleRoot, b.prev, b.merkleRoot;
    var a5, b5 := LeBytes(a.nonce, 4), LeBytes(b.nonce, 4);
    var a4, b4 := LeBytes(a.bits, 4) + a5, LeBytes(b.bits, 4) + b5;
    var a3, b3 := LeBytes(a.time, 4) + a4, LeBytes(b.time, 4) + b4;
    var a2, b2 := am + a3, bm + b3;
    var a1, b1 := ap + a2, bp + b2;
    assert LeBytes(a.version, 4) + a1 == LeBytes(b.version, 4) + b1;
    WordPrefix(a.version, b.version, 4, a1, b1);
    SplitAt(ap, a2, bp, b2);
    SplitAt(am, a3, bm, b3);
    WordPrefix(a.time, b.time, 4, a4, b4);
    WordPrefix(a.bits, b.bits, 4, a5, b5);
    LeBytesInjective(a.nonce, b.nonce, 4);
  }

  /** Everything a signature commits to: all of the transaction but its scripts. */
  ghost predicate SameUnsigned(a: Transaction, b: Transaction)
  {
    && a.version == b.version && a.outputs == b.outputs && a.locktime == b.locktime
    && |a.inputs| == |b.inputs|
    && forall i :: 0 <= i < |a.inputs| ==>
      a.inputs[i].previous == b.inputs[i].previous && a.inputs[i].sequence == b.inputs[i].sequence
  }

  /** The signature hash does not look at any stored script. */
  lemma SighashIgnoresScripts(a: Transaction, b: Transaction, index: nat, script: Script)
    requires Sized(a) && Sized(b) && |script| < TWO_64 && SameUnsigned(a, b)
    ensures SighashMessage(a, index, script) == SighashMessage(b, index, script)
  {
    assert Blanked(a, index, script) == Blanked(b, index, script);
  }

  /** And it commits to everything else: the unsigned transaction, the input and the spent script. */
  lemma SighashBinds(a: Transaction, i: nat, sa: Script, b: Transaction, j: nat, sb: Script)
    requires Sized(a) && Sized(b) && i < |a.inputs| && j < |b.inputs|
    requires 0 < |sa| < TWO_64 && 0 < |sb| < TWO_64
    requires SighashMessage(a, i, sa) == SighashMessage(b, j, sb)
    ensures SameUnsigned(a, b) && i == j && sa == sb
  {
    var x, y := Blanked(a, i, sa), Blanked(b, j, sb);
    SerializePrefix(x, y, LeBytes(1, 4), LeBytes(1, 4));
    forall k | 0 <= k < |a.inputs|
      ensures a.inputs[k].previous == b.inputs[k].previous && a.inputs[k].sequence == b.inputs[k].sequence
    {
      assert x.inputs[k] == y.inputs[k];
    }
    assert x.inputs[i].script == sa && y.inputs[i].script == if i == j then sb else [];
  }

  /** sign_selected_transaction: sign the inputs one after the other, storing each script at once. */
  method SignSelected(h: Hasher, tx: Transaction, spent: seq<Script>, sign: (nat, Hash) -> Script) returns (signed: Transaction)
    requires Sized(tx) && |spent| == |tx.inputs|
    requires forall i :: 0 <= i < |spent| ==> |spent[i]| < TWO_64
    requires forall i, m :: |sign(i, m)| < TWO_64
    ensures Sized(signed) && SameUnsigned(tx, signed)
    ensures forall i :: 0 <= i < |tx.inputs| ==> signed.inputs[i].script == sign(i, h(SighashMessage(signed, i, spent[i])))
  {
    hide Serialize, SighashMessage;
    signed := tx;
    for idx := 0 to |tx.inputs|
      invariant Sized(signed) && SameUnsigned(tx, signed)
      invariant forall i :: 0 <= i < idx ==> signed.inputs[i].script == sign(i, h(SighashMessage(signed, i, spent[i])))
    {
      ghost var before := signed;
      var script := sign(idx, h(SighashMessage(signed, idx, spent[idx])));
      signed := signed.(inputs := signed.inputs[idx := signed.inputs[idx].(script := script)]);
      forall i | 0 <= i <= idx
        ensures SighashMessage(signed, i, spent[i]) == SighashMessage(before, i, spent[i])
      {
        SighashIgnoresScripts(signed, before, i, spent[i]);
      }
    }
  }
}
