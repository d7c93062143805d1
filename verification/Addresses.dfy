/** Trimming text and recognising addresses: prefix, the separator '1', and a checked payload (src/lib.rs). */
module Addresses {

  /** The network's prefix and the check of the 48 hexadecimal digits behind the separator. */
  datatype AddressRules = AddressRules(space: char -> bool, prefix: string, payload: string -> bool)

  function TrimStart(space: char -> bool, s: string): string
  {
    if s != [] && space(s[0]) then TrimStart(space, s[1..]) else s
  }

  function TrimEnd(space: char -> bool, s: string): string
  {
    if s != [] && space(s[|s| - 1]) then TrimEnd(space, s[..|s| - 1]) else s
  }

  function Trim(space: char -> bool, s: string): string
  {
    TrimEnd(space, TrimStart(space, s))
  }

  lemma {:induction false} TrimEndKeepsStart(space: char -> bool, s: string)
    requires s != [] && !space(s[0])
    ensures TrimEnd(space, s) != [] && TrimEnd(space, s)[0] == s[0]
  {
    if space(s[|s| - 1]) {
      TrimEndKeepsStart(space, s[..|s| - 1]);
    }
  }

  lemma {:induction false} TrimStartEnds(space: char -> bool, s: string)
    ensures TrimStart(space, s) == [] || !space(TrimStart(space, s)[0])
  {
    if s != [] && space(s[0]) {
      TrimStartEnds(space, s[1..]);
    }
  }

  lemma {:induction false} TrimEndEnds(space: char -> bool, s: string)
    ensures var t := TrimEnd(space, s); t == [] || !space(t[|t| - 1])
  {
    if s != [] && space(s[|s| - 1]) {
      TrimEndEnds(space, s[..|s| - 1]);
    }
  }

  lemma TrimIsIdempotent(space: char -> bool, s: string)
    ensures Trim(space, Trim(space, s)) == Trim(space, s)
  {
    var start := TrimStart(space, s);
    TrimStartEnds(space, s);
    TrimEndEnds(space, start);
    if start != [] {
      TrimEndKeepsStart(space, start);
    }
  }

  predicate Blank(space: char -> bool, s: string)
  {
    forall i :: 0 <= i < |s| ==> space(s[i])
  }

  predicate Trimmed(space: char -> bool, s: string)
  {
    s == [] || (!space(s[0]) && !space(s[|s| - 1]))
  }

  lemma {:induction false} TrimStartDrops(space: char -> bool, a: string, t: string)
    requires Blank(space, a) && (t == [] || !space(t[0]))
    ensures TrimStart(space, a + t) == t
  {
    if a == [] {
      assert a + t == t;
    } else {
      assert (a + t)[1..] == a[1..] + t;
      TrimStartDrops(space, a[1..], t);
    }
  }

  lemma {:induction false} TrimEndDrops(space: char -> bool, t: string, b: string)
    requires Blank(space, b) && (t == [] || !space(t[|t| - 1]))
    ensures TrimEnd(space, t + b) == t
  {
    if b == [] {
      assert t + b == t;
    } else {
      assert (t + b)[..|t + b| - 1] == t + b[..|b| - 1];
      TrimEndDrops(space, t, b[..|b| - 1]);
    }
  }

  /** Trimming takes off the blanks at both ends and nothing else. */
  lemma TrimMeans(space: char -> bool, a: string, t: string, b: string)
    requires Blank(space, a) && Blank(space, b) && Trimmed(space, t)
    ensures Trim(space, a + t + b) == t
  {
    if t == [] {
      assert a + t + b == (a + b) + [];
      TrimStartDrops(space, a + b, []);
    } else {
      assert a + t + b == a + (t + b);
      TrimStartDrops(space, a, t + b);
      TrimEndDrops(space, t, b);
    }
  }

  lemma {:induction false} TrimStartSplits(space: char -> bool, s: string) returns (a: string)
    ensures s == a + TrimStart(space, s) && Blank(space, a)
  {
    if s != [] && space(s[0]) {
      var rest := TrimStartSplits(space, s[1..]);
      a := [s[0]] + rest;
    } else {
      a := [];
    }
  }

  lemma {:induction false} TrimEndSplits(space: char -> bool, s: string) returns (b: string)
    ensures s == TrimEnd(space, s) + b && Blank(space, b)
  {
    if s != [] && space(s[|s| - 1]) {
      var rest := TrimEndSplits(space, s[..|s| - 1]);
      b := rest + [s[|s| - 1]];
    } else {
      b := [];
    }
  }

  /** Every text is its trimmed part between blanks. */
  lemma TrimSplits(space: char -> bool, s: string) returns (a: string, b: string)
    ensures s == a + Trim(space, s) + b && Blank(space, a) && Blank(space, b) && Trimmed(space, Trim(space, s))
  {
    var start := TrimStart(space, s);
    a := TrimStartSplits(space, s);
    b := TrimEndSplits(space, start);
    TrimStartEnds(space, s);
    TrimEndEnds(space, start);
    if start != [] {
      TrimEndKeepsStart(space, start);
    }
  }

  lemma {:induction false} TrimStartMembers(space: char -> bool, s: string)
    ensures forall c :: c in TrimStart(space, s) ==> c in s
  {
    if s != [] && space(s[0]) {
      TrimStartMembers(space, s[1..]);
    }
  }

  lemma {:induction false} TrimEndMembers(space: char -> bool, s: string)
    ensures forall c :: c in TrimEnd(space, s) ==> c in s
  {
    if s != [] && space(s[|s| - 1]) {
      TrimEndMembers(space, s[..|s| - 1]);
    }
  }

  /** Where the first separator is, or the length. */
  function Separator(s: string): (k: nat)
    ensures k <= |s| && (k < |s| <==> '1' in s) && (k < |s| ==> s[k] == '1')
  {
    if s == [] || s[0] == '1' then 0 else 1 + Separator(s[1..])
  }

  /** Only the letters from a to z. */
  predicate IsLowercase(s: string)
  {
    forall i :: 0 <= i < |s| ==> 'a' <= s[i] <= 'z'
  }

  /** Address::parse_with_prefix succeeds. */
  predicate IsAddress(r: AddressRules, s: string)
  {
    var t := Trim(r.space, s);
    var k := Separator(t);
    && k < |t| && k > 0 && IsLowercase(t[..k]) && t[..k] == r.prefix
    && |t| - k - 1 == 48 && r.payload(t[k + 1..])
  }

  /** An address has a separator, so a text without one is none, whatever the network. */
  lemma AddressHasSeparator(r: AddressRules, s: string)
    requires IsAddress(r, s)
    ensures '1' in s
  {
    TrimStartMembers(r.space, s);
    TrimEndMembers(r.space, TrimStart(r.space, s));
  }

  lemma {:induction false} SeparatorAt(head: string, tail: string)
    requires '1' !in head
    ensures Separator(head + "1" + tail) == |head|
  {
    var s := head + "1" + tail;
    if head != [] {
      assert s[1..] == head[1..] + "1" + tail;
      SeparatorAt(head[1..], tail);
    }
  }

  // A text that starts with a prefix without separator, and then a separator, is separated there.
  lemma Starts(prefix: string, t: string)
    requires prefix + "1" <= t && '1' !in prefix
    ensures Separator(t) == |prefix| && t[..|prefix|] == prefix
  {
    assert t == prefix + "1" + t[|prefix| + 1..];
    SeparatorAt(prefix, t[|prefix| + 1..]);
  }

  lemma StartsWith(t: string, k: nat)
    requires k < |t| && t[k] == '1'
    ensures t[..k] + "1" <= t
  {
    assert t[..k + 1] == t[..k] + [t[k]];
  }

  /** An address is the prefix of the network, the separator and 48 checked digits; blanks around it do not matter. */
  lemma AddressMeans(r: AddressRules, a: string, t: string, b: string)
    requires Blank(r.space, a) && Blank(r.space, b) && Trimmed(r.space, t)
    ensures IsAddress(r, a + t + b) <==>
              && r.prefix != [] && IsLowercase(r.prefix)
              && |t| == |r.prefix| + 49 && r.prefix + "1" <= t && r.payload(t[|r.prefix| + 1..])
  {
    hide Trim, Separator, Blank, Trimmed;
    TrimMeans(r.space, a, t, b);
    var k := Separator(t);
    if k < |t| && t[..k] == r.prefix {
      StartsWith(t, k);
    }
    if r.prefix + "1" <= t && IsLowercase(r.prefix) {
      Starts(r.prefix, t);
    }
  }
}
