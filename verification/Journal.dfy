/** The block journal: one encoded block per line, read back by splitting at newlines (src/fast_storage.rs). */
module Journal {
  import opened Bytes
  import opened Outcome
  import opened Wire

  const NEWLINE: Byte := 10
  const RETURN: Byte := 13

  /** The JSON codec, assumed to decode what it encodes and never to emit a raw newline. */
  datatype Codec = Codec(encode: Block -> seq<Byte>, decode: seq<Byte> -> Option<Block>)
  {
    ghost predicate Faithful()
    {
      forall b :: decode(encode(b)) == Some(b) && NEWLINE !in encode(b)
        && encode(b) != [] && encode(b)[|encode(b)| - 1] != RETURN
    }
  }

  function Line(codec: Codec, b: Block): seq<Byte>
  {
    codec.encode(b) + [NEWLINE]
  }

  function Lines(codec: Codec, blocks: seq<Block>): seq<Byte>
  {
    if blocks == [] then [] else Line(codec, blocks[0]) + Lines(codec, blocks[1..])
  }

  lemma {:induction false} LinesAppend(codec: Codec, a: seq<Block>, b: seq<Block>)
    ensures Lines(codec, a + b) == Lines(codec, a) + Lines(codec, b)
  {
    hide Line;
    if a == [] {
      assert a + b == b;
    } else {
      LinesAppend(codec, a[1..], b);
      assert (a + b)[1..] == a[1..] + b;
    }
  }

  /** read_until: the bytes up to and including the first newline, or everything. */
  function LineLength(bytes: seq<Byte>): (n: nat)
    ensures n <= |bytes| && (bytes != [] ==> n > 0)
  {
    if bytes == [] then 0 else if bytes[0] == NEWLINE then 1 else 1 + LineLength(bytes[1..])
  }

  /** Trailing newlines and carriage returns are dropped. */
  function Trimmed(line: seq<Byte>): seq<Byte>
  {
    if line != [] && (line[|line| - 1] == NEWLINE || line[|line| - 1] == RETURN) then Trimmed(line[..|line| - 1]) else line
  }

  function ParseLines(codec: Codec, bytes: seq<Byte>): Result<seq<Block>>
    decreases |bytes|
  {
    if bytes == [] then Ok([])
    else
      var n := LineLength(bytes);
      var line := Trimmed(bytes[..n]);
      if line == [] then Err
      else
        match codec.decode(line)
        case None => Err
        case Some(b) =>
          var rest :- ParseLines(codec, bytes[n..]);
          Ok([b] + rest)
  }

  lemma {:induction false} FirstLine(line: seq<Byte>, rest: seq<Byte>)
    requires NEWLINE !in line
    ensures LineLength(line + [NEWLINE] + rest) == |line| + 1
  {
    var all := line + [NEWLINE] + rest;
    if line != [] {
      FirstLine(line[1..], rest);
      assert all[1..] == line[1..] + [NEWLINE] + rest;
      assert all[0] in line;
    }
  }

  lemma {:induction false} TrimmedDrops(line: seq<Byte>, ending: seq<Byte>)
    requires line != [] && line[|line| - 1] != NEWLINE && line[|line| - 1] != RETURN
    requires forall i :: 0 <= i < |ending| ==> ending[i] == NEWLINE || ending[i] == RETURN
    ensures Trimmed(line + ending) == line
  {
    if ending == [] {
      assert line + ending == line;
    } else {
      assert (line + ending)[..|line + ending| - 1] == line + ending[..|ending| - 1];
      TrimmedDrops(line, ending[..|ending| - 1]);
    }
  }

  /** Carriage returns before the end of a line do not matter. */
  lemma ReturnsAreIgnored(codec: Codec, b: Block, ends: seq<Byte>, rest: seq<Byte>)
    requires codec.Faithful() && forall i :: 0 <= i < |ends| ==> ends[i] == RETURN
    ensures ParseLines(codec, codec.encode(b) + ends + [NEWLINE] + rest)
         == match ParseLines(codec, rest) case Ok(blocks) => Ok([b] + blocks) case Err => Err
  {
    var line := codec.encode(b);
    var bytes := line + ends + [NEWLINE] + rest;
    FirstLine(line + ends, rest);
    assert bytes == (line + ends) + [NEWLINE] + rest;
    var n := LineLength(bytes);
    assert bytes[..n] == line + (ends + [NEWLINE]) && bytes[n..] == rest;
    assert line[|line| - 1] in line;
    TrimmedDrops(line, ends + [NEWLINE]);
  }

  /** Reading back what was written. */
  lemma {:induction false} ParseInvertsLines(codec: Codec, blocks: seq<Block>)
    requires codec.Faithful()
    ensures ParseLines(codec, Lines(codec, blocks)) == Ok(blocks)
  {
    if blocks != [] {
      var code, rest := codec.encode(blocks[0]), Lines(codec, blocks[1..]);
      var all := Lines(codec, blocks);
      FirstLine(code, rest);
      var line := all[..|code| + 1];
      assert line == code + [NEWLINE] && all[|code| + 1..] == rest;
      assert line[..|line| - 1] == code;
      assert code[|code| - 1] in code;
      assert Trimmed(line) == Trimmed(code) == code;
      ParseInvertsLines(codec, blocks[1..]);
      assert [blocks[0]] + blocks[1..] == blocks;
    }
  }

  lemma NoLines(codec: Codec)
    ensures ParseLines(codec, []) == Ok([])
  {
  }

  // The first line and what follows it.
  lemma OneLine(codec: Codec, bytes: seq<Byte>)
    requires bytes != []
    ensures var (n, line) := (LineLength(bytes), Trimmed(bytes[..LineLength(bytes)]));
            ParseLines(codec, bytes) ==
            if line == [] || codec.decode(line).None? || ParseLines(codec, bytes[n..]).Err? then Err
            else Ok([codec.decode(line).value] + ParseLines(codec, bytes[n..]).value)
  {
    hide LineLength, Trimmed;
  }

  /** read_blocks' loop: split, trim and decode the committed bytes line by line. */
  method ReadLines(codec: Codec, bytes: seq<Byte>) returns (r: Result<seq<Block>>)
    ensures r == ParseLines(codec, bytes)
  {
    hide LineLength, Trimmed, ParseLines;
    var blocks: seq<Block>, pos := [], 0;
    ghost var whole := ParseLines(codec, bytes);
    assert bytes[0..] == bytes && (whole.Ok? ==> blocks + whole.value == whole.value);
    while pos < |bytes|
      invariant 0 <= pos <= |bytes|
      invariant whole == match ParseLines(codec, bytes[pos..]) case Ok(rest) => Ok(blocks + rest) case Err => Err
    {
      OneLine(codec, bytes[pos..]);
      var n := LineLength(bytes[pos..]);
      var line := Trimmed(bytes[pos..][..n]);
      if line == [] {
        return Err;
      }
      match codec.decode(line) {
        case None => return Err;
        case Some(b) =>
          assert bytes[pos..][n..] == bytes[pos + n..];
          ghost var tail := ParseLines(codec, bytes[pos + n..]);
          if tail.Ok? {
            assert blocks + ([b] + tail.value) == blocks + [b] + tail.value;
          }
          blocks := blocks + [b];
          pos := pos + n;
      }
    }
    assert bytes[pos..] == [] && blocks + [] == blocks;
    NoLines(codec);
    r := Ok(blocks);
  }
}
