/** Go strings and byte slices, and the parts of the Go string library the server uses.
    A byte is a character below 256, so that header names and replies can be written as literals. */
module ByteStrings {
  type Byte = c: char | c as int < 256 witness 'a'
  type Bytes = seq<Byte>

  const CR: Byte := '\r'
  const LF: Byte := '\n'
  const DOT: Byte := '.'
  const CRLF: Bytes := [CR, LF]

  datatype Option<+T> = None | Some(value: T)

  /** bytes.Split(s, "\n"): the pieces between line feeds, never empty as a list. */
  function Split(s: Bytes): (pieces: seq<Bytes>)
    ensures |pieces| >= 1
  {
    if s == [] then [[]]
    else
      var rest := Split(s[1..]);
      if s[0] == LF then [[]] + rest else [[s[0]] + rest[0]] + rest[1..]
  }

  predicate OneLine(s: Bytes) {
    LF !in s
  }

  predicate IsEol(c: Byte) {
    c == CR || c == LF
  }

  /** strings.TrimRight(s, "\r\n"). */
  function TrimRightEol(s: Bytes): (r: Bytes)
    ensures |r| <= |s| && r == s[..|r|]
    ensures r != [] ==> !IsEol(r[|r| - 1])
  {
    if s != [] && IsEol(s[|s| - 1]) then TrimRightEol(s[..|s| - 1]) else s
  }

  /** bytes.TrimLeft(s, "\r\n"). */
  function TrimLeftEol(s: Bytes): Bytes {
    if s != [] && IsEol(s[0]) then TrimLeftEol(s[1..]) else s
  }

  /** bytes.TrimSuffix(s, "\r"): at most one carriage return. */
  function TrimSuffixCr(s: Bytes): Bytes {
    if s != [] && s[|s| - 1] == CR then s[..|s| - 1] else s
  }

  predicate IsSpace(c: Byte) {
    c == ' ' || '\t' <= c <= '\r'
  }

  function TrimLeftSpace(s: Bytes): (r: Bytes)
    ensures |r| <= |s|
    ensures r != [] ==> !IsSpace(r[0])
  {
    if s != [] && IsSpace(s[0]) then TrimLeftSpace(s[1..]) else s
  }

  function TrimRightSpace(s: Bytes): (r: Bytes)
    ensures r <= s
  {
    if s != [] && IsSpace(s[|s| - 1]) then TrimRightSpace(s[..|s| - 1]) else s
  }

  function TrimSpace(s: Bytes): Bytes {
    TrimRightSpace(TrimLeftSpace(s))
  }

  /** The bytes before the first white space. */
  function Word(s: Bytes): (r: Bytes)
    ensures |r| <= |s|
    ensures s != [] && !IsSpace(s[0]) ==> r != []
  {
    if s == [] || IsSpace(s[0]) then [] else [s[0]] + Word(s[1..])
  }

  /** strings.Fields. */
  function Fields(s: Bytes): (fields: seq<Bytes>)
    ensures forall i :: 0 <= i < |fields| ==> fields[i] != []
    decreases |s|
  {
    var t := TrimLeftSpace(s);
    if t == [] then [] else [Word(t)] + Fields(t[|Word(t)|..])
  }

  /** strings.Join(fields, " "). */
  function JoinSpace(fields: seq<Bytes>): (r: Bytes)
    ensures fields != [] && fields[0] != [] ==> r != []
  {
    if fields == [] then []
    else if |fields| == 1 then fields[0]
    else fields[0] + " " + JoinSpace(fields[1..])
  }

  function LowerByte(c: Byte): Byte {
    if 'A' <= c <= 'Z' then (c as int + 32) as char else c
  }

  function UpperByte(c: Byte): Byte {
    if 'a' <= c <= 'z' then (c as int - 32) as char else c
  }

  function Lower(s: Bytes): Bytes {
    seq(|s|, i requires 0 <= i < |s| => LowerByte(s[i]))
  }

  function Upper(s: Bytes): Bytes {
    seq(|s|, i requires 0 <= i < |s| => UpperByte(s[i]))
  }

  predicate EqualFold(s: Bytes, t: Bytes) {
    Lower(s) == Lower(t)
  }

  /** strings.TrimSuffix(strings.TrimPrefix(strings.TrimSpace(value), "<"), ">"). */
  function StripBrackets(value: Bytes): Bytes {
    var s := TrimSpace(value);
    var t := if "<" <= s then s[1..] else s;
    if t != [] && t[|t| - 1] == '>' then t[..|t| - 1] else t
  }

  lemma {:induction false} TrimmedPartIsEol(s: Bytes, i: nat)
    requires |TrimRightEol(s)| <= i < |s|
    ensures IsEol(s[i])
  {
    if i < |s| - 1 {
      TrimmedPartIsEol(s[..|s| - 1], i);
    }
  }

  /** What is left after trimming ends where the last byte that is no line end does. */
  lemma TrimRightEolIs(s: Bytes, n: nat)
    requires n <= |s| && (n > 0 ==> !IsEol(s[n - 1]))
    requires forall i :: n <= i < |s| ==> IsEol(s[i])
    ensures TrimRightEol(s) == s[..n]
  {
    if |TrimRightEol(s)| < n {
      TrimmedPartIsEol(s, n - 1);
    }
  }

  lemma TrimRightEolIdempotent(s: Bytes)
    ensures TrimRightEol(TrimRightEol(s)) == TrimRightEol(s)
  {
    TrimRightEolIs(TrimRightEol(s), |TrimRightEol(s)|);
  }

  lemma TrimRightEolAppend(s: Bytes, t: Bytes)
    requires forall i :: 0 <= i < |t| ==> IsEol(t[i])
    ensures TrimRightEol(s + t) == TrimRightEol(s)
  {
    var n := |TrimRightEol(s)|;
    assert (s + t)[..n] == s[..n];
    forall i | n <= i < |s + t| ensures IsEol((s + t)[i]) {
      if i < |s| {
        TrimmedPartIsEol(s, i);
      }
    }
    TrimRightEolIs(s + t, n);
  }

  lemma TrimRightEolCons(c: Byte, s: Bytes)
    requires !IsEol(c)
    ensures TrimRightEol([c] + s) == [c] + TrimRightEol(s)
  {
    var n := |TrimRightEol(s)|;
    assert ([c] + s)[..n + 1] == [c] + s[..n];
    forall i | n + 1 <= i < |[c] + s| ensures IsEol(([c] + s)[i]) {
      TrimmedPartIsEol(s, i - 1);
    }
    TrimRightEolIs([c] + s, n + 1);
  }

  /** A line, its line feed and what follows split as the line and then the split of what follows. */
  lemma {:induction false} SplitLine(line: Bytes, rest: Bytes)
    requires OneLine(line)
    ensures Split(line + [LF] + rest) == [line] + Split(rest)
  {
    var s := line + [LF] + rest;
    if line == [] {
      assert s[1..] == rest;
    } else {
      SplitLine(line[1..], rest);
      assert s[1..] == line[1..] + [LF] + rest;
      assert [line[0]] + line[1..] == line;
    }
  }

  lemma {:induction false} SplitWithoutLf(s: Bytes)
    requires OneLine(s)
    ensures Split(s) == [s]
  {
    if s != [] {
      SplitWithoutLf(s[1..]);
      assert [s[0]] + s[1..] == s;
    }
  }

  /** No piece of a split contains a line feed. */
  lemma {:induction false} SplitPieces(s: Bytes)
    ensures forall i :: 0 <= i < |Split(s)| ==> OneLine(Split(s)[i])
  {
    if s != [] {
      SplitPieces(s[1..]);
    }
  }
}
