/** The two halves of a session's connection: unread input, and output already written. */
module Streams {
  import opened ByteStrings
  import opened Wire

  /** The text served for some lines. */
  function Served(lines: seq<Bytes>): Bytes {
    Text(Map(StuffLine, lines))
  }

  lemma ServedOneMore(before: Bytes, lines: seq<Bytes>, i: nat)
    requires i < |lines|
    ensures before + Served(lines[i..]) == before + (StuffLine(lines[i]) + CRLF) + Served(lines[i + 1..])
  {
    assert lines[i..][1..] == lines[i + 1..];
    MapFirst(StuffLine, lines[i..]);
  }

  lemma PrintedLine(before: Bytes, line: Bytes)
    ensures (if LeadsDot(line) then before + [DOT] else before) + line + CRLF == before + (DotStuff(line) + CRLF)
  {}

  class Reader {
    var rest: Bytes

    constructor (input: Bytes)
      ensures rest == input
    {
      rest := input;
    }

    /** The next line with its terminator; an over-long line costs the whole buffer. */
    method ReadLine() returns (read: Read)
      modifies this
      ensures read == NextLine(old(rest))
      ensures rest == match read { case Line(_, after) => after case TooLong(after) => after case Eof => old(rest) }
    {
      read := NextLine(rest);
      if !read.Eof? {
        rest := read.rest;
      }
    }
  }

  class Writer {
    var out: Bytes

    constructor ()
      ensures out == []
    {
      out := [];
    }

    method WriteLine(line: Bytes)
      modifies this
      ensures out == old(out) + line + CRLF
    {
      out := out + line + CRLF;
    }

    method WriteRaw(contents: Bytes)
      modifies this
      ensures out == old(out) + contents
    {
      out := out + contents;
    }

    /** The fast path's loop over the lines. */
    method WriteLines(lines: seq<Bytes>)
      modifies this
      ensures out == old(out) + Served(lines)
    {
      var i := 0;
      assert lines[0..] == lines;
      while i < |lines|
        invariant 0 <= i <= |lines|
        invariant out + Served(lines[i..]) == old(out) + Served(lines)
      {
        var line := TrimSuffixCr(lines[i]);
        ghost var before := out;
        if LeadsDot(line) {
          out := out + [DOT];
        }
        out := out + line;
        out := out + CRLF;
        PrintedLine(before, line);
        ServedOneMore(before, lines, i);
        i := i + 1;
      }
    }

    /** The fast path: the contents' lines stuffed one by one. */
    method WriteDotStuffed(contents: Bytes, terminator: bool)
      modifies this
      ensures out == old(out) + Stuffed(contents) + if terminator then TERMINATOR else []
    {
      var lines := Split(contents);
      if |lines| > 0 && lines[|lines| - 1] == [] {
        lines := lines[..|lines| - 1];
      }
      WriteLines(lines);
      if terminator {
        out := out + TERMINATOR;
      }
    }
  }
}
