/** The session stream: lines read under the session buffer's cap, and multi-line data blocks
    (section 3.1.1 of RFC 3977) as the server prints and parses them. */
module Wire {
  import opened ByteStrings

  /** The size of the session's read buffer, terminator included. */
  const LINE_CAP := 65536

  const TERMINATOR: Bytes := [DOT, CR, LF]

  function Map<A, B>(f: A -> B, s: seq<A>): seq<B> {
    seq(|s|, i requires 0 <= i < |s| => f(s[i]))
  }

  lemma MapFirst<A, B>(f: A -> B, s: seq<A>)
    requires s != []
    ensures Map(f, s) == [f(s[0])] + Map(f, s[1..])
  {}

  lemma MapAround<A, B>(f: A -> B, s: seq<A>, k: nat)
    requires k < |s|
    ensures Map(f, s)[..k] == Map(f, s[..k])
    ensures Map(f, s)[k] == f(s[k])
    ensures Map(f, s)[k + 1..] == Map(f, s[k + 1..])
  {}

  /** The lines as text, each one ended by CRLF. */
  function Text(lines: seq<Bytes>): Bytes {
    if lines == [] then [] else lines[0] + CRLF + Text(lines[1..])
  }

  /** The lines the server serves for some contents: the empty piece after a final newline is no line. */
  function ContentLines(contents: Bytes): (lines: seq<Bytes>)
    ensures forall i :: 0 <= i < |lines| ==> OneLine(lines[i])
  {
    SplitPieces(contents);
    var pieces := Split(contents);
    if pieces[|pieces| - 1] == [] then pieces[..|pieces| - 1] else pieces
  }

  /** The line has the prefix ".". */
  predicate LeadsDot(line: Bytes) {
    |line| >= 1 && line[0] == DOT
  }

  /** The line has the prefix "..". */
  predicate LeadsDotDot(line: Bytes) {
    |line| >= 2 && line[0] == DOT && line[1] == DOT
  }

  function AddCr(line: Bytes): Bytes {
    line + [CR]
  }

  function DotStuff(line: Bytes): Bytes {
    if LeadsDot(line) then [DOT] + line else line
  }

  /** A content line as it goes on the wire, without its CRLF. */
  function StuffLine(line: Bytes): Bytes {
    DotStuff(TrimSuffixCr(line))
  }

  /** What the fast path writes for some contents, without the terminator. */
  function Stuffed(contents: Bytes): Bytes {
    Text(Map(StuffLine, ContentLines(contents)))
  }

  function StuffedBlock(contents: Bytes): Bytes {
    Stuffed(contents) + TERMINATOR
  }

  // ----- reading

  /** The index of the first line feed, or the length when there is none. */
  function IndexLf(s: Bytes): (n: nat)
    ensures n <= |s|
    ensures n < |s| ==> s[n] == LF
    ensures forall i :: 0 <= i < n ==> s[i] != LF
  {
    if s == [] || s[0] == LF then 0 else 1 + IndexLf(s[1..])
  }

  datatype Read = Line(line: Bytes, rest: Bytes) | TooLong(rest: Bytes) | Eof

  /** One readLine on the unread input: a line must fit the buffer with its terminator. */
  function NextLine(input: Bytes): (r: Read)
    ensures r.Line? ==> |r.rest| < |input|
  {
    var n := IndexLf(input);
    if n < |input| && n < LINE_CAP then Line(input[..n + 1], input[n + 1..])
    else if |input| >= LINE_CAP then TooLong(input[LINE_CAP..])
    else Eof
  }

  /** A posted line after its dot-stuffing is undone: only a doubled dot is. */
  function Unstuff(line: Bytes): Bytes {
    if LeadsDotDot(line) then line[1..] else line
  }

  /** What the reader keeps of a raw line. */
  function DecodeLine(raw: Bytes): Bytes {
    Unstuff(TrimRightEol(raw))
  }

  datatype Block = Block(lines: seq<Bytes>, rest: Bytes) | Overlong(rest: Bytes) | Cut

  function Prepend(line: Bytes, b: Block): Block {
    match b
    case Block(lines, rest) => Block([line] + lines, rest)
    case _ => b
  }

  /** The data block at the head of the input, as the reader of a posted article sees it. */
  function ReadBlock(input: Bytes): (b: Block)
    ensures b.Block? ==> |b.rest| < |input|
    decreases |input|
  {
    match NextLine(input)
    case Eof => Cut
    case TooLong(rest) => Overlong(rest)
    case Line(raw, rest) =>
      if TrimRightEol(raw) == [DOT] then Block([], rest)
      else Prepend(DecodeLine(raw), ReadBlock(rest))
  }

  /** A line the reader leaves alone: one line, without trailing carriage returns. */
  predicate Clean(line: Bytes) {
    OneLine(line) && TrimRightEol(line) == line
  }

  predicate Fits(line: Bytes) {
    |line| + 2 <= LINE_CAP
  }

  // ----- text and lines

  lemma {:induction false} IndexLfLine(line: Bytes, rest: Bytes)
    requires OneLine(line)
    ensures IndexLf(line + [LF] + rest) == |line|
  {
    var s := line + [LF] + rest;
    assert s[|line|] == LF;
    assert forall i :: 0 <= i < |line| ==> s[i] == line[i];
  }

  /** A line ended by CRLF is read when it fits, and refused without looking further when it does not. */
  lemma NextLineOfText(line: Bytes, rest: Bytes)
    requires OneLine(line)
    ensures Fits(line) ==> NextLine(line + CRLF + rest) == Line(line + CRLF, rest)
    ensures !Fits(line) ==> NextLine(line + CRLF + rest).TooLong?
  {
    var s := line + CRLF + rest;
    assert s == (line + [CR]) + [LF] + rest;
    IndexLfLine(line + [CR], rest);
    assert s[..|line| + 2] == line + CRLF;
    assert s[|line| + 2..] == rest;
  }

  /** One line with its line feed and nothing more. */
  predicate EndsLine(raw: Bytes) {
    raw != [] && raw[|raw| - 1] == LF && OneLine(raw[..|raw| - 1])
  }

  /** The buffer fills before the line ends. */
  predicate Floods(input: Bytes) {
    |input| >= LINE_CAP && forall i :: 0 <= i < LINE_CAP ==> input[i] != LF
  }

  lemma FloodIsTooLong(input: Bytes)
    ensures NextLine(input).TooLong? <==> Floods(input)
  {
    if Floods(input) {
      assert IndexLf(input) < |input| ==> input[IndexLf(input)] == LF;
    }
  }

  lemma LineIsFirst(raw: Bytes, rest: Bytes)
    requires EndsLine(raw)
    ensures IndexLf(raw + rest) == |raw| - 1
  {
    var line := raw[..|raw| - 1];
    assert raw == line + [LF];
    IndexLfLine(line, rest);
  }

  /** What one read gives, for every input: exactly its first line with the line feed when that fits the buffer, an
      over-long line exactly when the buffer fills first, and the end exactly when neither comes. */
  lemma NextLineExactly(input: Bytes, raw: Bytes, rest: Bytes)
    ensures NextLine(input) == Line(raw, rest) <==> input == raw + rest && EndsLine(raw) && |raw| <= 65536
    ensures NextLine(input).TooLong? <==> Floods(input)
    ensures NextLine(input).Eof? <==> OneLine(input) && |input| < 65536
  {
    FloodIsTooLong(input);
    var n := IndexLf(input);
    if NextLine(input) == Line(raw, rest) {
      assert input == input[..n + 1] + input[n + 1..];
    }
    if input == raw + rest && EndsLine(raw) {
      LineIsFirst(raw, rest);
      assert input[..|raw|] == raw && input[|raw|..] == rest;
    }
    assert n < |input| ==> input[n] in input;
  }

  lemma {:induction false} SplitOfText(lines: seq<Bytes>)
    requires forall i :: 0 <= i < |lines| ==> OneLine(lines[i])
    ensures Split(Text(lines)) == Map(AddCr, lines) + [[]]
  {
    if lines != [] {
      SplitOfText(lines[1..]);
      MapFirst(AddCr, lines);
      assert Text(lines) == (lines[0] + [CR]) + [LF] + Text(lines[1..]);
      SplitLine(lines[0] + [CR], Text(lines[1..]));
    }
  }

  lemma DropLast<T>(a: seq<T>, b: seq<T>, last: T)
    requires a + [last] == b + [last]
    ensures a == b
  {
    assert a == (a + [last])[..|a|];
    assert |a| + 1 == |b| + 1;
    assert b == (b + [last])[..|b|];
  }

  /** A text determines its lines. */
  lemma TextInjective(a: seq<Bytes>, b: seq<Bytes>)
    requires forall i :: 0 <= i < |a| ==> OneLine(a[i])
    requires forall i :: 0 <= i < |b| ==> OneLine(b[i])
    requires Text(a) == Text(b)
    ensures a == b
  {
    SplitOfText(a);
    SplitOfText(b);
    DropLast(Map(AddCr, a), Map(AddCr, b), []);
    forall i | 0 <= i < |a| ensures a[i] == b[i] {
      assert Map(AddCr, a)[i] == AddCr(a[i]) && Map(AddCr, b)[i] == AddCr(b[i]);
      DropLast(a[i], b[i], CR);
    }
  }

  lemma {:induction false} TextAppend(a: seq<Bytes>, b: seq<Bytes>)
    ensures Text(a + b) == Text(a) + Text(b)
  {
    if a == [] {
      assert a + b == b;
    } else {
      assert (a + b)[1..] == a[1..] + b;
      TextAppend(a[1..], b);
    }
  }

  // ----- stuffing and unstuffing one line

  lemma StuffedDotLine(line: Bytes)
    requires LeadsDot(line)
    ensures TrimRightEol([DOT] + line) == [DOT] + TrimRightEol(line) && LeadsDot(TrimRightEol(line))
  {
    TrimRightEolCons(DOT, line);
    assert line == [DOT] + line[1..];
    TrimRightEolCons(DOT, line[1..]);
  }

  /** Taking off one carriage return first makes no difference to trimming. */
  lemma TrimAfterSuffix(line: Bytes)
    ensures TrimRightEol(TrimSuffixCr(line)) == TrimRightEol(line)
  {
    var t := TrimSuffixCr(line);
    if t != line {
      assert line == t + [CR];
      TrimRightEolAppend(t, [CR]);
    }
  }

  lemma TrimmedStuffing(t: Bytes)
    ensures TrimRightEol(DotStuff(t)) == DotStuff(TrimRightEol(t))
  {
    if LeadsDot(t) {
      StuffedDotLine(t);
    }
  }

  lemma UnstuffUndoesDotStuff(t: Bytes)
    ensures DotStuff(t) != [DOT] && Unstuff(DotStuff(t)) == t
  {
    if LeadsDot(t) {
      assert ([DOT] + t)[1..] == t;
      assert |[DOT] + t| >= 2;
    }
  }

  /** The reader recovers a line the writer stuffed, up to its trailing carriage returns,
      and never takes it for the terminator. */
  lemma StuffedLineDecodes(line: Bytes)
    ensures TrimRightEol(StuffLine(line) + CRLF) != [DOT]
    ensures DecodeLine(StuffLine(line) + CRLF) == TrimRightEol(line)
  {
    TrimRightEolAppend(StuffLine(line), CRLF);
    TrimmedStuffing(TrimSuffixCr(line));
    TrimAfterSuffix(line);
    UnstuffUndoesDotStuff(TrimRightEol(line));
  }

  /** How one line of contents is served: one carriage return less if it ends in any, and one dot more if it starts
      with one. */
  lemma ServedLineExactly(line: Bytes)
    ensures StuffLine(line + [CR]) == DotStuff(line)
    ensures line == [] || line[|line| - 1] != CR ==> StuffLine(line) == DotStuff(line)
    ensures DotStuff([DOT] + line) == [DOT, DOT] + line
    ensures line == [] || line[0] != DOT ==> DotStuff(line) == line
  {
    assert (line + [CR])[..|line|] == line;
    assert [DOT] + ([DOT] + line) == [DOT, DOT] + line;
  }

  // ----- reading back what the writer prints

  /** Every line, stuffed, fits the reader's buffer. */
  predicate AllFit(lines: seq<Bytes>) {
    forall i :: 0 <= i < |lines| ==> Fits(StuffLine(lines[i]))
  }

  /** Reading one more line of a block that does not end there. */
  lemma ReadBlockLine(line: Bytes, tail: Bytes)
    requires OneLine(line) && TrimRightEol(line) != [DOT]
    ensures Fits(line) ==> ReadBlock(line + CRLF + tail) == Prepend(DecodeLine(line), ReadBlock(tail))
    ensures !Fits(line) ==> ReadBlock(line + CRLF + tail).Overlong?
  {
    NextLineOfText(line, tail);
    TrimRightEolAppend(line, CRLF);
  }

  lemma ReadTerminator(rest: Bytes)
    ensures ReadBlock(TERMINATOR + rest) == Block([], rest)
  {
    assert TERMINATOR + rest == [DOT] + CRLF + rest;
    NextLineOfText([DOT], rest);
    TrimRightEolAppend([DOT], CRLF);
  }

  /** The printed lines, the terminator and what follows. */
  function Printed(lines: seq<Bytes>, rest: Bytes): Bytes {
    Text(Map(StuffLine, lines)) + TERMINATOR + rest
  }

  lemma PrintedFirst(lines: seq<Bytes>, rest: Bytes)
    requires lines != []
    ensures Printed(lines, rest) == StuffLine(lines[0]) + CRLF + Printed(lines[1..], rest)
  {
    MapFirst(StuffLine, lines);
  }

  lemma ReadFirstStuffed(lines: seq<Bytes>, rest: Bytes)
    requires lines != [] && OneLine(lines[0])
    ensures Fits(StuffLine(lines[0])) ==>
              ReadBlock(Printed(lines, rest)) == Prepend(TrimRightEol(lines[0]), ReadBlock(Printed(lines[1..], rest)))
    ensures !Fits(StuffLine(lines[0])) ==> ReadBlock(Printed(lines, rest)).Overlong?
  {
    PrintedFirst(lines, rest);
    StuffedLineDecodes(lines[0]);
    TrimRightEolAppend(StuffLine(lines[0]), CRLF);
    ReadBlockLine(StuffLine(lines[0]), Printed(lines[1..], rest));
  }

  lemma AllFitFirst(lines: seq<Bytes>)
    requires lines != []
    ensures AllFit(lines) <==> Fits(StuffLine(lines[0])) && AllFit(lines[1..])
  {
    assert forall i :: 0 < i < |lines| ==> lines[i] == lines[1..][i - 1];
  }

  lemma {:induction false} ReadStuffedLines(lines: seq<Bytes>, rest: Bytes)
    requires forall i :: 0 <= i < |lines| ==> OneLine(lines[i])
    ensures AllFit(lines) ==> ReadBlock(Printed(lines, rest)) == Block(Map(TrimRightEol, lines), rest)
    ensures !AllFit(lines) ==> ReadBlock(Printed(lines, rest)).Overlong?
  {
    if lines == [] {
      ReadTerminator(rest);
      assert Printed(lines, rest) == TERMINATOR + rest;
    } else {
      ReadFirstStuffed(lines, rest);
      AllFitFirst(lines);
      ReadStuffedLines(lines[1..], rest);
      MapFirst(TrimRightEol, lines);
    }
  }

  /** Reading back a printed block: the contents' lines without their trailing carriage returns,
      with the input after the terminator left unread, exactly when every line fits the buffer;
      otherwise the read fails as over-long. The terminator is never met early. */
  lemma ReadBackContents(contents: Bytes, rest: Bytes)
    ensures AllFit(ContentLines(contents)) <==>
            ReadBlock(StuffedBlock(contents) + rest) == Block(Map(TrimRightEol, ContentLines(contents)), rest)
    ensures !AllFit(ContentLines(contents)) <==> ReadBlock(StuffedBlock(contents) + rest).Overlong?
  {
    ReadStuffedLines(ContentLines(contents), rest);
    assert StuffedBlock(contents) + rest == Printed(ContentLines(contents), rest);
  }

  // ----- printing what the reader stored

  lemma StuffedPieces(served: seq<Bytes>, lines: seq<Bytes>)
    requires |served| == |lines|
    requires forall i :: 0 <= i < |lines| ==> TrimSuffixCr(served[i]) == lines[i]
    ensures Map(StuffLine, served) == Map(DotStuff, lines)
  {
    forall i | 0 <= i < |lines| ensures Map(StuffLine, served)[i] == Map(DotStuff, lines)[i] {
      assert StuffLine(served[i]) == DotStuff(lines[i]);
    }
  }

  /** The lines served for a stored text are its lines, each still with its carriage return. */
  lemma ContentLinesOfText(lines: seq<Bytes>)
    requires forall i :: 0 <= i < |lines| ==> OneLine(lines[i])
    ensures ContentLines(Text(lines)) == Map(AddCr, lines)
  {
    SplitOfText(lines);
  }

  lemma StuffOfStoredText(lines: seq<Bytes>)
    requires forall i :: 0 <= i < |lines| ==> OneLine(lines[i])
    ensures Stuffed(Text(lines)) == Text(Map(DotStuff, lines))
  {
    ContentLinesOfText(lines);
    forall i | 0 <= i < |lines| ensures TrimSuffixCr(Map(AddCr, lines)[i]) == lines[i] {
      assert AddCr(lines[i])[..|lines[i]|] == lines[i];
    }
    StuffedPieces(Map(AddCr, lines), lines);
  }

  // ----- posting and reading back

  /** A raw line of a posted block that ARTICLE later returns unchanged. */
  predicate Verbatim(raw: Bytes) {
    TrimRightEol(raw) == raw && (LeadsDot(raw) ==> LeadsDotDot(raw))
  }

  /** A raw line a client can send inside a block: one line that fits and does not end the block. */
  predicate Sendable(raw: Bytes) {
    OneLine(raw) && Fits(raw) && TrimRightEol(raw) != [DOT]
  }

  lemma DecodedLineIsClean(raw: Bytes)
    requires OneLine(raw)
    ensures Clean(DecodeLine(raw))
  {
    var t := TrimRightEol(raw);
    TrimRightEolIdempotent(raw);
    if LeadsDotDot(t) {
      assert t == [DOT] + t[1..];
      TrimRightEolCons(DOT, t[1..]);
      assert t[1..] == TrimRightEol(t)[1..];
    }
  }

  /** Decoding and printing a raw line again gives the same line exactly when it is verbatim. */
  lemma RestuffedLine(raw: Bytes)
    requires TrimRightEol(raw) != [DOT]
    ensures DotStuff(DecodeLine(raw)) == raw <==> Verbatim(raw)
  {
    var t := TrimRightEol(raw);
    if LeadsDotDot(t) {
      assert DotStuff(t[1..]) == t;
    } else if LeadsDot(t) {
      assert DotStuff(t) == [DOT] + t;
      assert t[0] == DOT && |t| >= 2;
      assert t[1] != DOT;
      assert DotStuff(t)[1] == DOT;
    }
  }

  /** Any block a client sends is read in full, and nothing after it is touched. */
  lemma {:induction false} ReadSentBlock(raws: seq<Bytes>, rest: Bytes)
    requires forall i :: 0 <= i < |raws| ==> Sendable(raws[i])
    ensures ReadBlock(Text(raws) + TERMINATOR + rest) == Block(Map(DecodeLine, raws), rest)
  {
    if raws == [] {
      ReadTerminator(rest);
      assert Text(raws) + TERMINATOR + rest == TERMINATOR + rest;
    } else {
      var tail := Text(raws[1..]) + TERMINATOR + rest;
      assert Text(raws) + TERMINATOR + rest == raws[0] + CRLF + tail;
      ReadBlockLine(raws[0], tail);
      ReadSentBlock(raws[1..], rest);
      MapFirst(DecodeLine, raws);
    }
  }

  predicate AllVerbatim(raws: seq<Bytes>) {
    forall i :: 0 <= i < |raws| ==> Verbatim(raws[i])
  }

  lemma StoredLinesAreClean(raws: seq<Bytes>)
    requires forall i :: 0 <= i < |raws| ==> Sendable(raws[i])
    ensures forall i :: 0 <= i < |raws| ==> Clean(Map(DecodeLine, raws)[i])
  {
    forall i | 0 <= i < |raws| ensures Clean(DecodeLine(raws[i])) {
      DecodedLineIsClean(raws[i]);
    }
  }

  lemma RestuffedLines(raws: seq<Bytes>)
    requires forall i :: 0 <= i < |raws| ==> Sendable(raws[i])
    ensures Map(DotStuff, Map(DecodeLine, raws)) == raws <==> AllVerbatim(raws)
  {
    var back := Map(DotStuff, Map(DecodeLine, raws));
    forall i | 0 <= i < |raws| ensures back[i] == raws[i] <==> Verbatim(raws[i]) {
      RestuffedLine(raws[i]);
    }
  }

  lemma RestuffedIsOneLine(raw: Bytes)
    requires OneLine(raw)
    ensures OneLine(DotStuff(DecodeLine(raw)))
  {
    DecodedLineIsClean(raw);
  }

  /** ARTICLE answers with the block that was posted. */
  predicate ComesBack(raws: seq<Bytes>) {
    StuffedBlock(Text(Map(DecodeLine, raws))) == Text(raws) + TERMINATOR
  }

  lemma ArticleOfPost(raws: seq<Bytes>)
    requires forall i :: 0 <= i < |raws| ==> Sendable(raws[i])
    ensures StuffedBlock(Text(Map(DecodeLine, raws))) == Text(Map(DotStuff, Map(DecodeLine, raws))) + TERMINATOR
  {
    StoredLinesAreClean(raws);
    StuffOfStoredText(Map(DecodeLine, raws));
  }

  lemma DropSuffix(a: Bytes, b: Bytes, suffix: Bytes)
    requires a + suffix == b + suffix
    ensures a == b
  {
    assert |a| + |suffix| == |b| + |suffix|;
    assert a == (a + suffix)[..|a|];
    assert b == (b + suffix)[..|b|];
  }

  /** A terminated block determines its lines. */
  lemma BlockInjective(a: seq<Bytes>, b: seq<Bytes>)
    requires forall i :: 0 <= i < |a| ==> OneLine(a[i])
    requires forall i :: 0 <= i < |b| ==> OneLine(b[i])
    ensures Text(a) + TERMINATOR == Text(b) + TERMINATOR <==> a == b
  {
    if Text(a) + TERMINATOR == Text(b) + TERMINATOR {
      DropSuffix(Text(a), Text(b), TERMINATOR);
      TextInjective(a, b);
    }
  }

  lemma ComesBackIfRestuffed(raws: seq<Bytes>)
    requires forall i :: 0 <= i < |raws| ==> Sendable(raws[i])
    ensures ComesBack(raws) <==> Map(DotStuff, Map(DecodeLine, raws)) == raws
  {
    var back := Map(DotStuff, Map(DecodeLine, raws));
    forall i | 0 <= i < |back| ensures OneLine(back[i]) {
      RestuffedIsOneLine(raws[i]);
    }
    ArticleOfPost(raws);
    BlockInjective(back, raws);
  }

  /** ARTICLE returns the posted block byte for byte exactly when every line it was sent with has no
      trailing carriage return and no undoubled leading dot. */
  lemma PostThenArticle(raws: seq<Bytes>, rest: Bytes)
    requires forall i :: 0 <= i < |raws| ==> Sendable(raws[i])
    ensures ReadBlock(Text(raws) + TERMINATOR + rest) == Block(Map(DecodeLine, raws), rest)
    ensures ComesBack(raws) <==> AllVerbatim(raws)
  {
    ReadSentBlock(raws, rest);
    RestuffedLines(raws);
    ComesBackIfRestuffed(raws);
  }

  /** An article written in canonical lines comes back as the block it was posted with. */
  lemma CanonicalArticleRoundTrip(lines: seq<Bytes>, rest: Bytes)
    requires forall i :: 0 <= i < |lines| ==> Clean(lines[i]) && Fits(DotStuff(lines[i]))
    ensures ReadBlock(Text(Map(DotStuff, lines)) + TERMINATOR + rest) == Block(lines, rest)
    ensures StuffedBlock(Text(lines)) == Text(Map(DotStuff, lines)) + TERMINATOR
  {
    StuffOfStoredText(lines);
    var raws := Map(DotStuff, lines);
    forall i | 0 <= i < |lines| ensures Sendable(raws[i]) && DecodeLine(raws[i]) == lines[i] {
      if LeadsDot(lines[i]) {
        TrimRightEolCons(DOT, lines[i]);
        assert Unstuff([DOT] + lines[i]) == lines[i];
      }
    }
    ReadSentBlock(raws, rest);
    assert Map(DecodeLine, raws) == lines;
  }

  /** The contents a client gets when it reads an article and posts what it read. */
  function Reposted(contents: Bytes): Bytes {
    Text(Map(TrimRightEol, ContentLines(contents)))
  }

  lemma TrimmedAgain(line: Bytes)
    ensures TrimRightEol(AddCr(TrimRightEol(line))) == TrimRightEol(line)
    ensures OneLine(line) ==> OneLine(TrimRightEol(line))
  {
    TrimRightEolAppend(TrimRightEol(line), [CR]);
    TrimRightEolIdempotent(line);
  }

  /** Reading and posting again changes an article at most once. */
  lemma RepostedIsStable(contents: Bytes)
    ensures Reposted(Reposted(contents)) == Reposted(contents)
  {
    var lines := ContentLines(contents);
    var kept := Map(TrimRightEol, lines);
    forall i | 0 <= i < |kept|
      ensures OneLine(kept[i]) && Map(TrimRightEol, Map(AddCr, kept))[i] == kept[i]
    {
      assert kept[i] == TrimRightEol(lines[i]);
      TrimmedAgain(lines[i]);
    }
    ContentLinesOfText(kept);
    assert Map(TrimRightEol, Map(AddCr, kept)) == kept;
  }
}
