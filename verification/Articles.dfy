/** How a stored article splits into the parts HEAD and BODY serve (sections 6.2.1 to 6.2.3 of RFC 3977),
    and how a posted article names itself. */
module Articles {
  import opened ByteStrings
  import opened Wire

  // ----- the posted article's own headers

  /** The number of lines before the first blank one. */
  function HeaderCount(lines: seq<Bytes>): (n: nat)
    ensures n <= |lines|
    ensures n < |lines| ==> lines[n] == []
    ensures forall i :: 0 <= i < n ==> lines[i] != []
  {
    if lines == [] || lines[0] == [] then 0 else 1 + HeaderCount(lines[1..])
  }

  /** The header lines, each one ended by a line feed. */
  function HeaderBuffer(lines: seq<Bytes>): Bytes {
    if lines == [] || lines[0] == [] then [] else lines[0] + [LF] + HeaderBuffer(lines[1..])
  }

  const MESSAGE_ID_NAME: Bytes := "message-id:"

  predicate IsMessageIdLine(line: Bytes) {
    |line| >= |MESSAGE_ID_NAME| && EqualFold(line[..|MESSAGE_ID_NAME|], MESSAGE_ID_NAME)
  }

  function FirstMessageId(lines: seq<Bytes>): Bytes {
    if lines == [] then []
    else if IsMessageIdLine(lines[0]) then StripBrackets(TrimSpace(lines[0][|MESSAGE_ID_NAME|..]))
    else FirstMessageId(lines[1..])
  }

  function MessageIdFromHeaders(headers: Bytes): Bytes {
    FirstMessageId(Split(headers))
  }

  /** The ID a posted article is stored under, empty when it names none. */
  function PostedId(lines: seq<Bytes>): Bytes {
    MessageIdFromHeaders(HeaderBuffer(lines))
  }

  // ----- splitting a stored article

  predicate NamesHeader(line: Bytes) {
    var lower := Lower(TrimSpace(TrimRightEol(line)));
    || "path:" <= lower || MESSAGE_ID_NAME <= lower || "subject:" <= lower || "from:" <= lower || "date:" <= lower
  }

  predicate LooksLikeHeaders(block: Bytes) {
    exists i :: 0 <= i < |Split(block)| && NamesHeader(Split(block)[i])
  }

  /** bytes.Index. */
  function Index(s: Bytes, sep: Bytes): (at: Option<nat>)
    ensures at.Some? ==> at.value + |sep| <= |s|
  {
    if sep <= s then Some(0)
    else if s == [] then None
    else match Index(s[1..], sep)
      case Some(i) => Some(i + 1)
      case None => None
  }

  function SplitAt(article: Bytes, separator: Bytes): Option<(Bytes, Bytes)> {
    match Index(article, separator)
    case Some(i) =>
      if LooksLikeHeaders(article[..i]) then Some((article[..i], article[i + |separator|..])) else None
    case None => None
  }

  const BLANK_CRLF: Bytes := [CR, LF, CR, LF]
  const BLANK_LF: Bytes := [LF, LF]

  predicate IsBareYenc(article: Bytes) {
    "=ybegin" <= TrimLeftEol(article)
  }

  /** The header block and the body, when the article has both. */
  function HeaderSplit(article: Bytes): Option<(Bytes, Bytes)> {
    if IsBareYenc(article) then None
    else match SplitAt(article, BLANK_CRLF)
      case Some(parts) => Some(parts)
      case None => SplitAt(article, BLANK_LF)
  }

  function ArticleBody(article: Bytes): Bytes {
    match HeaderSplit(article)
    case Some(parts) => parts.1
    case None => article
  }

  function SynthesizedHeader(messageId: Bytes): Bytes {
    "Message-ID: <" + messageId + ">"
  }

  function ArticleHeaders(messageId: Bytes, article: Bytes): Bytes {
    match HeaderSplit(article)
    case Some(parts) => parts.0
    case None => SynthesizedHeader(messageId)
  }

  // ----- searching

  lemma {:induction false} IndexIsFirst(s: Bytes, sep: Bytes, at: nat)
    requires at <= |s| && sep <= s[at..]
    requires forall j :: 0 <= j < at ==> !(sep <= s[j..])
    ensures Index(s, sep) == Some(at)
  {
    assert s[0..] == s;
    if at > 0 {
      assert !(sep <= s[0..]);
      assert s[1..][at - 1..] == s[at..];
      forall j | 0 <= j < at - 1 ensures !(sep <= s[1..][j..]) {
        assert s[1..][j..] == s[j + 1..];
      }
      IndexIsFirst(s[1..], sep, at - 1);
    }
  }

  lemma {:induction false} IndexAbsent(s: Bytes, sep: Bytes)
    requires forall j :: 0 <= j <= |s| ==> !(sep <= s[j..])
    ensures Index(s, sep) == None
  {
    assert s[0..] == s;
    if s != [] {
      forall j | 0 <= j <= |s[1..]| ensures !(sep <= s[1..][j..]) {
        assert s[1..][j..] == s[j + 1..];
      }
      IndexAbsent(s[1..], sep);
    }
  }

  /** No blank line starts inside the text of clean, non-empty lines, whatever follows it. */
  lemma {:induction false} NoEarlyBlank(lines: seq<Bytes>, tail: Bytes, j: nat)
    requires forall i :: 0 <= i < |lines| ==> Clean(lines[i]) && lines[i] != []
    requires j + 2 < |Text(lines)|
    ensures !(BLANK_CRLF <= (Text(lines) + tail)[j..])
  {
    var s := Text(lines) + tail;
    var l := lines[0];
    var next := Text(lines[1..]);
    assert s == l + CRLF + (next + tail);
    if j < |l| {
      assert s[j..][1] == if j + 1 < |l| then l[j + 1] else CR;
    } else if j == |l| {
      var m := lines[1];
      assert next == m + CRLF + Text(lines[2..]);
      assert s[j..][2] == m[0];
      assert s[j..][3] == if |m| >= 2 then m[1] else CR;
    } else if j == |l| + 1 {
      assert s[j..][0] == LF;
    } else {
      NoEarlyBlank(lines[1..], tail, j - |l| - 2);
      assert s[j..] == (next + tail)[j - |l| - 2..];
    }
  }

  /** Every line feed of a text follows a carriage return. */
  lemma {:induction false} NoBareLf(lines: seq<Bytes>, j: nat)
    requires forall i :: 0 <= i < |lines| ==> OneLine(lines[i])
    requires j < |Text(lines)| && Text(lines)[j] == LF
    ensures j > 0 && Text(lines)[j - 1] == CR
  {
    var l := lines[0];
    if j > |l| + 1 {
      NoBareLf(lines[1..], j - |l| - 2);
    }
  }

  // ----- the header lines

  lemma {:induction false} SplitHeaderBuffer(lines: seq<Bytes>)
    requires forall i :: 0 <= i < |lines| ==> OneLine(lines[i])
    ensures Split(HeaderBuffer(lines)) == lines[..HeaderCount(lines)] + [[]]
  {
    if lines != [] && lines[0] != [] {
      SplitHeaderBuffer(lines[1..]);
      SplitLine(lines[0], HeaderBuffer(lines[1..]));
      assert lines[..HeaderCount(lines)] == [lines[0]] + lines[1..][..HeaderCount(lines[1..])];
    }
  }

  lemma {:induction false} FirstMessageIdLine(lines: seq<Bytes>) returns (at: nat)
    requires FirstMessageId(lines) != []
    ensures at < |lines| && IsMessageIdLine(lines[at])
  {
    if IsMessageIdLine(lines[0]) {
      at := 0;
    } else {
      at := FirstMessageIdLine(lines[1..]);
      at := at + 1;
    }
  }

  lemma {:induction false} TrimRightSpaceKeeps(s: Bytes, n: nat)
    requires 0 < n <= |s| && !IsSpace(s[n - 1])
    ensures |TrimRightSpace(s)| >= n
  {
    if IsSpace(s[|s| - 1]) {
      TrimRightSpaceKeeps(s[..|s| - 1], n);
    }
  }

  /** A line that names the article also looks like a header. */
  lemma MessageIdLineNamesHeader(line: Bytes)
    requires IsMessageIdLine(line) && Clean(line)
    ensures NamesHeader(line)
  {
    var n := |MESSAGE_ID_NAME|;
    assert Lower(MESSAGE_ID_NAME) == MESSAGE_ID_NAME;
    assert forall i :: 0 <= i < n ==> LowerByte(line[i]) == Lower(line[..n])[i];
    assert LowerByte(line[0]) == 'm' && LowerByte(line[n - 1]) == ':';
    TrimRightSpaceKeeps(line, n);
    var t := TrimSpace(line);
    assert t <= line && |t| >= n;
    assert Lower(t)[..n] == Lower(line[..n]);
  }

  /** An accepted post starts with a header block that has a Message-ID line in it. */
  lemma PostedIdLine(lines: seq<Bytes>) returns (at: nat)
    requires forall i :: 0 <= i < |lines| ==> Clean(lines[i])
    requires PostedId(lines) != []
    ensures at < HeaderCount(lines) && NamesHeader(lines[at])
  {
    SplitHeaderBuffer(lines);
    at := FirstMessageIdLine(Split(HeaderBuffer(lines)));
    MessageIdLineNamesHeader(lines[at]);
  }

  // ----- the header block

  /** The header lines as one block, without the last line's CRLF. */
  function HeaderBlock(lines: seq<Bytes>): Bytes
    requires lines != []
  {
    Text(lines[..|lines| - 1]) + lines[|lines| - 1]
  }

  lemma {:induction false} SplitOfHeaderBlock(lines: seq<Bytes>)
    requires lines != [] && forall i :: 0 <= i < |lines| ==> OneLine(lines[i])
    ensures |Split(HeaderBlock(lines))| == |lines|
    ensures forall i :: 0 <= i < |lines| - 1 ==> Split(HeaderBlock(lines))[i] == lines[i] + [CR]
    ensures Split(HeaderBlock(lines))[|lines| - 1] == lines[|lines| - 1]
  {
    if |lines| == 1 {
      assert HeaderBlock(lines) == lines[0];
      SplitWithoutLf(lines[0]);
    } else {
      assert lines[1..][..|lines| - 2] == lines[..|lines| - 1][1..];
      assert HeaderBlock(lines) == (lines[0] + [CR]) + [LF] + HeaderBlock(lines[1..]);
      SplitLine(lines[0] + [CR], HeaderBlock(lines[1..]));
      SplitOfHeaderBlock(lines[1..]);
    }
  }

  lemma HeaderBlockLooksLikeHeaders(lines: seq<Bytes>, at: nat)
    requires forall i :: 0 <= i < |lines| ==> OneLine(lines[i])
    requires at < |lines| && NamesHeader(lines[at])
    ensures LooksLikeHeaders(HeaderBlock(lines))
  {
    SplitOfHeaderBlock(lines);
    TrimRightEolAppend(lines[at], [CR]);
    assert NamesHeader(Split(HeaderBlock(lines))[at]);
  }

  lemma CleanLineTrims(line: Bytes)
    requires Clean(line)
    ensures TrimSuffixCr(line) == line && TrimSuffixCr(line + [CR]) == line
  {}

  lemma ServedHeaderBlock(lines: seq<Bytes>)
    requires lines != [] && lines[|lines| - 1] != []
    requires forall i :: 0 <= i < |lines| ==> OneLine(lines[i])
    ensures ContentLines(HeaderBlock(lines)) == Split(HeaderBlock(lines))
  {
    SplitOfHeaderBlock(lines);
  }

  lemma HeaderBlockPieces(lines: seq<Bytes>)
    requires lines != [] && forall i :: 0 <= i < |lines| ==> Clean(lines[i]) && lines[i] != []
    ensures |ContentLines(HeaderBlock(lines))| == |lines|
    ensures forall i :: 0 <= i < |lines| ==> TrimSuffixCr(ContentLines(HeaderBlock(lines))[i]) == lines[i]
  {
    SplitOfHeaderBlock(lines);
    ServedHeaderBlock(lines);
    forall i | 0 <= i < |lines| ensures TrimSuffixCr(Split(HeaderBlock(lines))[i]) == lines[i] {
      CleanLineTrims(lines[i]);
    }
  }

  /** Serving the header block serves exactly the header lines. */
  lemma StuffedHeaderBlock(lines: seq<Bytes>)
    requires lines != [] && forall i :: 0 <= i < |lines| ==> Clean(lines[i]) && lines[i] != []
    ensures Stuffed(HeaderBlock(lines)) == Text(Map(DotStuff, lines))
  {
    HeaderBlockPieces(lines);
    StuffedPieces(ContentLines(HeaderBlock(lines)), lines);
  }

  // ----- what HEAD and BODY serve of an accepted post

  /** The lines of an accepted post: clean, with a message ID before the first blank line. */
  predicate Accepted(lines: seq<Bytes>) {
    (forall i :: 0 <= i < |lines| ==> Clean(lines[i])) && PostedId(lines) != []
  }

  /** The post carries a body after a blank line and is not a bare yEnc one. */
  predicate HasBody(lines: seq<Bytes>) {
    HeaderCount(lines) < |lines| && !IsBareYenc(Text(lines))
  }

  /** The text before, at and after one of its lines. */
  lemma TextAt(lines: seq<Bytes>, k: nat)
    requires k < |lines|
    ensures Text(lines) == Text(lines[..k]) + (lines[k] + CRLF + Text(lines[k + 1..]))
  {
    assert lines == lines[..k] + lines[k..];
    TextAppend(lines[..k], lines[k..]);
    assert lines[k..][1..] == lines[k + 1..];
  }

  lemma BlankBetween(before: Bytes, after: Bytes)
    ensures before + ([] + CRLF + after) == before + CRLF + after
  {}

  lemma TextAtBlank(lines: seq<Bytes>, k: nat)
    requires k < |lines| && lines[k] == []
    ensures Text(lines) == Text(lines[..k]) + CRLF + Text(lines[k + 1..])
  {
    TextAt(lines, k);
    BlankBetween(Text(lines[..k]), Text(lines[k + 1..]));
  }

  lemma HeaderBlockText(head: seq<Bytes>)
    requires head != []
    ensures Text(head) == HeaderBlock(head) + CRLF
  {
    var n := |head| - 1;
    TextAt(head, n);
    assert Text(head[n + 1..]) == [];
    assert head[n] + CRLF + [] == head[n] + CRLF;
    assert Text(head[..n]) + (head[n] + CRLF) == Text(head[..n]) + head[n] + CRLF;
  }

  lemma TextAroundBlank(lines: seq<Bytes>)
    requires 0 < HeaderCount(lines) < |lines|
    ensures var head := lines[..HeaderCount(lines)];
            var body := Text(lines[HeaderCount(lines) + 1..]);
            && Text(lines) == Text(head) + (CRLF + body)
            && |Text(head)| == |HeaderBlock(head)| + 2
            && Text(lines) == HeaderBlock(head) + (BLANK_CRLF + body)
  {
    var k := HeaderCount(lines);
    var block, body := HeaderBlock(lines[..k]), Text(lines[k + 1..]);
    TextAt(lines, k);
    HeaderBlockText(lines[..k]);
    assert [] + CRLF + body == CRLF + body;
    assert block + CRLF + (CRLF + body) == block + (BLANK_CRLF + body);
  }

  /** In an accepted post the first CRLFCRLF is the first blank line the reader saw. */
  lemma FirstBlankIsTheSeparator(lines: seq<Bytes>)
    requires Accepted(lines) && HeaderCount(lines) < |lines|
    ensures 0 < HeaderCount(lines)
    ensures Index(Text(lines), BLANK_CRLF) == Some(|HeaderBlock(lines[..HeaderCount(lines)])|)
  {
    var at := PostedIdLine(lines);
    var k := HeaderCount(lines);
    var head := lines[..k];
    TextAroundBlank(lines);
    var s := Text(lines);
    var n := |HeaderBlock(head)|;
    assert s[n..] == BLANK_CRLF + Text(lines[k + 1..]);
    forall j | 0 <= j < n ensures !(BLANK_CRLF <= s[j..]) {
      NoEarlyBlank(head, CRLF + Text(lines[k + 1..]), j);
    }
    IndexIsFirst(s, BLANK_CRLF, n);
  }

  /** An accepted post without a blank line has no separator of either kind. */
  lemma NoBlankNoSeparator(lines: seq<Bytes>)
    requires Accepted(lines) && HeaderCount(lines) == |lines|
    ensures Index(Text(lines), BLANK_CRLF) == None && Index(Text(lines), BLANK_LF) == None
  {
    var s := Text(lines);
    forall j | 0 <= j <= |s| ensures !(BLANK_CRLF <= s[j..]) {
      if j + 2 < |s| {
        NoEarlyBlank(lines, [], j);
        assert s + [] == s;
      }
    }
    IndexAbsent(s, BLANK_CRLF);
    forall j | 0 <= j <= |s| ensures !(BLANK_LF <= s[j..]) {
      if j + 1 < |s| && s[j] == LF && s[j + 1] == LF {
        NoBareLf(lines, j + 1);
      }
      assert j + 1 < |s| ==> s[j..][0] == s[j] && s[j..][1] == s[j + 1];
    }
    IndexAbsent(s, BLANK_LF);
  }

  lemma HeadLooksLikeHeaders(lines: seq<Bytes>)
    requires Accepted(lines)
    ensures 0 < HeaderCount(lines) && LooksLikeHeaders(HeaderBlock(lines[..HeaderCount(lines)]))
  {
    var at := PostedIdLine(lines);
    HeaderBlockLooksLikeHeaders(lines[..HeaderCount(lines)], at);
  }

  lemma CutOut(before: Bytes, separator: Bytes, after: Bytes)
    ensures (before + (separator + after))[..|before|] == before
    ensures (before + (separator + after))[|before| + |separator|..] == after
  {}

  lemma SplitAround(before: Bytes, separator: Bytes, after: Bytes)
    requires Index(before + (separator + after), separator) == Some(|before|) && LooksLikeHeaders(before)
    ensures SplitAt(before + (separator + after), separator) == Some((before, after))
  {
    CutOut(before, separator, after);
  }

  lemma SplitAtFirstBlank(lines: seq<Bytes>)
    requires Accepted(lines) && HeaderCount(lines) < |lines|
    ensures 0 < HeaderCount(lines)
    ensures SplitAt(Text(lines), BLANK_CRLF)
         == Some((HeaderBlock(lines[..HeaderCount(lines)]), Text(lines[HeaderCount(lines) + 1..])))
  {
    var k := HeaderCount(lines);
    HeadLooksLikeHeaders(lines);
    FirstBlankIsTheSeparator(lines);
    TextAroundBlank(lines);
    SplitAround(HeaderBlock(lines[..k]), BLANK_CRLF, Text(lines[k + 1..]));
  }

  /** The split of an accepted post, in full: at its first blank line when it has one and is not bare yEnc,
      and nowhere otherwise. */
  lemma AcceptedPostSplits(lines: seq<Bytes>)
    requires Accepted(lines)
    ensures HeaderSplit(Text(lines))
         == if HasBody(lines)
            then Some((HeaderBlock(lines[..HeaderCount(lines)]), Text(lines[HeaderCount(lines) + 1..])))
            else None
  {
    if HeaderCount(lines) < |lines| {
      SplitAtFirstBlank(lines);
    } else {
      NoBlankNoSeparator(lines);
    }
  }

  lemma StuffedAround(lines: seq<Bytes>, k: nat)
    requires k < |lines| && lines[k] == []
    ensures Text(Map(DotStuff, lines))
         == Text(Map(DotStuff, lines[..k])) + CRLF + Text(Map(DotStuff, lines[k + 1..]))
  {
    MapAround(DotStuff, lines, k);
    TextAtBlank(Map(DotStuff, lines), k);
  }

  /** HEAD serves the lines before the first blank line, BODY the lines after it, and put together around
      one empty line they are what ARTICLE serves. */
  lemma HeadAndBodyMakeTheArticle(lines: seq<Bytes>, id: Bytes)
    requires Accepted(lines) && HasBody(lines)
    ensures var k := HeaderCount(lines);
            && Stuffed(ArticleHeaders(id, Text(lines))) == Text(Map(DotStuff, lines[..k]))
            && Stuffed(ArticleBody(Text(lines))) == Text(Map(DotStuff, lines[k + 1..]))
    ensures Stuffed(Text(lines))
         == Stuffed(ArticleHeaders(id, Text(lines))) + CRLF + Stuffed(ArticleBody(Text(lines)))
  {
    var k := HeaderCount(lines);
    var at := PostedIdLine(lines);
    AcceptedPostSplits(lines);
    StuffedHeaderBlock(lines[..k]);
    StuffOfStoredText(lines[k + 1..]);
    StuffOfStoredText(lines);
    StuffedAround(lines, k);
  }

  /** Otherwise BODY serves the whole article and HEAD a header made up from the ID. */
  lemma BodyOnlyPost(lines: seq<Bytes>, id: Bytes)
    requires Accepted(lines) && !HasBody(lines)
    ensures ArticleBody(Text(lines)) == Text(lines)
    ensures ArticleHeaders(id, Text(lines)) == SynthesizedHeader(id)
  {
    AcceptedPostSplits(lines);
  }
}
