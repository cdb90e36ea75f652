/** The ID a posted article is stored under, from the header lines as the client wrote them, and how the client finds
    the article again (sections 6.2.1 and 6.3.1 of RFC 3977). */
module PostedIds {
  import opened ByteStrings
  import opened Wire
  import opened Words
  import opened Articles
  import opened ArticleStores
  import opened Posting
  import Sessions
  import Framing

  const NAME: Bytes := "message-id:"

  /** The line starts with the name of the Message-ID header, in any letter case. */
  predicate HasName(line: Bytes) {
    |line| >= |NAME| && SameLetters(line[..|NAME|], NAME)
  }

  lemma NameExactly(line: Bytes)
    ensures IsMessageIdLine(line) <==> HasName(line)
  {
    if |line| >= |NAME| {
      EqualFoldExactly(line[..|NAME|], NAME);
    }
  }

  /** A header line that names the article, with white space around the brackets. */
  datatype IdLine = IdLine(name: Bytes, before: Bytes, id: Bytes, after: Bytes)

  predicate IsIdLine(h: IdLine) {
    SameLetters(h.name, NAME) && AllSpace(h.before) && IsPlainId(h.id) && AllSpace(h.after)
  }

  function Written(h: IdLine): Bytes {
    h.name + (h.before + Bracketed(h.id) + h.after)
  }

  lemma IdLineGivesId(h: IdLine)
    requires IsIdLine(h)
    ensures HasName(Written(h)) && FirstMessageId([Written(h)]) == h.id
    ensures StripBrackets(TrimSpace(Written(h)[|NAME|..])) == h.id
  {
    var line := Written(h);
    assert line[..|NAME|] == h.name && line[|NAME|..] == h.before + Bracketed(h.id) + h.after;
    NameExactly(line);
    TrimSpaceIs(h.before, Bracketed(h.id), h.after);
    StripBracketsIs([], h.id, []);
    assert [] + Bracketed(h.id) + [] == Bracketed(h.id);
  }

  /** No line before this one has the name. */
  predicate NoNameBefore(lines: seq<Bytes>, at: nat) {
    forall j :: 0 <= j < at && j < |lines| ==> !HasName(lines[j])
  }

  lemma {:induction false} FirstNamedLine(lines: seq<Bytes>, at: nat)
    requires at < |lines| && NoNameBefore(lines, at) && HasName(lines[at])
    ensures FirstMessageId(lines) == StripBrackets(TrimSpace(lines[at][|NAME|..]))
  {
    NameExactly(lines[0]);
    if at > 0 {
      assert !HasName(lines[0]);
      FirstNamedLine(lines[1..], at - 1);
    }
  }

  lemma {:induction false} NoNamedLine(lines: seq<Bytes>)
    requires NoNameBefore(lines, |lines|)
    ensures FirstMessageId(lines) == []
  {
    if lines != [] {
      NameExactly(lines[0]);
      assert !HasName(lines[0]);
      NoNamedLine(lines[1..]);
    }
  }

  lemma PiecesHaveNames(lines: seq<Bytes>, n: nat, at: nat)
    requires at < n <= |lines| && NoNameBefore(lines, at)
    ensures NoNameBefore(lines[..n] + [[]], at) && (lines[..n] + [[]])[at] == lines[at]
  {
    assert forall j :: 0 <= j <= at ==> (lines[..n] + [[]])[j] == lines[j];
  }

  lemma BufferGivesId(lines: seq<Bytes>, pieces: seq<Bytes>)
    requires Split(HeaderBuffer(lines)) == pieces
    ensures PostedId(lines) == FirstMessageId(pieces)
  {}

  /** A post is stored under the ID between the brackets of its first header line that has the name, in whatever
      letters the name is written. */
  lemma PostedIdIsTheFirstNamed(lines: seq<Bytes>, at: nat, h: IdLine)
    requires forall i :: 0 <= i < |lines| ==> OneLine(lines[i])
    requires at < HeaderCount(lines) && NoNameBefore(lines, at) && IsIdLine(h) && lines[at] == Written(h)
    ensures PostedId(lines) == h.id
  {
    var pieces := lines[..HeaderCount(lines)] + [[]];
    SplitHeaderBuffer(lines);
    PiecesHaveNames(lines, HeaderCount(lines), at);
    IdLineGivesId(h);
    FirstNamedLine(pieces, at);
    BufferGivesId(lines, pieces);
  }

  lemma {:induction false} NoNamedPiece(head: seq<Bytes>)
    requires NoNameBefore(head, |head|)
    ensures FirstMessageId(head + [[]]) == []
  {
    if head == [] {
      assert head + [[]] == [[]];
      NoNamedLine([[]]);
    } else {
      assert (head + [[]])[1..] == head[1..] + [[]];
      NameExactly(head[0]);
      assert !HasName(head[0]);
      NoNamedPiece(head[1..]);
    }
  }

  lemma HeadIsUnnamed(lines: seq<Bytes>, n: nat)
    requires n <= |lines| && NoNameBefore(lines, n)
    ensures |lines[..n]| == n && NoNameBefore(lines[..n], |lines[..n]|)
  {
    forall j | 0 <= j < n ensures !HasName(lines[..n][j]) {
      assert lines[..n][j] == lines[j];
    }
  }

  /** It has no ID when no header line has the name. */
  lemma NoNameNoPostedId(lines: seq<Bytes>)
    requires forall i :: 0 <= i < |lines| ==> OneLine(lines[i])
    requires NoNameBefore(lines, HeaderCount(lines))
    ensures PostedId(lines) == []
  {
    var head := lines[..HeaderCount(lines)];
    HeadIsUnnamed(lines, HeaderCount(lines));
    NoNamedPiece(head);
    SplitHeaderBuffer(lines);
    BufferGivesId(lines, head + [[]]);
  }

  const HEADER_NAME: Bytes := "Message-ID:"

  lemma HeaderName()
    ensures SameLetters(HEADER_NAME, NAME) && OneLine(HEADER_NAME)
  {}

  lemma SynthesizedIs(id: Bytes)
    ensures SynthesizedHeader(id) == Written(IdLine(HEADER_NAME, [' '], id, []))
  {
    assert "Message-ID: <" == HEADER_NAME + [' ', '<'];
  }

  lemma IdLineIsOneLine(h: IdLine)
    requires IsIdLine(h) && OneLine(h.name) && OneLine(h.before) && OneLine(h.after)
    ensures OneLine(Written(h))
  {}

  /** The header HEAD makes up for an article without one names the article. */
  lemma SynthesizedHeaderNamesTheArticle(id: Bytes)
    requires IsPlainId(id)
    ensures MessageIdFromHeaders(SynthesizedHeader(id)) == id
  {
    var h := IdLine(HEADER_NAME, [' '], id, []);
    HeaderName();
    SynthesizedIs(id);
    IdLineGivesId(h);
    IdLineIsOneLine(h);
    SplitWithoutLf(Written(h));
  }

  // ----- the client's request

  /** A request for the ID in brackets, however it is spelled, asks for the ID. */
  lemma RequestedId(verb: Bytes, id: Bytes)
    requires ' ' !in verb && Clean(verb) && IsPlainId(id)
    ensures StripBrackets(Sessions.SplitCommand(verb + [' '] + Bracketed(id) + CRLF).1) == id
  {
    var argument := Bracketed(id);
    assert argument[0] == '<' && argument[|argument| - 1] == '>';
    TrimRightEolIs(argument, |argument|);
    assert argument[..|argument|] == argument;
    assert OneLine(argument);
    Framing.CommandLineSplits(verb, argument);
    TrimSpaceIs([], argument, []);
    assert [] + argument + [] == argument;
    StripBracketsIs([], id, []);
  }

  /** From the client's lines to the client's request: a sent block that names an ID in its header, received without
      a fault, is a post under that ID; and once it is committed to whatever store, a request for the ID in brackets
      finds its decoded lines. */
  lemma ClientFindsItsArticle(raws: seq<Bytes>, rest: Bytes, at: nat, h: IdLine, s: Store, temp: Bytes, verb: Bytes)
    requires forall i :: 0 <= i < |raws| ==> Sendable(raws[i])
    requires var lines := Map(DecodeLine, raws);
             at < HeaderCount(lines) && NoNameBefore(lines, at) && IsIdLine(h) && lines[at] == Written(h)
    requires ' ' !in verb && Clean(verb)
    ensures var text := Text(Map(DecodeLine, raws));
            && PostOf(Text(raws) + TERMINATOR + rest, Intact) == Article(h.id, text)
            && Lookup(Committed(Receiving(s, temp, text), h.id, temp),
                      StripBrackets(Sessions.SplitCommand(verb + [' '] + Bracketed(h.id) + CRLF).1)) == Some(text)
  {
    var lines := Map(DecodeLine, raws);
    StoredLinesAreClean(raws);
    forall i | 0 <= i < |lines| ensures OneLine(lines[i]) {
      assert Clean(lines[i]);
    }
    PostedIdIsTheFirstNamed(lines, at, h);
    ReadSentBlock(raws, rest);
    RequestedId(verb, h.id);
    CommittedIsFound(s, h.id, temp, Text(lines));
  }
}
