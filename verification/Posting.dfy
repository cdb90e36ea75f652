/** POST, HEAD, ARTICLE: reading a posted article, storing it, and serving it again
    (sections 6.2.1, 6.2.2 and 6.3.1 of RFC 3977). */
module Posting {
  import opened ByteStrings
  import opened Wire
  import opened Articles
  import opened Streams
  import opened ArticleStores
  import opened FileNames

  datatype Posted = Article(id: Bytes, contents: Bytes) | NoMessageId | OverlongLine | ConnectionEnded | LocalFailure

  /** What a data block amounts to as a post. */
  function AsPost(block: Block): Posted {
    match block
    case Block(lines, _) => if PostedId(lines) == [] then NoMessageId else Article(PostedId(lines), Text(lines))
    case Overlong(_) => OverlongLine
    case Cut => ConnectionEnded
  }

  /** What goes wrong with the temporary file: it cannot be created, takes some lines and then no more, or takes
      them all but cannot be flushed, synced or closed. */
  datatype LocalFault = Intact | NoTempFile | WriteFails(after: nat) | CloseFails

  /** What follows the first line, when it is one that the reader keeps. */
  function SkipKept(input: Bytes): (rest: Option<Bytes>)
    ensures rest.Some? ==> |rest.value| < |input|
  {
    match NextLine(input)
    case Line(raw, rest) => if TrimRightEol(raw) == [DOT] then None else Some(rest)
    case _ => None
  }

  /** The input left unread when the file takes no line after the first n: the one that fails has been read. */
  function StopsAt(input: Bytes, n: nat): (rest: Option<Bytes>)
    ensures rest.Some? ==> |rest.value| < |input|
    decreases n
  {
    match SkipKept(input)
    case None => None
    case Some(rest) => if n == 0 then Some(rest) else StopsAt(rest, n - 1)
  }

  /** Where the fault stops the reading, if it does. */
  function StoppedBy(input: Bytes, fault: LocalFault): (rest: Option<Bytes>)
    ensures rest.Some? ==> |rest.value| <= |input|
  {
    match fault
    case NoTempFile => Some(input)
    case WriteFails(n) => StopsAt(input, n)
    case _ => None
  }

  /** The file takes this many lines. */
  predicate TakesAll(fault: LocalFault, lines: nat) {
    !fault.NoTempFile? && (fault.WriteFails? ==> lines <= fault.after)
  }

  /** The post at the head of the input. */
  function PostOf(input: Bytes, fault: LocalFault): Posted {
    if StoppedBy(input, fault).Some? then LocalFailure
    else if fault.CloseFails? && ReadBlock(input).Block? then LocalFailure
    else AsPost(ReadBlock(input))
  }

  /** What is left unread after it, when the session can go on. */
  function AfterPost(input: Bytes, fault: LocalFault): Option<Bytes> {
    match StoppedBy(input, fault)
    case Some(rest) => Some(rest)
    case None => if ReadBlock(input).Block? then Some(ReadBlock(input).rest) else None
  }

  lemma {:induction false} HeaderBufferAppend(lines: seq<Bytes>, line: Bytes)
    ensures HeaderBuffer(lines + [line])
         == HeaderBuffer(lines) + if HeaderCount(lines) == |lines| && line != [] then line + [LF] else []
    ensures HeaderCount(lines + [line]) == |lines + [line]| <==> HeaderCount(lines) == |lines| && line != []
  {
    if lines == [] {
      assert lines + [line] == [line];
      assert HeaderBuffer([]) == [];
    } else if lines[0] != [] {
      assert (lines + [line])[1..] == lines[1..] + [line];
      HeaderBufferAppend(lines[1..], line);
    }
  }

  /** Some lines of the block at the head of the input have been read, and `rest` is still unread. */
  ghost predicate HasRead(input: Bytes, lines: seq<Bytes>, rest: Bytes) {
    ReadBlock(input) == match ReadBlock(rest)
                        case Block(more, after) => Block(lines + more, after)
                        case failed => failed
  }

  lemma ReadOneMore(input: Bytes, lines: seq<Bytes>, rest: Bytes)
    requires HasRead(input, lines, rest)
    ensures NextLine(rest).Eof? ==> ReadBlock(input).Cut?
    ensures NextLine(rest).TooLong? ==> ReadBlock(input).Overlong?
    ensures NextLine(rest).Line? && TrimRightEol(NextLine(rest).line) == [DOT] ==>
              ReadBlock(input) == Block(lines, NextLine(rest).rest)
    ensures NextLine(rest).Line? && TrimRightEol(NextLine(rest).line) != [DOT] ==>
              HasRead(input, lines + [DecodeLine(NextLine(rest).line)], NextLine(rest).rest)
  {
    match NextLine(rest)
    case Eof =>
    case TooLong(_) =>
    case Line(raw, after) =>
      if TrimRightEol(raw) == [DOT] {
        assert lines + [] == lines;
      } else if ReadBlock(after).Block? {
        var more := ReadBlock(after).lines;
        assert lines + ([DecodeLine(raw)] + more) == (lines + [DecodeLine(raw)]) + more;
      }
  }

  lemma StoredOneMore(lines: seq<Bytes>, line: Bytes)
    ensures Text(lines + [line]) == Text(lines) + (line + CRLF)
  {
    TextAppend(lines, [line]);
    assert Text([line]) == line + CRLF + Text([]);
  }

  /** The file has taken some lines so far. */
  predicate Taking(input: Bytes, fault: LocalFault, taken: nat, rest: Bytes) {
    fault.WriteFails? ==> taken <= fault.after && StopsAt(input, fault.after) == StopsAt(rest, fault.after - taken)
  }

  /** The file does not take one line more. */
  predicate Full(fault: LocalFault, taken: nat) {
    fault.WriteFails? && taken == fault.after
  }

  lemma TakeOneMore(input: Bytes, fault: LocalFault, taken: nat, rest: Bytes)
    requires Taking(input, fault, taken, rest)
    ensures fault.WriteFails? && !NextLine(rest).Line? ==> StopsAt(input, fault.after).None?
    ensures fault.WriteFails? && NextLine(rest).Line? && TrimRightEol(NextLine(rest).line) == [DOT] ==>
              StopsAt(input, fault.after).None?
    ensures NextLine(rest).Line? && TrimRightEol(NextLine(rest).line) != [DOT] ==>
              if Full(fault, taken) then StopsAt(input, fault.after) == Some(NextLine(rest).rest)
              else Taking(input, fault, taken + 1, NextLine(rest).rest)
  {}

  lemma NothingRead(input: Bytes, fault: LocalFault)
    ensures HasRead(input, [], input) && Taking(input, fault, 0, input)
  {
    if ReadBlock(input).Block? {
      assert [] + ReadBlock(input).lines == ReadBlock(input).lines;
    }
  }

  datatype Reading = Whole | LineTooLong | InputEnded | WriteFailed

  /** The reading loop: collects the header lines and the text to store, until the block ends, a line is over-long,
      the connection ends, or the file takes no more. */
  method ReadLines(reader: Reader, fault: LocalFault)
    returns (end: Reading, header: Bytes, written: Bytes, ghost lines: seq<Bytes>)
    modifies reader
    ensures end.Whole? ==> ReadBlock(old(reader.rest)) == Block(lines, reader.rest)
    ensures end.Whole? ==> header == HeaderBuffer(lines) && written == Text(lines)
    ensures end.LineTooLong? ==> ReadBlock(old(reader.rest)).Overlong?
    ensures end.InputEnded? ==> ReadBlock(old(reader.rest)).Cut?
    ensures fault.WriteFails? ==>
              StopsAt(old(reader.rest), fault.after) == if end.WriteFailed? then Some(reader.rest) else None
    ensures end.WriteFailed? ==> fault.WriteFails?
  {
    header, written, lines := [], [], [];
    var inHeaders, count := true, 0;
    NothingRead(reader.rest, fault);
    while true
      invariant HasRead(old(reader.rest), lines, reader.rest)
      invariant written == Text(lines)
      invariant header == HeaderBuffer(lines) && (inHeaders <==> HeaderCount(lines) == |lines|)
      invariant Taking(old(reader.rest), fault, count, reader.rest)
      decreases |reader.rest|
    {
      ReadOneMore(old(reader.rest), lines, reader.rest);
      TakeOneMore(old(reader.rest), fault, count, reader.rest);
      var read := reader.ReadLine();
      if !read.Line? {
        end := if read.TooLong? then LineTooLong else InputEnded;
        return;
      }
      var line := TrimRightEol(read.line);
      if line == [DOT] {
        end := Whole;
        return;
      }
      if LeadsDotDot(line) {
        line := line[1..];
      }
      HeaderBufferAppend(lines, line);
      if inHeaders {
        if line == [] {
          inHeaders := false;
        } else {
          header := header + (line + [LF]);
        }
      }
      if Full(fault, count) {
        end := WriteFailed;
        return;
      }
      StoredOneMore(lines, line);
      written := written + (line + CRLF);
      lines := lines + [line];
      count := count + 1;
    }
  }

  lemma TempFile(files: map<Bytes, Bytes>, temp: Bytes, contents: Bytes)
    requires temp !in files
    ensures files[temp := []][temp := contents] == files[temp := contents]
    ensures files[temp := contents] - {temp} == files
    ensures files - {temp} == files
  {}

  /** Reads one posted article into a temporary file. The file stays only for an article that names itself and was
      written in full, and then holds its text; when its removal fails an unaccepted file is left behind. A file
      that cannot be created or written leaves the rest of the article unread. */
  method ReadPostedArticle(reader: Reader, directory: Directory, suffix: Bytes, fault: LocalFault,
                           removeFails: bool)
    returns (posted: Posted, temp: Bytes)
    requires TEMP_PREFIX + suffix !in directory.files
    modifies reader, directory
    ensures posted == PostOf(old(reader.rest), fault)
    ensures AfterPost(old(reader.rest), fault).Some? ==> reader.rest == AfterPost(old(reader.rest), fault).value
    ensures temp == TEMP_PREFIX + suffix
    ensures posted.Article? ==> directory.files == old(directory.files)[temp := posted.contents]
    ensures !posted.Article? ==> directory.files - {temp} == old(directory.files)
    ensures !posted.Article? ==> (temp in directory.files <==> removeFails && !fault.NoTempFile?)
  {
    if fault.NoTempFile? {
      return LocalFailure, TEMP_PREFIX + suffix;
    }
    temp := directory.CreateTemp(suffix);
    TempFile(old(directory.files), temp, []);
    var end, header, written, lines := ReadLines(reader, fault);
    if end.Whole? && !fault.CloseFails? {
      directory.Write(temp, written);
      TempFile(old(directory.files), temp, written);
      var id := MessageIdFromHeaders(header);
      if id != [] {
        return Article(id, written), temp;
      }
    }
    var _ := directory.Remove(temp, removeFails);
    posted := match end {
      case Whole => if fault.CloseFails? then LocalFailure else NoMessageId
      case LineTooLong => OverlongLine
      case InputEnded => ConnectionEnded
      case WriteFailed => LocalFailure
    };
  }

  lemma KeptLineIsClean(input: Bytes)
    requires NextLine(input).Line?
    ensures Clean(DecodeLine(NextLine(input).line))
  {
    var n := IndexLf(input);
    assert NextLine(input).line == input[..n] + [LF];
    TrimRightEolAppend(input[..n], [LF]);
    DecodedLineIsClean(input[..n]);
  }

  /** Every line the reader keeps is clean. */
  lemma {:induction false} ReadLinesAreClean(input: Bytes)
    requires ReadBlock(input).Block?
    ensures forall i :: 0 <= i < |ReadBlock(input).lines| ==> Clean(ReadBlock(input).lines[i])
    decreases |input|
  {
    var read := NextLine(input);
    if TrimRightEol(read.line) != [DOT] {
      ReadLinesAreClean(read.rest);
      KeptLineIsClean(input);
    }
  }

  // ----- the commands

  datatype PostReply = Received | DuplicateArticle | StorageFailed | PostingFailed

  function ReplyLine(reply: PostReply): Bytes {
    match reply
    case Received => "240 Article received"
    case DuplicateArticle => "441 Duplicate article"
    case StorageFailed => "441 Storage error"
    case PostingFailed => "441 Posting failed"
  }

  /** The store once the post's temporary file has been written in full. */
  function Receiving(s: Store, temp: Bytes, contents: Bytes): Store {
    Store(s.articles, s.files[temp := contents])
  }

  /** POST. The session ends exactly when an over-long line was met; the article is stored exactly
      when the reply says so; and otherwise nothing but the temporary file can have changed. */
  method HandlePost(reader: Reader, writer: Writer, store: ArticleStore, suffix: Bytes, fault: LocalFault,
                    renameFails: bool, removeFails: bool)
    returns (keep: bool, reply: PostReply)
    requires TEMP_PREFIX + suffix !in store.directory.files
    modifies reader, writer, store, store.directory
    ensures keep <==> !PostOf(old(reader.rest), fault).OverlongLine?
    ensures writer.out == old(writer.out) + "340 Send article, end with ." + CRLF + ReplyLine(reply) + CRLF
    ensures reply == PostingFailed <==> !PostOf(old(reader.rest), fault).Article?
    ensures reply == DuplicateArticle <==>
              var post := PostOf(old(reader.rest), fault);
              post.Article? && (post.id in old(store.articles) || IsDirectoryName(PathEscape(post.id)))
    ensures reply == StorageFailed <==> reply != PostingFailed && reply != DuplicateArticle && renameFails
    ensures reply == Received ==>
              var post := PostOf(old(reader.rest), fault);
              var temp := TEMP_PREFIX + suffix;
              store.View() == Committed(Receiving(old(store.View()), temp, post.contents), post.id, temp)
    ensures reply != Received ==>
              && store.articles == old(store.articles)
              && store.directory.files - {TEMP_PREFIX + suffix} == old(store.directory.files)
    ensures reply != Received && !removeFails ==> store.View() == old(store.View())
    ensures AfterPost(old(reader.rest), fault).Some? ==> reader.rest == AfterPost(old(reader.rest), fault).value
  {
    writer.WriteLine("340 Send article, end with .");
    var posted, temp := ReadPostedArticle(reader, store.directory, suffix, fault, removeFails);
    if !posted.Article? {
      reply := PostingFailed;
      writer.WriteLine(ReplyLine(reply));
      return !posted.OverlongLine?, reply;
    }
    TempFile(old(store.directory.files), temp, posted.contents);
    var result := store.Commit(posted.id, temp, renameFails);
    if result != Stored {
      var _ := store.directory.Remove(temp, removeFails);
      TempFile(old(store.directory.files), temp, posted.contents);
    }
    reply := match result {
      case Stored => Received
      case Duplicate => DuplicateArticle
      case StorageError => StorageFailed
    };
    writer.WriteLine(ReplyLine(reply));
    keep := true;
  }

  const NO_SUCH_ARTICLE: Bytes := "430 No such article"

  method HandleHead(writer: Writer, store: ArticleStore, id: Bytes)
    modifies writer
    ensures Lookup(store.View(), id).None? ==> writer.out == old(writer.out) + NO_SUCH_ARTICLE + CRLF
    ensures Lookup(store.View(), id).Some? ==>
              writer.out == old(writer.out) + ("221 0 <" + id + ">") + CRLF
                          + Stuffed(ArticleHeaders(id, Lookup(store.View(), id).value)) + TERMINATOR
  {
    var article := store.Load(id);
    if article.None? {
      writer.WriteLine(NO_SUCH_ARTICLE);
      return;
    }
    writer.WriteLine("221 0 <" + id + ">");
    writer.WriteDotStuffed(ArticleHeaders(id, article.value), true);
  }

  method HandleArticle(writer: Writer, store: ArticleStore, id: Bytes)
    modifies writer
    ensures Lookup(store.View(), id).None? ==> writer.out == old(writer.out) + NO_SUCH_ARTICLE + CRLF
    ensures Lookup(store.View(), id).Some? ==>
              writer.out == old(writer.out) + ("220 0 <" + id + ">") + CRLF
                          + Stuffed(Lookup(store.View(), id).value) + TERMINATOR
  {
    var article := store.Load(id);
    if article.None? {
      writer.WriteLine(NO_SUCH_ARTICLE);
      return;
    }
    writer.WriteLine("220 0 <" + id + ">");
    writer.WriteDotStuffed(article.value, true);
  }

  /** HEAD's lines, one empty line and BODY's lines are ARTICLE's. */
  predicate HeadBlankBody(id: Bytes, contents: Bytes) {
    Stuffed(contents) == Stuffed(ArticleHeaders(id, contents)) + CRLF + Stuffed(ArticleBody(contents))
  }

  lemma CommittedIsFound(s: Store, id: Bytes, temp: Bytes, contents: Bytes)
    ensures Lookup(Committed(Receiving(s, temp, contents), id, temp), id) == Some(contents)
  {}

  /** From the wire and back, through any store: once the post of a sent block is accepted and committed, ARTICLE
      finds the block's decoded lines under its ID and serves the block itself exactly when every line is verbatim,
      and HEAD and BODY divide it at the first blank line. */
  lemma SentThenServed(raws: seq<Bytes>, rest: Bytes, fault: LocalFault, s: Store, temp: Bytes)
    requires forall i :: 0 <= i < |raws| ==> Sendable(raws[i])
    requires PostOf(Text(raws) + TERMINATOR + rest, fault).Article?
    ensures var post := PostOf(Text(raws) + TERMINATOR + rest, fault);
            var lines := Map(DecodeLine, raws);
            && Accepted(lines) && post.id == PostedId(lines) && post.contents == Text(lines)
            && Lookup(Committed(Receiving(s, temp, post.contents), post.id, temp), post.id) == Some(Text(lines))
            && (StuffedBlock(Text(lines)) == Text(raws) + TERMINATOR <==> AllVerbatim(raws))
            && (HasBody(lines) ==> HeadBlankBody(post.id, post.contents))
  {
    PostThenArticle(raws, rest);
    StoredLinesAreClean(raws);
    var lines := Map(DecodeLine, raws);
    CommittedIsFound(s, PostedId(lines), temp, Text(lines));
    if HasBody(lines) {
      HeadAndBodyMakeTheArticle(lines, PostedId(lines));
    }
  }
}
