/** One session's command loop: lines become commands, an accepted POST hands the stream to the article
    reader, and AUTHINFO (section 2.3 of RFC 4643) decides what a session may ask for. */
module Sessions {
  import opened ByteStrings
  import opened Wire
  import opened Articles
  import opened Streams
  import ArticleStores
  import Posting

  datatype ServerConfig = ServerConfig(username: Bytes, password: Bytes, testControl: bool)

  /** What the loop keeps between commands. */
  datatype State = State(pendingUser: Bytes, authenticated: bool, reauthRequired: bool)

  const FIRST_STATE := State([], false, false)

  /** How the rolls, the temporary file of a post and the store turn out for one command, and what its handler
      writes when that is not the loop's own line. */
  datatype Choice = Choice(
    rejectAuth: bool,
    reauthBody: bool,
    endsBody: bool,
    fault: Posting.LocalFault,
    commit: ArticleStores.CommitResult,
    text: Bytes)

  type Oracle = nat -> Choice

  datatype Reply =
    | Usage501
    | UnknownAuthinfo501
    | NeedPassword381(user: Bytes)
    | OutOfSequence482
    | Rejected481
    | Accepted281(user: Bytes, password: Bytes)
    | AuthRequired480
    | ReauthPending480
    | InjectedReauth480
    | BodyEnded(text: Bytes)
    | BodyServed(text: Bytes)
    | SendArticle340
    | Goodbye205
    | Unknown500
    | Answered(text: Bytes)

  // ----- one command

  function IndexByte(s: Bytes, c: Byte): (n: nat)
    ensures n <= |s|
  {
    if s == [] || s[0] == c then 0 else 1 + IndexByte(s[1..], c)
  }

  function CutCommand(line: Bytes): (Bytes, Bytes) {
    var n := IndexByte(line, ' ');
    if n == |line| then (Upper(line), []) else (Upper(line[..n]), TrimSpace(line[n + 1..]))
  }

  function SplitCommand(raw: Bytes): (Bytes, Bytes) {
    CutCommand(TrimRightEol(raw))
  }

  function Authinfo(config: ServerConfig, st: State, argument: Bytes, reject: bool): (Reply, State) {
    var fields := Fields(argument);
    if |fields| < 2 then
      (Usage501, st)
    else
      var value := JoinSpace(fields[1..]);
      if Upper(fields[0]) == "USER" then
        (NeedPassword381(value), st.(pendingUser := value))
      else if Upper(fields[0]) == "PASS" then
        if st.pendingUser == [] then (OutOfSequence482, st)
        else if reject || st.pendingUser != config.username || value != config.password then
          (Rejected481, State([], false, true))
        else (Accepted281(st.pendingUser, value), State([], true, false))
      else (UnknownAuthinfo501, st)
  }

  function Body(st: State, c: Choice): (Reply, State) {
    if !st.authenticated then (AuthRequired480, st)
    else if st.reauthRequired then (ReauthPending480, st)
    else if c.reauthBody then (InjectedReauth480, st.(reauthRequired := true))
    else if c.endsBody then (BodyEnded(c.text), st)
    else (BodyServed(c.text), st)
  }

  function IfAuthenticated(st: State, reply: Reply): Reply {
    if st.authenticated then reply else AuthRequired480
  }

  const OPEN_COMMANDS: set<Bytes> := {"CAPABILITIES", "MODE", "DATE"}
  const READER_COMMANDS: set<Bytes> := {"GROUP", "STAT", "HEAD", "ARTICLE"}
  const CONTROL_COMMANDS: set<Bytes> := {"CHAOS", "METRICS", "DELETE", "DELETEID", "RELOAD"}

  /** The commands that leave the loop's variables alone. */
  function Answer(config: ServerConfig, st: State, command: Bytes, text: Bytes): (reply: Reply)
    ensures reply.SendArticle340? ==> st.authenticated
    ensures reply.AuthRequired480? ==> !st.authenticated
    ensures reply.SendArticle340? || reply.Goodbye205? || reply.Answered? || reply.AuthRequired480? || reply.Unknown500?
  {
    if command == "POST" then IfAuthenticated(st, SendArticle340)
    else if command == "QUIT" then Goodbye205
    else if command in OPEN_COMMANDS then Answered(text)
    else if command in READER_COMMANDS then IfAuthenticated(st, Answered(text))
    else if command in CONTROL_COMMANDS && config.testControl then IfAuthenticated(st, Answered(text))
    else Unknown500
  }

  function Dispatch(config: ServerConfig, st: State, command: Bytes, argument: Bytes, c: Choice): (Reply, State) {
    if command == "AUTHINFO" then Authinfo(config, st, argument, c.rejectAuth)
    else if command == "BODY" then Body(st, c)
    else (Answer(config, st, command, c.text), st)
  }

  /** The session is over after this reply. A reply that ended a body covers dropping the connection before it
      and a body cut short. */
  predicate Ends(reply: Reply) {
    reply.Goodbye205? || reply.BodyEnded?
  }

  // ----- the whole stream

  /** What became of an article read in full. */
  datatype PostResult = NotWritten | NoMessageId | Committed(id: Bytes, result: ArticleStores.CommitResult)

  function ResultOf(id: Bytes, c: Choice): PostResult {
    if c.fault.CloseFails? then NotWritten else if id == [] then NoMessageId else Committed(id, c.commit)
  }

  /** One command as the loop ran it, with the state it left. */
  datatype Turn = Turn(command: Bytes, argument: Bytes, reply: Reply, state: State)

  /** What the loop did, in order. */
  datatype Event =
    | Ran(turn: Turn)
    | Posted(contents: Bytes, result: PostResult)
    | PostBroken
    | PostTooLong
    | PostCutOff
    | LineTooLong

  function RunLine(config: ServerConfig, st: State, raw: Bytes, c: Choice): Turn {
    var (command, argument) := SplitCommand(raw);
    var (reply, next) := Dispatch(config, st, command, argument, c);
    Turn(command, argument, reply, next)
  }

  /** How one line is answered. */
  type Handler = (State, Bytes, Choice) -> Turn

  /** The server's own handler. */
  function Commands(config: ServerConfig): Handler {
    (st: State, raw: Bytes, c: Choice) => RunLine(config, st, raw, c)
  }

  function PostedEvent(lines: seq<Bytes>, c: Choice): Event {
    Posted(Text(lines), ResultOf(PostedId(lines), c))
  }

  // ----- what is written

  const USER_USAGE: Bytes := "AUTHINFO USER <username>"
  const PASS_USAGE: Bytes := "AUTHINFO PASS <password>"
  const OUT_OF_SEQUENCE: Bytes := "issued out of sequence"
  const UNKNOWN_AUTHINFO_LINE: Bytes := "501 Unknown AUTHINFO command"
  const NEED_PASSWORD_LINE: Bytes := "381 Password required"
  const REJECTED_LINE: Bytes := "481 Authentication failed"
  const ACCEPTED_LINE: Bytes := "281 Authentication accepted"
  const REQUIRED_LINE: Bytes := "480 Authentication required"
  const SEND_LINE: Bytes := "340 Send article, end with ."
  const GOODBYE_LINE: Bytes := "205 Goodbye"
  const UNKNOWN_LINE: Bytes := "500 Unknown command"
  const TOO_LONG_LINE: Bytes := "501 Line too long"
  const TOO_MANY_LINE: Bytes := "502 Too many connections"
  const UNAVAILABLE_LINE: Bytes := "400 service temporarily unavailable"
  const NO_POSTING_LINE: Bytes := "201 e2e-nntp ready (no posting)"
  const READY_LINE: Bytes := "200 e2e-nntp ready (posting ok)"

  /** What a reply writes: the loop's own line, or its handler's text. */
  function ReplyText(reply: Reply): Bytes {
    match reply
    case Usage501 => "501 Usage: " + USER_USAGE + " | " + PASS_USAGE + CRLF
    case UnknownAuthinfo501 => UNKNOWN_AUTHINFO_LINE + CRLF
    case NeedPassword381(_) => NEED_PASSWORD_LINE + CRLF
    case OutOfSequence482 => "482 Authentication commands " + OUT_OF_SEQUENCE + CRLF
    case Rejected481 => REJECTED_LINE + CRLF
    case Accepted281(_, _) => ACCEPTED_LINE + CRLF
    case SendArticle340 => SEND_LINE + CRLF
    case Goodbye205 => GOODBYE_LINE + CRLF
    case Unknown500 => UNKNOWN_LINE + CRLF
    case BodyEnded(text) => text
    case BodyServed(text) => text
    case Answered(text) => text
    case _ => REQUIRED_LINE + CRLF
  }

  function PostReplyOf(result: PostResult): Posting.PostReply {
    if !result.Committed? then Posting.PostingFailed
    else if result.result.Stored? then Posting.Received
    else if result.result.Duplicate? then Posting.DuplicateArticle
    else Posting.StorageFailed
  }

  function EventText(e: Event): Bytes {
    match e
    case Ran(turn) => ReplyText(turn.reply)
    case Posted(_, result) => Posting.ReplyLine(PostReplyOf(result)) + CRLF
    case LineTooLong => TOO_LONG_LINE + CRLF
    case _ => Posting.ReplyLine(Posting.PostingFailed) + CRLF
  }

  /** What each event writes. */
  type Printer = Event -> Bytes

  /** The server's own lines. */
  const PRINTS: Printer := (e: Event) => EventText(e)

  /** Everything a session has written for its events, in order. */
  function Transcript(prints: Printer, events: seq<Event>): Bytes {
    if events == [] then [] else prints(events[0]) + Transcript(prints, events[1..])
  }

  lemma {:induction false} TranscriptAppend(prints: Printer, a: seq<Event>, b: seq<Event>)
    ensures Transcript(prints, a + b) == Transcript(prints, a) + Transcript(prints, b)
  {
    if a == [] {
      assert a + b == b;
    } else {
      assert (a + b)[1..] == a[1..] + b;
      TranscriptAppend(prints, a[1..], b);
    }
  }

  lemma WrittenMore(prints: Printer, start: Bytes, events: seq<Event>, more: seq<Event>)
    ensures start + Transcript(prints, events + more) == start + Transcript(prints, events) + Transcript(prints, more)
  {
    TranscriptAppend(prints, events, more);
  }

  lemma OnePrinted(prints: Printer, e: Event)
    ensures Transcript(prints, [e]) == prints(e)
  {
    assert prints(e) + Transcript(prints, []) == prints(e);
  }

  lemma TwoPrinted(prints: Printer, start: Bytes, d: Event, e: Event)
    ensures start + Transcript(prints, [d]) + Transcript(prints, [e]) == start + Transcript(prints, [d, e])
  {
    WrittenMore(prints, start, [d], [e]);
    assert [d] + [e] == [d, e];
  }

  /** How a connection comes in: its number, the limit it reads, and the greeting's rolls. */
  datatype Opening = Opening(active: int, limit: int, unavailable: bool, noPosting: bool, drops: bool)

  function Greeting(o: Opening): Bytes {
    if 0 < o.limit < o.active then TOO_MANY_LINE
    else if o.unavailable then UNAVAILABLE_LINE
    else if o.noPosting then NO_POSTING_LINE
    else READY_LINE
  }

  predicate IsWelcome(o: Opening) {
    !(0 < o.limit < o.active) && !o.unavailable && !o.drops
  }

  // ----- the stream

  /** The events of a session that still has this input to read, its commands counted from n. */
  function Serve(handler: Handler, input: Bytes, st: State, oracle: Oracle, n: nat): seq<Event>
    decreases |input|, 0
  {
    match NextLine(input)
    case Eof => []
    case TooLong(_) => [LineTooLong]
    case Line(raw, rest) => AfterTurn(handler, handler(st, raw, oracle(n)), rest, oracle, n)
  }

  /** A temporary file that cannot be created or written leaves the rest of the article to be served as commands. */
  function AfterPost(handler: Handler, turn: Turn, rest: Bytes, oracle: Oracle, n: nat): seq<Event>
    decreases |rest|, 1
  {
    match Posting.StoppedBy(rest, oracle(n).fault)
    case Some(unread) => [Ran(turn), PostBroken] + Serve(handler, unread, turn.state, oracle, n + 1)
    case None =>
      match ReadBlock(rest)
      case Overlong(_) => [Ran(turn), PostTooLong]
      case Cut => [Ran(turn), PostCutOff]
      case Block(lines, after) =>
        [Ran(turn), PostedEvent(lines, oracle(n))] + Serve(handler, after, turn.state, oracle, n + 1)
  }

  function AfterTurn(handler: Handler, turn: Turn, rest: Bytes, oracle: Oracle, n: nat): seq<Event>
    decreases |rest|, 2
  {
    if Ends(turn.reply) then [Ran(turn)]
    else if !turn.reply.SendArticle340? then [Ran(turn)] + Serve(handler, rest, turn.state, oracle, n + 1)
    else AfterPost(handler, turn, rest, oracle, n)
  }

  lemma Onward<T>(log: seq<T>, so: seq<T>, next: seq<T>, more: seq<T>)
    requires log == so + (next + more)
    ensures log == (so + next) + more
  {}

  /** The article a 340 asked for. A connection that ends inside it has nothing left to read. */
  method ReadPost(reader: Reader, c: Choice) returns (post: Event, goesOn: bool)
    modifies reader
    ensures goesOn ==> |reader.rest| <= |old(reader.rest)|
    ensures Posting.StoppedBy(old(reader.rest), c.fault).Some? ==>
              goesOn && post == PostBroken && reader.rest == Posting.StoppedBy(old(reader.rest), c.fault).value
    ensures Posting.StoppedBy(old(reader.rest), c.fault).None? ==>
              match ReadBlock(old(reader.rest)) {
                case Overlong(_) => !goesOn && post == PostTooLong
                case Cut => !goesOn && post == PostCutOff
                case Block(lines, after) => goesOn && post == PostedEvent(lines, c) && reader.rest == after
              }
  {
    if c.fault.NoTempFile? {
      return PostBroken, true;
    }
    var end, header, written, lines := Posting.ReadLines(reader, c.fault);
    if end.WriteFailed? {
      return PostBroken, true;
    }
    if end.LineTooLong? {
      return PostTooLong, false;
    }
    if end.InputEnded? {
      return PostCutOff, false;
    }
    return Posted(written, ResultOf(MessageIdFromHeaders(header), c)), true;
  }

  method FinishPost(handler: Handler, prints: Printer, turn: Turn, reader: Reader, writer: Writer,
                    oracle: Oracle, n: nat)
    returns (post: Event, goesOn: bool)
    modifies reader, writer
    ensures goesOn ==> |reader.rest| <= |old(reader.rest)|
    ensures AfterPost(handler, turn, old(reader.rest), oracle, n)
         == [Ran(turn), post] + if goesOn then Serve(handler, reader.rest, turn.state, oracle, n + 1) else []
    ensures writer.out == old(writer.out) + Transcript(prints, [post])
  {
    post, goesOn := ReadPost(reader, oracle(n));
    OnePrinted(prints, post);
    writer.WriteRaw(prints(post));
  }

  /** A command's turn: its reply, and an article when the reply asks for one. */
  method FinishTurn(handler: Handler, prints: Printer, turn: Turn, reader: Reader, writer: Writer,
                    oracle: Oracle, n: nat)
    returns (events: seq<Event>, goesOn: bool)
    modifies reader, writer
    ensures goesOn ==> |reader.rest| <= |old(reader.rest)|
    ensures AfterTurn(handler, turn, old(reader.rest), oracle, n)
         == events + if goesOn then Serve(handler, reader.rest, turn.state, oracle, n + 1) else []
    ensures writer.out == old(writer.out) + Transcript(prints, events)
  {
    events := [Ran(turn)];
    OnePrinted(prints, Ran(turn));
    writer.WriteRaw(prints(Ran(turn)));
    if Ends(turn.reply) {
      return events, false;
    }
    if turn.reply.SendArticle340? {
      var post;
      post, goesOn := FinishPost(handler, prints, turn, reader, writer, oracle, n);
      TwoPrinted(prints, old(writer.out), Ran(turn), post);
      return [Ran(turn), post], goesOn;
    }
    goesOn := true;
  }

  /** The command loop, for any handler and lines. */
  method ServeCommands(handler: Handler, prints: Printer, reader: Reader, writer: Writer, oracle: Oracle)
    returns (events: seq<Event>)
    modifies reader, writer
    ensures events == Serve(handler, old(reader.rest), FIRST_STATE, oracle, 0)
    ensures writer.out == old(writer.out) + Transcript(prints, events)
  {
    events := [];
    var st := FIRST_STATE;
    var n := 0;
    while true
      invariant Serve(handler, old(reader.rest), FIRST_STATE, oracle, 0)
             == events + Serve(handler, reader.rest, st, oracle, n)
      invariant writer.out == old(writer.out) + Transcript(prints, events)
      decreases |reader.rest|
    {
      ghost var log, so := events + Serve(handler, reader.rest, st, oracle, n), events;
      var read := reader.ReadLine();
      if read.Eof? {
        return;
      }
      if read.TooLong? {
        OnePrinted(prints, LineTooLong);
        WrittenMore(prints, old(writer.out), events, [LineTooLong]);
        writer.WriteRaw(prints(LineTooLong));
        events := events + [LineTooLong];
        return;
      }
      var turn := handler(st, read.line, oracle(n));
      var more, goesOn := FinishTurn(handler, prints, turn, reader, writer, oracle, n);
      WrittenMore(prints, old(writer.out), so, more);
      events := events + more;
      st := turn.state;
      n := n + 1;
      Onward(log, so, more, if goesOn then Serve(handler, reader.rest, st, oracle, n) else []);
      if !goesOn {
        return;
      }
    }
  }

  /** One connection: the greeting, and the command loop for one that is welcome. */
  method HandleConnection(config: ServerConfig, reader: Reader, writer: Writer, opening: Opening, oracle: Oracle)
    returns (events: seq<Event>)
    modifies reader, writer
    ensures events
         == if IsWelcome(opening) then Serve(Commands(config), old(reader.rest), FIRST_STATE, oracle, 0) else []
    ensures writer.out == old(writer.out) + Greeting(opening) + CRLF + Transcript(PRINTS, events)
  {
    events := [];
    if opening.limit > 0 && opening.active > opening.limit {
      writer.WriteLine(TOO_MANY_LINE);
      return;
    }
    if opening.unavailable {
      writer.WriteLine(UNAVAILABLE_LINE);
      return;
    }
    if opening.noPosting {
      writer.WriteLine(NO_POSTING_LINE);
    } else {
      writer.WriteLine(READY_LINE);
    }
    if opening.drops {
      return;
    }
    events := ServeCommands(Commands(config), PRINTS, reader, writer, oracle);
  }
}
