/** What a session makes of a stream sent ahead: the commands and articles of a script come out one for one,
    and after an over-long line nothing that follows is read as anything. */
module Framing {
  import opened ByteStrings
  import opened Wire
  import opened Sessions
  import Posting

  /** A script item: a command line, or a POST command line with the block that follows it. */
  datatype Item = Command(raw: Bytes) | Post(raw: Bytes, block: seq<Bytes>)

  function EncodeItem(item: Item): Bytes {
    match item
    case Command(raw) => raw + CRLF
    case Post(raw, block) => raw + CRLF + (Text(block) + TERMINATOR)
  }

  function Encode(items: seq<Item>): Bytes {
    if items == [] then [] else EncodeItem(items[0]) + Encode(items[1..])
  }

  /** The item is well formed on the wire whatever the session answers. */
  predicate WireItem(item: Item) {
    && OneLine(item.raw) && Fits(item.raw)
    && (item.Post? ==> forall i :: 0 <= i < |item.block| ==> Sendable(item.block[i]))
  }

  /** The temporary file takes the whole article, if the item is a post. */
  predicate Written(item: Item, c: Choice) {
    item.Post? ==> Posting.TakesAll(c.fault, |item.block|)
  }

  /** The item fits the reply its command line gets. */
  predicate Answers(item: Item, turn: Turn) {
    WireItem(item) && !Ends(turn.reply) && (item.Post? <==> turn.reply.SendArticle340?)
  }

  /** A block is sent exactly after a command that asks for one, each article can be written down, and no item
      ends the session. */
  predicate Playable(handler: Handler, items: seq<Item>, st: State, oracle: Oracle, n: nat)
    decreases |items|
  {
    items == [] ||
    (var turn := handler(st, items[0].raw + CRLF, oracle(n));
     && Answers(items[0], turn) && Written(items[0], oracle(n))
     && Playable(handler, items[1..], turn.state, oracle, n + 1))
  }

  function ItemEvents(item: Item, turn: Turn, c: Choice): seq<Event> {
    match item
    case Command(_) => [Ran(turn)]
    case Post(_, block) => [Ran(turn), PostedEvent(Map(DecodeLine, block), c)]
  }

  /** The script's own account of the session: each command with its reply, each article with its text and
      what became of it. It knows nothing of lines, terminators or the buffer. */
  function Expected(handler: Handler, items: seq<Item>, st: State, oracle: Oracle, n: nat): seq<Event>
    decreases |items|
  {
    if items == [] then []
    else
      var turn := handler(st, items[0].raw + CRLF, oracle(n));
      ItemEvents(items[0], turn, oracle(n)) + Expected(handler, items[1..], turn.state, oracle, n + 1)
  }

  function StateAfter(handler: Handler, items: seq<Item>, st: State, oracle: Oracle, n: nat): State
    decreases |items|
  {
    if items == [] then st
    else StateAfter(handler, items[1..], handler(st, items[0].raw + CRLF, oracle(n)).state, oracle, n + 1)
  }

  /** How far a session is: its unread input, its state, and the commands run so far. */
  datatype At = At(input: Bytes, state: State, n: nat)

  function ServeAt(handler: Handler, oracle: Oracle, at: At): seq<Event> {
    Serve(handler, at.input, at.state, oracle, at.n)
  }

  /** Serving from one place does these events and goes on from the other. */
  ghost predicate Leads(handler: Handler, oracle: Oracle, from: At, events: seq<Event>, to: At) {
    ServeAt(handler, oracle, from) == events + ServeAt(handler, oracle, to)
  }

  lemma LeadsOn(handler: Handler, oracle: Oracle, from: At, events: seq<Event>, via: At, more: seq<Event>, to: At)
    requires Leads(handler, oracle, from, events, via) && Leads(handler, oracle, via, more, to)
    ensures Leads(handler, oracle, from, events + more, to)
  {
    Onward(ServeAt(handler, oracle, from), events, more, ServeAt(handler, oracle, to));
  }

  lemma ServeLine(handler: Handler, raw: Bytes, tail: Bytes, st: State, oracle: Oracle, n: nat)
    requires OneLine(raw) && Fits(raw)
    ensures Serve(handler, raw + CRLF + tail, st, oracle, n)
         == AfterTurn(handler, handler(st, raw + CRLF, oracle(n)), tail, oracle, n)
  {
    NextLineOfText(raw, tail);
  }

  /** Serving from here does these events and no more. */
  ghost predicate Finishes(handler: Handler, oracle: Oracle, from: At, events: seq<Event>) {
    ServeAt(handler, oracle, from) == events
  }

  lemma LeadsToEnd(handler: Handler, oracle: Oracle, from: At, events: seq<Event>, via: At, more: seq<Event>)
    requires Leads(handler, oracle, from, events, via) && Finishes(handler, oracle, via, more)
    ensures Finishes(handler, oracle, from, events + more)
  {}

  /** What is left unread when the file takes n lines, for any input and n. */
  type Stopping = (Bytes, nat) -> Option<Bytes>

  const STOPS: Stopping := (input: Bytes, n: nat) => Posting.StopsAt(input, n)

  /** A line that can be sent in a block costs one line. */
  ghost predicate TakesLines(stops: Stopping) {
    forall line: Bytes, tail: Bytes, n: nat :: Sendable(line) ==>
      stops(line + CRLF + tail, n) == if n == 0 then Some(tail) else stops(tail, n - 1)
  }

  lemma StopsTakesLines()
    ensures TakesLines(STOPS)
  {
    forall line: Bytes, tail: Bytes, n: nat | Sendable(line)
      ensures Posting.StopsAt(line + CRLF + tail, n) == if n == 0 then Some(tail) else Posting.StopsAt(tail, n - 1)
    {
      NextLineOfText(line, tail);
      TrimRightEolAppend(line, CRLF);
    }
  }

  lemma NoStopAtTerminator(tail: Bytes, n: nat)
    ensures Posting.StopsAt(TERMINATOR + tail, n).None?
  {
    assert TERMINATOR + tail == [DOT] + CRLF + tail;
    NextLineOfText([DOT], tail);
    TrimRightEolAppend([DOT], CRLF);
  }

  /** Some lines of an article, and what follows them. */
  function Sent(block: seq<Bytes>, tail: Bytes): Bytes {
    Text(block) + tail
  }

  lemma SentFirst(block: seq<Bytes>, tail: Bytes)
    requires block != []
    ensures Sent(block, tail) == block[0] + CRLF + Sent(block[1..], tail)
  {}

  lemma SentRest(block: seq<Bytes>, tail: Bytes, n: nat)
    requires 0 < n < |block|
    ensures Sent(block[1..][n - 1 + 1..], tail) == Sent(block[n + 1..], tail)
  {
    assert block[1..][n - 1 + 1..] == block[n + 1..];
  }

  lemma SentNothing(tail: Bytes)
    ensures Sent([], tail) == tail
  {}

  lemma SentBlock(block: seq<Bytes>, tail: Bytes)
    ensures Text(block) + TERMINATOR + tail == Sent(block, TERMINATOR + tail)
  {}

  /** A file that takes fewer lines than a sent block has stops the reading behind the line after those. */
  lemma {:induction false} StopsInSentBlock(stops: Stopping, block: seq<Bytes>, tail: Bytes, n: nat, left: Bytes)
    requires TakesLines(stops) && n < |block| && forall i :: 0 <= i < |block| ==> Sendable(block[i])
    requires left == Sent(block[n + 1..], tail)
    ensures stops(Sent(block, tail), n) == Some(left)
  {
    SentFirst(block, tail);
    assert stops(block[0] + CRLF + Sent(block[1..], tail), n) == stops(Sent(block, tail), n);
    if n > 0 {
      SentRest(block, tail, n);
      StopsInSentBlock(stops, block[1..], tail, n - 1, left);
    }
  }

  /** One that takes them all and n lines more stops it where it stops in what follows. */
  lemma {:induction false} StopsAfterSentBlock(stops: Stopping, block: seq<Bytes>, tail: Bytes, all: nat, n: nat)
    requires TakesLines(stops) && all == |block| + n && forall i :: 0 <= i < |block| ==> Sendable(block[i])
    ensures stops(Sent(block, tail), all) == stops(tail, n)
  {
    if block == [] {
      SentNothing(tail);
    } else {
      SentFirst(block, tail);
      assert stops(block[0] + CRLF + Sent(block[1..], tail), all) == stops(Sent(block, tail), all);
      StopsAfterSentBlock(stops, block[1..], tail, all - 1, n);
    }
  }

  lemma BlockAfterTurn(handler: Handler, turn: Turn, block: seq<Bytes>, tail: Bytes, oracle: Oracle, n: nat)
    requires turn.reply.SendArticle340? && Posting.TakesAll(oracle(n).fault, |block|)
    requires forall i :: 0 <= i < |block| ==> Sendable(block[i])
    ensures AfterTurn(handler, turn, Text(block) + TERMINATOR + tail, oracle, n)
         == [Ran(turn), PostedEvent(Map(DecodeLine, block), oracle(n))]
          + Serve(handler, tail, turn.state, oracle, n + 1)
  {
    ReadSentBlock(block, tail);
    if oracle(n).fault.WriteFails? {
      SentBlock(block, tail);
      var spare := oracle(n).fault.after - |block|;
      NoStopAtTerminator(tail, spare);
      StopsTakesLines();
      StopsAfterSentBlock(STOPS, block, TERMINATOR + tail, oracle(n).fault.after, spare);
    }
  }

  lemma ServeItem(handler: Handler, item: Item, tail: Bytes, st: State, oracle: Oracle, n: nat)
    requires Answers(item, handler(st, item.raw + CRLF, oracle(n))) && Written(item, oracle(n))
    ensures var turn := handler(st, item.raw + CRLF, oracle(n));
            Leads(handler, oracle, At(EncodeItem(item) + tail, st, n), ItemEvents(item, turn, oracle(n)),
                  At(tail, turn.state, n + 1))
  {
    match item
    case Command(raw) =>
      ServeLine(handler, raw, tail, st, oracle, n);
    case Post(raw, block) =>
      assert EncodeItem(item) + tail == raw + CRLF + (Text(block) + TERMINATOR + tail);
      ServeLine(handler, raw, Text(block) + TERMINATOR + tail, st, oracle, n);
      BlockAfterTurn(handler, handler(st, raw + CRLF, oracle(n)), block, tail, oracle, n);
  }

  function AtEnd(handler: Handler, oracle: Oracle, items: seq<Item>, rest: Bytes, st: State, n: nat): At {
    At(rest, StateAfter(handler, items, st, oracle, n), n + |items|)
  }

  lemma AtEndStays(handler: Handler, oracle: Oracle, items: seq<Item>, rest: Bytes, st: State, n: nat)
    requires items != []
    ensures var turn := handler(st, items[0].raw + CRLF, oracle(n));
            AtEnd(handler, oracle, items, rest, st, n) == AtEnd(handler, oracle, items[1..], rest, turn.state, n + 1)
  {}

  lemma EncodeFirst(items: seq<Item>, rest: Bytes)
    requires items != []
    ensures Encode(items) + rest == EncodeItem(items[0]) + (Encode(items[1..]) + rest)
  {}

  lemma ServeFirst(handler: Handler, items: seq<Item>, rest: Bytes, st: State, oracle: Oracle, n: nat)
    requires items != [] && Answers(items[0], handler(st, items[0].raw + CRLF, oracle(n)))
    requires Written(items[0], oracle(n))
    ensures var turn := handler(st, items[0].raw + CRLF, oracle(n));
            Leads(handler, oracle, At(Encode(items) + rest, st, n), ItemEvents(items[0], turn, oracle(n)),
                  At(Encode(items[1..]) + rest, turn.state, n + 1))
  {
    EncodeFirst(items, rest);
    ServeItem(handler, items[0], Encode(items[1..]) + rest, st, oracle, n);
  }

  /** The session recovers exactly the script, whether each post is accepted, a duplicate or nameless, and
      serves whatever follows it from there on. */
  lemma {:induction false} ScriptIsRecovered(handler: Handler, items: seq<Item>, rest: Bytes, st: State,
                                             oracle: Oracle, n: nat)
    requires Playable(handler, items, st, oracle, n)
    ensures Leads(handler, oracle, At(Encode(items) + rest, st, n), Expected(handler, items, st, oracle, n),
                  AtEnd(handler, oracle, items, rest, st, n))
    decreases |items|
  {
    if items == [] {
      assert Encode(items) + rest == rest;
    } else {
      var turn := handler(st, items[0].raw + CRLF, oracle(n));
      ServeFirst(handler, items, rest, st, oracle, n);
      ScriptIsRecovered(handler, items[1..], rest, turn.state, oracle, n + 1);
      AtEndStays(handler, oracle, items, rest, st, n);
      LeadsOn(handler, oracle, At(Encode(items) + rest, st, n), ItemEvents(items[0], turn, oracle(n)),
              At(Encode(items[1..]) + rest, turn.state, n + 1),
              Expected(handler, items[1..], turn.state, oracle, n + 1),
              AtEnd(handler, oracle, items, rest, st, n));
    }
  }

  lemma LineEndIsTrimmed(raw: Bytes)
    ensures SplitCommand(raw + CRLF) == SplitCommand(raw)
  {
    TrimRightEolAppend(raw, CRLF);
  }

  lemma {:induction false} FirstSpace(word: Bytes, rest: Bytes)
    requires ' ' !in word
    ensures IndexByte(word, ' ') == |word|
    ensures IndexByte(word + [' '] + rest, ' ') == |word|
  {
    if word == [] {
      assert [] + [' '] + rest == [' '] + rest;
    } else {
      FirstSpace(word[1..], rest);
      assert (word + [' '] + rest)[1..] == word[1..] + [' '] + rest;
    }
  }

  lemma CutAtSpace(word: Bytes, argument: Bytes)
    requires ' ' !in word
    ensures CutCommand(word) == (Upper(word), [])
    ensures CutCommand(word + [' '] + argument) == (Upper(word), TrimSpace(argument))
  {
    var line := word + [' '] + argument;
    FirstSpace(word, argument);
    assert line[..|word|] == word && line[|word| + 1..] == argument;
  }

  lemma NothingToTrim(line: Bytes)
    requires line != [] && !IsEol(line[|line| - 1])
    ensures TrimRightEol(line) == line
  {}

  lemma LastIsKept(before: Bytes, last: Bytes)
    requires last != [] && TrimRightEol(last) == last
    ensures TrimRightEol(before + last) == before + last
  {
    assert (before + last)[|before + last| - 1] == last[|last| - 1];
    NothingToTrim(before + last);
  }

  /** A command line is cut at its first space, in either spelling of the command, the argument trimmed. */
  lemma CommandLineSplits(word: Bytes, argument: Bytes)
    requires ' ' !in word && Clean(word) && Clean(argument) && argument != []
    ensures SplitCommand(word + CRLF) == (Upper(word), [])
    ensures SplitCommand(word + [' '] + argument + CRLF) == (Upper(word), TrimSpace(argument))
  {
    LineEndIsTrimmed(word);
    LineEndIsTrimmed(word + [' '] + argument);
    LastIsKept(word + [' '], argument);
    CutAtSpace(word, argument);
  }

  lemma OnlyPostAsks(config: ServerConfig, st: State, command: Bytes, argument: Bytes, c: Choice)
    ensures Dispatch(config, st, command, argument, c).0.SendArticle340? <==> command == "POST" && st.authenticated
  {}

  /** On the server itself a script sends a block exactly after a POST of an authenticated session. */
  lemma BlocksFollowPosts(config: ServerConfig, item: Item, st: State, c: Choice)
    requires WireItem(item) && !Ends(Commands(config)(st, item.raw + CRLF, c).reply)
    ensures Answers(item, Commands(config)(st, item.raw + CRLF, c)) <==>
            (item.Post? <==> SplitCommand(item.raw).0 == "POST" && st.authenticated)
  {
    LineEndIsTrimmed(item.raw);
    var (command, argument) := SplitCommand(item.raw);
    OnlyPostAsks(config, st, command, argument, c);
  }

  lemma FloodGoesOn(flood: Bytes, after: Bytes)
    requires Floods(flood)
    ensures Floods(flood + after)
  {}

  /** When what follows a script ends the session, so does the whole. */
  lemma ScriptThenEnd(handler: Handler, items: seq<Item>, rest: Bytes, st: State, oracle: Oracle, n: nat,
                      last: seq<Event>)
    requires Playable(handler, items, st, oracle, n)
    requires Finishes(handler, oracle, AtEnd(handler, oracle, items, rest, st, n), last)
    ensures Finishes(handler, oracle, At(Encode(items) + rest, st, n), Expected(handler, items, st, oracle, n) + last)
  {
    ScriptIsRecovered(handler, items, rest, st, oracle, n);
    LeadsToEnd(handler, oracle, At(Encode(items) + rest, st, n), Expected(handler, items, st, oracle, n),
               AtEnd(handler, oracle, items, rest, st, n), last);
  }

  lemma ServeFlood(handler: Handler, flood: Bytes, after: Bytes, st: State, oracle: Oracle, n: nat)
    requires Floods(flood)
    ensures Finishes(handler, oracle, At(flood + after, st, n), [LineTooLong])
  {
    FloodGoesOn(flood, after);
    FloodIsTooLong(flood + after);
  }

  /** An over-long line in place of a command ends the session there, whatever follows it. */
  lemma FloodEndsTheScript(handler: Handler, items: seq<Item>, flood: Bytes, after: Bytes, st: State,
                           oracle: Oracle, n: nat)
    requires Playable(handler, items, st, oracle, n) && Floods(flood)
    ensures Finishes(handler, oracle, At(Encode(items) + (flood + after), st, n),
                     Expected(handler, items, st, oracle, n) + [LineTooLong])
  {
    var end := AtEnd(handler, oracle, items, flood + after, st, n);
    ServeFlood(handler, flood, after, end.state, oracle, end.n);
    ScriptThenEnd(handler, items, flood + after, st, oracle, n, [LineTooLong]);
  }

  lemma {:induction false} FloodInBlock(block: seq<Bytes>, flood: Bytes)
    requires forall i :: 0 <= i < |block| ==> Sendable(block[i])
    requires Floods(flood)
    ensures ReadBlock(Text(block) + flood).Overlong?
  {
    if block == [] {
      FloodIsTooLong(flood);
      assert Text(block) + flood == flood;
    } else {
      assert Text(block) + flood == block[0] + CRLF + (Text(block[1..]) + flood);
      ReadBlockLine(block[0], Text(block[1..]) + flood);
      FloodInBlock(block[1..], flood);
    }
  }

  lemma FloodBeforeStop(block: seq<Bytes>, flood: Bytes, n: nat)
    requires forall i :: 0 <= i < |block| ==> Sendable(block[i])
    requires Floods(flood) && |block| <= n
    ensures Posting.StopsAt(Sent(block, flood), n).None?
  {
    FloodIsTooLong(flood);
    StopsTakesLines();
    StopsAfterSentBlock(STOPS, block, flood, n, n - |block|);
  }

  /** A POST command line, its article's first lines, an over-long line, and whatever follows it. */
  function FloodedPost(post: Item, flood: Bytes, after: Bytes): Bytes
    requires post.Post?
  {
    post.raw + CRLF + (Text(post.block) + (flood + after))
  }

  /** What is logged for a post cut short by an over-long line. */
  function FloodedTurn(handler: Handler, post: Item, oracle: Oracle, st: State, n: nat): seq<Event> {
    [Ran(handler(st, post.raw + CRLF, oracle(n))), PostTooLong]
  }

  lemma ServeFloodedPost(handler: Handler, post: Item, flood: Bytes, after: Bytes, st: State, oracle: Oracle, n: nat)
    requires Floods(flood) && post.Post? && WireItem(post) && Written(post, oracle(n))
    requires handler(st, post.raw + CRLF, oracle(n)).reply.SendArticle340?
    ensures Finishes(handler, oracle, At(FloodedPost(post, flood, after), st, n),
                     FloodedTurn(handler, post, oracle, st, n))
  {
    ServeLine(handler, post.raw, Text(post.block) + (flood + after), st, oracle, n);
    FloodGoesOn(flood, after);
    FloodInBlock(post.block, flood + after);
    if oracle(n).fault.WriteFails? {
      FloodBeforeStop(post.block, flood + after, oracle(n).fault.after);
    }
  }

  /** An over-long line inside an article ends the session too: nothing is stored, and neither the rest of
      the article nor any command after it is read. */
  lemma FloodEndsThePost(handler: Handler, items: seq<Item>, post: Item, flood: Bytes, after: Bytes,
                         st: State, oracle: Oracle, n: nat)
    requires Playable(handler, items, st, oracle, n) && Floods(flood)
    requires post.Post? && WireItem(post) && Written(post, oracle(n + |items|))
    requires handler(StateAfter(handler, items, st, oracle, n), post.raw + CRLF,
                     oracle(n + |items|)).reply.SendArticle340?
    ensures Finishes(handler, oracle, At(Encode(items) + FloodedPost(post, flood, after), st, n),
                     Expected(handler, items, st, oracle, n)
                     + FloodedTurn(handler, post, oracle, StateAfter(handler, items, st, oracle, n), n + |items|))
  {
    var last := StateAfter(handler, items, st, oracle, n);
    ServeFloodedPost(handler, post, flood, after, last, oracle, n + |items|);
    ScriptThenEnd(handler, items, FloodedPost(post, flood, after), st, oracle, n,
                  FloodedTurn(handler, post, oracle, last, n + |items|));
  }

  // ----- articles that cannot be written down

  /** What a broken post leaves unread. */
  function Leaked(block: seq<Bytes>, fault: Posting.LocalFault): seq<Bytes>
    requires !Posting.TakesAll(fault, |block|)
  {
    if fault.NoTempFile? then block else block[fault.after + 1..]
  }

  lemma StoppedInSentBlock(block: seq<Bytes>, tail: Bytes, fault: Posting.LocalFault)
    requires forall i :: 0 <= i < |block| ==> Sendable(block[i])
    requires !Posting.TakesAll(fault, |block|)
    ensures Posting.StoppedBy(Sent(block, tail), fault) == Some(Sent(Leaked(block, fault), tail))
  {
    if fault.WriteFails? {
      StopsTakesLines();
      StopsInSentBlock(STOPS, block, tail, fault.after, Sent(block[fault.after + 1..], tail));
    }
  }

  lemma BrokenAfterTurn(handler: Handler, turn: Turn, block: seq<Bytes>, tail: Bytes, oracle: Oracle, n: nat)
    requires turn.reply.SendArticle340? && !Posting.TakesAll(oracle(n).fault, |block|)
    requires forall i :: 0 <= i < |block| ==> Sendable(block[i])
    ensures AfterTurn(handler, turn, Sent(block, tail), oracle, n)
         == [Ran(turn), PostBroken]
          + Serve(handler, Sent(Leaked(block, oracle(n).fault), tail), turn.state, oracle, n + 1)
  {
    StoppedInSentBlock(block, tail, oracle(n).fault);
  }

  lemma EncodedPost(post: Item, tail: Bytes)
    requires post.Post?
    ensures EncodeItem(post) + tail == post.raw + CRLF + Sent(post.block, TERMINATOR + tail)
  {}

  /** A post is recovered exactly when its article can be written down. Otherwise it is logged as broken, and the
      lines of it that are left, with the terminator, are served as commands before what follows. */
  lemma BrokenPostLeaks(handler: Handler, post: Item, tail: Bytes, st: State, oracle: Oracle, n: nat)
    requires post.Post? && Answers(post, handler(st, post.raw + CRLF, oracle(n)))
    ensures var turn := handler(st, post.raw + CRLF, oracle(n));
            var from := At(EncodeItem(post) + tail, st, n);
            if Written(post, oracle(n))
            then Leads(handler, oracle, from, ItemEvents(post, turn, oracle(n)), At(tail, turn.state, n + 1))
            else Leads(handler, oracle, from, [Ran(turn), PostBroken],
                       At(Sent(Leaked(post.block, oracle(n).fault), TERMINATOR + tail), turn.state, n + 1))
  {
    if Written(post, oracle(n)) {
      ServeItem(handler, post, tail, st, oracle, n);
    } else {
      EncodedPost(post, tail);
      ServeLine(handler, post.raw, Sent(post.block, TERMINATOR + tail), st, oracle, n);
      BrokenAfterTurn(handler, handler(st, post.raw + CRLF, oracle(n)), post.block, TERMINATOR + tail, oracle, n);
    }
  }
}
